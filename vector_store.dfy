/**
 * The Qdrant wrapper: collection set-up, point lookup, and the paged
 * listing of a user's points. The Qdrant client is abstract: listing
 * names, creating, retrieving and scrolling are oracles, and `None` from
 * one of them means the client raised.
 */
module VectorStore {
  import opened Wrappers
  import opened Payloads
  import Sorting

  const COLLECTION: string := "visiolingua_v2"
  const CLIP_DIM: nat := 512
  const TEXT_DIM: nat := 384

  type Vector = seq<real>

  /** `[0.0] * n`. */
  function Zeros(n: nat): (v: Vector)
    ensures |v| == n && forall i :: 0 <= i < n ==> v[i] == 0.0
  {
    seq(n, _ => 0.0)
  }

  /** The named vectors of a point: the CLIP space and the multilingual text space. */
  datatype Vectors = Vectors(clip: Vector, text: Vector)

  /** The arguments of one `upsert_point(point_id, vectors, payload)` call. */
  datatype Point = Point(id: string, vectors: Vectors, payload: Payload)

  // ---------------------------------------------------------------- ensure_collection

  datatype Distance = Cosine
  datatype VectorParams = VectorParams(size: nat, distance: Distance)

  /** The two named vector spaces of the collection. */
  const Schema: map<string, VectorParams> :=
    map["clip" := VectorParams(CLIP_DIM, Cosine), "text" := VectorParams(TEXT_DIM, Cosine)]

  /** What `ensure_collection` did: created the collection, found it, or logged a warning. */
  datatype EnsureOutcome = Created(config: map<string, VectorParams>) | Ready | InitWarning

  /**
   * `ensure_collection`. `listed` is the names `get_collections` returned
   * (`None`: it raised); `createRaises` says whether `create_collection` raises.
   */
  function EnsureCollection(listed: Option<seq<string>>, createRaises: bool): (r: EnsureOutcome)
    ensures r.Created? <==> listed.Some? && COLLECTION !in listed.value && !createRaises
    ensures r.Created? ==> r.config == Schema
    ensures r.Ready? <==> listed.Some? && COLLECTION in listed.value
  {
    match listed
    case None => InitWarning
    case Some(names) =>
      if COLLECTION !in names then (if createRaises then InitWarning else Created(Schema))
      else Ready
  }

  /** The collection names after `ensure_collection`. */
  function NamesAfter(listed: seq<string>, outcome: EnsureOutcome): seq<string> {
    if outcome.Created? then listed + [COLLECTION] else listed
  }

  /** Create-if-absent is idempotent: a second call finds the collection ready and creates nothing. */
  lemma EnsureCollectionIdempotent(listed: seq<string>, first: bool, second: bool)
    requires !EnsureCollection(Some(listed), first).InitWarning?
    ensures EnsureCollection(Some(NamesAfter(listed, EnsureCollection(Some(listed), first))), second) == Ready
  {
    var after := NamesAfter(listed, EnsureCollection(Some(listed), first));
    assert COLLECTION in after;
  }

  // ---------------------------------------------------------------- retrieve_point

  /** A point as the client returns it: the id and the payload, which may be missing. */
  datatype StoredPoint = StoredPoint(id: string, payload: Option<Payload>)

  /** `{"id": str(p.id), "payload": p.payload or {}}`. */
  datatype Item = Item(id: string, payload: Payload)

  function ToItem(p: StoredPoint): (r: Item)
    ensures r.id == p.id
    ensures p.payload.None? ==> r.payload == EmptyPayload
    ensures p.payload.Some? ==> r.payload == p.payload.value
  {
    Item(p.id, p.payload.GetOr(EmptyPayload))
  }

  /** `retrieve_point`: `retrieve` is the client's `retrieve` on one id (`None`: it raised). */
  function RetrievePoint(pointId: string, retrieve: string -> Option<seq<StoredPoint>>): (r: Option<Item>)
    ensures r.None? <==> retrieve(pointId).None? || retrieve(pointId).value == []
    ensures r.Some? ==> r.value == ToItem(retrieve(pointId).value[0])
  {
    match retrieve(pointId)
    case None => None
    case Some(pts) => if pts == [] then None else Some(ToItem(pts[0]))
  }

  // ---------------------------------------------------------------- list_user_points

  /** One scroll response: the points and the offset of the next page, if any. */
  datatype Page = Page(points: seq<StoredPoint>, next: Option<nat>)

  /**
   * The client's `scroll` restricted to one user's points: user, offset,
   * page size. `None` means the call raised.
   */
  type Scroll = (string, Option<nat>, nat) -> Option<Page>

  function Pos(offset: Option<nat>): nat {
    if offset.Some? then offset.value else 0
  }

  /**
   * Qdrant pages a finite collection in ascending id order: every next
   * offset lies beyond the one asked for, and below `bound`.
   */
  ghost predicate Progressing(scroll: Scroll, bound: nat) {
    forall u, o, n :: scroll(u, o, n).Some? && scroll(u, o, n).value.next.Some? ==>
      Pos(o) < scroll(u, o, n).value.next.value <= bound
  }

  /** `min(64, max(1, limit - len(out)))`: the size of the next scroll request. */
  function PageRequestSize(limit: int, have: nat): (r: nat)
    ensures 1 <= r <= 64
    ensures 1 <= limit - have <= 64 ==> r == limit - have
    ensures limit - have > 64 ==> r == 64
    ensures limit - have < 1 ==> r == 1
  {
    var want := if limit - have < 1 then 1 else limit - have;
    if want < 64 then want else 64
  }

  /** `not type_filter or payload.get("type") == type_filter`. */
  predicate Admits(typeFilter: Option<string>, p: Payload) {
    !Present(typeFilter) || p.kind == typeFilter
  }

  /**
   * The inner `for p in points` loop: admitted points are appended, and the
   * loop stops right after the append that reaches `limit`.
   */
  function TakePage(out: seq<Item>, pts: seq<StoredPoint>, typeFilter: Option<string>, limit: int): seq<Item>
    decreases |pts|
  {
    if pts == [] then out
    else
      var item := ToItem(pts[0]);
      if !Admits(typeFilter, item.payload) then TakePage(out, pts[1..], typeFilter, limit)
      else if |out + [item]| >= limit then out + [item]
      else TakePage(out + [item], pts[1..], typeFilter, limit)
  }

  /**
   * The `while True` loop from a given offset and accumulated list: `None`
   * when a scroll raises, otherwise the list at the first stop (limit
   * reached or no next page).
   */
  ghost function Collect(user: string, typeFilter: Option<string>, limit: int, scroll: Scroll, bound: nat,
                         offset: Option<nat>, out: seq<Item>): Option<seq<Item>>
    requires Progressing(scroll, bound)
    requires Pos(offset) <= bound
    decreases bound - Pos(offset)
  {
    match scroll(user, offset, PageRequestSize(limit, |out|))
    case None => None
    case Some(page) =>
      var out' := TakePage(out, page.points, typeFilter, limit);
      if |out'| >= limit || page.next.None? then Some(out')
      else Collect(user, typeFilter, limit, scroll, bound, page.next, out')
  }

  /** The timestamp sort key: `payload.get("timestamp", "")`. */
  function Timestamp(item: Item): string {
    item.payload.timestamp.GetOr("")
  }

  /** Python's `a <= b` on strings: lexicographic by code point. */
  predicate StrLe(a: string, b: string) {
    a == [] || (b != [] && (a[0] < b[0] || (a[0] == b[0] && StrLe(a[1..], b[1..]))))
  }

  /** Item `x` sorts before item `y` in `sort(key=ts_key, reverse=True)`. */
  predicate NewerOrSame(x: Item, y: Item) {
    StrLe(Timestamp(y), Timestamp(x))
  }

  /** `out.sort(key=ts_key, reverse=True)`: stable, newest first. */
  function SortNewestFirst(items: seq<Item>): seq<Item> {
    Sorting.SortDesc(items, NewerOrSame)
  }

  /** What `list_user_points` returns: `[]` on any client error, else the collected items newest first. */
  ghost function ListSpec(user: string, typeFilter: Option<string>, limit: int, scroll: Scroll, bound: nat): seq<Item>
    requires Progressing(scroll, bound)
  {
    match Collect(user, typeFilter, limit, scroll, bound, None, [])
    case None => []
    case Some(out) => SortNewestFirst(out)
  }

  /** `list_user_points`. */
  method ListUserPoints(user: string, typeFilter: Option<string>, limit: int, scroll: Scroll, ghost bound: nat)
    returns (out: seq<Item>)
    requires Progressing(scroll, bound)
    ensures out == ListSpec(user, typeFilter, limit, scroll, bound)
  {
    var offset: Option<nat> := None;
    out := [];
    while true
      invariant Pos(offset) <= bound
      invariant Collect(user, typeFilter, limit, scroll, bound, offset, out)
             == Collect(user, typeFilter, limit, scroll, bound, None, [])
      decreases bound - Pos(offset)
    {
      var res := scroll(user, offset, PageRequestSize(limit, |out|));
      if res.None? {
        return [];
      }
      var page := res.value;
      ghost var start := out;
      var i := 0;
      while i < |page.points|
        invariant 0 <= i <= |page.points|
        invariant TakePage(out, page.points[i..], typeFilter, limit) == TakePage(start, page.points, typeFilter, limit)
      {
        var payload := page.points[i].payload.GetOr(EmptyPayload);
        if !Admits(typeFilter, payload) {
          i := i + 1;
          continue;
        }
        out := out + [Item(page.points[i].id, payload)];
        if |out| >= limit {
          assert out == TakePage(start, page.points, typeFilter, limit);
          break;
        }
        i := i + 1;
      }
      assert out == TakePage(start, page.points, typeFilter, limit);
      if |out| >= limit || page.next.None? {
        break;
      }
      offset := page.next;
    }
    out := SortNewestFirst(out);
  }

  // ---------------------------------------------------------------- properties of the listing

  lemma {:induction false} StrLeTotal(a: string, b: string)
    ensures StrLe(a, b) || StrLe(b, a)
  {
    if a != [] && b != [] && a[0] == b[0] {
      StrLeTotal(a[1..], b[1..]);
    }
  }

  lemma {:induction false} StrLeTransitive(a: string, b: string, c: string)
    requires StrLe(a, b) && StrLe(b, c)
    ensures StrLe(a, c)
  {
    if a != [] && b != [] && c != [] && a[0] == b[0] && b[0] == c[0] {
      StrLeTransitive(a[1..], b[1..], c[1..]);
    }
  }

  /** Timestamps are totally preordered, so the sort has a well-defined descending order. */
  lemma NewerOrSameIsTotalPreorder()
    ensures Sorting.TotalPreorder(NewerOrSame)
  {
    forall a: Item, b: Item ensures NewerOrSame(a, b) || NewerOrSame(b, a) {
      StrLeTotal(Timestamp(a), Timestamp(b));
    }
    forall a: Item, b: Item, c: Item | NewerOrSame(a, b) && NewerOrSame(b, c) ensures NewerOrSame(a, c) {
      StrLeTransitive(Timestamp(c), Timestamp(b), Timestamp(a));
    }
  }

  /** At most `limit` items (at most one when `limit <= 0`, since the check follows the append). */
  function Cap(limit: int): nat {
    if limit >= 1 then limit else 1
  }

  lemma {:induction false} TakePageBound(out: seq<Item>, pts: seq<StoredPoint>, typeFilter: Option<string>, limit: int)
    requires |out| < Cap(limit)
    requires forall k :: 0 <= k < |out| ==> Admits(typeFilter, out[k].payload)
    ensures |TakePage(out, pts, typeFilter, limit)| <= Cap(limit)
    ensures |TakePage(out, pts, typeFilter, limit)| < limit ==> |TakePage(out, pts, typeFilter, limit)| < Cap(limit)
    ensures forall k :: 0 <= k < |TakePage(out, pts, typeFilter, limit)| ==>
      Admits(typeFilter, TakePage(out, pts, typeFilter, limit)[k].payload)
    decreases |pts|
  {
    if pts != [] {
      var item := ToItem(pts[0]);
      if !Admits(typeFilter, item.payload) {
        TakePageBound(out, pts[1..], typeFilter, limit);
      } else if |out + [item]| < limit {
        TakePageBound(out + [item], pts[1..], typeFilter, limit);
      }
    }
  }

  lemma {:induction false} CollectBound(user: string, typeFilter: Option<string>, limit: int, scroll: Scroll, bound: nat,
                                        offset: Option<nat>, out: seq<Item>)
    requires Progressing(scroll, bound)
    requires Pos(offset) <= bound
    requires |out| < Cap(limit)
    requires forall k :: 0 <= k < |out| ==> Admits(typeFilter, out[k].payload)
    ensures var r := Collect(user, typeFilter, limit, scroll, bound, offset, out);
      r.Some? ==> |r.value| <= Cap(limit) && forall k :: 0 <= k < |r.value| ==> Admits(typeFilter, r.value[k].payload)
    decreases bound - Pos(offset)
  {
    var res := scroll(user, offset, PageRequestSize(limit, |out|));
    if res.Some? {
      var page := res.value;
      TakePageBound(out, page.points, typeFilter, limit);
      var out' := TakePage(out, page.points, typeFilter, limit);
      if !(|out'| >= limit || page.next.None?) {
        CollectBound(user, typeFilter, limit, scroll, bound, page.next, out');
      }
    }
  }

  /**
   * `list_user_points` returns at most `limit` items when `limit >= 1` and
   * at most one otherwise; with a type filter every item has that type;
   * and the items are in non-increasing timestamp order.
   */
  lemma ListSpecProperties(user: string, typeFilter: Option<string>, limit: int, scroll: Scroll, bound: nat)
    requires Progressing(scroll, bound)
    ensures var items := ListSpec(user, typeFilter, limit, scroll, bound);
      && (limit >= 1 ==> |items| <= limit)
      && (limit < 1 ==> |items| <= 1)
      && (Present(typeFilter) ==> forall k :: 0 <= k < |items| ==> items[k].payload.kind == typeFilter)
      && Sorting.SortedDesc(items, NewerOrSame)
  {
    CollectBound(user, typeFilter, limit, scroll, bound, None, []);
    NewerOrSameIsTotalPreorder();
    var r := Collect(user, typeFilter, limit, scroll, bound, None, []);
    if r.Some? {
      var items := SortNewestFirst(r.value);
      Sorting.SortDescSorted(r.value, NewerOrSame);
      forall k | 0 <= k < |items| ensures Admits(typeFilter, items[k].payload) {
        assert items[k] in multiset(r.value);
        var j :| 0 <= j < |r.value| && r.value[j] == items[k];
      }
    }
  }

  /** A client error on the first page makes the listing empty. */
  lemma ListSpecFirstPageError(user: string, typeFilter: Option<string>, limit: int, scroll: Scroll, bound: nat)
    requires Progressing(scroll, bound)
    requires scroll(user, None, PageRequestSize(limit, 0)).None?
    ensures ListSpec(user, typeFilter, limit, scroll, bound) == []
  {
  }
}
