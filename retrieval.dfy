/**
 * The retrieval rule shared by `/query` and `/query-image`: hits are kept
 * only for the requesting user, merged by point id keeping the best score
 * (the first such hit on ties), sorted by descending score, cut at a 0.3
 * threshold, truncated to the top 3, and each kept payload is copied,
 * given its score and, if needed, translated into the request language.
 */
module Retrieval {
  import opened Wrappers
  import opened Payloads
  import Sorting
  import opened Translate

  const THRESHOLD: real := 0.3
  const TOP_K: nat := 3

  /** A search hit as the client returns it. */
  datatype Hit = Hit(id: string, score: Option<real>, payload: Option<Payload>)

  /** A value of the `combined` dict: the payload and the best score of one point id. */
  datatype Entry = Entry(id: string, payload: Payload, score: real)

  /** `hit.score or 0`. */
  function HitScore(h: Hit): real {
    h.score.GetOr(0.0)
  }

  /** `hit.payload or {}`. */
  function HitPayload(h: Hit): Payload {
    h.payload.GetOr(EmptyPayload)
  }

  /** `payload.get("user_id") == user_id`: only the requesting user's points take part. */
  predicate Owned(h: Hit, user: string) {
    HitPayload(h).userId == Some(user)
  }

  function EntryOf(h: Hit): Entry {
    Entry(h.id, HitPayload(h), HitScore(h))
  }

  /** The position of `id` among the entries, or -1. */
  function Find(c: seq<Entry>, id: string): (k: int)
    ensures -1 <= k < |c|
    ensures k >= 0 ==> c[k].id == id
    ensures k < 0 ==> forall j :: 0 <= j < |c| ==> c[j].id != id
  {
    if c == [] then -1
    else if c[|c| - 1].id == id then |c| - 1
    else Find(c[..|c| - 1], id)
  }

  /** One round of the merge loop; a dict keeps the position of a key when its value is replaced. */
  function MergeStep(c: seq<Entry>, h: Hit, user: string): seq<Entry> {
    if !Owned(h, user) then c
    else
      var k := Find(c, h.id);
      if k < 0 then c + [EntryOf(h)]
      else if HitScore(h) > c[k].score then c[k := EntryOf(h)]
      else c
  }

  /** `combined.values()` after the merge loop has seen `hits`, in insertion order. */
  function Merged(hits: seq<Hit>, user: string): seq<Entry>
    decreases |hits|
  {
    if hits == [] then [] else MergeStep(Merged(hits[..|hits| - 1], user), hits[|hits| - 1], user)
  }

  /** The merge loop over the hits (`for hit in hits: ... combined[pid] = ...`). */
  method Combine(hits: seq<Hit>, user: string) returns (combined: seq<Entry>)
    ensures combined == Merged(hits, user)
  {
    combined := [];
    for i := 0 to |hits|
      invariant combined == Merged(hits[..i], user)
    {
      assert hits[..i + 1][..i] == hits[..i];
      var hit := hits[i];
      if Owned(hit, user) {
        var k := Find(combined, hit.id);
        if k < 0 {
          combined := combined + [EntryOf(hit)];
        } else if HitScore(hit) > combined[k].score {
          combined := combined[k := EntryOf(hit)];
        }
      }
    }
    assert hits[..|hits|] == hits;
  }

  /** The point ids present among the entries. */
  function IdSet(c: seq<Entry>): set<string> {
    set e | e in c :: e.id
  }

  /** No earlier hit of the same user and id scores as high as hit `j`. */
  ghost predicate FirstBest(hits: seq<Hit>, user: string, j: nat)
    requires j < |hits|
  {
    forall k :: 0 <= k < j && Owned(hits[k], user) && hits[k].id == hits[j].id ==> HitScore(hits[k]) < HitScore(hits[j])
  }

  /** Every hit of the user with this id scores at most `score`. */
  ghost predicate Dominates(hits: seq<Hit>, user: string, id: string, score: real) {
    forall k :: 0 <= k < |hits| && Owned(hits[k], user) && hits[k].id == id ==> HitScore(hits[k]) <= score
  }

  /**
   * What the merge guarantees about entry `e`: it belongs to the user, its
   * score is the maximum over that id's hits, and it is the first hit
   * reaching that maximum.
   */
  ghost predicate BestEntry(hits: seq<Hit>, user: string, e: Entry) {
    && e.payload.userId == Some(user)
    && Dominates(hits, user, e.id, e.score)
    && (exists j :: 0 <= j < |hits| && Owned(hits[j], user) && EntryOf(hits[j]) == e && FirstBest(hits, user, j))
  }

  ghost predicate UniqueIds(c: seq<Entry>) {
    forall i, j :: 0 <= i < j < |c| ==> c[i].id != c[j].id
  }

  lemma StepIds(c: seq<Entry>, h: Hit, user: string)
    ensures IdSet(MergeStep(c, h, user)) == if Owned(h, user) then IdSet(c) + {h.id} else IdSet(c)
  {
    var m := MergeStep(c, h, user);
    if Owned(h, user) {
      var k := Find(c, h.id);
      if k >= 0 && HitScore(h) > c[k].score {
        forall id | id in IdSet(c) ensures id in IdSet(m) {
          var e :| e in c && e.id == id;
          var i :| 0 <= i < |c| && c[i] == e;
          assert m[i].id == id;
        }
        forall id | id in IdSet(m) ensures id in IdSet(c) {
          var e :| e in m && e.id == id;
          var i :| 0 <= i < |m| && m[i] == e;
          assert c[i].id == id;
        }
      }
    }
  }

  lemma StepUnique(c: seq<Entry>, h: Hit, user: string)
    requires UniqueIds(c)
    ensures UniqueIds(MergeStep(c, h, user))
  {
  }

  /** Every id of a user's hit ends up among the merged entries, and each id only once. */
  lemma {:induction false} MergedIds(hits: seq<Hit>, user: string)
    ensures UniqueIds(Merged(hits, user))
    ensures IdSet(Merged(hits, user)) == set k | 0 <= k < |hits| && Owned(hits[k], user) :: hits[k].id
    decreases |hits|
  {
    if hits != [] {
      var n := |hits| - 1;
      MergedIds(hits[..n], user);
      StepUnique(Merged(hits[..n], user), hits[n], user);
      StepIds(Merged(hits[..n], user), hits[n], user);
      assert forall k :: 0 <= k < n ==> hits[..n][k] == hits[k];
      var want := set k | 0 <= k < |hits| && Owned(hits[k], user) :: hits[k].id;
      var had := set k | 0 <= k < n && Owned(hits[..n][k], user) :: hits[..n][k].id;
      assert want == if Owned(hits[n], user) then had + {hits[n].id} else had;
    }
  }

  /** An entry that survives a round stays the best for its id. */
  lemma BestExtends(hits: seq<Hit>, user: string, e: Entry)
    requires |hits| > 0
    requires BestEntry(hits[..|hits| - 1], user, e)
    requires Owned(hits[|hits| - 1], user) && hits[|hits| - 1].id == e.id ==> HitScore(hits[|hits| - 1]) <= e.score
    ensures BestEntry(hits, user, e)
  {
    var n := |hits| - 1;
    var prev := hits[..n];
    assert forall k :: 0 <= k < n ==> prev[k] == hits[k];
    var j :| 0 <= j < n && Owned(prev[j], user) && EntryOf(prev[j]) == e && FirstBest(prev, user, j);
    assert FirstBest(hits, user, j);
  }

  /** The newest hit, when it beats every earlier hit of its id, is the best entry for that id. */
  lemma BestNew(hits: seq<Hit>, user: string)
    requires |hits| > 0 && Owned(hits[|hits| - 1], user)
    requires Dominates(hits[..|hits| - 1], user, hits[|hits| - 1].id, HitScore(hits[|hits| - 1]))
    requires FirstBest(hits, user, |hits| - 1)
    ensures BestEntry(hits, user, EntryOf(hits[|hits| - 1]))
  {
    var n := |hits| - 1;
    assert forall k :: 0 <= k < n ==> hits[..n][k] == hits[k];
  }

  /**
   * Every merged entry is the best hit of its id for the requesting user
   * (maximum score; the first such hit on ties).
   */
  lemma {:induction false} MergedBest(hits: seq<Hit>, user: string)
    ensures forall e :: e in Merged(hits, user) ==> BestEntry(hits, user, e)
    decreases |hits|
  {
    if hits != [] {
      var n := |hits| - 1;
      var prev := hits[..n];
      var h := hits[n];
      MergedBest(prev, user);
      MergedIds(prev, user);
      var c := Merged(prev, user);
      var m := Merged(hits, user);
      assert forall k :: 0 <= k < n ==> prev[k] == hits[k];
      if !Owned(h, user) {
        forall e | e in m ensures BestEntry(hits, user, e) {
          BestExtends(hits, user, e);
        }
      } else {
        var k := Find(c, h.id);
        if k < 0 {
          assert h.id !in IdSet(c);
          forall q | 0 <= q < n && Owned(hits[q], user) ensures hits[q].id != h.id {
            assert hits[q].id in IdSet(c);
          }
          BestNew(hits, user);
          forall e | e in m ensures BestEntry(hits, user, e) {
            if e in c {
              assert e.id in IdSet(c);
              BestExtends(hits, user, e);
            }
          }
        } else if HitScore(h) > c[k].score {
          assert BestEntry(prev, user, c[k]);
          forall q | 0 <= q < n && Owned(hits[q], user) && hits[q].id == h.id ensures HitScore(hits[q]) < HitScore(h) {
            assert prev[q] == hits[q];
          }
          BestNew(hits, user);
          forall e | e in m ensures BestEntry(hits, user, e) {
            var i :| 0 <= i < |m| && m[i] == e;
            if i != k {
              assert e == c[i] && e.id != h.id;
              BestExtends(hits, user, e);
            }
          }
        } else {
          forall e | e in m ensures BestEntry(hits, user, e) {
            var i :| 0 <= i < |m| && m[i] == e;
            BestExtends(hits, user, e);
          }
        }
      }
    }
  }

  // ---------------------------------------------------------------- sorting and cut-off

  predicate ScoreGeq(a: Entry, b: Entry) {
    a.score >= b.score
  }

  /** `sorted(combined.values(), key=score, reverse=True)`. */
  function SortedByScore(c: seq<Entry>): seq<Entry> {
    Sorting.SortDesc(c, ScoreGeq)
  }

  /** `[r for r in merged if r["score"] >= 0.3]`. */
  function AboveThreshold(s: seq<Entry>): (r: seq<Entry>)
    ensures forall e :: e in r <==> e in s && e.score >= THRESHOLD
    ensures multiset(r) <= multiset(s)
  {
    if s == [] then []
    else
      assert s == [s[0]] + s[1..];
      if s[0].score >= THRESHOLD then [s[0]] + AboveThreshold(s[1..]) else AboveThreshold(s[1..])
  }

  /** The kept entries: the top `TOP_K` of the sorted entries above the threshold. */
  function Ranked(c: seq<Entry>): seq<Entry> {
    var f := AboveThreshold(SortedByScore(c));
    if |f| <= TOP_K then f else f[..TOP_K]
  }

  lemma {:induction false} AboveThresholdSorted(s: seq<Entry>)
    requires Sorting.SortedDesc(s, ScoreGeq)
    ensures Sorting.SortedDesc(AboveThreshold(s), ScoreGeq)
  {
    if s != [] {
      AboveThresholdSorted(s[1..]);
      var t := AboveThreshold(s[1..]);
      if s[0].score >= THRESHOLD {
        var r := [s[0]] + t;
        forall i, j | 0 <= i < j < |r| ensures ScoreGeq(r[i], r[j]) {
          if i == 0 {
            assert r[j] in s[1..];
          } else {
            assert r[i] == t[i - 1] && r[j] == t[j - 1];
          }
        }
      }
    }
  }

  lemma ScoreGeqIsTotalPreorder()
    ensures Sorting.TotalPreorder(ScoreGeq)
  {
  }

  /** The above-threshold entries, in non-increasing score order. */
  lemma FilteredSorted(c: seq<Entry>)
    ensures Sorting.SortedDesc(AboveThreshold(SortedByScore(c)), ScoreGeq)
  {
    ScoreGeqIsTotalPreorder();
    Sorting.SortDescSorted(c, ScoreGeq);
    AboveThresholdSorted(SortedByScore(c));
  }

  /**
   * At most three entries are kept, each with score at least 0.3, in
   * non-increasing score order, and all taken from the merged entries.
   */
  lemma RankedShape(c: seq<Entry>)
    ensures |Ranked(c)| <= TOP_K
    ensures forall e :: e in Ranked(c) ==> e.score >= THRESHOLD
    ensures Sorting.SortedDesc(Ranked(c), ScoreGeq)
    ensures multiset(Ranked(c)) <= multiset(c)
  {
    FilteredSorted(c);
    var f := AboveThreshold(SortedByScore(c));
    var r := Ranked(c);
    if |f| > TOP_K {
      assert f == r + f[TOP_K..];
      assert multiset(f) == multiset(r) + multiset(f[TOP_K..]);
      forall x | x in r ensures x in f {
        var i :| 0 <= i < |r| && r[i] == x;
        assert f[i] == x;
      }
    }
  }

  /**
   * A merged entry at or above the threshold is only dropped when three
   * entries are already kept, and none of those scores lower than it.
   */
  lemma RankedKeepsBest(c: seq<Entry>, e: Entry)
    requires e in c && e.score >= THRESHOLD && e !in Ranked(c)
    ensures |Ranked(c)| == TOP_K
    ensures forall x :: x in Ranked(c) ==> x.score >= e.score
  {
    FilteredSorted(c);
    var sorted := SortedByScore(c);
    var f := AboveThreshold(sorted);
    var r := Ranked(c);
    assert e in multiset(sorted);
    assert e in f;
    var j :| 0 <= j < |f| && f[j] == e;
    assert j >= TOP_K;
    forall x | x in r ensures x.score >= e.score {
      var i :| 0 <= i < |r| && r[i] == x;
      assert f[i] == x;
    }
  }

  /** Every kept entry belongs to the requesting user. */
  lemma RankedOwned(hits: seq<Hit>, user: string)
    ensures forall e :: e in Ranked(Merged(hits, user)) ==> e.payload.userId == Some(user)
  {
    var c := Merged(hits, user);
    RankedShape(c);
    MergedBest(hits, user);
    forall e | e in Ranked(c) ensures e.payload.userId == Some(user) {
      assert e in multiset(c);
      assert BestEntry(hits, user, e);
    }
  }

  // ---------------------------------------------------------------- copying and translating

  /** `p.get("content") and lang and p.get("lang") and p["lang"] != lang`. */
  predicate NeedsTranslation(p: Payload, lang: string) {
    Present(p.content) && lang != "" && Present(p.lang) && p.lang.value != lang
  }

  /**
   * One result: a copy of the stored payload with `score` set to the merged
   * score and, when the languages differ, the content translated and the
   * language relabelled. The stored payload itself is a value and is not
   * changed.
   */
  function Relabelled(e: Entry, lang: string, tenv: TranslateEnv): Payload
  {
    var p := e.payload.(score := Some(e.score));
    if NeedsTranslation(p, lang) then
      p.(content := Some(TranslateText(p.content.value, p.lang.value, lang, tenv)), lang := Some(lang))
    else p
  }

  /**
   * The copy keeps every stored field except the score, which becomes the
   * merged score, and the content and language, which are translated and
   * relabelled exactly when the languages differ.
   */
  lemma RelabelledSpec(e: Entry, lang: string, tenv: TranslateEnv)
    ensures var r := Relabelled(e, lang, tenv);
      && r.score == Some(e.score)
      && r.userId == e.payload.userId && r.timestamp == e.payload.timestamp && r.kind == e.payload.kind
      && r.originalName == e.payload.originalName && r.imageB64 == e.payload.imageB64
      && (NeedsTranslation(e.payload, lang) ==>
          && r.lang == Some(lang)
          && r.content == Some(TranslateText(e.payload.content.value, e.payload.lang.value, lang, tenv)))
      && (!NeedsTranslation(e.payload, lang) ==> r.content == e.payload.content && r.lang == e.payload.lang)
      // a result with content and a language is in the request language
      && (Present(e.payload.content) && Present(e.payload.lang) && lang != "" ==> r.lang == Some(lang))
  {
  }

  /** The results the shared rule produces for the requesting user and language. */
  function Results(hits: seq<Hit>, user: string, lang: string, tenv: TranslateEnv): seq<Payload> {
    var ranked := Ranked(Merged(hits, user));
    seq(|ranked|, i requires 0 <= i < |ranked| => Relabelled(ranked[i], lang, tenv))
  }

  /**
   * What the results promise: at most three, all the requesting user's,
   * each carrying the merged score of its kept entry (at least 0.3), in
   * non-increasing score order.
   */
  lemma ResultsSpec(hits: seq<Hit>, user: string, lang: string, tenv: TranslateEnv)
    ensures var ranked := Ranked(Merged(hits, user));
      var results := Results(hits, user, lang, tenv);
      && |results| == |ranked| <= TOP_K
      && (forall i :: 0 <= i < |results| ==>
          && results[i].userId == Some(user)
          && results[i].score == Some(ranked[i].score)
          && ranked[i].score >= THRESHOLD)
      && (forall i, j :: 0 <= i < j < |results| ==> ranked[i].score >= ranked[j].score)
  {
    var ranked := Ranked(Merged(hits, user));
    RankedShape(Merged(hits, user));
    RankedOwned(hits, user);
    forall i | 0 <= i < |ranked|
      ensures ranked[i] in ranked && Relabelled(ranked[i], lang, tenv).score == Some(ranked[i].score)
    {
      RelabelledSpec(ranked[i], lang, tenv);
    }
  }

  /** The copy-and-translate loop over the kept entries. */
  method RelabelAll(ranked: seq<Entry>, lang: string, tenv: TranslateEnv) returns (results: seq<Payload>)
    ensures |results| == |ranked|
    ensures forall k :: 0 <= k < |ranked| ==> results[k] == Relabelled(ranked[k], lang, tenv)
  {
    results := [];
    for i := 0 to |ranked|
      invariant |results| == i
      invariant forall k :: 0 <= k < i ==> results[k] == Relabelled(ranked[k], lang, tenv)
    {
      results := results + [Relabelled(ranked[i], lang, tenv)];
    }
  }

  /**
   * The merge, sort, cut-off and copy loop of both query endpoints.
   * Returns the result payloads and the kept entries they came from.
   */
  method RankHits(hits: seq<Hit>, user: string, lang: string, tenv: TranslateEnv)
    returns (results: seq<Payload>, ranked: seq<Entry>)
    ensures ranked == Ranked(Merged(hits, user))
    ensures results == Results(hits, user, lang, tenv)
  {
    var combined := Combine(hits, user);
    ranked := Ranked(combined);
    results := RelabelAll(ranked, lang, tenv);
  }
}
