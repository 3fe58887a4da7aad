/**
 * `_clean_text` of the upload router: line breaks become spaces, the
 * ends are stripped of whitespace, and runs of spaces are collapsed by
 * repeatedly replacing every double space with a single one.
 */
module TextClean {
  import opened Wrappers

  /** The characters Python's `str.strip()` and `str.split()` treat as whitespace (`str.isspace`). */
  predicate IsSpace(c: char) {
    || c == ' ' || ('\t' <= c <= '\r') || ('\U{1C}' <= c <= '\U{1F}')
    || c == '\U{85}' || c == '\U{A0}' || c == '\U{1680}' || ('\U{2000}' <= c <= '\U{200A}')
    || c == '\U{2028}' || c == '\U{2029}' || c == '\U{202F}' || c == '\U{205F}' || c == '\U{3000}'
  }

  /** `s.replace(from, to)` for single characters. */
  function ReplaceChar(s: string, from: char, to: char): (r: string)
    ensures |r| == |s|
    ensures forall i :: 0 <= i < |s| ==> r[i] == (if s[i] == from then to else s[i])
  {
    seq(|s|, i requires 0 <= i < |s| => if s[i] == from then to else s[i])
  }

  /** `.replace("\r", " ").replace("\n", " ")`. */
  function BreaksToSpaces(s: string): (r: string)
    ensures |r| == |s|
    ensures '\r' !in r && '\n' !in r
    ensures forall i :: 0 <= i < |s| && (s[i] == '\r' || s[i] == '\n') ==> r[i] == ' '
    ensures forall i :: 0 <= i < |s| && s[i] != '\r' && s[i] != '\n' ==> r[i] == s[i]
  {
    ReplaceChar(ReplaceChar(s, '\r', ' '), '\n', ' ')
  }

  /** The number of whitespace characters at the front of `s`. */
  function LeadingSpaces(s: string): (i: nat)
    ensures i <= |s|
    ensures forall k :: 0 <= k < i ==> IsSpace(s[k])
    ensures i < |s| ==> !IsSpace(s[i])
  {
    if s != [] && IsSpace(s[0]) then 1 + LeadingSpaces(s[1..]) else 0
  }

  /** Where the whitespace at the back of `s` begins. */
  function TrailingStart(s: string): (j: nat)
    ensures j <= |s|
    ensures forall k :: j <= k < |s| ==> IsSpace(s[k])
    ensures j > 0 ==> !IsSpace(s[j - 1])
  {
    if s != [] && IsSpace(s[|s| - 1]) then TrailingStart(s[..|s| - 1]) else |s|
  }

  /**
   * `s.strip()`: the slice of `s` left after dropping the whitespace at
   * both ends; what is dropped is whitespace only, and neither end of the
   * result is whitespace.
   */
  function Strip(s: string): (r: string)
    ensures r == [] || (!IsSpace(r[0]) && !IsSpace(r[|r| - 1]))
    ensures exists i, j ::
      && 0 <= i <= j <= |s| && r == s[i..j]
      && (forall k :: 0 <= k < i ==> IsSpace(s[k]))
      && (forall k :: j <= k < |s| ==> IsSpace(s[k]))
    ensures forall c :: c in r ==> c in s
  {
    var i := LeadingSpaces(s);
    var rest := s[i..];
    var j := TrailingStart(rest);
    assert rest[..j] == s[i..i + j];
    assert forall k :: i + j <= k < |s| ==> s[k] == rest[k - i];
    assert j > 0 ==> rest[0] == s[i];
    rest[..j]
  }

  /** `"  " in s`. */
  predicate HasDoubleSpace(s: string) {
    exists i :: 0 <= i < |s| - 1 && s[i] == ' ' && s[i + 1] == ' '
  }

  /** One `s.replace("  ", " ")`: every non-overlapping double space, left to right, becomes one space. */
  function ReplaceDoubleSpaces(s: string): (r: string)
    ensures |r| <= |s|
    ensures HasDoubleSpace(s) ==> |r| < |s|
  {
    if |s| >= 2 && s[0] == ' ' && s[1] == ' ' then [' '] + ReplaceDoubleSpaces(s[2..])
    else if s == [] then []
    else
      var r := [s[0]] + ReplaceDoubleSpaces(s[1..]);
      assert HasDoubleSpace(s) ==> HasDoubleSpace(s[1..]) by {
        if HasDoubleSpace(s) {
          var i :| 0 <= i < |s| - 1 && s[i] == ' ' && s[i + 1] == ' ';
          assert i != 0;
          assert s[1..][i - 1] == ' ' && s[1..][i] == ' ';
        }
      }
      r
  }

  /**
   * The reference definition of "collapse every run of spaces to one space":
   * a space is dropped exactly when a space follows it.
   */
  function Collapse(s: string): (r: string)
  {
    if |s| <= 1 then s
    else if s[0] == ' ' && s[1] == ' ' then Collapse(s[1..])
    else [s[0]] + Collapse(s[1..])
  }

  /** What `_clean_text` returns; `None` is read as "". */
  function Cleaned(s: Option<string>): string {
    Collapse(Strip(BreaksToSpaces(s.GetOr(""))))
  }

  lemma {:induction false} CollapseEnds(s: string)
    ensures |Collapse(s)| <= |s|
    ensures s != [] ==> Collapse(s) != [] && Collapse(s)[0] == s[0]
    ensures s != [] ==> Collapse(s)[|Collapse(s)| - 1] == s[|s| - 1]
    ensures forall c :: c in Collapse(s) ==> c in s
  {
    if |s| > 1 {
      CollapseEnds(s[1..]);
      assert forall c :: c in s[1..] ==> c in s;
    }
  }

  lemma {:induction false} CollapseNoDoubleSpace(s: string)
    ensures !HasDoubleSpace(Collapse(s))
  {
    if |s| > 1 {
      CollapseNoDoubleSpace(s[1..]);
      CollapseEnds(s[1..]);
      if !(s[0] == ' ' && s[1] == ' ') {
        var t := Collapse(s[1..]);
        var r := [s[0]] + t;
        forall i | 0 <= i < |r| - 1 ensures !(r[i] == ' ' && r[i + 1] == ' ') {
          if i == 0 {
            assert r[1] == t[0] == s[1];
          } else {
            assert r[i] == t[i - 1] && r[i + 1] == t[i];
          }
        }
      }
    }
  }

  /** Text without a double space is already collapsed. */
  lemma {:induction false} CollapseFixed(s: string)
    requires !HasDoubleSpace(s)
    ensures Collapse(s) == s
  {
    if |s| > 1 {
      assert !(s[0] == ' ' && s[1] == ' ');
      forall i | 0 <= i < |s[1..]| - 1 ensures !(s[1..][i] == ' ' && s[1..][i + 1] == ' ') {
        assert s[1..][i] == s[i + 1] && s[1..][i + 1] == s[i + 2];
      }
      CollapseFixed(s[1..]);
    }
  }

  /** One replacement round keeps the collapsed form: this is the loop's invariant. */
  lemma {:induction false} ReplaceKeepsCollapse(s: string)
    ensures Collapse(ReplaceDoubleSpaces(s)) == Collapse(s)
  {
    if |s| >= 2 && s[0] == ' ' && s[1] == ' ' {
      var t := s[2..];
      ReplaceKeepsCollapse(t);
      ReplaceHead(t);
      assert s[1..] == [' '] + t;
      assert ReplaceDoubleSpaces(s) == [' '] + ReplaceDoubleSpaces(t);
      if t != [] {
        assert ([' '] + t)[1..] == t;
        assert ([' '] + ReplaceDoubleSpaces(t))[1..] == ReplaceDoubleSpaces(t);
      }
    } else if s != [] {
      var t := s[1..];
      ReplaceKeepsCollapse(t);
      ReplaceHead(t);
      assert s == [s[0]] + t;
      assert ([s[0]] + ReplaceDoubleSpaces(t))[1..] == ReplaceDoubleSpaces(t);
    }
  }

  lemma {:induction false} ReplaceHead(s: string)
    ensures (ReplaceDoubleSpaces(s) == []) == (s == [])
    ensures s != [] ==> ReplaceDoubleSpaces(s)[0] == s[0]
  {
  }

  /**
   * `_clean_text`. The loop stops because every round that still finds a
   * double space makes the text strictly shorter.
   */
  method CleanText(input: Option<string>) returns (s: string)
    ensures s == Cleaned(input)
  {
    s := BreaksToSpaces(input.GetOr(""));
    s := Strip(s);
    ghost var target := Collapse(s);
    while HasDoubleSpace(s)
      invariant Collapse(s) == target
      decreases |s|
    {
      ReplaceKeepsCollapse(s);
      s := ReplaceDoubleSpaces(s);
    }
    CollapseFixed(s);
  }

  /** The cleaned text has no line breaks, no double space and no whitespace at either end. */
  lemma CleanedShape(input: Option<string>)
    ensures '\r' !in Cleaned(input) && '\n' !in Cleaned(input)
    ensures !HasDoubleSpace(Cleaned(input))
    ensures Cleaned(input) == [] || !IsSpace(Cleaned(input)[0])
    ensures Cleaned(input) == [] || !IsSpace(Cleaned(input)[|Cleaned(input)| - 1])
  {
    var b := BreaksToSpaces(input.GetOr(""));
    var t := Strip(b);
    var c := Collapse(t);
    assert c == Cleaned(input);
    CollapseEnds(t);
    CollapseNoDoubleSpace(t);
    assert '\r' !in t && '\n' !in t;
  }

  /** `None` and "" both clean to "". */
  lemma CleanedEmpty()
    ensures Cleaned(None) == ""
    ensures Cleaned(Some("")) == ""
  {
  }

  /** Cleaning twice is cleaning once. */
  lemma CleanedIdempotent(input: Option<string>)
    ensures Cleaned(Some(Cleaned(input))) == Cleaned(input)
  {
    var c := Cleaned(input);
    CleanedShape(input);
    var b := BreaksToSpaces(c);
    assert b == c;
    StripIdentity(c);
    CollapseFixed(c);
  }

  /** Text with no whitespace at either end is its own strip. */
  lemma StripIdentity(s: string)
    requires s == [] || (!IsSpace(s[0]) && !IsSpace(s[|s| - 1]))
    ensures Strip(s) == s
  {
  }
}
