/**
 * Maximal runs of characters of one class, left to right: what both
 * `re.findall(r"\w+", s)` (runs of word characters) and `str.split()`
 * (runs of non-whitespace) compute.
 */
module CharRuns {

  /** The length of the run of `p`-characters at the front of `s`. */
  function RunLength(s: string, p: char -> bool): (n: nat)
    ensures n <= |s|
    ensures forall i :: 0 <= i < n ==> p(s[i])
    ensures n < |s| ==> !p(s[n])
  {
    if s != [] && p(s[0]) then 1 + RunLength(s[1..], p) else 0
  }

  /** The runs of `p`-characters of `s`, left to right. */
  function Runs(s: string, p: char -> bool): seq<string>
    decreases |s|
  {
    if s == [] then []
    else if !p(s[0]) then Runs(s[1..], p)
    else
      var n := RunLength(s, p);
      [s[..n]] + Runs(s[n..], p)
  }

  /** Where each run of `Runs(s, p)` starts in `s`. */
  function RunStarts(s: string, p: char -> bool): seq<nat>
    decreases |s|
  {
    if s == [] then []
    else if !p(s[0]) then Shifted(RunStarts(s[1..], p), 1)
    else
      var n := RunLength(s, p);
      [0] + Shifted(RunStarts(s[n..], p), n)
  }

  function Shifted(xs: seq<nat>, d: nat): (ys: seq<nat>)
    ensures |ys| == |xs|
    ensures forall k :: 0 <= k < |xs| ==> ys[k] == xs[k] + d
  {
    seq(|xs|, k requires 0 <= k < |xs| => xs[k] + d)
  }

  /**
   * `run` occurs in `s` at `start`, is non-empty, is made of `p`-characters
   * only, and cannot be extended: the characters just before and just after
   * it (if any) are not `p`-characters.
   */
  predicate IsRun(s: string, p: char -> bool, run: string, start: nat) {
    && run != []
    && start + |run| <= |s|
    && run == s[start..start + |run|]
    && (forall i :: start <= i < start + |run| ==> p(s[i]))
    && (start == 0 || !p(s[start - 1]))
    && (start + |run| == |s| || !p(s[start + |run|]))
  }

  /**
   * `runs`, found at `starts`, are maximal runs of `p`-characters of `s`,
   * strictly left to right and apart, and every `p`-character of `s` lies
   * in one of them. Exactly one list of runs meets this.
   */
  predicate AreMaximalRuns(s: string, p: char -> bool, runs: seq<string>, starts: seq<nat>) {
    && |starts| == |runs|
    && (forall k :: 0 <= k < |runs| ==> IsRun(s, p, runs[k], starts[k]))
    && (forall k :: 0 <= k < |runs| - 1 ==> starts[k] + |runs[k]| < starts[k + 1])
    && (forall i :: 0 <= i < |s| && p(s[i]) ==>
          exists k :: 0 <= k < |runs| && starts[k] <= i < starts[k] + |runs[k]|)
  }

  /** A run of the suffix `s[m..]` is a run of `s` unless it could be extended to the left. */
  lemma RunShift(s: string, p: char -> bool, m: nat, run: string, start: nat)
    requires m <= |s|
    requires IsRun(s[m..], p, run, start)
    requires start == 0 && m > 0 ==> !p(s[m - 1])
    ensures IsRun(s, p, run, start + m)
  {
    var t := s[m..];
    assert t[start..start + |run|] == s[start + m..start + m + |run|];
    forall i | start + m <= i < start + m + |run| ensures p(s[i]) {
      assert s[i] == t[i - m];
    }
    if start > 0 {
      assert s[start + m - 1] == t[start - 1];
    }
    if start + m + |run| < |s| {
      assert s[start + m + |run|] == t[start + |run|];
    }
  }

  /** Skipping a character outside the class shifts every run by one. */
  lemma SkipStep(s: string, p: char -> bool, runs: seq<string>, starts: seq<nat>)
    requires s != [] && !p(s[0])
    requires AreMaximalRuns(s[1..], p, runs, starts)
    ensures AreMaximalRuns(s, p, runs, Shifted(starts, 1))
  {
    var t := s[1..];
    var shifted := Shifted(starts, 1);
    forall k | 0 <= k < |runs| ensures IsRun(s, p, runs[k], shifted[k]) {
      RunShift(s, p, 1, runs[k], starts[k]);
    }
    forall i | 0 <= i < |s| && p(s[i])
      ensures exists k :: 0 <= k < |runs| && shifted[k] <= i < shifted[k] + |runs[k]|
    {
      assert t[i - 1] == s[i];
      var k :| 0 <= k < |runs| && starts[k] <= i - 1 < starts[k] + |runs[k]|;
      assert shifted[k] <= i < shifted[k] + |runs[k]|;
    }
  }

  /** No run of what follows a maximal run starts right after it. */
  lemma RunsAfterRun(s: string, p: char -> bool, n: nat, runs: seq<string>, starts: seq<nat>)
    requires 0 < n <= |s|
    requires n < |s| ==> !p(s[n])
    requires AreMaximalRuns(s[n..], p, runs, starts)
    ensures forall k :: 0 <= k < |runs| ==> starts[k] > 0
  {
    forall k | 0 <= k < |runs| ensures starts[k] > 0 {
      assert IsRun(s[n..], p, runs[k], starts[k]);
      assert s[n..][starts[k]] == s[n + starts[k]];
    }
  }

  /** A leading run of length `n` comes first, then the runs of `s[n..]` shifted by `n`. */
  lemma RunStep(s: string, p: char -> bool, n: nat, runs: seq<string>, starts: seq<nat>)
    requires 0 < n <= |s|
    requires forall i :: 0 <= i < n ==> p(s[i])
    requires n < |s| ==> !p(s[n])
    requires AreMaximalRuns(s[n..], p, runs, starts)
    ensures AreMaximalRuns(s, p, [s[..n]] + runs, [0] + Shifted(starts, n))
  {
    var allRuns, allStarts := [s[..n]] + runs, [0] + Shifted(starts, n);
    RunsAfterRun(s, p, n, runs, starts);
    RunStepRuns(s, p, n, runs, starts);
    forall k | 0 <= k < |allRuns| - 1 ensures allStarts[k] + |allRuns[k]| < allStarts[k + 1] {
      assert allStarts[k + 1] == starts[k] + n;
      if k > 0 {
        assert allRuns[k] == runs[k - 1] && allStarts[k] == starts[k - 1] + n;
      }
    }
    RunStepCovers(s, p, n, runs, starts);
  }

  lemma RunStepRuns(s: string, p: char -> bool, n: nat, runs: seq<string>, starts: seq<nat>)
    requires 0 < n <= |s|
    requires forall i :: 0 <= i < n ==> p(s[i])
    requires n < |s| ==> !p(s[n])
    requires AreMaximalRuns(s[n..], p, runs, starts)
    requires forall k :: 0 <= k < |runs| ==> starts[k] > 0
    ensures forall k :: 0 <= k < 1 + |runs| ==> IsRun(s, p, ([s[..n]] + runs)[k], ([0] + Shifted(starts, n))[k])
  {
    var allRuns, allStarts := [s[..n]] + runs, [0] + Shifted(starts, n);
    assert s[..n] == s[0..n];
    assert IsRun(s, p, allRuns[0], allStarts[0]);
    forall k | 1 <= k < |allRuns| ensures IsRun(s, p, allRuns[k], allStarts[k]) {
      assert allRuns[k] == runs[k - 1] && allStarts[k] == starts[k - 1] + n;
      RunShift(s, p, n, runs[k - 1], starts[k - 1]);
    }
  }

  lemma RunStepCovers(s: string, p: char -> bool, n: nat, runs: seq<string>, starts: seq<nat>)
    requires 0 < n <= |s|
    requires AreMaximalRuns(s[n..], p, runs, starts)
    ensures forall i :: 0 <= i < |s| && p(s[i]) ==>
      exists k :: 0 <= k < 1 + |runs| && ([0] + Shifted(starts, n))[k] <= i < ([0] + Shifted(starts, n))[k] + |([s[..n]] + runs)[k]|
  {
    var allRuns, allStarts := [s[..n]] + runs, [0] + Shifted(starts, n);
    forall i | 0 <= i < |s| && p(s[i])
      ensures exists k :: 0 <= k < |allRuns| && allStarts[k] <= i < allStarts[k] + |allRuns[k]|
    {
      if i < n {
        assert allStarts[0] <= i < allStarts[0] + |allRuns[0]|;
      } else {
        assert s[n..][i - n] == s[i];
        var k :| 0 <= k < |runs| && starts[k] <= i - n < starts[k] + |runs[k]|;
        assert allRuns[k + 1] == runs[k] && allStarts[k + 1] == starts[k] + n;
      }
    }
  }

  /** `Runs(s, p)` is the list of maximal runs of `p`-characters of `s`, found at `RunStarts(s, p)`. */
  lemma {:induction false} RunsMaximal(s: string, p: char -> bool)
    ensures AreMaximalRuns(s, p, Runs(s, p), RunStarts(s, p))
    decreases |s|
  {
    if s == [] {
    } else if !p(s[0]) {
      RunsMaximal(s[1..], p);
      SkipStep(s, p, Runs(s[1..], p), RunStarts(s[1..], p));
    } else {
      var n := RunLength(s, p);
      RunsMaximal(s[n..], p);
      RunStep(s, p, n, Runs(s[n..], p), RunStarts(s[n..], p));
    }
  }
}
