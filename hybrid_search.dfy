/**
 * The BM25 side of hybrid search: `simple_tokenize` (`re.findall(r"\w+",
 * text.lower())`), the tokenised corpus built by `HybridSearch.__init__`,
 * and `expand_query`. Word characters and lower-casing are modelled on
 * ASCII.
 */
module HybridSearch {
  import opened Wrappers
  import opened CharRuns

  /** `\w` on ASCII: letters, digits and the underscore. */
  predicate IsWordChar(c: char) {
    ('a' <= c <= 'z') || ('A' <= c <= 'Z') || ('0' <= c <= '9') || c == '_'
  }

  predicate IsUpper(c: char) {
    'A' <= c <= 'Z'
  }

  function LowerChar(c: char): (r: char)
    ensures !IsUpper(r)
    ensures IsWordChar(r) == IsWordChar(c)
  {
    if IsUpper(c) then (c as int - 'A' as int + 'a' as int) as char else c
  }

  /** `text.lower()`. */
  function Lower(s: string): (r: string)
    ensures |r| == |s|
    ensures forall i :: 0 <= i < |s| ==> r[i] == LowerChar(s[i])
  {
    seq(|s|, i requires 0 <= i < |s| => LowerChar(s[i]))
  }

  /** The maximal runs of word characters of `s`, left to right (`re.findall(r"\w+", s)`). */
  function Words(s: string): seq<string> {
    Runs(s, IsWordChar)
  }

  /**
   * The words are exactly the maximal runs of word characters: each sits
   * at its start offset between non-word characters (or the ends), the
   * offsets increase, and every word character lies in one of them.
   */
  lemma WordsMaximal(s: string)
    ensures AreMaximalRuns(s, IsWordChar, Words(s), RunStarts(s, IsWordChar))
  {
    RunsMaximal(s, IsWordChar);
  }

  /** `simple_tokenize`. */
  function SimpleTokenize(text: string): seq<string> {
    Words(Lower(text))
  }

  /** A token: non-empty, word characters only, no upper-case letter. */
  predicate IsToken(t: string) {
    t != [] && forall i :: 0 <= i < |t| ==> IsWordChar(t[i]) && !IsUpper(t[i])
  }

  /** The word characters of `s`, in order. */
  function WordChars(s: string): string {
    if s == [] then []
    else if IsWordChar(s[0]) then [s[0]] + WordChars(s[1..])
    else WordChars(s[1..])
  }

  /** Concatenation of a list of strings. */
  function Concat(ts: seq<string>): string {
    if ts == [] then [] else ts[0] + Concat(ts[1..])
  }

  lemma {:induction false} ConcatAppend(a: seq<string>, b: seq<string>)
    ensures Concat(a + b) == Concat(a) + Concat(b)
  {
    if a != [] {
      ConcatAppend(a[1..], b);
      assert (a + b)[0] == a[0];
      assert (a + b)[1..] == a[1..] + b;
      calc {
        Concat(a + b);
        a[0] + Concat(a[1..] + b);
        a[0] + (Concat(a[1..]) + Concat(b));
        (a[0] + Concat(a[1..])) + Concat(b);
      }
    } else {
      assert a + b == b;
    }
  }

  lemma {:induction false} WordCharsAppend(a: string, b: string)
    ensures WordChars(a + b) == WordChars(a) + WordChars(b)
  {
    if a != [] {
      WordCharsAppend(a[1..], b);
      assert (a + b)[0] == a[0];
      assert (a + b)[1..] == a[1..] + b;
      if IsWordChar(a[0]) {
        assert WordChars(a + b) == [a[0]] + WordChars(a[1..] + b);
        assert [a[0]] + (WordChars(a[1..]) + WordChars(b)) == ([a[0]] + WordChars(a[1..])) + WordChars(b);
      }
    } else {
      assert a + b == b;
    }
  }

  lemma {:induction false} WordCharsOfRun(s: string)
    requires forall i :: 0 <= i < |s| ==> IsWordChar(s[i])
    ensures WordChars(s) == s
  {
    if s != [] {
      WordCharsOfRun(s[1..]);
    }
  }

  /**
   * Each word is a non-empty run of word characters, and the words spell
   * out exactly the word characters of the text, in order: nothing is lost,
   * added or reordered.
   */
  lemma {:induction false} WordsSpec(s: string)
    ensures forall k :: 0 <= k < |Words(s)| ==>
      Words(s)[k] != [] && forall i :: 0 <= i < |Words(s)[k]| ==> IsWordChar(Words(s)[k][i])
    ensures Concat(Words(s)) == WordChars(s)
    decreases |s|
  {
    if s == [] {
    } else if !IsWordChar(s[0]) {
      WordsSpec(s[1..]);
    } else {
      var n := RunLength(s, IsWordChar);
      WordsSpec(s[n..]);
      assert s == s[..n] + s[n..];
      WordCharsAppend(s[..n], s[n..]);
      WordCharsOfRun(s[..n]);
      assert Words(s)[1..] == Words(s[n..]);
    }
  }

  /**
   * `simple_tokenize` yields only non-empty, lower-case runs of word
   * characters, and together they are exactly the text's word characters
   * (lower-cased), in source order.
   */
  lemma SimpleTokenizeSpec(text: string)
    ensures forall k :: 0 <= k < |SimpleTokenize(text)| ==> IsToken(SimpleTokenize(text)[k])
    ensures Concat(SimpleTokenize(text)) == WordChars(Lower(text))
  {
    var l := Lower(text);
    WordsSpec(l);
    forall k | 0 <= k < |Words(l)| ensures IsToken(Words(l)[k]) {
      WordsLower(l, k);
    }
  }

  lemma {:induction false} WordsLower(s: string, k: nat)
    requires forall i :: 0 <= i < |s| ==> !IsUpper(s[i])
    requires k < |Words(s)|
    ensures forall i :: 0 <= i < |Words(s)[k]| ==> !IsUpper(Words(s)[k][i])
    decreases |s|
  {
    if !IsWordChar(s[0]) {
      WordsLower(s[1..], k);
    } else if k > 0 {
      var n := RunLength(s, IsWordChar);
      assert Words(s)[k] == Words(s[n..])[k - 1];
      WordsLower(s[n..], k - 1);
    }
  }

  /** Text without a word character has no tokens. */
  lemma NoWordCharsNoTokens(text: string)
    requires forall i :: 0 <= i < |text| ==> !IsWordChar(text[i])
    ensures SimpleTokenize(text) == []
  {
    var l := Lower(text);
    WordsSpec(l);
    NoWordChars(l);
  }

  lemma {:induction false} NoWordChars(s: string)
    requires forall i :: 0 <= i < |s| ==> !IsWordChar(s[i])
    ensures WordChars(s) == []
  {
    if s != [] {
      NoWordChars(s[1..]);
    }
  }

  lemma {:induction false} RunStopsAtSpace(a: string, b: string)
    ensures RunLength(a + [' '] + b, IsWordChar) == RunLength(a, IsWordChar)
  {
    if a != [] && IsWordChar(a[0]) {
      RunStopsAtSpace(a[1..], b);
      assert (a + [' '] + b)[1..] == a[1..] + [' '] + b;
    }
  }

  /** A space separates words: the words of `a + " " + b` are those of `a` followed by those of `b`. */
  lemma {:induction false} WordsSplitAtSpace(a: string, b: string)
    ensures Words(a + [' '] + b) == Words(a) + Words(b)
    decreases |a|
  {
    var s := a + [' '] + b;
    if a == [] {
      assert s[1..] == b;
    } else if !IsWordChar(a[0]) {
      assert s[1..] == a[1..] + [' '] + b;
      WordsSplitAtSpace(a[1..], b);
    } else {
      var n := RunLength(a, IsWordChar);
      RunStopsAtSpace(a, b);
      assert s[..n] == a[..n];
      assert s[n..] == a[n..] + [' '] + b;
      WordsSplitAtSpace(a[n..], b);
    }
  }

  /** `" ".join(parts)`. */
  function JoinSpace(parts: seq<string>): (r: string)
    ensures parts == [] ==> r == []
  {
    if parts == [] then []
    else if |parts| == 1 then parts[0]
    else parts[0] + " " + JoinSpace(parts[1..])
  }

  /** The tokens of each part, one after the other. */
  function TokensOfAll(parts: seq<string>): seq<string> {
    if parts == [] then [] else SimpleTokenize(parts[0]) + TokensOfAll(parts[1..])
  }

  lemma {:induction false} LowerSpaceJoin(a: string, b: string)
    ensures Lower(a + " " + b) == Lower(a) + [' '] + Lower(b)
  {
  }

  /** Tokenising space-joined parts gives the parts' tokens in order. */
  lemma {:induction false} TokenizeJoin(parts: seq<string>)
    ensures SimpleTokenize(JoinSpace(parts)) == TokensOfAll(parts)
  {
    if |parts| == 1 {
      assert TokensOfAll(parts[1..]) == [];
    } else if |parts| > 1 {
      TokenizeJoin(parts[1..]);
      LowerSpaceJoin(parts[0], JoinSpace(parts[1..]));
      WordsSplitAtSpace(Lower(parts[0]), Lower(JoinSpace(parts[1..])));
    }
  }

  /**
   * `HybridSearch.expand_query`: with synonyms, the query followed by a
   * space and the space-joined synonyms; without (None or empty), the query.
   */
  function ExpandQuery(query: string, synonyms: Option<seq<string>>): (r: string)
    ensures synonyms.None? || synonyms.value == [] ==> r == query
    ensures |query| <= |r| && r[..|query|] == query
  {
    if synonyms.Some? && synonyms.value != [] then query + " " + JoinSpace(synonyms.value) else query
  }

  /**
   * The expanded query tokenises to the query's tokens followed by the
   * synonyms' tokens: expansion only adds search terms and keeps the
   * query's own terms first.
   */
  lemma ExpandQueryTokens(query: string, synonyms: Option<seq<string>>)
    ensures SimpleTokenize(ExpandQuery(query, synonyms)) ==
      SimpleTokenize(query) + (if synonyms.Some? then TokensOfAll(synonyms.value) else [])
  {
    if synonyms.Some? && synonyms.value != [] {
      LowerSpaceJoin(query, JoinSpace(synonyms.value));
      WordsSplitAtSpace(Lower(query), Lower(JoinSpace(synonyms.value)));
      TokenizeJoin(synonyms.value);
    }
  }

  /** The search index: the corpus, its vectors, and the corpus tokenised for BM25. */
  class HybridSearch {
    const corpus: seq<string>
    const vectors: seq<seq<real>>
    const tokenizedCorpus: seq<seq<string>>

    /** `__init__`: one token list per document, in corpus order. */
    constructor (corpus: seq<string>, vectors: seq<seq<real>>)
      ensures this.corpus == corpus && this.vectors == vectors
      ensures |tokenizedCorpus| == |corpus|
      ensures forall i :: 0 <= i < |corpus| ==> tokenizedCorpus[i] == SimpleTokenize(corpus[i])
    {
      this.corpus := corpus;
      this.vectors := vectors;
      this.tokenizedCorpus := seq(|corpus|, i requires 0 <= i < |corpus| => SimpleTokenize(corpus[i]));
    }
  }
}
