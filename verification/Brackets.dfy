/** Bracket matching over scrubbed text, forwards and backwards. */
module Brackets {
  import opened Wrappers

  /** The brackets, each with the one that closes it. */
  const PAIRS: set<(char, char)> := {('(', ')'), ('[', ']'), ('{', '}'), ('<', '>')}

  predicate IsOpener(c: char) { c == '(' || c == '[' || c == '{' || c == '<' }

  function Closer(opener: char): char
    requires IsOpener(opener)
  {
    match opener case '(' => ')' case '[' => ']' case '{' => '}' case _ => '>'
  }

  function Weight(open: char, close: char, c: char): int {
    if c == open then 1 else if c == close then -1 else 0
  }

  /** Openers less closers in `text[i..j]`. */
  function Net(text: string, open: char, close: char, i: nat, j: nat): int
    requires i <= j <= |text|
    decreases j - i
  {
    if i == j then 0 else Net(text, open, close, i, j - 1) + Weight(open, close, text[j - 1])
  }

  /** A scan from `i` stands at depth zero on a closer at `j`. */
  predicate ClosesAt(text: string, open: char, close: char, i: nat, j: nat) {
    i <= j < |text| && text[j] == close && Net(text, open, close, i, j + 1) == 0
  }

  /** `j` is the first such place. */
  ghost predicate FirstClose(text: string, open: char, close: char, i: nat, j: nat) {
    ClosesAt(text, open, close, i, j) && forall k: nat :: k < j ==> !ClosesAt(text, open, close, i, k)
  }

  /** A scan back from `j` stands at depth zero on an opener at `i`. */
  predicate OpensAt(text: string, open: char, close: char, i: nat, j: nat) {
    i <= j < |text| && text[i] == open && Net(text, open, close, i, j + 1) == 0
  }

  /** `i` is the last such place. */
  ghost predicate LastOpen(text: string, open: char, close: char, i: nat, j: nat) {
    OpensAt(text, open, close, i, j) && forall k: nat :: i < k ==> !OpensAt(text, open, close, k, j)
  }

  // -------------------------------------------------------------- the code

  /** `match_bracket`; `None` is its `SignatureError`. */
  method MatchBracket(text: string, start: nat) returns (r: Option<nat>)
    requires start < |text| && exists close :: (text[start], close) in PAIRS
    ensures forall close :: (text[start], close) in PAIRS ==>
              if r.Some? then FirstClose(text, text[start], close, start, r.value)
              else NeverCloses(text, text[start], close, start)
  {
    var open := text[start];
    var close := Closer(open);
    var depth := 0;
    for i := start to |text|
      invariant depth == Net(text, open, close, start, i)
      invariant forall k: nat :: k < i ==> !ClosesAt(text, open, close, start, k)
    {
      if text[i] == open {
        depth := depth + 1;
      } else if text[i] == close {
        depth := depth - 1;
        if depth == 0 { return Some(i); }
      }
    }
    return None;
  }

  lemma {:induction false} NetSplit(text: string, open: char, close: char, i: nat, k: nat, j: nat)
    requires i <= k <= j <= |text|
    ensures Net(text, open, close, i, j) == Net(text, open, close, i, k) + Net(text, open, close, k, j)
    decreases j - k
  {
    if k < j { NetSplit(text, open, close, i, k, j - 1); }
  }

  /** `_matching_open`. */
  method MatchingOpen(text: string, close: nat) returns (r: Option<nat>)
    requires close < |text|
    ensures r.Some? ==> LastOpen(text, '{', '}', r.value, close)
    ensures r.None? ==> forall i: nat :: !OpensAt(text, '{', '}', i, close)
  {
    var depth := 0;
    for i := close + 1 downto 0
      invariant depth == -Net(text, '{', '}', i, close + 1)
      invariant forall k: nat :: i <= k ==> !OpensAt(text, '{', '}', k, close)
    {
      NetSplit(text, '{', '}', i, i + 1, close + 1);
      assert Net(text, '{', '}', i, i + 1) == Weight('{', '}', text[i]) + Net(text, '{', '}', i, i);
      if text[i] == '}' {
        depth := depth + 1;
      } else if text[i] == '{' {
        depth := depth - 1;
        if depth == 0 { return Some(i); }
      }
    }
    return None;
  }

  // ------------------------------------------------------------ the theorems

  /** Until its match, a scan that starts on an opener is inside it. */
  lemma {:induction false} PrefixIsOpen(text: string, open: char, close: char, i: nat, k: nat)
    requires open != close && i < k <= |text| && text[i] == open
    requires forall m: nat :: m < k ==> !ClosesAt(text, open, close, i, m)
    ensures Net(text, open, close, i, k) > 0
    decreases k
  {
    if k == i + 1 {
      assert Net(text, open, close, i, i) == 0;
    } else {
      PrefixIsOpen(text, open, close, i, k - 1);
      assert !ClosesAt(text, open, close, i, k - 1);
    }
  }

  lemma {:induction false} SuffixIsClosed(text: string, open: char, close: char, k: nat, j: nat)
    requires open != close && k <= j < |text| && text[j] == close
    requires forall m: nat :: k <= m ==> !OpensAt(text, open, close, m, j)
    ensures Net(text, open, close, k, j + 1) < 0
    decreases j - k
  {
    NetSplit(text, open, close, k, k + 1, j + 1);
    assert Net(text, open, close, k, k + 1) == Net(text, open, close, k, k) + Weight(open, close, text[k]);
    if k == j {
      assert Net(text, open, close, j + 1, j + 1) == 0;
    } else {
      SuffixIsClosed(text, open, close, k + 1, j);
      assert !OpensAt(text, open, close, k, j);
    }
  }

  lemma MatchedPrefixes(text: string, open: char, close: char, i: nat, j: nat)
    requires open != close && i < |text| && text[i] == open && FirstClose(text, open, close, i, j)
    ensures forall k :: i < k <= j ==> Net(text, open, close, i, k) > 0
  {
    forall k | i < k <= j ensures Net(text, open, close, i, k) > 0 { PrefixIsOpen(text, open, close, i, k); }
  }

  /** Forwards and backwards find each other: `match_bracket` of the opener at `i` is `j` exactly when
      `_matching_open` of the closer at `j` is `i`. */
  lemma MatchingIsMutual(text: string, open: char, close: char, i: nat, j: nat)
    requires open != close && i <= j < |text| && text[i] == open && text[j] == close
    ensures FirstClose(text, open, close, i, j) <==> LastOpen(text, open, close, i, j)
  {
    if FirstClose(text, open, close, i, j) {
      MatchedPrefixes(text, open, close, i, j);
      forall k: nat | i < k ensures !OpensAt(text, open, close, k, j) {
        if k <= j { NetSplit(text, open, close, i, k, j + 1); }
      }
    }
    if LastOpen(text, open, close, i, j) {
      forall k: nat | k < j ensures !ClosesAt(text, open, close, i, k) {
        if i <= k {
          SuffixIsClosed(text, open, close, k + 1, j);
          NetSplit(text, open, close, i, k + 1, j + 1);
        }
      }
    }
  }

  ghost predicate NeverCloses(text: string, open: char, close: char, i: nat) {
    forall j: nat :: !ClosesAt(text, open, close, i, j)
  }

  ghost predicate StaysOpen(text: string, open: char, close: char, i: nat) {
    forall k :: i < k <= |text| ==> Net(text, open, close, i, k) > 0
  }

  /** `match_bracket` raises exactly when the scan never leaves the bracket. */
  lemma UnbalancedIff(text: string, open: char, close: char, i: nat)
    requires open != close && i < |text| && text[i] == open
    ensures NeverCloses(text, open, close, i) <==> StaysOpen(text, open, close, i)
  {
    if NeverCloses(text, open, close, i) {
      forall k | i < k <= |text| ensures Net(text, open, close, i, k) > 0 { PrefixIsOpen(text, open, close, i, k); }
    } else {
      var j: nat :| ClosesAt(text, open, close, i, j);
      assert Net(text, open, close, i, j + 1) == 0;
    }
  }

  /** Brackets nest: an opener inside a matched pair has its match there, before the pair's own closer. */
  lemma InnerPairsNest(text: string, open: char, close: char, i: nat, j: nat, k: nat) returns (l: nat)
    requires open != close && i < k < j < |text| && text[i] == open && FirstClose(text, open, close, i, j)
    requires text[k] == open
    ensures k < l < j && FirstClose(text, open, close, k, l)
  {
    MatchedPrefixes(text, open, close, i, j);
    NetSplit(text, open, close, i, k, j + 1);
    if forall m: nat :: m < j + 1 ==> !ClosesAt(text, open, close, k, m) {
      PrefixIsOpen(text, open, close, k, j + 1);
    }
    var m: nat :| m <= j && ClosesAt(text, open, close, k, m);
    l := LeastClose(text, open, close, k, m);
    NetSplit(text, open, close, i, k, l + 1);
  }

  lemma {:induction false} LeastClose(text: string, open: char, close: char, i: nat, m: nat) returns (l: nat)
    requires ClosesAt(text, open, close, i, m)
    ensures l <= m && FirstClose(text, open, close, i, l)
    decreases m
  {
    if k: nat :| k < m && ClosesAt(text, open, close, i, k) {
      l := LeastClose(text, open, close, i, k);
    } else {
      l := m;
    }
  }
}
