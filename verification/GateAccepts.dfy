/** What the gate accepts, exactly, told by how a compiler reads the inserted lines and what stands above them. */
module GateAccepts {
  import opened Wrappers
  import opened Tokens
  import opened Language
  import opened Gate
  import opened GateSoundness

  // ------------------------------------------------------------ one line's text

  const COMMENT_MARKS: set<Token> := {BlockOpen, SlashOpen, StarOpen, BlockClose, LineOpen}

  /** The code of a line holds no comment. */
  predicate Uncommented(ps: seq<Piece>) { forall p <- ps :: p.C? ==> p.t !in COMMENT_MARKS }

  predicate ClosesAt(text: Line, k: nat) {
    && k + 1 < |text| && text[k] == RParen && text[k + 1] == Semi && (k + 2 == |text| || text[k + 2] == LineOpen)
  }

  /** The text has a `);` at its end or before a `//`. */
  ghost predicate ClosesAgain(text: Line) { exists k: nat :: ClosesAt(text, k) }

  /** The code reads without a comment, and ends in code. */
  predicate Whole(code: Line) {
    EndMode(Code, code) == Code && |Pieces(Code, code)| == |code| && Uncommented(Pieces(Code, code))
  }

  predicate Remark(line: Line) { line == [] || line[0] == LineOpen }

  /** Read from code, the first part is one assertion in whose condition no effect is spotted; what follows it is a
      remark that does not end as an assertion does, if anything. */
  ghost predicate AssertsWith(code: Line, remark: Line) {
    && Whole(code) && Pieces(Code, code) != [] && Shaped(Pieces(Code, code))
    && Remark(remark) && !ClosesAgain(Collapse(remark))
  }

  ghost predicate AssertsTo(line: Line, n: nat) { n <= |line| && AssertsWith(line[..n], line[n..]) }

  ghost predicate Asserts(line: Line) { (forall t <- line :: !t.AssumeName?) && exists n: nat :: AssertsTo(line, n) }

  /** Neither joined to the line above nor to the one below. */
  predicate StandsAlone(lines: seq<Line>, j: nat)
    requires j < |lines|
  {
    (j > 0 ==> !Spliced(lines[j - 1])) && !Spliced(lines[j]) && Trigraph !in lines[j]
  }

  // ------------------------------------------------------- from pieces to the collapsed text

  lemma {:induction false} EndCons(m: Mode, t: Token, rest: Line)
    ensures EndMode(m, [t] + rest) == EndMode(Step(m, t).0, rest)
  {
    assert ([t] + rest)[1..] == rest;
  }

  /** A literal that ends has a closing quote. */
  lemma {:induction false} LiteralCloses(line: Line)
    requires EndMode(Literal, line) == Code
    ensures Quote in line
    decreases line
  {
    assert line == [line[0]] + line[1..];
    EndCons(Literal, line[0], line[1..]);
    if line[0] != Quote { LiteralCloses(line[1..]); }
  }

  lemma {:induction false} EndsBehindLiteral(inside: Line, tail: Line)
    requires Quote !in inside
    ensures EndMode(Literal, inside + [Quote] + tail) == EndMode(Code, tail)
    decreases inside
  {
    if inside == [] {
      assert [] + [Quote] + tail == [Quote] + tail;
      EndCons(Literal, Quote, tail);
    } else {
      assert inside + [Quote] + tail == [inside[0]] + (inside[1..] + [Quote] + tail);
      EndCons(Literal, inside[0], inside[1..] + [Quote] + tail);
      EndsBehindLiteral(inside[1..], tail);
    }
  }

  lemma {:induction false} FirstQuoteAt(inside: Line, tail: Line)
    requires Quote !in inside
    ensures Quote in inside + [Quote] + tail && FirstQuote(inside + [Quote] + tail) == |inside|
    decreases inside
  {
    var line := inside + [Quote] + tail;
    assert line[|inside|] == Quote;
    if inside != [] {
      assert line[1..] == inside[1..] + [Quote] + tail && line[0] == inside[0];
      FirstQuoteAt(inside[1..], tail);
    }
  }

  /** A literal in front of a line. */
  function Quoted(q: Token, inside: Line, tail: Line): Line { [q] + (inside + [Quote] + tail) }

  lemma {:induction false} CollapseQuoted(q: Token, inside: Line, tail: Line)
    requires IsQuote(q) && Quote !in inside
    ensures Collapse(Quoted(q, inside, tail)) == [EmptyLiteral] + Collapse(tail)
  {
    var line := Quoted(q, inside, tail);
    FirstQuoteAt(inside, tail);
    assert line[1..] == inside + [Quote] + tail;
    assert line[|inside| + 2..] == tail;
    CollapseLiteral(line, tail);
  }

  lemma {:induction false} CollapseToken(t: Token, rest: Line)
    requires !IsQuote(t)
    ensures Collapse([t] + rest) == [t] + Collapse(rest)
  {
    assert ([t] + rest)[1..] == rest;
  }

  lemma {:induction false} PiecesQuoted(q: Token, inside: Line, tail: Line)
    requires IsQuote(q) && Quote !in inside
    ensures Pieces(Code, Quoted(q, inside, tail)) == [C(q)] + AsChars(inside + [Quote]) + Pieces(Code, tail)
    ensures EndMode(Code, Quoted(q, inside, tail)) == EndMode(Code, tail)
    ensures WellQuoted(Pieces(Code, tail)) ==> WellQuoted(Pieces(Code, Quoted(q, inside, tail)))
    ensures WellQuoted(Pieces(Code, tail)) ==>
      Fold(Pieces(Code, Quoted(q, inside, tail))) == [EmptyLiteral] + Fold(Pieces(Code, tail))
  {
    LiteralRead(q, inside, tail);
    EndCons(Code, q, inside + [Quote] + tail);
    EndsBehindLiteral(inside, tail);
    if WellQuoted(Pieces(Code, tail)) { WellQuotedLiteral(q, AsChars(inside + [Quote]), Pieces(Code, tail)); }
  }

  /** `code` reads without a comment, and in front of anything it collapses by itself. */
  ghost predicate ReadsOff(code: Line, beyond: Line) {
    && EndMode(Code, code) == Code && |Pieces(Code, code)| == |code| && WellQuoted(Pieces(Code, code))
    && Collapse(code + beyond) == Fold(Pieces(Code, code)) + Collapse(beyond)
  }

  lemma {:induction false} OffNone(beyond: Line)
    ensures ReadsOff([], beyond)
  {
    assert [] + beyond == beyond;
  }

  lemma {:induction false} OffToken(t: Token, code: Line, beyond: Line)
    requires ReadsOff(code, beyond) && t !in MARKS && (t == Splice ==> code != [])
    ensures ReadsOff([t] + code, beyond) && Fold(Pieces(Code, [t] + code)) == [t] + Fold(Pieces(Code, code))
  {
    CollapseToken(t, code + beyond);
    EndCons(Code, t, code);
    ReadsToken(t, code, Fold(Pieces(Code, code)));
    InCode(t, code);
    CollapsesInFront([t], [t], code, beyond, Fold(Pieces(Code, code)));
  }

  /** Something more in front, of the line and of what it collapses to. */
  lemma {:induction false} CollapsesInFront(front: Line, folded: Line, code: Line, beyond: Line, behind: Line)
    requires Collapse(code + beyond) == behind + Collapse(beyond)
    requires Collapse(front + (code + beyond)) == folded + Collapse(code + beyond)
    ensures Collapse(front + code + beyond) == folded + behind + Collapse(beyond)
  {
    Associative(front, code, beyond);
    Associative(folded, behind, Collapse(beyond));
  }

  lemma {:induction false} OffLiteral(q: Token, inside: Line, code: Line, beyond: Line)
    requires IsQuote(q) && Quote !in inside && ReadsOff(code, beyond)
    ensures ReadsOff(Quoted(q, inside, code), beyond)
    ensures Fold(Pieces(Code, Quoted(q, inside, code))) == [EmptyLiteral] + Fold(Pieces(Code, code))
  {
    CollapseQuoted(q, inside, code + beyond);
    PiecesQuoted(q, inside, code);
    QuotedIs(q, inside, code);
    QuotedIs(q, inside, code + beyond);
    CollapsesInFront([q] + (inside + [Quote]), [EmptyLiteral], code, beyond, Fold(Pieces(Code, code)));
  }

  lemma QuotedIs(q: Token, inside: Line, tail: Line)
    ensures Quoted(q, inside, tail) == [q] + (inside + [Quote]) + tail
  {
  }

  /** The tokens before a literal's end, and those behind it. */
  lemma {:induction false} TakeLiteral(line: Line) returns (inside: Line, tail: Line)
    requires line != [] && IsQuote(line[0]) && Quote in line[1..]
    ensures Quote !in inside && line == Quoted(line[0], inside, tail)
  {
    var q := FirstQuote(line[1..]);
    inside, tail := line[1..][..q], line[1..][q + 1..];
    assert line[1..] == inside + [Quote] + tail;
  }

  /** Nothing in the first `m` tokens is a comment mark or a lone quote. */
  predicate Bare(code: Line, m: nat)
    requires m <= |code|
  {
    forall k :: 0 <= k < m ==> code[k] !in COMMENT_MARKS && !IsQuote(code[k])
  }

  /** A bare stretch of the collapsed line comes from a stretch of the line. */
  lemma {:induction false} Cut(line: Line, m: nat) returns (code: Line, beyond: Line)
    requires m <= |Collapse(line)| && Bare(Collapse(line), m) && (m > 0 ==> Collapse(line)[m - 1] != Splice)
    ensures line == code + beyond && ReadsOff(code, beyond) && |Fold(Pieces(Code, code))| == m
    decreases |line|, 1
  {
    if m == 0 {
      code, beyond := [], line;
      OffNone(line);
    } else if IsQuote(line[0]) && Quote in line[1..] {
      var inside, tail := TakeLiteral(line);
      code, beyond := CutPastLiteral(line[0], inside, tail, m);
    } else {
      CollapseOther(line);
      assert line == [line[0]] + line[1..];
      code, beyond := CutPastToken(line[0], line[1..], m);
    }
  }

  lemma {:induction false} CutPastLiteral(q: Token, inside: Line, tail: Line, m: nat) returns (code: Line, beyond: Line)
    requires IsQuote(q) && Quote !in inside && var whole := Collapse(Quoted(q, inside, tail));
      0 < m <= |whole| && Bare(whole, m) && whole[m - 1] != Splice
    ensures Quoted(q, inside, tail) == code + beyond && ReadsOff(code, beyond) && |Fold(Pieces(Code, code))| == m
    decreases |tail| + 1, 0
  {
    CollapseQuoted(q, inside, tail);
    BareTail(EmptyLiteral, Collapse(tail), m);
    var more;
    more, beyond := Cut(tail, m - 1);
    QuotedIs(q, inside, more);
    QuotedIs(q, inside, more + beyond);
    Associative([q] + (inside + [Quote]), more, beyond);
    OffLiteral(q, inside, more, beyond);
    code := Quoted(q, inside, more);
  }

  lemma {:induction false} CutPastToken(t: Token, rest: Line, m: nat) returns (code: Line, beyond: Line)
    requires var whole := Collapse([t] + rest);
      whole == [t] + Collapse(rest) && 0 < m <= |whole| && Bare(whole, m) && whole[m - 1] != Splice
    ensures [t] + rest == code + beyond && ReadsOff(code, beyond) && |Fold(Pieces(Code, code))| == m
    decreases |rest| + 1, 0
  {
    BareTail(t, Collapse(rest), m);
    var more;
    more, beyond := Cut(rest, m - 1);
    Associative([t], more, beyond);
    OffToken(t, more, beyond);
    code := [t] + more;
  }

  lemma BareTail(t: Token, code: Line, m: nat)
    requires 0 < m <= |code| + 1 && Bare([t] + code, m)
    ensures Bare(code, m - 1) && (t in MARKS ==> IsQuote(t) || t in COMMENT_MARKS) && t == ([t] + code)[0]
    ensures m > 1 ==> code[m - 2] == ([t] + code)[m - 1]
  {
    forall k | 0 <= k < m - 1 ensures code[k] !in COMMENT_MARKS && !IsQuote(code[k]) {
      assert code[k] == ([t] + code)[k + 1];
    }
  }

  /** Such code collapses by itself, whatever follows it. */
  lemma {:induction false} WholeReadsOff(code: Line, beyond: Line)
    requires Whole(code)
    ensures ReadsOff(code, beyond)
    decreases |code|, 1
  {
    if code == [] {
      OffNone(beyond);
    } else if IsQuote(code[0]) {
      WholeLiteral(code, beyond);
    } else {
      assert code == [code[0]] + code[1..];
      FirstShown(code[0], code[1..]);
      WholeReadsOff(code[1..], beyond);
      OffToken(code[0], code[1..], beyond);
    }
  }

  lemma {:induction false} WholeLiteral(code: Line, beyond: Line)
    requires Whole(code) && code != [] && IsQuote(code[0])
    ensures ReadsOff(code, beyond)
    decreases |code|, 0
  {
    assert code == [code[0]] + code[1..];
    EndCons(Code, code[0], code[1..]);
    LiteralCloses(code[1..]);
    var inside, tail := TakeLiteral(code);
    PiecesQuoted(code[0], inside, tail);
    UncommentedTail([C(code[0])] + AsChars(inside + [Quote]), Pieces(Code, tail));
    WholeReadsOff(tail, beyond);
    OffLiteral(code[0], inside, tail, beyond);
  }

  lemma {:induction false} NoMorePieces(m: Mode, line: Line)
    ensures |Pieces(m, line)| <= |line|
    decreases line
  {
    if line != [] { NoMorePieces(Step(m, line[0]).0, line[1..]); }
  }

  /** A token that is no quote, and hides nothing. */
  lemma {:induction false} FirstShown(t: Token, rest: Line)
    requires !IsQuote(t) && Whole([t] + rest)
    ensures t !in MARKS && (t == Splice ==> rest != []) && Pieces(Code, [t] + rest) == [C(t)] + Pieces(Code, rest)
    ensures Whole(rest)
  {
    assert ([t] + rest)[1..] == rest;
    NoMorePieces(Step(Code, t).0, rest);
    EndCons(Code, t, rest);
    assert Pieces(Code, [t] + rest)[0] == C(t);
    assert C(t) in Pieces(Code, [t] + rest);
    UncommentedTail([C(t)], Pieces(Step(Code, t).0, rest));
  }

  lemma UncommentedTail(a: seq<Piece>, b: seq<Piece>)
    requires Uncommented(a + b)
    ensures Uncommented(b)
  {
    forall p | p in b ensures p.C? ==> p.t !in COMMENT_MARKS { assert p in a + b; }
  }

  // ------------------------------------------------------------ one line, as the gate reads it

  /** The match the pattern takes is the last. */
  lemma {:induction false} GreedyIsLast(code: Line, from: nat, k: nat)
    requires MatchAt(code, k) && k <= from && forall i :: k < i <= from ==> !MatchAt(code, i)
    ensures GreedyMatch(code, from) == Some(k)
    decreases from
  {
    if from > k { GreedyIsLast(code, from - 1, k); }
  }

  lemma {:induction false} NoneBeyond(code: Line, from: nat, k: nat)
    requires GreedyMatch(code, from) == Some(k)
    ensures k <= from && forall i :: k < i <= from ==> !MatchAt(code, i)
    decreases from
  {
    if !MatchAt(code, from) { NoneBeyond(code, from - 1, k); }
  }

  /** An assertion, its literals folded, with a remark behind it. */
  lemma {:induction false} FoldFramed(ps: seq<Piece>)
    requires Framed(ps)
    ensures var code, inner := Fold(ps), Fold(ps[2..|ps| - 2]);
      |code| == |inner| + 4 && code[0].AssertName? && code[1] == LParen && code[2..|code| - 2] == inner
      && code[|code| - 2] == RParen && code[|code| - 1] == Semi
  {
    var inner := ps[2..|ps| - 2];
    assert ps == [ps[0], ps[1]] + inner + [C(RParen), C(Semi)];
    FoldAppend([ps[0], ps[1]] + inner, [C(RParen), C(Semi)]);
    FoldAppend([ps[0], ps[1]], inner);
    FoldTwo(ps[0].t, LParen);
    FoldTwo(RParen, Semi);
    Between(ps[0].t, LParen, Fold(inner), RParen, Semi);
  }

  lemma FoldOne(t: Token, rest: seq<Piece>)
    requires !IsQuote(t)
    ensures Fold([C(t)] + rest) == [t] + Fold(rest)
  {
    assert ([C(t)] + rest)[1..] == rest;
  }

  lemma FoldTwo(a: Token, b: Token)
    requires !IsQuote(a) && !IsQuote(b)
    ensures Fold([C(a), C(b)]) == [a, b]
  {
    FoldOne(a, [C(b)]);
    FoldOne(b, []);
  }

  lemma Between(a: Token, b: Token, inner: Line, c: Token, d: Token)
    ensures ([a, b] + inner + [c, d])[2..|inner| + 2] == inner
  {
  }

  /** What the pattern takes of an assertion with such a remark. */
  lemma {:induction false} MatchesOnce(code: Line, remark: Line)
    requires |code| >= 4 && code[0].AssertName? && code[1] == LParen
    requires code[|code| - 2] == RParen && code[|code| - 1] == Semi
    requires Remark(remark) && !ClosesAgain(remark)
    ensures MatchAssertion(code + remark) == Some(code[2..|code| - 2])
  {
    var whole, k := code + remark, |code| - 2;
    assert whole[|code|..] == remark;
    forall i | k < i <= |whole| ensures !MatchAt(whole, i) {
      if i >= |code| {
        ClosesInside(whole, |code|, i - |code|);
        assert !ClosesAt(remark, i - |code|);
      }
    }
    GreedyIsLast(whole, |whole|, k);
    assert whole[2..k] == code[2..k];
  }

  lemma {:induction false} CollapsedRemark(remark: Line)
    ensures Remark(remark) <==> Remark(Collapse(remark))
  {
  }

  predicate AfterQuotes(ps: seq<Piece>) {
    forall k :: 0 < k < |ps| && ps[k].Chars? ==> ps[k - 1].Chars? || IsQuote(ps[k - 1].t)
  }

  /** Folding shows no effect where none is spotted. */
  lemma {:induction false} NoEffectFolded(ps: seq<Piece>)
    requires NoneSpotted(ps) && AfterQuotes(ps)
    ensures !HasSideEffect(Fold(ps))
    decreases ps
  {
    if ps != [] {
      var rest := ps[1..];
      TailsToo(ps[0], rest, ps);
      NoEffectFolded(rest);
      if ps[0].C? {
        assert Fold(ps) == [if IsQuote(ps[0].t) then EmptyLiteral else ps[0].t] + Fold(rest);
        NotCalled(ps[0].t, rest, ps);
        EffectCons(if IsQuote(ps[0].t) then EmptyLiteral else ps[0].t, Fold(rest));
      }
    }
  }

  lemma {:induction false} TailsToo(p: Piece, rest: seq<Piece>, ps: seq<Piece>)
    requires ps == [p] + rest && NoneSpotted(ps) && AfterQuotes(ps)
    ensures NoneSpotted(rest) && AfterQuotes(rest) && (p.C? ==> !p.t.Effect? && p.t != Semi)
  {
    assert ps[0] == p && forall k :: 0 <= k < |rest| ==> rest[k] == ps[k + 1];
    forall q | q in rest ensures q in ps {}
  }

  lemma {:induction false} NotCalled(t: Token, rest: seq<Piece>, ps: seq<Piece>)
    requires ps == [C(t)] + rest && NoneSpotted(ps) && AfterQuotes(ps)
    ensures Spotted(t) ==> Fold(rest) == [] || Fold(rest)[0] != LParen
  {
    if rest != [] { assert ps[1] == rest[0] && ps[0] == C(t) && ps[1 - 1] == C(t); }
  }

  lemma {:induction false} EffectCons(t: Token, rest: Line)
    requires !t.Effect? && t != Semi && !HasSideEffect(rest)
    requires Spotted(t) ==> rest == [] || rest[0] != LParen
    ensures !HasSideEffect([t] + rest)
  {
    var all := [t] + rest;
    forall k | 0 < k < |all| && Spotted(all[k - 1]) ensures all[k] != LParen {
      assert all[k] == rest[k - 1];
      if k > 1 { assert all[k - 1] == rest[k - 2]; }
    }
  }

  /** What is folded is no comment mark and no quote. */
  lemma {:induction false} FoldBare(ps: seq<Piece>)
    requires Uncommented(ps)
    ensures forall t <- Fold(ps) :: t !in COMMENT_MARKS && !IsQuote(t)
    decreases ps
  {
    if ps != [] {
      UncommentedTail([ps[0]], ps[1..]);
      assert ps == [ps[0]] + ps[1..] && ps[0] in ps;
      FoldBare(ps[1..]);
    }
  }

  lemma {:induction false} BareFolded(ps: seq<Piece>)
    requires forall t <- Fold(ps) :: t !in COMMENT_MARKS
    ensures Uncommented(ps)
    decreases ps
  {
    if ps != [] {
      assert forall t <- Fold(ps[1..]) :: t in Fold(ps);
      BareFolded(ps[1..]);
      if ps[0].C? && !IsQuote(ps[0].t) { assert Fold(ps)[0] == ps[0].t; }
      assert forall p <- ps :: p == ps[0] || p in ps[1..];
    }
  }

  // ------------------------------------------------------------ why a line is refused

  /** The condition, as the gate's checks of it see it. */
  predicate Passes(args: Line) {
    && !(exists t <- args :: t in {BlockOpen, SlashOpen, StarOpen, BlockClose, LineOpen})
    && Quote !in args && RawQuote !in args && !HasSideEffect(args)
  }

  predicate Matches(line: Line) {
    MatchAssertion(Collapse(line)).Some? && Passes(MatchAssertion(Collapse(line)).value)
  }

  /** An assertion is matched, and its condition passes. */
  lemma {:induction false} AssertionMatches(code: Line, remark: Line)
    requires AssertsWith(code, remark)
    ensures Matches(code + remark)
  {
    WholeReadsOff(code, remark);
    CollapsedRemark(remark);
    var ps, rest := Pieces(Code, code), Collapse(remark);
    FramedMatches(ps, rest);
    assert Collapse(code + remark) == Fold(ps) + rest;
  }

  lemma {:induction false} FramedMatches(ps: seq<Piece>, rest: Line)
    requires Framed(ps) && NoneSpotted(ps[2..|ps| - 2]) && Uncommented(ps) && WellQuoted(ps)
    requires Remark(rest) && !ClosesAgain(rest)
    ensures MatchAssertion(Fold(ps) + rest).Some? && Passes(MatchAssertion(Fold(ps) + rest).value)
  {
    FoldFramed(ps);
    MatchesOnce(Fold(ps), rest);
    ConditionPasses(ps, ps[2..|ps| - 2]);
  }

  lemma {:induction false} ConditionPasses(ps: seq<Piece>, inner: seq<Piece>)
    requires Framed(ps) && inner == ps[2..|ps| - 2] && NoneSpotted(inner) && Uncommented(ps) && WellQuoted(ps)
    ensures Passes(Fold(inner))
  {
    assert ps == ps[..2] + inner + ps[|ps| - 2..] && forall p <- inner :: p in ps;
    FoldBare(inner);
    assert forall k :: 0 <= k < |inner| ==> inner[k] == ps[k + 2];
    NoEffectFolded(inner);
  }

  /** What is matched and passes is an assertion. */
  lemma {:induction false} MatchIsAssertion(line: Line) returns (n: nat)
    requires Matches(line)
    ensures AssertsTo(line, n)
  {
    var code := Collapse(line);
    var k := GreedyMatch(code, |code|).value;
    NoneBeyond(code, |code|, k);
    MatchedBare(code, k);
    var head, remark := Cut(line, k + 2);
    HeadIsAssertion(head, remark, code, k);
    n := |head|;
    assert line[..n] == head && line[n..] == remark;
  }

  lemma {:induction false} HeadIsAssertion(head: Line, remark: Line, code: Line, k: nat)
    requires ReadsOff(head, remark) && code == Collapse(head + remark) && |Fold(Pieces(Code, head))| == k + 2
    requires MatchAt(code, k) && code[0].AssertName? && code[1] == LParen && Bare(code, k + 2)
    requires !HasSideEffect(code[2..k]) && forall i :: k < i <= |code| ==> !MatchAt(code, i)
    ensures AssertsWith(head, remark)
  {
    var ps := Pieces(Code, head);
    HeadFolds(code, Fold(ps), Collapse(remark), k);
    FoldedAssertionIsHarmless(ps, code, k);
    BareFolded(ps);
    CollapsedRemark(remark);
  }

  lemma MatchedBare(code: Line, k: nat)
    requires MatchAt(code, k) && code[0].AssertName? && code[1] == LParen && Passes(code[2..k])
    ensures Bare(code, k + 2)
  {
    var args := code[2..k];
    forall i | 0 <= i < k + 2 ensures code[i] !in COMMENT_MARKS && !IsQuote(code[i]) {
      if 2 <= i < k {
        assert code[i] == args[i - 2];
        assert args[i - 2] in args;
      }
    }
  }

  lemma HeadFolds(code: Line, head: Line, rest: Line, k: nat)
    requires code == head + rest && |head| == k + 2 && MatchAt(code, k) && Bare(code, k + 2)
    requires forall i :: k < i <= |code| ==> !MatchAt(code, i)
    ensures head == code[..k + 2] && Remark(rest) && !ClosesAgain(rest) && forall t <- head :: t !in COMMENT_MARKS
  {
    assert rest == code[k + 2..];
    forall i: nat | ClosesAt(rest, i) ensures false {
      ClosesInside(code, k + 2, i);
    }
    forall t | t in head ensures t !in COMMENT_MARKS {
      var i :| 0 <= i < |head| && head[i] == t;
      assert code[i] == t;
    }
  }

  lemma ClosesInside(code: Line, from: nat, i: nat)
    requires 2 <= from <= |code|
    ensures ClosesAt(code[from..], i) <==> MatchAt(code, from + i)
  {
  }

  /** The nearest line above that shows code and is no directive is line `k`, and its code ends in `;`, `{` or `}`. */
  predicate ShowsEnd(scrubbed: seq<seq<Cell>>, k: nat, j: nat)
    requires j <= |scrubbed|
  {
    && k < j && !AllBlank(scrubbed[k]) && !IsDirective(scrubbed[k])
    && LastKept(scrubbed[k]) in {Kept(Semi), Kept(LBrace), Kept(RBrace)}
    && forall i :: k < i < j ==> AllBlank(scrubbed[i]) || IsDirective(scrubbed[i])
  }

  ghost predicate BelowEnd(scrubbed: seq<seq<Cell>>, j: nat)
    requires j <= |scrubbed|
  {
    exists k: nat :: ShowsEnd(scrubbed, k, j)
  }

  lemma {:induction false} TerminatesIff(scrubbed: seq<seq<Cell>>, j: nat)
    requires j <= |scrubbed|
    ensures Terminates(Above(scrubbed, j)) <==> BelowEnd(scrubbed, j)
    decreases j
  {
    if j > 0 {
      LooksFurther(scrubbed, j - 1);
      if PassedOver(scrubbed[j - 1]) {
        TerminatesIff(scrubbed, j - 1);
        EndPassesOver(scrubbed, j - 1);
      } else {
        EndIsHere(scrubbed, j - 1);
      }
    }
  }

  lemma {:induction false} EndPassesOver(scrubbed: seq<seq<Cell>>, j: nat)
    requires j < |scrubbed| && PassedOver(scrubbed[j])
    ensures BelowEnd(scrubbed, j) <==> BelowEnd(scrubbed, j + 1)
  {
    var below := j + 1;
    if k: nat :| ShowsEnd(scrubbed, k, j) { assert ShowsEnd(scrubbed, k, below); }
    if k: nat :| ShowsEnd(scrubbed, k, below) { assert ShowsEnd(scrubbed, k, j); }
  }

  lemma {:induction false} EndIsHere(scrubbed: seq<seq<Cell>>, j: nat)
    requires j < |scrubbed| && !PassedOver(scrubbed[j])
    ensures BelowEnd(scrubbed, j + 1) <==> Terminates(LastKept(scrubbed[j]))
  {
    var below := j + 1;
    if Terminates(LastKept(scrubbed[j])) { assert ShowsEnd(scrubbed, j, below); }
    if k: nat :| ShowsEnd(scrubbed, k, below) { assert k == j; }
  }

  /** A line is let in exactly if it stands alone and is a remark, or is an assertion without a word of assuming that
      shows and that stands below the end of a statement. */
  lemma {:induction false} UnrefusedIff(after: seq<Line>, scrubbed: seq<seq<Cell>>, j: nat)
    requires j < |after| == |scrubbed|
    ensures RefuseInsertion(after, scrubbed, j) == None
       <==> StandsAlone(after, j)
            && (Remark(after[j]) || (Asserts(after[j]) && !AllBlank(scrubbed[j]) && BelowEnd(scrubbed, j)))
  {
    TerminatesIff(scrubbed, j);
    MatchesIff(after[j]);
    ChecksIff(after, scrubbed, j);
  }

  lemma {:induction false} MatchesIff(line: Line)
    ensures Matches(line) <==> exists n: nat :: AssertsTo(line, n)
  {
    if Matches(line) { var n := MatchIsAssertion(line); }
    if n: nat :| AssertsTo(line, n) { AssertionMatchesAt(line, n); }
  }

  lemma {:induction false} AssertionMatchesAt(line: Line, n: nat)
    requires AssertsTo(line, n)
    ensures Matches(line)
  {
    AssertionMatches(line[..n], line[n..]);
    assert line[..n] + line[n..] == line;
  }

  lemma {:induction false} ChecksIff(after: seq<Line>, scrubbed: seq<seq<Cell>>, j: nat)
    requires j < |after| == |scrubbed|
    ensures RefuseInsertion(after, scrubbed, j) == None
       <==> StandsAlone(after, j)
            && (Remark(after[j])
                || ((forall t <- after[j] :: !t.AssumeName?) && Matches(after[j]) && !AllBlank(scrubbed[j])
                    && Terminates(Above(scrubbed, j))))
  {
  }

  // ------------------------------------------------------------ what stands above, as compiled

  /** Both readers start the line in code, and the gate sees what stands above it as it is. */
  predicate SeenRightly(vs: seq<View>, j: nat)
    requires j < |vs|
  {
    vs[j].start.seen == Code && vs[j].start.mode == Code && SeesPlainly(vs, j)
  }

  /** Up to the nearest line of code, no line is misread and none goes on with the next. */
  predicate SeesPlainly(vs: seq<View>, j: nat)
    requires j <= |vs|
  {
    j > 0 ==>
      && InTune(vs[j - 1]) && !Spliced(vs[j - 1].line)
      && (CodeOn(vs[j - 1]) == [] ==> SeesPlainly(vs, j - 1))
  }

  /** The nearest code above line `j` ends in `;`, `{` or `}`. */
  predicate FollowsEnd(vs: seq<View>, j: nat)
    requires j <= |vs|
  {
    j > 0 &&
      var ps := CodeOn(vs[j - 1]);
      if ps == [] then FollowsEnd(vs, j - 1) else IsTerminator(ps[|ps| - 1])
  }

  lemma {:induction false} FollowsIff(vs: seq<View>, scrubbed: seq<seq<Cell>>, j: nat)
    requires j <= |vs| == |scrubbed| && SeesPlainly(vs, j)
    requires forall k {:trigger Scrubs(vs, scrubbed, k)} :: 0 <= k < |vs| ==> Scrubs(vs, scrubbed, k)
    ensures Terminates(Above(scrubbed, j)) <==> FollowsEnd(vs, j)
    decreases j
  {
    if j > 0 {
      assert Scrubs(vs, scrubbed, j - 1);
      FollowsOne(vs, scrubbed, j - 1);
      if CodeOn(vs[j - 1]) == [] { FollowsIff(vs, scrubbed, j - 1); }
    }
  }

  /** One line up. */
  lemma {:induction false} FollowsOne(vs: seq<View>, scrubbed: seq<seq<Cell>>, j: nat)
    requires j < |vs| == |scrubbed| && InTune(vs[j]) && !Spliced(vs[j].line) && Scrubs(vs, scrubbed, j)
    ensures CodeOn(vs[j]) == [] ==>
              Above(scrubbed, j + 1) == Above(scrubbed, j) && FollowsEnd(vs, j + 1) == FollowsEnd(vs, j)
    ensures CodeOn(vs[j]) != [] ==> (Terminates(Above(scrubbed, j + 1)) <==> FollowsEnd(vs, j + 1))
  {
    LooksFurther(scrubbed, j);
    SilentIff(vs[j]);
    if CodeOn(vs[j]) != [] { LastPieceIff(vs[j].start.mode, vs[j].line); }
  }

  /** The gate passes over exactly the lines that have no code. */
  lemma {:induction false} SilentIff(v: View)
    requires InTune(v) && !Spliced(v.line)
    ensures CodeOn(v) == [] <==> PassedOver(Cells(v))
  {
    if AllBlank(Cells(v)) { BlankLine(v.start.mode, v.line); }
    if Pieces(v.start.mode, v.line) == [] { SaysNothing(v.start.mode, v.line); }
  }

  lemma {:induction false} SaysNothing(m: Mode, line: Line)
    requires Pieces(m, line) == [] && !Spliced(line)
    ensures AllBlank(ReadLine(m, line))
    decreases line
  {
    if line != [] {
      var rest := line[1..];
      assert line == [line[0]] + rest && (rest != [] ==> rest[|rest| - 1] == line[|line| - 1]);
      SaysNothing(Step(m, line[0]).0, rest);
      BlankCons(Blank, ReadLine(Step(m, line[0]).0, rest));
    }
  }

  lemma BlankCons(c: Cell, cells: seq<Cell>)
    requires AllBlank(cells)
    ensures AllBlank([c] + cells) <==> c == Blank
  {
    var all := [c] + cells;
    assert all[0] == c && all[0] in all;
  }

  /** The last piece of a line ends a statement exactly if its last shown token does. */
  lemma {:induction false} LastPieceIff(m: Mode, line: Line)
    requires m != Literal && !Spliced(line) && Pieces(m, line) != []
    ensures Terminates(LastKept(ReadLine(m, line))) <==> IsTerminator(Pieces(m, line)[|Pieces(m, line)| - 1])
  {
    if Terminates(LastKept(ReadLine(m, line))) { LastCellIsLastPiece(m, line); }
    if IsTerminator(Pieces(m, line)[|Pieces(m, line)| - 1]) { LastPieceIsLastCell(m, line); }
  }

  lemma {:induction false} LastPieceIsLastCell(m: Mode, line: Line)
    requires !Spliced(line) && Pieces(m, line) != [] && IsTerminator(Pieces(m, line)[|Pieces(m, line)| - 1])
    ensures Terminates(LastKept(ReadLine(m, line)))
    decreases line
  {
    var (m', k) := Step(m, line[0]);
    var rest := line[1..];
    assert line == [line[0]] + rest && (rest != [] ==> rest[|rest| - 1] == line[|line| - 1]);
    assert ReadLine(m, line)[1..] == ReadLine(m', rest);
    if Pieces(m', rest) != [] {
      LastPieceIsLastCell(m', rest);
    } else {
      SaysNothing(m', rest);
      NoLastKept(ReadLine(m', rest));
    }
  }

  lemma {:induction false} NoLastKept(cells: seq<Cell>)
    requires AllBlank(cells)
    ensures !LastKept(cells).Kept?
    decreases cells
  {
    if cells != [] {
      assert cells[0] in cells && forall c <- cells[1..] :: c in cells;
      NoLastKept(cells[1..]);
    }
  }

  // ------------------------------------------------------------ the whole rewrite

  /** The script inserts line `j`. */
  predicate Adding(op: Opcode, j: nat) { op.tag == Insert && op.j1 <= j < op.j2 }

  /** Line `j` is a remark, or an assertion below the end of a statement; it is joined to no other line. */
  ghost predicate LineFits(after: seq<Line>, j: nat)
    requires j < |after|
  {
    StandsAlone(after, j) && (Remark(after[j]) || (Asserts(after[j]) && FollowsEnd(Views(after), j)))
  }

  /** What the gate is for: lines are only added, all of them fit, one of them is an assertion, and what is kept scrubs
      as it did. */
  ghost predicate OnlyAsserts(before: seq<Line>, after: seq<Line>, ops: seq<Opcode>) {
    && (forall op <- ops :: op.tag == Equal || op.tag == Insert)
    && (forall line <- before :: RawQuote !in line)
    && (forall line <- after :: line == [] || line[0] != Hash(RedefineAssert))
    && (forall op <- ops :: op.tag == Equal && op.i1 <= op.i2 <= |before| && op.j1 <= op.j2 <= |after| ==>
         ScrubAll(before)[op.i1..op.i2] == ScrubAll(after)[op.j1..op.j2])
    && (forall op <- ops, j: nat :: Adding(op, j) && j < |after| ==> LineFits(after, j))
    && exists op <- ops, j: nat :: Adding(op, j) && j < |after| && !Remark(after[j])
  }

  /** Where the gate sees every inserted line rightly, it accepts exactly the rewrites that only add assertions. */
  lemma {:induction false} AcceptedIff(before: seq<Line>, after: seq<Line>, ops: seq<Opcode>)
    requires ValidScript(ops, before, after, 0, 0)
    requires forall op <- ops, j: nat :: Adding(op, j) && j < |after| ==> SeenRightly(Views(after), j)
    ensures Accepts(before, after, ops) <==> OnlyAsserts(before, after, ops)
  {
    ScriptInRange(ops, before, after, 0, 0);
    ScriptInserts(ops, before, after, 0, 0);
    var sn := ScrubAll(after);
    if OnlyInserts(ops) {
      forall op | op in ops ensures OpFine(op, after, ScrubAll(before), sn) <==> OpFits(op, before, after) {
        OpFineIff(op, before, after);
      }
      if OnlyAsserts(before, after, ops) { FitsAdds(before, after, ops); }
      if Accepts(before, after, ops) { AddsFits(before, after, ops); }
    }
  }

  ghost predicate OpFits(op: Opcode, before: seq<Line>, after: seq<Line>) {
    && (op.tag == Equal && op.i1 <= op.i2 <= |before| && op.j1 <= op.j2 <= |after| ==>
         ScrubAll(before)[op.i1..op.i2] == ScrubAll(after)[op.j1..op.j2])
    && forall j: nat :: Adding(op, j) && j < |after| ==> LineFits(after, j)
  }

  /** An insertion takes nothing. */
  lemma {:induction false} ScriptInserts(ops: seq<Opcode>, before: seq<Line>, after: seq<Line>, i: nat, j: nat)
    requires ValidScript(ops, before, after, i, j)
    ensures forall op <- ops :: op.tag == Insert ==> op.i1 == op.i2
    decreases ops
  {
    if ops != [] {
      ScriptInserts(ops[1..], before, after, ops[0].i2, ops[0].j2);
      assert ops == [ops[0]] + ops[1..];
    }
  }

  lemma {:induction false} OpFineIff(op: Opcode, before: seq<Line>, after: seq<Line>)
    requires op.tag == Equal || op.tag == Insert
    requires op.i1 <= op.i2 <= |before| && op.j1 <= op.j2 <= |after|
    requires forall j: nat :: Adding(op, j) && j < |after| ==> SeenRightly(Views(after), j)
    ensures OpFine(op, after, ScrubAll(before), ScrubAll(after)) <==> OpFits(op, before, after)
  {
    if op.tag == Insert {
      forall j: nat | op.j1 <= j < op.j2
        ensures Adding(op, j) && (RefuseInsertion(after, ScrubAll(after), j) == None <==> LineFits(after, j))
      {
        assert Adding(op, j);
        FitsIff(after, j);
      }
    }
  }

  lemma {:induction false} FitsIff(after: seq<Line>, j: nat)
    requires j < |after| && SeenRightly(Views(after), j)
    ensures RefuseInsertion(after, ScrubAll(after), j) == None <==> LineFits(after, j)
    ensures LineFits(after, j) ==> (AllBlank(ScrubAll(after)[j]) <==> Remark(after[j]))
  {
    var vs, sn := Views(after), ScrubAll(after);
    UnrefusedIff(after, sn, j);
    TerminatesIff(sn, j);
    forall i | 0 <= i < |vs| ensures Scrubs(vs, sn, i) {}
    FollowsIff(vs, sn, j);
    ShowsIff(after, j);
  }

  /** A line read from code shows something if it is an assertion, and nothing if it is a remark. */
  lemma {:induction false} ShowsIff(after: seq<Line>, j: nat)
    requires j < |after| && Views(after)[j].start.seen == Code
    ensures Remark(after[j]) ==> AllBlank(ScrubAll(after)[j])
    ensures Asserts(after[j]) ==> !AllBlank(ScrubAll(after)[j])
  {
    var line := after[j];
    assert ScrubAll(after)[j] == ScrubLine(Code, line);
    if Remark(line) && line != [] {
      TrailingIsBlank(line[1..]);
      BlankCons(Blank, ScrubLine(Trailing, line[1..]));
    }
    if Asserts(line) {
      var n: nat :| AssertsTo(line, n);
      FirstOfAssertion(line[..n]);
      assert line[0] == line[..n][0];
      ShownFirst(line);
    }
  }

  lemma {:induction false} ShownFirst(line: Line)
    requires line != [] && line[0].AssertName?
    ensures !AllBlank(ScrubLine(Code, line))
  {
    assert ScrubLine(Code, line)[0] == Kept(line[0]);
    assert ScrubLine(Code, line)[0] in ScrubLine(Code, line);
  }

  lemma {:induction false} FirstOfAssertion(code: Line)
    requires Whole(code) && Framed(Pieces(Code, code))
    ensures code != [] && code[0].AssertName?
  {
    if code != [] && !IsQuote(code[0]) {
      assert code == [code[0]] + code[1..];
      FirstShown(code[0], code[1..]);
    }
  }

  lemma {:induction false} TrailingIsBlank(line: Line)
    ensures AllBlank(ScrubLine(Trailing, line))
    decreases line
  {
    if line != [] {
      TrailingIsBlank(line[1..]);
      BlankCons(Blank, ScrubLine(Trailing, line[1..]));
    }
  }

  lemma {:induction false} FitsAdds(before: seq<Line>, after: seq<Line>, ops: seq<Opcode>)
    requires OnlyAsserts(before, after, ops)
    requires forall op <- ops :: op.j1 <= op.j2 <= |after|
    requires forall op <- ops, j: nat :: Adding(op, j) && j < |after| ==> SeenRightly(Views(after), j)
    ensures Adds(ops, ScrubAll(after))
  {
    var op, j: nat :| op in ops && Adding(op, j) && j < |after| && !Remark(after[j]);
    FitsIff(after, j);
    assert OpAdds(op, ScrubAll(after));
  }

  lemma {:induction false} AddsFits(before: seq<Line>, after: seq<Line>, ops: seq<Opcode>)
    requires Adds(ops, ScrubAll(after))
    requires forall op <- ops, j: nat :: Adding(op, j) && j < |after| ==> SeenRightly(Views(after), j)
    ensures exists op <- ops, j: nat :: Adding(op, j) && j < |after| && !Remark(after[j])
  {
    var op :| op in ops && OpAdds(op, ScrubAll(after));
    var j: nat :| op.j1 <= j < op.j2 <= |ScrubAll(after)| && !AllBlank(ScrubAll(after)[j]);
    assert Adding(op, j);
    ShowsIff(after, j);
  }

  // ------------------------------------------------------------ assertions that only read

  /** Read from code, the line is one assertion that cannot write, without a comment in it; what follows it is a remark
      that does not end as an assertion does, if anything. */
  ghost predicate AssertsPurely(effects: set<string>, line: Line, n: nat) {
    && 0 < n <= |line| && Whole(line[..n]) && Remark(line[n..]) && !ClosesAgain(Collapse(line[n..]))
    && var ps := Pieces(Code, line[..n]);
    && ps[n - 1] == C(Semi) && IsAssertion(effects, ps[..n - 1])
  }

  ghost predicate FitsPurely(effects: set<string>, after: seq<Line>, j: nat)
    requires j < |after|
  {
    && StandsAlone(after, j)
    && (Remark(after[j])
        || ((forall t <- after[j] :: !t.AssumeName?) && (exists n: nat :: AssertsPurely(effects, after[j], n))
            && FollowsEnd(Views(after), j)))
  }

  /** Such a rewrite, the lines added being remarks and at least one assertion that cannot write, is let through. */
  lemma {:induction false} PureAssertionsPass(effects: set<string>, before: seq<Line>, after: seq<Line>, ops: seq<Opcode>)
    requires ValidScript(ops, before, after, 0, 0)
    requires forall op <- ops :: op.tag == Equal || op.tag == Insert
    requires forall line <- before :: RawQuote !in line
    requires forall line <- after :: line == [] || line[0] != Hash(RedefineAssert)
    requires forall op <- ops :: op.tag == Equal && op.i1 <= op.i2 <= |before| && op.j1 <= op.j2 <= |after| ==>
               ScrubAll(before)[op.i1..op.i2] == ScrubAll(after)[op.j1..op.j2]
    requires forall op <- ops, j: nat :: Adding(op, j) && j < |after| ==>
               SeenRightly(Views(after), j) && FitsPurely(effects, after, j)
    requires exists op <- ops, j: nat :: Adding(op, j) && j < |after| && !Remark(after[j])
    ensures Accepts(before, after, ops)
  {
    forall op, j: nat | op in ops && Adding(op, j) && j < |after| ensures LineFits(after, j) {
      if n: nat :| AssertsPurely(effects, after[j], n) { PureIsShaped(effects, after[j], n); }
    }
    AcceptedIff(before, after, ops);
  }

  lemma {:induction false} PureIsShaped(effects: set<string>, line: Line, n: nat)
    requires AssertsPurely(effects, line, n)
    ensures AssertsTo(line, n)
  {
    HarmlessIff(effects, Pieces(Code, line[..n]));
  }

  // ------------------------------------------------------------ what is spotted

  /** A name is spotted exactly if it begins with an ASCII letter or `_`; a keyword always is, `sizeof` never. */
  lemma SpottedIff(t: Token)
    ensures Spotted(t) <==>
      || (t.Ident? && t.name != "" && var c := t.name[0] as int; 65 <= c <= 90 || c == 95 || 97 <= c <= 122)
      || t.AssertName? || t.AssumeName? || t in {If, Else, While, For, Do, Switch, Case, Default}
  {
    assert 'A' as int == 65 && 'Z' as int == 90 && 'a' as int == 97 && 'z' as int == 122 && '_' as int == 95;
    if t.Ident? && t.name != "" { assert (t.name[0] == '_') == (t.name[0] as int == 95); }
  }
}
