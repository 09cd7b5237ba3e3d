/** What the gate makes sure of, line by line: kept lines align and scrub alike, and an unrefused one is nothing or one
    assertion in which it spots no effect, standing where it sees the end of a statement. */
module GateSoundness {
  import opened Wrappers
  import opened Tokens
  import opened Language
  import opened Gate

  // ------------------------------------------------------------ the alignment

  /** Which lines of `after` the script inserted. */
  function Flags(ops: seq<Opcode>): seq<bool> {
    if ops == [] then []
    else
      var op := ops[0];
      (if op.j1 <= op.j2 then seq(op.j2 - op.j1, _ => op.tag == Insert) else []) + Flags(ops[1..])
  }

  /** From line `j` on, `after` is `before` from line `i` on with the flagged lines added, and every other line
      scrubs to the same cells in both. */
  ghost predicate Agrees(after: seq<View>, flags: seq<bool>, j: nat, before: seq<View>, i: nat)
    requires |flags| == |after| && j <= |after| && i <= |before|
    decreases |after| - j
  {
    if j == |after| then i == |before|
    else if flags[j] then Agrees(after, flags, j + 1, before, i)
    else
      && i < |before| && before[i].line == after[j].line && Cells(before[i]) == Cells(after[j])
      && Agrees(after, flags, j + 1, before, i + 1)
  }

  /** An opcode without its first line. */
  function Peel(op: Opcode): Opcode {
    op.(i1 := if op.tag == Insert then op.i1 else op.i1 + 1, j1 := op.j1 + 1)
  }

  lemma {:induction false} PeelFlags(op: Opcode, ops: seq<Opcode>)
    requires op.j1 < op.j2
    ensures Flags([op] + ops) == [op.tag == Insert] + Flags([Peel(op)] + ops)
  {
    var insert := op.tag == Insert;
    assert ([op] + ops)[1..] == ops == ([Peel(op)] + ops)[1..];
    assert seq(op.j2 - op.j1, _ => insert) == [insert] + seq(op.j2 - op.j1 - 1, _ => insert);
  }

  /** What passes of an opcode passes of the rest of it, and a kept first line is the same in both. */
  lemma {:induction false} PeelFine(op: Opcode, before: seq<Line>, after: seq<Line>, so: seq<seq<Cell>>, sn: seq<seq<Cell>>)
    requires |before| == |so| && |after| == |sn| && OpFine(op, after, so, sn) && op.j1 < op.j2
    requires op.tag == Equal ==> before[op.i1..op.i2] == after[op.j1..op.j2]
    requires op.tag == Equal || (op.tag == Insert && op.i1 == op.i2)
    ensures OpFine(Peel(op), after, so, sn)
    ensures op.tag == Equal ==> op.i1 < op.i2 && before[op.i1] == after[op.j1] && so[op.i1] == sn[op.j1]
    ensures op.tag == Equal ==> before[op.i1 + 1..op.i2] == after[op.j1 + 1..op.j2]
  {
    if op.tag == Equal {
      var i, j := op.i1, op.j1;
      assert before[i] == before[i..op.i2][0] == after[j..op.j2][0];
      assert so[i] == so[i..op.i2][0] == sn[j..op.j2][0];
      assert before[i + 1..op.i2] == before[i..op.i2][1..] && after[j + 1..op.j2] == after[j..op.j2][1..];
      assert so[i + 1..op.i2] == so[i..op.i2][1..] && sn[j + 1..op.j2] == sn[j..op.j2][1..];
    }
  }

  ghost predicate AllFine(ops: seq<Opcode>, before: seq<Line>, after: seq<Line>) {
    OnlyInserts(ops) && forall op <- ops :: OpFine(op, after, ScrubAll(before), ScrubAll(after))
  }

  /** The script without its first line is a script, and passes if the whole does. */
  lemma {:induction false} PeelScript(before: seq<Line>, after: seq<Line>, op: Opcode, ops: seq<Opcode>, i: nat, j: nat)
    requires ValidScript([op] + ops, before, after, i, j) && op.j1 < op.j2 && AllFine([op] + ops, before, after)
    ensures AllFine([Peel(op)] + ops, before, after)
    ensures op.tag == Equal ==> op.i1 < op.i2 && before[i] == after[j] && ScrubAll(before)[i] == ScrubAll(after)[j]
    ensures Peel(op).i1 <= |before| && ValidScript([Peel(op)] + ops, before, after, Peel(op).i1, j + 1)
  {
    assert ([op] + ops)[1..] == ops == ([Peel(op)] + ops)[1..];
    assert op in [op] + ops;
    assert forall o :: o in ops ==> o in [op] + ops;
    PeelFine(op, before, after, ScrubAll(before), ScrubAll(after));
  }

  /** Reads one line at a time off the script. */
  lemma {:induction false} ScriptAgrees(before: seq<Line>, after: seq<Line>, flags: seq<bool>, ops: seq<Opcode>, i: nat,
      j: nat)
    requires ValidScript(ops, before, after, i, j) && i <= |before| && j <= |after| && AllFine(ops, before, after)
    requires |flags| == |after| && flags[j..] == Flags(ops)
    ensures Agrees(Views(after), flags, j, Views(before), i)
    decreases |ops| + |after| - j
  {
    if ops != [] {
      var op, more := ops[0], ops[1..];
      assert OpFine(op, after, ScrubAll(before), ScrubAll(after));
      if op.j1 == op.j2 {
        assert Flags(ops) == Flags(more);
        ScriptAgrees(before, after, flags, more, i, j);
      } else {
        assert ops == [op] + more;
        PeelScript(before, after, op, more, i, j);
        PeelFlags(op, more);
        assert flags[j] == flags[j..][0] && flags[j + 1..] == flags[j..][1..];
        ScriptAgrees(before, after, flags, [Peel(op)] + more, Peel(op).i1, j + 1);
      }
    }
  }

  // ------------------------------------------- reading a kept line, both ways

  /** A line with the same blanks from two modes reads alike from both, outside literals. */
  lemma {:induction false} SameCellsSamePieces(ma: Mode, mb: Mode, line: Line)
    requires ma == Literal <==> mb == Literal
    requires ReadLine(ma, line) == ReadLine(mb, line)
    ensures Pieces(ma, line) == Pieces(mb, line)
    decreases line
  {
    if line != [] {
      var (ma', ka) := Step(ma, line[0]);
      var (mb', kb) := Step(mb, line[0]);
      assert line == [line[0]] + line[1..];
      SameCellsStep(ma, mb, line[0], line[1..]);
      SameCellsSamePieces(ma', mb', line[1..]);
    }
  }

  lemma {:induction false} SameCellsStep(ma: Mode, mb: Mode, t: Token, rest: Line)
    requires ma == Literal <==> mb == Literal
    requires ReadLine(ma, [t] + rest) == ReadLine(mb, [t] + rest)
    ensures Step(ma, t).1 == Step(mb, t).1 && (Step(ma, t).0 == Literal <==> Step(mb, t).0 == Literal)
    ensures ReadLine(Step(ma, t).0, rest) == ReadLine(Step(mb, t).0, rest)
  {
    assert ([t] + rest)[1..] == rest;
    assert ReadLine(ma, [t] + rest)[0] == ReadLine(mb, [t] + rest)[0];
    assert ReadLine(ma, [t] + rest)[1..] == ReadLine(mb, [t] + rest)[1..];
  }

  /** A line that reads as blank says nothing, unless it is the inside of a literal. */
  lemma {:induction false} BlankLine(m: Mode, line: Line)
    requires AllBlank(ReadLine(m, line)) && m != Literal
    ensures Pieces(m, line) == []
    decreases line
  {
    if line != [] {
      var (m', k) := Step(m, line[0]);
      assert ReadLine(m, line)[0] in ReadLine(m, line);
      assert forall c <- ReadLine(m', line[1..]) :: c in ReadLine(m, line);
      BlankLine(m', line[1..]);
    }
  }

  lemma {:induction false} NoneKept(cells: seq<Cell>)
    requires !LastKept(cells).Kept?
    ensures AllBlank(cells)
    decreases cells
  {
    if cells != [] {
      NoneKept(cells[1..]);
      assert forall c <- cells :: c == cells[0] || c in cells[1..];
    }
  }

  /** Whether the last piece so far ends a statement or opens or closes a block. */
  predicate EndsOk(ps: seq<Piece>, ok: bool) {
    (ps == [] && ok) || (ps != [] && IsTerminator(ps[|ps| - 1]))
  }

  /** A line whose last kept cell is `;`, `{` or `}` has it as its last piece. */
  lemma {:induction false} LastCellIsLastPiece(m: Mode, line: Line)
    requires Terminates(LastKept(ReadLine(m, line)))
    ensures EndsOk(Pieces(m, line), false)
    decreases line
  {
    if line != [] {
      var (m', k) := Step(m, line[0]);
      var rest := ReadLine(m', line[1..]);
      assert ReadLine(m, line)[1..] == rest;
      if LastKept(rest).Kept? {
        LastCellIsLastPiece(m', line[1..]);
      } else {
        NoneKept(rest);
        BlankLine(m', line[1..]);
      }
    }
  }

  /** Whether the program above line `j` ends where a statement may begin, from what the lines contribute. */
  predicate ReadyAt(cs: seq<seq<Piece>>, j: nat)
    requires j <= |cs|
  {
    j > 0 && EndsOk(cs[j - 1], ReadyAt(cs, j - 1))
  }

  predicate Ready(pp: Preprocessor, vs: seq<View>, j: nat)
    requires j <= |vs|
  {
    ReadyAt(CompiledAll(pp, vs), j)
  }

  /** `scrub` blanks of the line what the compiler takes for comments and literals, and the line is a directive's exactly
      if it looks like a directive. */
  predicate InTune(v: View) {
    v.start.mode != Literal && Cells(v) == ReadLine(v.start.mode, v.line) && Role(v) == KindOf(Cells(v))
  }

  /** A directive that may skip code, or pull some in. */
  predicate Meddles(kind: Option<DirectiveKind>) { kind == Some(Conditional) || kind == Some(Include) }

  /** Looking up from line `j` to the nearest line of code, the gate reads every line rightly, and passes no
      directive that may skip or pull in code. */
  predicate SeesAbove(vs: seq<View>, j: nat)
    requires j <= |vs|
  {
    j > 0 ==>
      var v := vs[j - 1];
      && InTune(v)
      && if AllBlank(Cells(v)) then SeesAbove(vs, j - 1)
         else KindOf(Cells(v)).Some? ==> !Meddles(KindOf(Cells(v))) && SeesAbove(vs, j - 1)
  }

  predicate Scrubs(vs: seq<View>, scrubbed: seq<seq<Cell>>, j: nat)
    requires j < |vs| == |scrubbed|
  {
    scrubbed[j] == Cells(vs[j])
  }

  /** Then what the gate finds is what the program ends with. */
  lemma {:induction false} AboveIsReady(pp: Preprocessor, vs: seq<View>, scrubbed: seq<seq<Cell>>, j: nat)
    requires j <= |vs| == |scrubbed| && Sectioned(pp) && SeesAbove(vs, j) && pp.keeps(Directives(vs, j))
    requires (forall k {:trigger Scrubs(vs, scrubbed, k)} :: 0 <= k < |vs| ==> Scrubs(vs, scrubbed, k))
    requires Terminates(Above(scrubbed, j))
    ensures Ready(pp, vs, j)
    decreases j
  {
    if j > 0 {
      assert Scrubs(vs, scrubbed, j - 1);
      var settled := AboveStep(pp, vs, scrubbed, j - 1);
      if !settled { AboveIsReady(pp, vs, scrubbed, j - 1); }
    }
  }

  /** One line up: it settles the matter, or nothing changes over it. */
  lemma {:induction false} AboveStep(pp: Preprocessor, vs: seq<View>, scrubbed: seq<seq<Cell>>,
      j: nat) returns (settled: bool)
    requires j < |vs| == |scrubbed| && Sectioned(pp) && SeesAbove(vs, j + 1) && pp.keeps(Directives(vs, j + 1))
    requires Scrubs(vs, scrubbed, j) && Terminates(Above(scrubbed, j + 1))
    ensures !settled ==> SeesAbove(vs, j) && pp.keeps(Directives(vs, j)) && Terminates(Above(scrubbed, j))
    ensures settled || Ready(pp, vs, j) ==> Ready(pp, vs, j + 1)
  {
    SeesFurther(vs, j);
    LooksFurther(scrubbed, j);
    settled := !PassedOver(scrubbed[j]);
    if settled { AtCode(pp, vs, j); } else { PastLine(pp, vs, j); }
  }

  /** The gate looks further up. */
  predicate PassedOver(cells: seq<Cell>) { AllBlank(cells) || IsDirective(cells) }

  lemma {:induction false} SeesFurther(vs: seq<View>, j: nat)
    requires j < |vs| && SeesAbove(vs, j + 1)
    ensures InTune(vs[j]) && (PassedOver(Cells(vs[j])) ==> !Meddles(Role(vs[j])) && SeesAbove(vs, j))
  {
    if AllBlank(Cells(vs[j])) { BlankIsNoDirective(Cells(vs[j])); }
  }

  lemma {:induction false} LooksFurther(scrubbed: seq<seq<Cell>>, j: nat)
    requires j < |scrubbed|
    ensures Above(scrubbed, j + 1) == if PassedOver(scrubbed[j]) then Above(scrubbed, j) else LastKept(scrubbed[j])
  {
  }

  lemma {:induction false} PastLine(pp: Preprocessor, vs: seq<View>, j: nat)
    requires j < |vs| && Sectioned(pp) && InTune(vs[j]) && PassedOver(Cells(vs[j])) && !Meddles(Role(vs[j]))
    ensures Ready(pp, vs, j + 1) == Ready(pp, vs, j)
    ensures pp.keeps(Directives(vs, j + 1)) == pp.keeps(Directives(vs, j))
  {
    if IsDirective(Cells(vs[j])) { PastDirective(pp, vs, j); } else { PastBlank(pp, vs, j); }
  }

  lemma {:induction false} PastBlank(pp: Preprocessor, vs: seq<View>, j: nat)
    requires j < |vs| && AllBlank(Cells(vs[j])) && InTune(vs[j])
    ensures Ready(pp, vs, j + 1) == Ready(pp, vs, j) && Directives(vs, j + 1) == Directives(vs, j)
  {
    BlankLine(vs[j].start.mode, vs[j].line);
    BlankIsNoDirective(Cells(vs[j]));
  }

  lemma {:induction false} BlankIsNoDirective(cells: seq<Cell>)
    requires AllBlank(cells)
    ensures !IsDirective(cells)
  {
    if cells != [] {
      assert cells[0] in cells && forall c <- cells[1..] :: c in cells;
      BlankIsNoDirective(cells[1..]);
    }
  }

  lemma {:induction false} PastDirective(pp: Preprocessor, vs: seq<View>, j: nat)
    requires j < |vs| && Sectioned(pp) && Role(vs[j]).Some? && !Meddles(Role(vs[j]))
    ensures Ready(pp, vs, j + 1) == Ready(pp, vs, j)
    ensures pp.keeps(Directives(vs, j + 1)) == pp.keeps(Directives(vs, j))
  {
    var d := Directive(Role(vs[j]).value, vs[j].line);
    assert Directives(vs, j + 1) == Directives(vs, j) + [d];
    assert pp.keeps(Directives(vs, j) + [d]) == pp.keeps(Directives(vs, j));
  }

  lemma {:induction false} AtCode(pp: Preprocessor, vs: seq<View>, j: nat)
    requires j < |vs| && InTune(vs[j]) && !IsDirective(Cells(vs[j])) && Terminates(LastKept(Cells(vs[j])))
    requires pp.keeps(Directives(vs, j + 1))
    ensures Ready(pp, vs, j + 1)
  {
    assert Directives(vs, j + 1) == Directives(vs, j);
    LastCellIsLastPiece(vs[j].start.mode, vs[j].line);
    EndsIsReady(CompiledAll(pp, vs), j);
  }

  lemma {:induction false} EndsIsReady(cs: seq<seq<Piece>>, j: nat)
    requires j < |cs| && EndsOk(cs[j], false)
    ensures ReadyAt(cs, j + 1)
  {
  }

  // ------------------------------------------------------- an inserted line

  /** What the gate's pattern for side effects would find nothing in. */
  predicate NoneSpotted(ps: seq<Piece>) {
    && (forall p <- ps :: p.C? ==> !p.t.Effect? && p.t != Semi)
    && (forall k :: 0 < k < |ps| && ps[k - 1].C? && Spotted(ps[k - 1].t) ==> ps[k] != C(LParen))
  }

  /** `assert( ... );`. */
  predicate Framed(ps: seq<Piece>) {
    |ps| >= 4 && OpensAssertion(ps) && ps[1] == C(LParen) && ps[|ps| - 2] == C(RParen) && ps[|ps| - 1] == C(Semi)
  }

  /** What an accepted line is as compiled: nothing, or an assertion in whose condition the gate spots no effect. */
  predicate Shaped(ps: seq<Piece>) {
    ps == [] || (Framed(ps) && NoneSpotted(ps[2..|ps| - 2]))
  }

  /** A call of something the gate's pattern does not take for a name. */
  predicate SlipsBy(p: Piece) { Applies(p) && !(p.C? && Spotted(p.t)) }

  /** Nothing is there that the gate does not look for: such a call, braces, and a name that stands for an effect. */
  predicate NothingHidden(effects: set<string>, ps: seq<Piece>) {
    && (forall p <- ps :: p.C? ==> p.t !in {LBrace, RBrace} && !(p.t.Ident? && p.t.name in effects))
    && (forall k :: 0 < k < |ps| && ps[k] == C(LParen) ==> !SlipsBy(ps[k - 1]))
  }

  /** What an inserted line should amount to for a compiler: nothing, or one assertion that changes nothing. */
  predicate Harmless(effects: set<string>, ps: seq<Piece>) {
    ps == [] || (ps[|ps| - 1] == C(Semi) && IsAssertion(effects, ps[..|ps| - 1]))
  }

  lemma {:induction false} HarmlessIff(effects: set<string>, ps: seq<Piece>)
    ensures Harmless(effects, ps) <==> Shaped(ps) && NothingHidden(effects, ps)
  {
    if Framed(ps) {
      var inner := ps[2..|ps| - 2];
      InnerOf(ps);
      HiddenInside(effects, ps, inner);
    }
  }

  lemma InnerOf(ps: seq<Piece>)
    requires |ps| >= 4
    ensures ps[..|ps| - 1][2..|ps| - 2] == ps[2..|ps| - 2]
  {
  }

  /** Within `assert( ... );` only the condition can hide anything. */
  lemma {:induction false} HiddenInside(effects: set<string>, ps: seq<Piece>, inner: seq<Piece>)
    requires Framed(ps) && inner == ps[2..|ps| - 2]
    ensures Pure(effects, inner) <==> NoneSpotted(inner) && NothingHidden(effects, ps)
  {
    assert forall k :: 0 <= k < |inner| ==> inner[k] == ps[k + 2];
    if Pure(effects, inner) {
      forall p | p in ps && p.C? ensures p.t !in {LBrace, RBrace} && !(p.t.Ident? && p.t.name in effects) {
        var k :| 0 <= k < |ps| && ps[k] == p;
        if 2 <= k < |ps| - 2 { assert inner[k - 2] == p && p in inner; }
      }
      forall k | 0 < k < |ps| && ps[k] == C(LParen) ensures !SlipsBy(ps[k - 1]) {
        if 3 <= k { assert inner[k - 2] == ps[k] && inner[k - 3] == ps[k - 1]; }
      }
    }
    if NoneSpotted(inner) && NothingHidden(effects, ps) {
      forall p | p in inner ensures p in ps {
        var k :| 0 <= k < |inner| && inner[k] == p;
        assert ps[k + 2] == p;
      }
      forall k | 0 < k < |inner| && inner[k] == C(LParen) ensures !Applies(inner[k - 1]) {
        assert ps[k + 2] == inner[k] && ps[k + 1] == inner[k - 1];
      }
    }
  }

  /** Pieces with every literal folded to `""`, as the gate's pattern sees them. */
  function Fold(ps: seq<Piece>): Line {
    if ps == [] then []
    else if ps[0].Chars? then Fold(ps[1..])
    else [if IsQuote(ps[0].t) then EmptyLiteral else ps[0].t] + Fold(ps[1..])
  }

  /** Literal characters only ever follow an opening quote or other literal characters. */
  predicate WellQuoted(ps: seq<Piece>) {
    forall k :: 0 <= k < |ps| && ps[k].Chars? ==> k > 0 && (ps[k - 1].Chars? || IsQuote(ps[k - 1].t))
  }

  lemma {:induction false} FoldAppend(a: seq<Piece>, b: seq<Piece>)
    ensures Fold(a + b) == Fold(a) + Fold(b)
    decreases a
  {
    if a == [] {
      assert a + b == b;
    } else {
      assert (a + b)[1..] == a[1..] + b;
      FoldAppend(a[1..], b);
    }
  }

  function AsChars(line: Line): (r: seq<Piece>)
    ensures |r| == |line| && forall p <- r :: p.Chars?
  {
    if line == [] then [] else [Chars(line[0])] + AsChars(line[1..])
  }

  lemma {:induction false} InLiteral(t: Token, rest: Line)
    ensures Pieces(Literal, [t] + rest) == [Chars(t)] + Pieces(if t == Quote then Code else Literal, rest)
    ensures AsChars([t] + rest) == [Chars(t)] + AsChars(rest)
  {
    assert ([t] + rest)[1..] == rest;
  }

  /** The inside of a literal, its closing quote, and what follows. */
  lemma {:induction false} LiteralPieces(inside: Line, tail: Line)
    requires Quote !in inside
    ensures Pieces(Literal, inside + [Quote] + tail) == AsChars(inside + [Quote]) + Pieces(Code, tail)
    decreases inside
  {
    if inside == [] {
      assert [] + [Quote] + tail == [Quote] + tail && [Quote] + [] == [] + [Quote];
      LiteralEnd(tail);
    } else {
      LiteralPieces(inside[1..], tail);
      LiteralCons(inside, inside[0], inside[1..], tail);
      Associative([Chars(inside[0])], AsChars(inside[1..] + [Quote]), Pieces(Code, tail));
    }
  }

  lemma {:induction false} Associative<T>(a: seq<T>, b: seq<T>, c: seq<T>)
    ensures a + (b + c) == a + b + c
  {
  }

  lemma {:induction false} LiteralEnd(tail: Line)
    ensures Pieces(Literal, [Quote] + tail) == AsChars([Quote] + []) + Pieces(Code, tail)
  {
    InLiteral(Quote, tail);
    InLiteral(Quote, []);
  }

  lemma {:induction false} LiteralCons(inside: Line, t: Token, more: Line, tail: Line)
    requires inside == [t] + more && t != Quote
    ensures Pieces(Literal, inside + [Quote] + tail) == [Chars(t)] + Pieces(Literal, more + [Quote] + tail)
    ensures AsChars(inside + [Quote]) == [Chars(t)] + AsChars(more + [Quote])
  {
    InLiteral(t, more + [Quote] + tail);
    InLiteral(t, more + [Quote]);
    assert inside + [Quote] + tail == [t] + (more + [Quote] + tail);
    assert inside + [Quote] == [t] + (more + [Quote]);
  }

  lemma {:induction false} FoldChars(ps: seq<Piece>)
    requires forall p <- ps :: p.Chars?
    ensures Fold(ps) == []
    decreases ps
  {
    if ps != [] {
      FoldChars(ps[1..]);
    }
  }

  lemma {:induction false} WellQuotedCons(t: Token, ps: seq<Piece>)
    requires WellQuoted(ps)
    ensures WellQuoted([C(t)] + ps)
  {
    var all := [C(t)] + ps;
    forall k | 0 <= k < |all| && all[k].Chars?
      ensures k > 0 && (all[k - 1].Chars? || IsQuote(all[k - 1].t))
    {
      assert all[k] == ps[k - 1];
    }
  }

  lemma {:induction false} WellQuotedLiteral(t: Token, inside: seq<Piece>, ps: seq<Piece>)
    requires IsQuote(t) && (forall p <- inside :: p.Chars?) && WellQuoted(ps)
    ensures WellQuoted([C(t)] + inside + ps)
    ensures Fold([C(t)] + inside + ps) == [EmptyLiteral] + Fold(ps)
  {
    var all := [C(t)] + inside + ps;
    forall k | 0 <= k < |all| && all[k].Chars?
      ensures k > 0 && (all[k - 1].Chars? || IsQuote(all[k - 1].t))
    {
      if k > |inside| {
        assert all[k] == ps[k - |inside| - 1];
      }
    }
    FoldChars(inside);
    FoldAppend([C(t)] + inside, ps);
    FoldAppend([C(t)], inside);
  }

  /** A token read from code, that is no comment opener and no lone splice. */
  lemma {:induction false} InCode(t: Token, rest: Line)
    requires t !in {BlockOpen, SlashOpen, StarOpen, LineOpen} && (t == Splice ==> rest != [])
    ensures Pieces(Code, [t] + rest) == [C(t)] + Pieces(if IsQuote(t) then Literal else Code, rest)
  {
    assert ([t] + rest)[1..] == rest;
  }

  lemma {:induction false} LiteralRead(t: Token, inside: Line, tail: Line)
    requires IsQuote(t) && Quote !in inside
    ensures Pieces(Code, [t] + (inside + [Quote] + tail)) == [C(t)] + AsChars(inside + [Quote]) + Pieces(Code, tail)
  {
    InCode(t, inside + [Quote] + tail);
    LiteralPieces(inside, tail);
  }

  lemma {:induction false} SplitLiteral(line: Line) returns (inside: Line)
    requires line != [] && Quote in line[1..]
    ensures inside == line[1..][..FirstQuote(line[1..])] && Quote !in inside
    ensures line == [line[0]] + (inside + [Quote] + line[1..][FirstQuote(line[1..]) + 1..])
  {
    var rest := line[1..];
    inside := rest[..FirstQuote(rest)];
    assert rest == inside + [Quote] + rest[FirstQuote(rest) + 1..];
  }

  /** A literal at the head of a line, in both readings: `tail` is what follows it. */
  lemma {:induction false} ReadsLiteral(line: Line, tail: Line)
    requires line != [] && IsQuote(line[0]) && Quote in line[1..]
    requires tail == line[1..][FirstQuote(line[1..]) + 1..] && WellQuoted(Pieces(Code, tail))
    ensures WellQuoted(Pieces(Code, line))
    ensures Fold(Pieces(Code, line)) == [EmptyLiteral] + Fold(Pieces(Code, tail))
  {
    var inside := SplitLiteral(line);
    LiteralRead(line[0], inside, tail);
    WellQuotedLiteral(line[0], AsChars(inside + [Quote]), Pieces(Code, tail));
  }

  const MARKS: set<Token> := {BlockOpen, SlashOpen, StarOpen, LineOpen, Quote, RawQuote}

  /** The first `n` tokens hold no comment opener and no lone quote. */
  predicate Clean(code: Line, n: nat)
    requires n <= |code|
  {
    forall k :: 0 <= k < n ==> code[k] !in MARKS
  }

  lemma {:induction false} CleanTail(code: Line, n: nat)
    requires 0 < n <= |code| && Clean(code, n)
    ensures code[0] !in MARKS && Clean(code[1..], n - 1)
    ensures code[..n] == [code[0]] + code[1..][..n - 1]
  {
  }

  /** A literal at the head of a line collapses to one token. */
  lemma {:induction false} CollapseLiteral(line: Line, tail: Line)
    requires line != [] && IsQuote(line[0]) && Quote in line[1..]
    requires tail == line[FirstQuote(line[1..]) + 2..]
    ensures Collapse(line) == [EmptyLiteral] + Collapse(tail)
  {
  }

  lemma {:induction false} CollapseOther(line: Line)
    requires line != [] && !(IsQuote(line[0]) && Quote in line[1..])
    ensures Collapse(line) == [line[0]] + Collapse(line[1..])
  {
  }

  lemma {:induction false} ReadsToken(t: Token, rest: Line, code: Line)
    requires t !in MARKS && (rest == [] ==> t != Splice)
    requires Fold(Pieces(Code, rest)) == code && WellQuoted(Pieces(Code, rest))
    ensures Fold(Pieces(Code, [t] + rest)) == [t] + code && WellQuoted(Pieces(Code, [t] + rest))
  {
    InCode(t, rest);
    WellQuotedCons(t, Pieces(Code, rest));
    assert ([C(t)] + Pieces(Code, rest))[1..] == Pieces(Code, rest);
  }

  /** What is left to read behind the first token of a collapsed line. */
  predicate ReadsTo(line: Line, n: nat) {
    && n <= |Collapse(line)| && (n == |Collapse(line)| || Collapse(line)[n] == LineOpen)
    && Clean(Collapse(line), n) && (line == [] || line[|line| - 1] != Splice)
  }

  lemma {:induction false} ReadsTail(line: Line, n: nat, t: Token, tail: Line)
    requires ReadsTo(line, n) && n > 0 && Collapse(line) == [t] + Collapse(tail)
    requires tail == [] || (line != [] && tail[|tail| - 1] == line[|line| - 1])
    ensures ReadsTo(tail, n - 1) && t !in MARKS
    ensures Collapse(line)[..n] == [t] + Collapse(tail)[..n - 1]
  {
    CleanTail(Collapse(line), n);
    assert Collapse(line)[1..] == Collapse(tail);
  }

  /** A clean prefix of the collapsed line, up to its end or a `//`, is what the compiler reads. */
  lemma {:induction false} ReadsCollapsed(line: Line, n: nat)
    requires ReadsTo(line, n)
    ensures Fold(Pieces(Code, line)) == Collapse(line)[..n] && WellQuoted(Pieces(Code, line))
    decreases line, 1
  {
    if line == [] {
    } else if IsQuote(line[0]) && Quote in line[1..] {
      ReadsCollapsedLiteral(line, n);
    } else {
      CollapseOther(line);
      if n == 0 {
        TrailingIsSilent(line[1..]);
      } else {
        ReadsCollapsedToken(line, n, line[0], line[1..]);
      }
    }
  }

  lemma {:induction false} ReadsCollapsedLiteral(line: Line, n: nat)
    requires ReadsTo(line, n) && line != [] && IsQuote(line[0]) && Quote in line[1..]
    ensures Fold(Pieces(Code, line)) == Collapse(line)[..n] && WellQuoted(Pieces(Code, line))
    decreases line, 0
  {
    var tail := line[FirstQuote(line[1..]) + 2..];
    LiteralTail(line, n, tail);
    ReadsCollapsed(tail, n - 1);
    ReadsLiteralAt(line, tail);
  }

  lemma {:induction false} LiteralTail(line: Line, n: nat, tail: Line)
    requires ReadsTo(line, n) && line != [] && IsQuote(line[0]) && Quote in line[1..]
    requires tail == line[FirstQuote(line[1..]) + 2..]
    ensures n > 0 && ReadsTo(tail, n - 1) && |tail| < |line|
    ensures Collapse(line)[..n] == [EmptyLiteral] + Collapse(tail)[..n - 1]
  {
    CollapseLiteral(line, tail);
    ReadsTail(line, n, EmptyLiteral, tail);
  }

  lemma {:induction false} ReadsLiteralAt(line: Line, tail: Line)
    requires line != [] && IsQuote(line[0]) && Quote in line[1..] && tail == line[FirstQuote(line[1..]) + 2..]
    requires WellQuoted(Pieces(Code, tail))
    ensures WellQuoted(Pieces(Code, line))
    ensures Fold(Pieces(Code, line)) == [EmptyLiteral] + Fold(Pieces(Code, tail))
  {
    assert tail == line[1..][FirstQuote(line[1..]) + 1..];
    ReadsLiteral(line, tail);
  }

  lemma {:induction false} ReadsCollapsedToken(line: Line, n: nat, t: Token, rest: Line)
    requires ReadsTo(line, n) && n > 0 && line == [t] + rest && Collapse(line) == [t] + Collapse(rest)
    ensures Fold(Pieces(Code, line)) == Collapse(line)[..n] && WellQuoted(Pieces(Code, line))
    decreases line, 0
  {
    ReadsTail(line, n, t, rest);
    assert rest == line[1..];
    ReadsCollapsed(rest, n - 1);
    ReadsToken(t, rest, Collapse(rest)[..n - 1]);
  }

  lemma {:induction false} TrailingIsSilent(line: Line)
    ensures Pieces(Trailing, line) == []
    decreases line
  {
    if line != [] {
      TrailingIsSilent(line[1..]);
    }
  }

  lemma {:induction false} SideEffectTail(t: Token, rest: Line)
    requires !HasSideEffect([t] + rest)
    ensures !t.Effect? && t != Semi && !HasSideEffect(rest)
    ensures rest != [] && rest[0] == LParen ==> !Spotted(t)
  {
    var all := [t] + rest;
    assert all[0] in all;
    forall u | u in rest
      ensures !u.Effect? && u != Semi
    {
      assert u in all;
    }
    forall k | 0 < k < |rest| && Spotted(rest[k - 1])
      ensures rest[k] != LParen
    {
      assert all[k] == rest[k - 1] && all[k + 1] == rest[k];
    }
    if rest != [] {
      assert all[1 - 1] == t && all[1] == rest[0];
    }
  }

  lemma {:induction false} PureCons(p: Piece, rest: seq<Piece>)
    requires NoneSpotted(rest) && (p.C? ==> !p.t.Effect? && p.t != Semi)
    requires p.C? && Spotted(p.t) && rest != [] ==> rest[0] != C(LParen)
    ensures NoneSpotted([p] + rest)
  {
    var all := [p] + rest;
    forall k | 0 < k < |all| && all[k - 1].C? && Spotted(all[k - 1].t)
      ensures all[k] != C(LParen)
    {
      assert all[k] == rest[k - 1];
      if k > 1 {
        assert all[k - 1] == rest[k - 2];
      }
    }
  }

  lemma {:induction false} PureFromFold(ps: seq<Piece>)
    requires !HasSideEffect(Fold(ps))
    ensures NoneSpotted(ps)
    decreases ps
  {
    if ps != [] {
      var rest := ps[1..];
      if ps[0].C? {
        var t := if IsQuote(ps[0].t) then EmptyLiteral else ps[0].t;
        assert Fold(ps) == [t] + Fold(rest);
        SideEffectTail(t, Fold(rest));
        if rest != [] && rest[0] == C(LParen) {
          assert Fold(rest)[0] == LParen;
        }
      }
      PureFromFold(rest);
      PureCons(ps[0], rest);
      assert ps == [ps[0]] + rest;
    }
  }

  /** Pieces that fold to `... t` end with `t` itself, when `t` is not a literal. */
  lemma {:induction false} FoldLast(ps: seq<Piece>)
    requires WellQuoted(ps) && Fold(ps) != [] && Fold(ps)[|Fold(ps)| - 1] != EmptyLiteral
    ensures ps != [] && ps[|ps| - 1] == C(Fold(ps)[|Fold(ps)| - 1])
    ensures Fold(ps[..|ps| - 1]) == Fold(ps)[..|Fold(ps)| - 1] && WellQuoted(ps[..|ps| - 1])
  {
    var front, last := ps[..|ps| - 1], ps[|ps| - 1];
    assert ps == front + [last];
    FoldAppend(front, [last]);
    if last.Chars? {
      CharsAfterQuote(ps);
    }
  }

  /** A well-quoted text that ends inside a literal folds to something that ends with `""`. */
  lemma {:induction false} CharsAfterQuote(ps: seq<Piece>)
    requires WellQuoted(ps) && ps != [] && (ps[|ps| - 1].Chars? || IsQuote(ps[|ps| - 1].t))
    ensures Fold(ps) != [] && Fold(ps)[|Fold(ps)| - 1] == EmptyLiteral
    decreases ps
  {
    var front, last := ps[..|ps| - 1], ps[|ps| - 1];
    assert ps == front + [last];
    FoldAppend(front, [last]);
    if last.Chars? {
      CharsAfterQuote(front);
    }
  }

  /** A text that folds to `assert(args);` with clean arguments is one pure assertion. */
  lemma {:induction false} FoldedAssertionIsHarmless(ps: seq<Piece>, code: Line, k: nat)
    requires MatchAt(code, k) && code[0].AssertName? && code[1] == LParen && !HasSideEffect(code[2..k])
    requires Fold(ps) == code[..k + 2] && WellQuoted(ps)
    ensures Shaped(ps)
  {
    var inner := FoldedFrame(ps, code, k);
    PureFromFold(inner);
  }

  lemma {:induction false} FoldedFrame(ps: seq<Piece>, code: Line, k: nat) returns (inner: seq<Piece>)
    requires MatchAt(code, k) && code[0].AssertName? && code[1] == LParen
    requires Fold(ps) == code[..k + 2] && WellQuoted(ps)
    ensures Framed(ps) && inner == ps[2..|ps| - 2] && Fold(inner) == code[2..k]
  {
    FoldLast(ps);
    var run := ps[..|ps| - 1];
    assert Fold(run) == code[..k + 1];
    FoldLast(run);
    var front := run[..|run| - 1];
    assert Fold(front) == code[..k];
    FoldFirst(front);
    FoldFirst(front[1..]);
    inner := front[2..];
    assert front[1..][1..] == inner;
    FrameSlices(ps);
  }

  lemma FrameSlices(ps: seq<Piece>)
    requires |ps| >= 4
    ensures var front := ps[..|ps| - 1][..|ps| - 2]; front == ps[..|ps| - 2] && front[2..] == ps[2..|ps| - 2]
  {
  }

  /** ... and likewise from the front. */
  lemma {:induction false} FoldFirst(ps: seq<Piece>)
    requires ps != [] && !ps[0].Chars? && Fold(ps)[0] != EmptyLiteral
    ensures ps[0] == C(Fold(ps)[0]) && Fold(ps[1..]) == Fold(ps)[1..]
  {
  }

  /** What an unrefused insertion that is neither blank nor a comment matched. */
  lemma {:induction false} AcceptedShape(after: seq<Line>, scrubbed: seq<seq<Cell>>, j: nat) returns (k: nat)
    requires j < |after| == |scrubbed| && RefuseInsertion(after, scrubbed, j) == None
    requires after[j] != [] && after[j][0] != LineOpen
    ensures var line, code := after[j], Collapse(after[j]);
      && line[|line| - 1] != Splice && MatchAt(code, k) && code[0].AssertName? && code[1] == LParen
      && !HasSideEffect(code[2..k]) && Clean(code, k + 2)
    ensures Terminates(Above(scrubbed, j))
  {
    var code := Collapse(after[j]);
    k := GreedyMatch(code, |code|).value;
    var args := code[2..k];
    assert MatchAssertion(code) == Some(args);
    ArgsClean(code, k, args);
  }

  lemma {:induction false} ArgsClean(code: Line, k: nat, args: Line)
    requires MatchAt(code, k) && code[0].AssertName? && code[1] == LParen && args == code[2..k]
    requires !(exists t <- args :: t in {BlockOpen, SlashOpen, StarOpen, BlockClose, LineOpen}) && Quote !in args &&
      RawQuote !in args
    ensures Clean(code, k + 2)
  {
    forall i | 0 <= i < k + 2
      ensures code[i] !in MARKS
    {
      if 2 <= i < k {
        assert code[i] == args[i - 2] && args[i - 2] in args;
      }
    }
  }

  /** What the gate's pattern accepts is, read from code, one pure assertion (or a comment, or nothing). */
  lemma {:induction false} AcceptedFromCodeIsHarmless(after: seq<Line>, scrubbed: seq<seq<Cell>>, j: nat)
    requires j < |after| == |scrubbed| && RefuseInsertion(after, scrubbed, j) == None
    ensures Shaped(Pieces(Code, after[j]))
  {
    var line := after[j];
    if line != [] && line[0] == LineOpen {
      TrailingIsSilent(line[1..]);
    } else if line != [] {
      var k := AcceptedShape(after, scrubbed, j);
      MatchedIsHarmless(line, Collapse(line), k);
    }
  }

  lemma {:induction false} MatchedIsHarmless(line: Line, code: Line, k: nat)
    requires line != [] && line[|line| - 1] != Splice && code == Collapse(line)
    requires MatchAt(code, k) && code[0].AssertName? && code[1] == LParen
    requires !HasSideEffect(code[2..k]) && Clean(code, k + 2)
    ensures Shaped(Pieces(Code, line))
  {
    var ps := ReadsMatched(line, code, k);
    FoldedAssertionIsHarmless(ps, code, k);
  }

  lemma {:induction false} ReadsMatched(line: Line, code: Line, k: nat) returns (ps: seq<Piece>)
    requires line != [] && line[|line| - 1] != Splice && code == Collapse(line) && MatchAt(code, k) && Clean(code, k + 2)
    ensures ps == Pieces(Code, line) && Fold(ps) == code[..k + 2] && WellQuoted(ps)
  {
    ReadsCollapsed(line, k + 2);
    ps := Pieces(Code, line);
  }
}
