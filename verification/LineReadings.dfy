/** Files read line by line: how each line starts and ends, what `scrub` shows of it and what it contributes; and what the
    gate asks of a file read so, with one line inserted. */
module LineReadings {
  import opened Wrappers
  import opened Tokens
  import opened Gate

  /** One line, read from one start: its cells, the directive it belongs to, and the code it adds. */
  datatype Reading = Reading(
    line: Line, start: Start, next: Start, cells: seq<Cell>, role: Option<DirectiveKind>, ps: seq<Piece>)

  predicate Right(r: Reading) {
    var v := View(r.line, r.start);
    After(r.start, r.line) == r.next && Cells(v) == r.cells && Role(v) == r.role && CodeOn(v) == r.ps
  }

  /** The reading starts where the one before it ends. */
  predicate Follows(rs: seq<Reading>, from: Start, k: nat)
    requires k < |rs|
  {
    rs[k].start == if k == 0 then from else rs[k - 1].next
  }

  predicate AllRight(rs: seq<Reading>) { forall r <- rs :: Right(r) }

  /** The readings lead from one start to another. */
  ghost predicate Linked(rs: seq<Reading>, from: Start, to: Start) {
    && AllRight(rs) && (forall k {:trigger Follows(rs, from, k)} :: 0 <= k < |rs| ==> Follows(rs, from, k))
    && to == if rs == [] then from else rs[|rs| - 1].next
  }

  function LinesOf(rs: seq<Reading>): (r: seq<Line>)
    ensures |r| == |rs| && forall k :: 0 <= k < |rs| ==> r[k] == rs[k].line
  {
    seq(|rs|, k requires 0 <= k < |rs| => rs[k].line)
  }

  function CellsOf(rs: seq<Reading>): (r: seq<seq<Cell>>)
    ensures |r| == |rs| && forall k :: 0 <= k < |rs| ==> r[k] == rs[k].cells
  {
    seq(|rs|, k requires 0 <= k < |rs| => rs[k].cells)
  }

  lemma {:induction false} LinkedAppend(a: seq<Reading>, b: seq<Reading>, from: Start, mid: Start, to: Start)
    requires Linked(a, from, mid) && Linked(b, mid, to)
    ensures Linked(a + b, from, to)
  {
    RightAppend(a, b);
    forall k | 0 <= k < |a + b| ensures Follows(a + b, from, k) {
      if k < |a| { assert Follows(a, from, k); } else { assert Follows(b, mid, k - |a|); }
    }
  }

  lemma RightAppend(a: seq<Reading>, b: seq<Reading>)
    requires AllRight(a) && AllRight(b)
    ensures AllRight(a + b)
  {
  }

  lemma {:induction false} LinkedOne(r: Reading)
    requires Right(r)
    ensures Linked([r], r.start, r.next)
  {
  }

  lemma {:induction false} StartNext(lines: seq<Line>, k: nat)
    requires k < |lines|
    ensures StartOf(lines, k + 1) == After(StartOf(lines, k), lines[k])
  {
  }

  lemma {:induction false} ReadNext(rs: seq<Reading>, to: Start, k: nat)
    requires Linked(rs, TOP, to) && k + 1 < |rs|
    ensures After(rs[k].start, rs[k].line) == rs[k + 1].start
  {
    assert rs[k] in rs && Right(rs[k]) && Follows(rs, TOP, k + 1);
  }

  /** The lines of linked readings start as read. */
  lemma {:induction false} StartsAsRead(rs: seq<Reading>, to: Start, k: nat)
    requires Linked(rs, TOP, to) && k < |rs|
    ensures StartOf(LinesOf(rs), k) == rs[k].start
    decreases k
  {
    if k == 0 {
      assert Follows(rs, TOP, 0);
    } else {
      StartsAsRead(rs, to, k - 1);
      StartNext(LinesOf(rs), k - 1);
      ReadNext(rs, to, k - 1);
    }
  }

  lemma {:induction false} ViewRead(rs: seq<Reading>, to: Start, k: nat)
    requires Linked(rs, TOP, to) && k < |rs|
    ensures Views(LinesOf(rs))[k] == View(rs[k].line, rs[k].start) && Right(rs[k])
  {
    StartsAsRead(rs, to, k);
    assert rs[k] in rs;
  }

  lemma {:induction false} ScrubbedAsRead(rs: seq<Reading>, to: Start)
    requires Linked(rs, TOP, to)
    ensures ScrubAll(LinesOf(rs)) == CellsOf(rs)
  {
    forall k | 0 <= k < |rs| ensures ScrubAll(LinesOf(rs))[k] == CellsOf(rs)[k] { ViewRead(rs, to, k); }
  }

  // ------------------------------------------------------------ the program

  function Roles(r: Reading): seq<Directive> { if r.role.Some? then [Directive(r.role.value, r.line)] else [] }

  /** The directives read so far, with these. */
  function Told(rs: seq<Reading>, ds: seq<Directive>): seq<Directive> {
    if rs == [] then ds else Told(rs[1..], ds + Roles(rs[0]))
  }

  /** What the line contributes below the directives `ds`. */
  function AddedBy(pp: Preprocessor, r: Reading, ds: seq<Directive>): seq<Piece> {
    if !pp.keeps(ds) then [] else if r.role.Some? then pp.pulls(ds + Roles(r)) else r.ps
  }

  /** What the lines contribute. */
  function Sum(pp: Preprocessor, rs: seq<Reading>, ds: seq<Directive>): seq<Piece> {
    if rs == [] then [] else AddedBy(pp, rs[0], ds) + Sum(pp, rs[1..], ds + Roles(rs[0]))
  }

  lemma {:induction false} SumAppend(pp: Preprocessor, a: seq<Reading>, b: seq<Reading>, ds: seq<Directive>)
    ensures Sum(pp, a + b, ds) == Sum(pp, a, ds) + Sum(pp, b, Told(a, ds))
    decreases a
  {
    if a == [] {
      assert a + b == b;
    } else {
      var r, more := a[0], a[1..];
      assert a + b == [r] + (more + b) && a == [r] + more;
      SumAppend(pp, more, b, ds + Roles(r));
      SumAppendFirst(pp, r, more, b, ds);
    }
  }

  lemma {:induction false} SumAppendFirst(pp: Preprocessor, r: Reading, more: seq<Reading>, b: seq<Reading>,
      ds: seq<Directive>)
    requires Sum(pp, more + b, ds + Roles(r)) == Sum(pp, more, ds + Roles(r)) + Sum(pp, b, Told(more, ds + Roles(r)))
    ensures Sum(pp, [r] + (more + b), ds) == Sum(pp, [r] + more, ds) + Sum(pp, b, Told([r] + more, ds))
  {
    var ds' := ds + Roles(r);
    SumCons(pp, r, more, ds);
    SumCons(pp, r, more + b, ds);
    Regroup(AddedBy(pp, r, ds), Sum(pp, more, ds'), Sum(pp, b, Told(more, ds')));
  }

  lemma Regroup<T>(a: seq<T>, b: seq<T>, c: seq<T>)
    ensures a + (b + c) == a + b + c
  {
  }

  lemma {:induction false} SumCons(pp: Preprocessor, r: Reading, rest: seq<Reading>, ds: seq<Directive>)
    ensures Sum(pp, [r] + rest, ds) == AddedBy(pp, r, ds) + Sum(pp, rest, ds + Roles(r))
    ensures Told([r] + rest, ds) == Told(rest, ds + Roles(r))
  {
    assert ([r] + rest)[1..] == rest;
  }

  /** A line that is no directive's, where nothing is skipped. */
  lemma {:induction false} SumFirst(pp: Preprocessor, r: Reading, rest: seq<Reading>, ds: seq<Directive>)
    requires pp.keeps(ds) && r.role == None
    ensures Sum(pp, [r] + rest, ds) == r.ps + Sum(pp, rest, ds) && Told([r] + rest, ds) == Told(rest, ds)
  {
    SumCons(pp, r, rest, ds);
    assert ds + [] == ds;
  }

  lemma {:induction false} DirectivesRead(rs: seq<Reading>, to: Start, j: nat)
    requires Linked(rs, TOP, to) && j < |rs|
    ensures var vs := Views(LinesOf(rs));
      && Directives(vs, j + 1) == Directives(vs, j) + Roles(rs[j])
      && Role(vs[j]) == rs[j].role && CodeOn(vs[j]) == rs[j].ps
  {
    ViewRead(rs, to, j);
  }

  /** Line `k` contributes what it says, and adds its directive to those above it. */
  predicate AddsUp(pp: Preprocessor, rs: seq<Reading>, cs: seq<seq<Piece>>, dss: seq<seq<Directive>>, k: nat)
    requires k < |rs| == |cs| && |dss| == |rs| + 1
  {
    dss[k + 1] == dss[k] + Roles(rs[k]) && cs[k] == AddedBy(pp, rs[k], dss[k])
  }

  lemma {:induction false} SumFrom(pp: Preprocessor, rs: seq<Reading>, cs: seq<seq<Piece>>, dss: seq<seq<Directive>>, j: nat)
    requires j <= |rs| == |cs| && |dss| == |rs| + 1
    requires forall k {:trigger AddsUp(pp, rs, cs, dss, k)} :: 0 <= k < |rs| ==> AddsUp(pp, rs, cs, dss, k)
    ensures Joined(cs, j) == Sum(pp, rs[j..], dss[j])
    decreases |rs| - j
  {
    if j < |rs| {
      SumFrom(pp, rs, cs, dss, j + 1);
      assert AddsUp(pp, rs, cs, dss, j);
      SumStep(pp, rs, j, dss[j], cs);
    } else {
      JoinedEnd(cs);
    }
  }

  lemma {:induction false} CompiledAt(pp: Preprocessor, vs: seq<View>, j: nat)
    requires j < |vs|
    ensures CompiledAll(pp, vs)[j] == Compiled(pp, vs, j)
  {
  }

  lemma {:induction false} SumStep(pp: Preprocessor, rs: seq<Reading>, j: nat, ds: seq<Directive>, cs: seq<seq<Piece>>)
    requires j < |rs| == |cs| && cs[j] == AddedBy(pp, rs[j], ds)
    requires Joined(cs, j + 1) == Sum(pp, rs[j + 1..], ds + Roles(rs[j]))
    ensures Joined(cs, j) == Sum(pp, rs[j..], ds)
  {
    SumCons(pp, rs[j], rs[j + 1..], ds);
    assert rs[j..] == [rs[j]] + rs[j + 1..];
  }

  lemma {:induction false} JoinedEnd(cs: seq<seq<Piece>>)
    ensures Joined(cs, |cs|) == []
  {
  }

  function AllDirectives(vs: seq<View>): (r: seq<seq<Directive>>)
    ensures |r| == |vs| + 1
  {
    seq(|vs| + 1, k requires 0 <= k < |vs| + 1 => Directives(vs, k))
  }

  lemma {:induction false} ReadAddsUp(pp: Preprocessor, rs: seq<Reading>, vs: seq<View>, k: nat)
    requires k < |rs| == |vs| && Role(vs[k]) == rs[k].role && CodeOn(vs[k]) == rs[k].ps
    requires Directives(vs, k + 1) == Directives(vs, k) + Roles(rs[k])
    ensures AddsUp(pp, rs, CompiledAll(pp, vs), AllDirectives(vs), k)
  {
    CompiledAt(pp, vs, k);
    CompiledIs(pp, rs[k], vs, k);
    DirectivesAt(vs, k);
    DirectivesAt(vs, k + 1);
  }

  lemma {:induction false} CompiledIs(pp: Preprocessor, r: Reading, vs: seq<View>, k: nat)
    requires k < |vs| && Role(vs[k]) == r.role && CodeOn(vs[k]) == r.ps
    requires Directives(vs, k + 1) == Directives(vs, k) + Roles(r)
    ensures Compiled(pp, vs, k) == AddedBy(pp, r, Directives(vs, k))
  {
  }

  lemma DirectivesAt(vs: seq<View>, k: nat)
    requires k <= |vs|
    ensures AllDirectives(vs)[k] == Directives(vs, k)
  {
  }

  /** The program of linked readings is the sum of what they contribute. */
  lemma {:induction false} ProgramRead(pp: Preprocessor, rs: seq<Reading>, to: Start)
    requires Linked(rs, TOP, to)
    ensures Program(pp, LinesOf(rs)) == Sum(pp, rs, [])
  {
    var vs := Views(LinesOf(rs));
    forall k | 0 <= k < |rs| ensures AddsUp(pp, rs, CompiledAll(pp, vs), AllDirectives(vs), k) {
      DirectivesRead(rs, to, k);
      ReadAddsUp(pp, rs, vs, k);
    }
    SumFrom(pp, rs, CompiledAll(pp, vs), AllDirectives(vs), 0);
    FirstDirectives(vs);
    assert rs[0..] == rs;
  }

  lemma FirstDirectives(vs: seq<View>)
    ensures AllDirectives(vs)[0] == []
  {
  }

  // ------------------------------------------------------------ reading one line

  /** A token in front of a line. */
  lemma {:induction false} Scan(seen: Mode, mode: Mode, t: Token, rest: Line)
    ensures ScrubLine(seen, [t] + rest)
         == [if Glance(seen, t).1 == Shown then Kept(t) else Blank] + ScrubLine(Glance(seen, t).0, rest)
    ensures EndGlance(seen, [t] + rest) == EndGlance(Glance(seen, t).0, rest)
    ensures ReadLine(mode, [t] + rest)
         == [if Step(mode, t).1 == Shown then Kept(t) else Blank] + ReadLine(Step(mode, t).0, rest)
    ensures EndMode(mode, [t] + rest) == EndMode(Step(mode, t).0, rest)
    ensures Step(mode, t).1 == Shown && t != Splice ==> Pieces(mode, [t] + rest) == [C(t)] + Pieces(Step(mode, t).0, rest)
    ensures Step(mode, t).1 == Hidden ==> Pieces(mode, [t] + rest) == Pieces(Step(mode, t).0, rest)
  {
    assert ([t] + rest)[1..] == rest;
  }

  /** The token has no part in a literal or a comment. */
  predicate Marks(t: Token) {
    t.BlockOpen? || t.BlockClose? || t.LineOpen? || t.SlashOpen? || t.StarOpen? || t.Quote? || t.RawQuote?
  }

  /** Tokens that are neither literals nor comments. */
  predicate Markless(line: Line) {
    forall k :: 0 <= k < |line| ==> !Marks(line[k])
  }

  function AllKept(line: Line): (r: seq<Cell>)
    ensures |r| == |line| && forall k :: 0 <= k < |line| ==> r[k] == Kept(line[k])
  {
    seq(|line|, k requires 0 <= k < |line| => Kept(line[k]))
  }

  function AllCode(line: Line): (r: seq<Piece>)
    ensures |r| == |line| && forall k :: 0 <= k < |line| ==> r[k] == C(line[k])
  {
    seq(|line|, k requires 0 <= k < |line| => C(line[k]))
  }

  lemma {:induction false} ReadMarkless(line: Line)
    requires Markless(line)
    ensures ScrubLine(Code, line) == ReadLine(Code, line) == AllKept(line)
    ensures EndGlance(Code, line) == EndMode(Code, line) == Code
    ensures Splice !in line ==> Pieces(Code, line) == AllCode(line)
    decreases line
  {
    if line != [] {
      var t, rest := line[0], line[1..];
      assert line == [t] + rest;
      ReadMarkless(rest);
      ReadFirst(t, rest);
    }
  }

  lemma {:induction false} ReadFirst(t: Token, rest: Line)
    requires !Marks(t) && ScrubLine(Code, rest) == ReadLine(Code, rest) == AllKept(rest)
    requires EndGlance(Code, rest) == EndMode(Code, rest) == Code
    requires Splice !in [t] + rest ==> Pieces(Code, rest) == AllCode(rest)
    ensures ScrubLine(Code, [t] + rest) == ReadLine(Code, [t] + rest) == AllKept([t] + rest)
    ensures EndGlance(Code, [t] + rest) == EndMode(Code, [t] + rest) == Code
    ensures Splice !in [t] + rest ==> Pieces(Code, [t] + rest) == AllCode([t] + rest)
  {
    assert Step(Code, t) == Glance(Code, t) == (Code, Shown);
    AllCons(t, rest);
    Scan(Code, Code, t, rest);
    assert t in [t] + rest;
  }

  lemma AllCons(t: Token, rest: Line)
    ensures AllKept([t] + rest) == [Kept(t)] + AllKept(rest) && AllCode([t] + rest) == [C(t)] + AllCode(rest)
  {
  }

  /** A line of a line comment says nothing. */
  lemma {:induction false} ReadTrailing(line: Line)
    ensures AllBlank(ReadLine(Trailing, line)) && EndMode(Trailing, line) == Trailing && Pieces(Trailing, line) == []
    decreases line
  {
    if line != [] {
      ReadTrailing(line[1..]);
      Scan(Code, Trailing, line[0], line[1..]);
      assert line == [line[0]] + line[1..];
    }
  }

  lemma {:induction false} BlankFirst(cells: seq<Cell>)
    requires AllBlank(cells)
    ensures FirstKept(cells) == Blank
  {
    if cells != [] {
      assert cells[0] in cells && forall c <- cells[1..] :: c in cells;
      BlankFirst(cells[1..]);
    }
  }

  lemma {:induction false} KeptEnds(line: Line)
    requires line != []
    ensures FirstKept(AllKept(line)) == Kept(line[0]) && LastKept(AllKept(line)) == Kept(line[|line| - 1])
    ensures !AllBlank(AllKept(line))
    decreases line
  {
    assert AllKept(line)[0] in AllKept(line);
    assert AllKept(line)[1..] == AllKept(line[1..]);
    if |line| > 1 { KeptEnds(line[1..]); }
  }

  /** A line of code of its own. */
  predicate Ordinary(line: Line) { Markless(line) && Splice !in line && Trigraph !in line && line != [] && !line[0].Hash? }

  function Plainly(line: Line): Reading { Reading(line, TOP, TOP, AllKept(line), None, AllCode(line)) }

  lemma {:induction false} ReadPlainly(line: Line)
    requires Ordinary(line)
    ensures Right(Plainly(line))
  {
    ReadMarkless(line);
    KeptEnds(line);
    assert line[0] in line;
    assert line[|line| - 1] in line;
  }

  /** A line of a directive. */
  function Directing(line: Line, from: Start, kind: DirectiveKind): Reading {
    Reading(line, from, if Spliced(line) then Start(Code, Code, Directed(kind)) else TOP, AllKept(line), Some(kind), [])
  }

  lemma {:induction false} ReadDirective(line: Line, from: Start, kind: DirectiveKind)
    requires Markless(line) && line != []
    requires (from == TOP && line[0] == Hash(kind)) || from == Start(Code, Code, Directed(kind))
    ensures Right(Directing(line, from, kind))
  {
    ReadMarkless(line);
    KeptEnds(line);
    DirectiveRight(line, from, kind);
  }

  lemma {:induction false} DirectiveRight(line: Line, from: Start, kind: DirectiveKind)
    requires ScrubLine(Code, line) == AllKept(line) == ReadLine(Code, line) &&
      EndGlance(Code, line) == Code == EndMode(Code, line)
    requires (from == TOP && FirstKept(AllKept(line)) == Kept(Hash(kind))) || from == Start(Code, Code, Directed(kind))
    ensures Right(Directing(line, from, kind))
  {
  }

  /** Inside a block comment that began a line; and behind a line comment that goes on. */
  const INSIDE := Start(Block, Block, Fresh)
  const BEHIND := Start(Code, Trailing, Fresh)

  /** A line of what goes on with a line comment, though `scrub` takes it for code. */
  lemma {:induction false} ReadBehind(line: Line, cells: seq<Cell>)
    requires !Spliced(line) && ScrubLine(Code, line) == cells && EndGlance(Code, line) == Code
    ensures Right(Reading(line, BEHIND, TOP, cells, None, []))
  {
    ReadTrailing(line);
    BlankFirst(ReadLine(Trailing, line));
  }

  lemma {:induction false} ReadBehindCode(line: Line)
    requires Ordinary(line)
    ensures Right(Reading(line, BEHIND, TOP, AllKept(line), None, []))
  {
    ReadMarkless(line);
    assert line[|line| - 1] in line;
    ReadBehind(line, AllKept(line));
  }

  lemma {:induction false} ScanTwo(seen: Mode, mode: Mode, t: Token, u: Token, rest: Line)
    requires Glance(seen, t).1 == Hidden == Step(mode, t).1
    requires Glance(Glance(seen, t).0, u).1 == Hidden == Step(Step(mode, t).0, u).1
    ensures var line, seen', mode' := [t] + ([u] + rest), Glance(Glance(seen, t).0, u).0, Step(Step(mode, t).0, u).0;
      && ScrubLine(seen, line) == [Blank] + ([Blank] + ScrubLine(seen', rest)) &&
        EndGlance(seen, line) == EndGlance(seen', rest)
      && ReadLine(mode, line) == [Blank] + ([Blank] + ReadLine(mode', rest)) && EndMode(mode, line) == EndMode(mode', rest)
      && Pieces(mode, line) == Pieces(mode', rest)
  {
    Scan(seen, mode, t, [u] + rest);
    Scan(Glance(seen, t).0, Step(mode, t).0, u, rest);
  }

  lemma {:induction false} BlanksFirst(cells: seq<Cell>)
    ensures FirstKept([Blank] + ([Blank] + cells)) == FirstKept(cells)
    ensures cells != [] && !AllBlank(cells) ==> !AllBlank([Blank] + ([Blank] + cells))
    ensures AllBlank([Blank] + ([Blank] + []))
  {
    var all := [Blank] + ([Blank] + cells);
    assert all[1..] == [Blank] + cells && all[1..][1..] == cells;
    assert forall c <- cells :: c in all;
  }

  /** Two tokens of a comment that ends with them, and code behind it. */
  function Uncovered(t: Token, u: Token, code: Line, from: Start): Reading {
    Reading([t] + ([u] + code), from, TOP, [Blank] + ([Blank] + AllKept(code)), None, AllCode(code))
  }

  lemma {:induction false} ReadUncovered(t: Token, u: Token, code: Line, from: Start)
    requires u == BlockClose && ((from == INSIDE && t in {LineOpen, BlockOpen}) || (from == TOP && t == BlockOpen))
    requires code == [] || Ordinary(code)
    ensures Right(Uncovered(t, u, code, from))
  {
    var line := [t] + ([u] + code);
    ScanUncovered(t, u, code, from, line);
    UncoveredStarts(code);
    ReadCode(line, from, [Blank] + ([Blank] + AllKept(code)), AllCode(code));
  }

  lemma {:induction false} ScanUncovered(t: Token, u: Token, code: Line, from: Start, line: Line)
    requires u == BlockClose && ((from == INSIDE && t in {LineOpen, BlockOpen}) || (from == TOP && t == BlockOpen))
    requires (code == [] || Ordinary(code)) && line == [t] + ([u] + code)
    ensures ScrubLine(from.seen, line) == ReadLine(from.mode, line) == [Blank] + ([Blank] + AllKept(code))
    ensures EndGlance(from.seen, line) == EndMode(from.mode, line) == Code && Pieces(from.mode, line) == AllCode(code)
    ensures !Spliced(line)
  {
    ScanTwo(from.seen, from.mode, t, u, code);
    ReadMarkless(code);
    LastUnspliced(line, t, u, code);
  }

  lemma UncoveredStarts(code: Line)
    requires code == [] || Ordinary(code)
    ensures var first := FirstKept([Blank] + ([Blank] + AllKept(code)));
      first.Kept? ==> first.t != Splice && !first.t.Hash?
  {
    BlanksFirst(AllKept(code));
    if code != [] {
      KeptEnds(code);
      assert code[0] in code;
    }
  }

  lemma LastUnspliced(line: Line, t: Token, u: Token, code: Line)
    requires line == [t] + ([u] + code) && u != Splice && Splice !in code
    ensures !Spliced(line)
  {
    if code != [] {
      assert line[|code| + 1] == code[|code| - 1] && code[|code| - 1] in code;
    }
  }

  /** A line that ends in code, and is no directive's. */
  lemma {:induction false} ReadCode(line: Line, from: Start, cells: seq<Cell>, ps: seq<Piece>)
    requires ScrubLine(from.seen, line) == cells == ReadLine(from.mode, line) && Pieces(from.mode, line) == ps
    requires EndGlance(from.seen, line) == Code == EndMode(from.mode, line) && !Spliced(line) && from.logical == Fresh
    requires FirstKept(cells).Kept? ==> FirstKept(cells).t != Splice && !FirstKept(cells).t.Hash?
    ensures Right(Reading(line, from, TOP, cells, None, ps))
  {
  }

  // ------------------------------------------------------------ one line inserted

  /** The edit script that inserts line `k`. */
  function ScriptAt(k: nat, n: nat): seq<Opcode> {
    [Opcode(Equal, 0, k, 0, k), Opcode(Insert, k, k, k, k + 1), Opcode(Equal, k, n, k + 1, n + 1)]
  }

  lemma {:induction false} ScriptIsValid(before: seq<Line>, after: seq<Line>, k: nat)
    requires k < |after| == |before| + 1
    requires before[..k] == after[..k] && before[k..] == after[k + 1..]
    ensures ValidScript(ScriptAt(k, |before|), before, after, 0, 0)
  {
    var ops, n := ScriptAt(k, |before|), |before|;
    assert ops[1..] == [ops[1], ops[2]] && [ops[1], ops[2]][1..] == [ops[2]] && [ops[2]][1..] == [];
    assert before[0..k] == before[..k] && after[0..k] == after[..k];
    assert before[k..n] == before[k..] && after[k + 1..n + 1] == after[k + 1..];
    assert ValidScript([], before, after, n, n + 1);
    assert ValidScript([ops[2]], before, after, k, k + 1);
    assert ValidScript([ops[1], ops[2]], before, after, k, k);
  }

  /** What the gate asks of a script that inserts one line. */
  lemma {:induction false} OneAccepted(before: seq<Line>, after: seq<Line>, k: nat, so: seq<seq<Cell>>, sn: seq<seq<Cell>>)
    requires k < |after| == |before| + 1 && !HasRawString(before) && !RedefinesAssert(after)
    requires so == ScrubAll(before) && sn == ScrubAll(after) && so[..k] == sn[..k] && so[k..] == sn[k + 1..]
    requires RefuseInsertion(after, sn, k) == None && !AllBlank(sn[k])
    ensures Accepts(before, after, ScriptAt(k, |before|))
  {
    var ops := ScriptAt(k, |before|);
    OpsFine(after, k, so, sn);
    OpAdded(ops[1], sn, k);
    assert ops[1] in ops;
  }

  lemma OpsFine(after: seq<Line>, k: nat, so: seq<seq<Cell>>, sn: seq<seq<Cell>>)
    requires |after| == |sn| == |so| + 1 && k <= |so| && so[..k] == sn[..k] && so[k..] == sn[k + 1..]
    requires RefuseInsertion(after, sn, k) == None
    ensures forall op <- ScriptAt(k, |so|) :: OpFine(op, after, so, sn)
  {
    assert so[0..k] == so[..k] && sn[0..k] == sn[..k];
    assert so[k..|so|] == so[k..] && sn[k + 1..|so| + 1] == sn[k + 1..];
  }

  lemma OpAdded(op: Opcode, sn: seq<seq<Cell>>, k: nat)
    requires op.tag == Insert && op.j1 <= k < op.j2 <= |sn| && !AllBlank(sn[k])
    ensures OpAdds(op, sn)
  {
  }

  /** The same lines with the same cells. */
  predicate Alike(a: seq<Reading>, b: seq<Reading>) { LinesOf(a) == LinesOf(b) && CellsOf(a) == CellsOf(b) }

  /** No line begins a raw string or gives an assertion another meaning. */
  predicate Unmarked(rs: seq<Reading>) {
    forall r <- rs :: RawQuote !in r.line && (r.line != [] ==> r.line[0] != Hash(RedefineAssert))
  }

  lemma {:induction false} UnmarkedFile(rs: seq<Reading>)
    requires Unmarked(rs)
    ensures !HasRawString(LinesOf(rs)) && !RedefinesAssert(LinesOf(rs))
  {
    forall line | line in LinesOf(rs) ensures RawQuote !in line && (line != [] ==> line[0] != Hash(RedefineAssert)) {
      var k :| 0 <= k < |rs| && LinesOf(rs)[k] == line;
      assert rs[k] in rs;
    }
  }

  lemma {:induction false} Around<T>(pre: seq<T>, x: T, post: seq<T>)
    ensures (pre + post)[..|pre|] == (pre + [x] + post)[..|pre|]
    ensures (pre + post)[|pre|..] == (pre + [x] + post)[|pre| + 1..]
  {
  }

  lemma LinesAround(pre: seq<Reading>, x: Reading, post: seq<Reading>)
    ensures LinesOf(pre + post) == LinesOf(pre) + LinesOf(post)
    ensures LinesOf(pre + [x] + post) == LinesOf(pre) + [x.line] + LinesOf(post)
    ensures CellsOf(pre + post) == CellsOf(pre) + CellsOf(post)
    ensures CellsOf(pre + [x] + post) == CellsOf(pre) + [x.cells] + CellsOf(post)
  {
  }

  /** A file read to its end, and the same with a line put in that is not refused. */
  lemma {:induction false} PutIn(pre: seq<Reading>, x: Reading, rest: seq<Reading>, rest1: seq<Reading>)
    requires Linked(pre + rest, TOP, TOP) && Linked(pre + [x] + rest1, TOP, TOP) && Alike(rest, rest1)
    requires Unmarked(pre + rest) && Unmarked(pre + [x] + rest1) && !AllBlank(x.cells)
    requires RefuseInsertion(LinesOf(pre + [x] + rest1), CellsOf(pre + [x] + rest1), |pre|) == None
    ensures var b, a, ops := LinesOf(pre + rest), LinesOf(pre + [x] + rest1), ScriptAt(|pre|, |pre + rest|);
      ValidScript(ops, b, a, 0, 0) && Accepts(b, a, ops)
  {
    ScrubbedAsRead(pre + rest, TOP);
    ScrubbedAsRead(pre + [x] + rest1, TOP);
    UnmarkedFile(pre + rest);
    UnmarkedFile(pre + [x] + rest1);
    SplitAround(pre, x, rest, rest1);
    ScriptIsValid(LinesOf(pre + rest), LinesOf(pre + [x] + rest1), |pre|);
    OneAccepted(LinesOf(pre + rest), LinesOf(pre + [x] + rest1), |pre|, CellsOf(pre + rest), CellsOf(pre + [x] + rest1));
  }

  lemma {:induction false} SplitAround(pre: seq<Reading>, x: Reading, rest: seq<Reading>, rest1: seq<Reading>)
    requires Alike(rest, rest1)
    ensures var b, a, so, sn, k := LinesOf(pre + rest), LinesOf(pre + [x] + rest1), CellsOf(pre + rest),
      CellsOf(pre + [x] + rest1), |pre|;
      && k < |a| == |b| + 1 && b[..k] == a[..k] && b[k..] == a[k + 1..]
      && so[..k] == sn[..k] && so[k..] == sn[k + 1..] && sn[k] == x.cells
  {
    LinesAround(pre, x, rest);
    LinesAround(pre, x, rest1);
    Around(LinesOf(pre), x.line, LinesOf(rest));
    Around(CellsOf(pre), x.cells, CellsOf(rest));
  }

  // ------------------------------------------------------------ an assertion inserted

  /** `assert( ... );`. */
  function AssertLine(args: Line): Line { [AssertName("assert"), LParen] + args + [RParen, Semi] }

  /** What the gate lets stand between the parentheses. */
  predicate Passable(args: Line) {
    && Markless(args) && Splice !in args && Trigraph !in args
    && !HasSideEffect(args) && forall t <- args :: !t.AssumeName?
  }

  lemma {:induction false} CollapseMarkless(line: Line)
    requires Markless(line)
    ensures Collapse(line) == line
    decreases line
  {
    if line != [] {
      CollapseMarkless(line[1..]);
      assert line == [line[0]] + line[1..];
    }
  }

  lemma AssertTokens(args: Line, line: Line)
    requires line == AssertLine(args)
    ensures forall t <- line :: t in args || t in {AssertName("assert"), LParen, RParen, Semi}
  {
  }

  lemma AssertIsOrdinary(args: Line)
    requires Passable(args)
    ensures Ordinary(AssertLine(args))
  {
    AssertTokens(args, AssertLine(args));
  }

  lemma AssertMatches(args: Line)
    requires Passable(args)
    ensures MatchAssertion(Collapse(AssertLine(args))) == Some(args)
  {
    AssertIsOrdinary(args);
    CollapseMarkless(AssertLine(args));
    AssertGreedy(AssertLine(args), |args| + 2);
    assert AssertLine(args)[2..|args| + 2] == args;
  }

  lemma AssertGreedy(line: Line, k: nat)
    requires |line| == k + 2 && k >= 2 && line[k] == RParen && line[k + 1] == Semi
    ensures GreedyMatch(line, |line|) == Some(k)
  {
    assert GreedyMatch(line, k) == Some(k) && GreedyMatch(line, k + 1) == Some(k);
  }

  /** Such a line passes below what the gate takes for the end of a statement. */
  lemma {:induction false} AssertPasses(after: seq<Line>, sn: seq<seq<Cell>>, k: nat, args: Line)
    requires 0 < k < |after| == |sn| && after[k] == AssertLine(args) && Passable(args)
    requires !Spliced(after[k - 1]) && sn[k] == AllKept(after[k]) && Terminates(Above(sn, k))
    ensures RefuseInsertion(after, sn, k) == None && !AllBlank(sn[k])
  {
    AssertMatches(args);
    AssertIsOrdinary(args);
    AssertTokens(args, after[k]);
    KeptEnds(after[k]);
    assert after[k][0] == AssertName("assert") && !Spliced(after[k]);
  }

  /** What is looked up depends on nothing below. */
  lemma {:induction false} AboveSame(a: seq<seq<Cell>>, b: seq<seq<Cell>>, j: nat)
    requires j <= |a| && j <= |b| && a[..j] == b[..j]
    ensures Above(a, j) == Above(b, j)
  {
    if j > 0 {
      assert a[j - 1] == a[..j][j - 1] == b[..j][j - 1] == b[j - 1];
      assert a[..j - 1] == a[..j][..j - 1] == b[..j][..j - 1] == b[..j - 1];
      AboveSame(a, b, j - 1);
    }
  }

  /** An assertion put in below what the gate takes for the end of a statement. */
  lemma {:induction false} AssertPutIn(pre: seq<Reading>, args: Line, post: seq<Reading>)
    requires Linked(pre, TOP, TOP) && Linked(post, TOP, TOP) && Unmarked(pre + post) && Passable(args)
    requires pre != [] && !Spliced(pre[|pre| - 1].line) && Terminates(Above(CellsOf(pre), |pre|))
    ensures var x := Plainly(AssertLine(args));
      var b, a, ops := LinesOf(pre + post), LinesOf(pre + [x] + post), ScriptAt(|pre|, |pre + post|);
      && Linked(pre + post, TOP, TOP) && Linked(pre + [x] + post, TOP, TOP)
      && ValidScript(ops, b, a, 0, 0) && Accepts(b, a, ops)
  {
    var x := Plainly(AssertLine(args));
    AssertIsOrdinary(args);
    ReadPlainly(x.line);
    LinkedOne(x);
    LinkedAppend(pre, post, TOP, TOP, TOP);
    LinkedAppend(pre, [x], TOP, TOP, TOP);
    LinkedAppend(pre + [x], post, TOP, TOP, TOP);
    AssertUnrefused(pre, args, post);
    AssertTokens(args, x.line);
    UnmarkedWith(pre, x, post);
    PutIn(pre, x, post, post);
  }

  lemma {:induction false} UnmarkedWith(pre: seq<Reading>, x: Reading, post: seq<Reading>)
    requires Unmarked(pre + post) && RawQuote !in x.line && (x.line != [] ==> x.line[0] != Hash(RedefineAssert))
    ensures Unmarked(pre + [x] + post)
  {
    assert forall r <- pre + [x] + post :: r in pre + post || r == x;
  }

  lemma {:induction false} AssertUnrefused(pre: seq<Reading>, args: Line, post: seq<Reading>)
    requires Passable(args) && pre != [] && !Spliced(pre[|pre| - 1].line) && Terminates(Above(CellsOf(pre), |pre|))
    ensures var x := Plainly(AssertLine(args));
      RefuseInsertion(LinesOf(pre + [x] + post), CellsOf(pre + [x] + post), |pre|) == None && !AllBlank(x.cells)
  {
    var x := Plainly(AssertLine(args));
    var k, all := |pre|, pre + [x] + post;
    LinesAround(pre, x, post);
    AboveSame(CellsOf(all), CellsOf(pre), k);
    assert LinesOf(all)[k - 1] == pre[k - 1].line && LinesOf(all)[k] == x.line && CellsOf(all)[k] == x.cells;
    AssertPasses(LinesOf(all), CellsOf(all), k, args);
  }

  /** A line that looks like a line comment passes anywhere. */
  lemma {:induction false} CommentPasses(after: seq<Line>, sn: seq<seq<Cell>>, k: nat)
    requires 0 < k < |after| == |sn| && after[k] != [] && after[k][0] == LineOpen
    requires !Spliced(after[k - 1]) && !Spliced(after[k]) && Trigraph !in after[k]
    ensures RefuseInsertion(after, sn, k) == None
  {
  }

  /** A comment line put in. */
  lemma {:induction false} CommentPutIn(pre: seq<Reading>, x: Reading, rest: seq<Reading>, rest1: seq<Reading>)
    requires Linked(pre + rest, TOP, TOP) && Linked(pre + [x] + rest1, TOP, TOP) && Alike(rest, rest1)
    requires Unmarked(pre + rest) && Unmarked(pre + [x] + rest1) && !AllBlank(x.cells)
    requires pre != [] && !Spliced(pre[|pre| - 1].line)
    requires x.line != [] && x.line[0] == LineOpen && !Spliced(x.line) && Trigraph !in x.line
    ensures var b, a, ops := LinesOf(pre + rest), LinesOf(pre + [x] + rest1), ScriptAt(|pre|, |pre + rest|);
      ValidScript(ops, b, a, 0, 0) && Accepts(b, a, ops)
  {
    var all := pre + [x] + rest1;
    assert LinesOf(all)[|pre| - 1] == pre[|pre| - 1].line && LinesOf(all)[|pre|] == x.line;
    CommentPasses(LinesOf(all), CellsOf(all), |pre|);
    PutIn(pre, x, rest, rest1);
  }
}
