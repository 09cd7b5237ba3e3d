/** Rewrites the gate accepts although they are not the original with assertions added: each is safe, and the original it
    stands for is not. */
module GateMisses {
  import opened Wrappers
  import opened Tokens
  import opened Language
  import opened Gate
  import opened GateSoundness
  import opened Erasure
  import opened LineReadings
  import opened SmallPrograms

  /** Accepted, safe, and the rewrite of a file that is not. */
  ghost predicate Missed(pp: Preprocessor, m: Meaning<int>, before: seq<Line>, after: seq<Line>, ops: seq<Opcode>) {
    && Sectioned(pp) && ValidScript(ops, before, after, 0, 0) && Accepts(before, after, ops) && Respects(m)
    && UnitOf(pp, before).Some? && UnitOf(pp, after).Some?
    && SafeBut(m, UnitOf(pp, after).value, 1, NOTHING) && !SafeBut(m, UnitOf(pp, before).value, 1, NOTHING)
  }

  /** So the rewrite is not the original with assertions added. */
  lemma {:induction false} MissedIsUnsound(pp: Preprocessor, m: Meaning<int>, before: seq<Line>, after: seq<Line>,
      ops: seq<Opcode>)
    requires Missed(pp, m, before, after, ops)
    ensures !WellBehaved(pp, m.effects, Views(before), Views(after), Flags(ops))
  {
    if WellBehaved(pp, m.effects, Views(before), Views(after), Flags(ops)) {
      StepIsSafe(pp, m, before, after, ops, 1);
      SafeStep(m, UnitOf(pp, after).value, UnitOf(pp, before).value, 1, NOTHING);
    }
  }

  // ------------------------------------------------------------ lines

  const HEAD: Line := [Ident("int"), Ident("main"), LParen, RParen, LBrace]
  const TEST: Line := [If, LParen, Ident("quiet"), RParen]
  const CLOSE: Line := [RBrace]

  function CallLine(name: string): Line { [Ident(name), LParen, RParen, Semi] }

  /** What `main` begins with: whatever parses behind it is its body. */
  ghost predicate OpensMain(head: seq<Piece>) {
    forall body, stmts :: ParseList(body) == Some((stmts, [C(RBrace)])) ==> Parse(head + body) == Some(Main(stmts))
  }

  lemma HeadOpens(h: Line)
    requires h == HEAD
    ensures Ordinary(h) && h[|h| - 1] == LBrace && OpensMain(AllCode(h))
  {
    MainOpens(AllCode(h), MAIN);
  }

  lemma MainOpens(head: seq<Piece>, main: seq<Piece>)
    requires main == MAIN && head == main + [C(LBrace)]
    ensures OpensMain(head)
  {
    forall body, stmts | ParseList(body) == Some((stmts, [C(RBrace)])) ensures Parse(head + body) == Some(Main(stmts)) {
      MainParsed(body, stmts);
      Associative(main, [C(LBrace)], body);
    }
  }

  lemma CallRead(name: string, u: Line)
    requires u == CallLine(name)
    ensures Ordinary(u) && AllCode(u) == Calls(name) + [C(Semi)] && u[|u| - 1] == Semi
  {
  }

  lemma CloseRead(c: Line)
    requires c == CLOSE
    ensures Ordinary(c) && AllCode(c) == [C(RBrace)]
  {
  }

  /** A file's beginning: it opens `main`, and the gate lets an assertion follow. */
  ghost predicate Opening(pp: Preprocessor, pre: seq<Reading>) {
    && Linked(pre, TOP, TOP) && Unmarked(pre) && OpensMain(Sum(pp, pre, [])) && Told(pre, []) == []
    && pre != [] && !Spliced(pre[|pre| - 1].line) && Terminates(Above(CellsOf(pre), |pre|))
  }

  lemma {:induction false} OpeningRead(pp: Preprocessor, h: Line)
    requires pp.keeps([]) && Ordinary(h) && h[|h| - 1] == LBrace && OpensMain(AllCode(h))
    ensures Opening(pp, [Plainly(h)])
  {
    var r := Plainly(h);
    ReadPlainly(h);
    LinkedOne(r);
    SumFirst(pp, r, [], []);
    assert [r] + [] == [r] && r.ps + [] == r.ps;
    KeptEnds(h);
    LooksFurther(CellsOf([r]), 0);
  }

  /** A file's end: it parses to these statements and closes `main`. */
  ghost predicate Ending(pp: Preprocessor, ds: seq<Directive>, end: seq<Reading>, from: Start, stmts: seq<Stmt>) {
    Linked(end, from, TOP) && Unmarked(end) && ParseList(Sum(pp, end, ds)) == Some((stmts, [C(RBrace)]))
  }

  lemma {:induction false} EndRead(pp: Preprocessor, ds: seq<Directive>, c: Line)
    requires pp.keeps(ds) && Ordinary(c) && AllCode(c) == [C(RBrace)]
    ensures Ending(pp, ds, [Plainly(c)], TOP, [])
  {
    var r := Plainly(c);
    ReadPlainly(c);
    LinkedOne(r);
    SumFirst(pp, r, [], ds);
    assert [r] + [] == [r] && r.ps + [] == r.ps;
    ListEnds();
  }

  /** The line is a statement. */
  predicate Statement(r: Reading, run: seq<Piece>) {
    Right(r) && r.role == None && r.ps == run + [C(Semi)] && Unmarked([r]) && Whole(run) && StartsPlainly(run)
  }

  /** ... in front of an end. */
  lemma {:induction false} StatementRead(pp: Preprocessor, ds: seq<Directive>, r: Reading, run: seq<Piece>,
      end: seq<Reading>, stmts: seq<Stmt>)
    requires pp.keeps(ds) && Statement(r, run) && Ending(pp, ds, end, r.next, stmts)
    ensures Ending(pp, ds, [r] + end, r.start, [Simple(run)] + stmts)
  {
    LinkedOne(r);
    LinkedAppend([r], end, r.start, r.next, TOP);
    SumFirst(pp, r, end, ds);
    RunFirst(run, Sum(pp, end, ds));
    UnmarkedAppend([r], end);
  }

  lemma {:induction false} CallStatement(name: string, u: Line)
    requires u == CallLine(name)
    ensures Statement(Plainly(u), Calls(name))
  {
    CallRead(name, u);
    ReadPlainly(u);
    CallIsWhole(name);
  }

  /** A line that contributes nothing, in front of an end. */
  lemma {:induction false} SilentRead(pp: Preprocessor, ds: seq<Directive>, r: Reading, end: seq<Reading>, stmts: seq<Stmt>)
    requires pp.keeps(ds) && Right(r) && r.role == None && r.ps == [] && Unmarked([r]) && Ending(pp, ds, end, r.next, stmts)
    ensures Ending(pp, ds, [r] + end, r.start, stmts)
  {
    LinkedOne(r);
    LinkedAppend([r], end, r.start, r.next, TOP);
    SumFirst(pp, r, end, ds);
    assert [] + Sum(pp, end, ds) == Sum(pp, end, ds);
    UnmarkedAppend([r], end);
  }

  lemma {:induction false} CallAndEnd(pp: Preprocessor, ds: seq<Directive>, name: string, u: Line, end: seq<Reading>,
      stmts: seq<Stmt>)
    requires pp.keeps(ds) && u == CallLine(name) && Ending(pp, ds, end, TOP, stmts)
    ensures Ending(pp, ds, [Plainly(u)] + end, TOP, [Simple(Calls(name))] + stmts)
  {
    CallStatement(name, u);
    StatementRead(pp, ds, Plainly(u), Calls(name), end, stmts);
  }

  /** A file between its beginning and its end. */
  lemma {:induction false} UnitRead(pp: Preprocessor, pre: seq<Reading>, end: seq<Reading>, from: Start, stmts: seq<Stmt>)
    requires Linked(pre, TOP, from) && OpensMain(Sum(pp, pre, [])) && Ending(pp, Told(pre, []), end, from, stmts)
    ensures Linked(pre + end, TOP, TOP) && UnitOf(pp, LinesOf(pre + end)) == Some(Main(stmts))
  {
    LinkedAppend(pre, end, TOP, from, TOP);
    ProgramRead(pp, pre + end, TOP);
    SumAppend(pp, pre, end, []);
  }

  /** An accepted rewrite that is safe where the original is not is one the gate misses. */
  lemma MissedAs(pp: Preprocessor, m: Meaning<int>, b: seq<Line>, a: seq<Line>, ops: seq<Opcode>, was: seq<Stmt>,
      now: seq<Stmt>)
    requires Sectioned(pp) && ValidScript(ops, b, a, 0, 0) && Accepts(b, a, ops) && Named(m)
    requires UnitOf(pp, b) == Some(Main(was)) && UnitOf(pp, a) == Some(Main(now))
    requires Reports(m, was, true) && Reports(m, now, false)
    ensures Missed(pp, m, b, a, ops)
  {
    ReportsMeans(m, was, true);
    ReportsMeans(m, now, false);
  }

  /** The same for an assertion put in where the gate sees the end of a statement. */
  lemma {:induction false} AssertMissed(pp: Preprocessor, m: Meaning<int>, pre: seq<Reading>, args: Line,
      end: seq<Reading>, was: seq<Stmt>, now: seq<Stmt>, b: seq<Line>, a: seq<Line>, k: nat)
    requires Sectioned(pp) && Named(m) && Reports(m, was, true) && Reports(m, now, false)
    requires Linked(pre, TOP, TOP) && Linked(end, TOP, TOP) && Unmarked(pre) && Unmarked(end) && Passable(args)
    requires k == |pre| > 0 && !Spliced(pre[k - 1].line) && Terminates(Above(CellsOf(pre), k))
    requires b == LinesOf(pre + end) && a == LinesOf(pre + ([Plainly(AssertLine(args))] + end))
    requires UnitOf(pp, b) == Some(Main(was)) && UnitOf(pp, a) == Some(Main(now))
    ensures Missed(pp, m, b, a, ScriptAt(k, |b|))
  {
    var x := Plainly(AssertLine(args));
    UnmarkedAppend(pre, end);
    AssertPutIn(pre, args, end);
    Associative(pre, [x], end);
    MissedAs(pp, m, b, a, ScriptAt(k, |b|), was, now);
  }

  lemma UnmarkedAppend(a: seq<Reading>, b: seq<Reading>)
    requires Unmarked(a) && Unmarked(b)
    ensures Unmarked(a + b)
  {
  }

  // ------------------------------------------------------------ conditions that act

  function Asserted(args: Line): seq<Piece> { AllCode([AssertName("assert"), LParen] + args + [RParen]) }

  lemma AssertedLine(args: Line)
    ensures AllCode(AssertLine(args)) == Asserted(args) + [C(Semi)]
    ensures StartsPlainly(Asserted(args)) && Asserted(args)[0] == C(AssertName("assert"))
  {
  }

  lemma {:induction false} AssertStatement(args: Line)
    requires Passable(args) && Whole(Asserted(args))
    ensures Statement(Plainly(AssertLine(args)), Asserted(args))
  {
    AssertedLine(args);
    AssertIsOrdinary(args);
    AssertTokens(args, AssertLine(args));
    ReadPlainly(AssertLine(args));
  }

  /** A condition that passes the gate and may write. */
  predicate Unseen(effects: set<string>, args: Line) {
    Passable(args) && Whole(Asserted(args)) && !IsAssertion(effects, Asserted(args))
  }

  /** Above `use();`, an assertion of this is one the gate misses. */
  ghost predicate MissedAbove(pp: Preprocessor, effects: set<string>, args: Line) {
    Missed(pp, Meant(effects, Asserted(args)), [HEAD, CallLine("use"), CLOSE],
           [HEAD, AssertLine(args), CallLine("use"), CLOSE], ScriptAt(1, 3))
  }

  /** Every such condition is missed: it can save a program by what it does. */
  lemma {:induction false} UnseenIsMissed(pp: Preprocessor, effects: set<string>, args: Line)
    requires Sectioned(pp) && pp.keeps([]) && Unseen(effects, args)
    ensures MissedAbove(pp, effects, args)
  {
    HeadOpens(HEAD);
    CloseRead(CLOSE);
    ActsWith(pp, effects, args, HEAD, CallLine("use"), CLOSE);
  }

  lemma {:induction false} ActsWith(pp: Preprocessor, effects: set<string>, args: Line, h: Line, u: Line, c: Line)
    requires Sectioned(pp) && pp.keeps([]) && Unseen(effects, args)
    requires Ordinary(h) && h[|h| - 1] == LBrace && OpensMain(AllCode(h)) && u == CallLine("use")
    requires Ordinary(c) && AllCode(c) == [C(RBrace)]
    ensures Missed(pp, Meant(effects, Asserted(args)), [h, u, c], [h, AssertLine(args), u, c], ScriptAt(1, 3))
  {
    var pre, x, end, run := [Plainly(h)], Plainly(AssertLine(args)), [Plainly(u)] + [Plainly(c)], Asserted(args);
    ActsUnits(pp, args, h, u, c);
    MeantRespects(effects, run);
    UseFails(effects, run);
    ResetSaves(effects, run, run);
    ActsLines(Plainly(h), x, Plainly(u), Plainly(c));
    AssertMissed(pp, Meant(effects, run), pre, args, end, [USE], [Simple(run), USE],
                 [h, u, c], [h, AssertLine(args), u, c], 1);
  }

  lemma ActsLines(h: Reading, x: Reading, u: Reading, c: Reading)
    ensures LinesOf([h] + ([u] + [c])) == [h.line, u.line, c.line]
    ensures LinesOf([h] + ([x] + ([u] + [c]))) == [h.line, x.line, u.line, c.line]
  {
  }

  lemma {:induction false} ActsUnits(pp: Preprocessor, args: Line, h: Line, u: Line, c: Line)
    requires pp.keeps([]) && Passable(args) && Whole(Asserted(args))
    requires Ordinary(h) && h[|h| - 1] == LBrace && OpensMain(AllCode(h)) && u == CallLine("use")
    requires Ordinary(c) && AllCode(c) == [C(RBrace)]
    ensures var pre, end := [Plainly(h)], [Plainly(u)] + [Plainly(c)];
      && Opening(pp, pre) && Linked(end, TOP, TOP) && Unmarked(end) && UnitOf(pp, LinesOf(pre + end)) == Some(Main([USE]))
      && UnitOf(pp, LinesOf(pre + ([Plainly(AssertLine(args))] + end))) == Some(Main([Simple(Asserted(args)), USE]))
  {
    var pre, end := [Plainly(h)], [Plainly(u)] + [Plainly(c)];
    OpeningRead(pp, h);
    EndRead(pp, [], c);
    UseAndEnd(pp, [], u, [Plainly(c)]);
    AssertAndUse(pp, args, end);
    UnitRead(pp, pre, end, TOP, [USE]);
    UnitRead(pp, pre, [Plainly(AssertLine(args))] + end, TOP, [Simple(Asserted(args)), USE]);
  }

  lemma {:induction false} UseAndEnd(pp: Preprocessor, ds: seq<Directive>, u: Line, end: seq<Reading>)
    requires pp.keeps(ds) && u == CallLine("use") && Ending(pp, ds, end, TOP, [])
    ensures Ending(pp, ds, [Plainly(u)] + end, TOP, [USE])
  {
    CallAndEnd(pp, ds, "use", u, end, []);
    assert [USE] + [] == [USE];
  }

  lemma {:induction false} AssertAndUse(pp: Preprocessor, args: Line, end: seq<Reading>)
    requires pp.keeps([]) && Passable(args) && Whole(Asserted(args)) && Ending(pp, [], end, TOP, [USE])
    ensures Ending(pp, [], [Plainly(AssertLine(args))] + end, TOP, [Simple(Asserted(args)), USE])
  {
    AssertStatement(args);
    StatementRead(pp, [], Plainly(AssertLine(args)), Asserted(args), end, [USE]);
    assert [Simple(Asserted(args))] + [USE] == [Simple(Asserted(args)), USE];
  }

  /** The run in full, from within `depth` parentheses on. */
  predicate Runs(run: seq<Piece>, depth: nat, afterParen: bool) { TakeRun(run, depth, Bare, afterParen) == Some((run, [])) }

  lemma RunsFirst(p: Piece, run: seq<Piece>, depth: nat, afterParen: bool)
    requires IsPlain(p) && !(p == C(RParen) && depth == 0)
    requires Runs(run, if p == C(LParen) then depth + 1 else if p == C(RParen) then depth - 1 else depth, p == C(RParen))
    ensures Runs([p] + run, depth, afterParen)
  {
    RunStep(p, run, depth, Bare, afterParen, run, []);
  }

  /** `{word}` in front of the rest of a run. */
  lemma RunsBraces(p: Piece, run: seq<Piece>, depth: nat, afterParen: bool)
    requires depth > 0 && p.C? && p.t.Ident? && Runs(run, depth, false) && !OpensAssertion(run)
    ensures Runs([C(LBrace)] + ([p] + ([C(RBrace)] + run)), depth, afterParen)
  {
    var t2 := [C(RBrace)] + run;
    var t1 := [p] + t2;
    var t0 := [C(LBrace)] + t1;
    assert t0[1..] == t1 && t1[1..] == t2 && t2[1..] == run;
    assert TakeGroup(t2, 0, false) == Some(([C(RBrace)], run));
    assert TakeGroup(t1, 0, true) == Some(([p] + [C(RBrace)], run));
    assert [C(LBrace)] + ([p] + [C(RBrace)]) + run == t0;
  }

  /** The arguments may write: one of these calls, or stands for an effect. */
  lemma Writes(effects: set<string>, args: Line, k: nat)
    requires k < |args|
    requires (k > 0 && args[k] == LParen && Applies(C(args[k - 1]))) || (args[k].Ident? && args[k].name in effects)
    ensures !IsAssertion(effects, Asserted(args))
  {
    var run := Asserted(args);
    var inner := run[2..|run| - 1];
    assert inner[k] == C(args[k]) && (k > 0 ==> inner[k - 1] == C(args[k - 1]));
    assert inner[k] in inner;
  }

  lemma BracesWrite(effects: set<string>, args: Line, k: nat)
    requires k < |args| && args[k] == LBrace
    ensures !IsAssertion(effects, Asserted(args))
  {
    var run := Asserted(args);
    var inner := run[2..|run| - 1];
    assert inner[k] == C(args[k]) && inner[k] in inner;
  }

  /** The arguments between `assert(` and `)`. */
  lemma WholeAsserted(args: Line, tail: seq<Piece>)
    requires tail == AllCode(args) + [C(RParen)] && Runs(tail, 1, false)
    ensures Whole(Asserted(args))
  {
    RunsFirst(C(LParen), tail, 0, false);
    RunsFirst(C(AssertName("assert")), [C(LParen)] + tail, 0, false);
    AssertedParts(args, tail);
  }

  lemma AssertedParts(args: Line, tail: seq<Piece>)
    requires tail == AllCode(args) + [C(RParen)]
    ensures Asserted(args) == [C(AssertName("assert"))] + ([C(LParen)] + tail)
  {
  }

  /** Arguments, from within `depth` parentheses on, that pass the gate and read in full. */
  predicate Fit(args: Line, depth: nat, afterParen: bool) {
    Passable(args) && Runs(AllCode(args) + [C(RParen)], depth, afterParen)
  }

  /** The pieces of a line, token by token. */
  lemma CodeFirst(t: Token, rest: Line, end: seq<Piece>)
    ensures AllCode([t] + rest) + end == [C(t)] + (AllCode(rest) + end)
  {
  }

  predicate MildAt(t: Token, rest: Line) {
    && !Marks(t) && t != Splice && t != Trigraph && !t.Effect? && t != Semi && !t.AssumeName?
    && !(Spotted(t) && rest != [] && rest[0] == LParen)
  }

  lemma {:induction false} PassesFirst(t: Token, rest: Line)
    requires MildAt(t, rest) && Passable(rest)
    ensures Passable([t] + rest)
  {
    var all := [t] + rest;
    forall k | 0 < k < |all| && Spotted(all[k - 1]) ensures all[k] != LParen {
      if k > 1 { assert all[k] == rest[k - 1] && all[k - 1] == rest[k - 2]; }
    }
  }

  /** A token in front of the arguments. */
  lemma {:induction false} FitFirst(t: Token, rest: Line, depth: nat, afterParen: bool)
    requires MildAt(t, rest) && IsPlain(C(t)) && !(t == RParen && depth == 0)
    requires Fit(rest, if t == LParen then depth + 1 else if t == RParen then depth - 1 else depth, t == RParen)
    ensures Fit([t] + rest, depth, afterParen)
  {
    PassesFirst(t, rest);
    CodeFirst(t, rest, [C(RParen)]);
    RunsFirst(C(t), AllCode(rest) + [C(RParen)], depth, afterParen);
  }

  lemma FitEnd()
    ensures Fit([], 1, false) && Fit([], 1, true)
  {
    RunsFirst(C(RParen), [], 1, false);
    RunsFirst(C(RParen), [], 1, true);
    assert [C(RParen)] + [] == [C(RParen)] && AllCode([]) + [C(RParen)] == [C(RParen)];
  }

  /** `()`. */
  lemma FitCall(afterParen: bool)
    ensures Fit([LParen] + [RParen], 1, afterParen)
  {
    FitEnd();
    FitFirst(RParen, [], 2, false);
    assert [RParen] + [] == [RParen];
    FitFirst(LParen, [RParen], 1, afterParen);
  }

  /** `{word}` in front of the arguments. */
  lemma {:induction false} FitBraces(word: string, rest: Line, depth: nat, afterParen: bool)
    requires depth > 0 && Fit(rest, depth, false) && !(rest != [] && rest[0].AssertName?)
    ensures Fit([LBrace] + ([Ident(word)] + ([RBrace] + rest)), depth, afterParen)
  {
    PassesFirst(RBrace, rest);
    PassesFirst(Ident(word), [RBrace] + rest);
    PassesFirst(LBrace, [Ident(word)] + ([RBrace] + rest));
    CodeFirst(RBrace, rest, [C(RParen)]);
    CodeFirst(Ident(word), [RBrace] + rest, [C(RParen)]);
    CodeFirst(LBrace, [Ident(word)] + ([RBrace] + rest), [C(RParen)]);
    if rest == [] { assert AllCode(rest) + [C(RParen)] == [C(RParen)]; }
    RunsBraces(C(Ident(word)), AllCode(rest) + [C(RParen)], depth, afterParen);
  }

  /** Such arguments the gate misses: a brace, a call, or a name that stands for an effect is among them. */
  lemma FitIsMissed(pp: Preprocessor, effects: set<string>, args: Line, k: nat)
    requires Sectioned(pp) && pp.keeps([]) && Fit(args, 1, false) && k < |args|
    requires args[k] == LBrace || (k > 0 && args[k] == LParen && Applies(C(args[k - 1])))
             || (args[k].Ident? && args[k].name in effects)
    ensures MissedAbove(pp, effects, args)
  {
    WholeAsserted(args, AllCode(args) + [C(RParen)]);
    if args[k] == LBrace { BracesWrite(effects, args, k); } else { Writes(effects, args, k); }
    UnseenIsMissed(pp, effects, args);
  }

  lemma {:induction false} HiddenFits(f: string)
    ensures Fit([LParen, Ident(f), RParen, LParen, RParen], 1, false)
  {
    FitCall(true);
    FitFirst(RParen, [LParen] + [RParen], 2, false);
    FitFirst(Ident(f), [RParen] + ([LParen] + [RParen]), 2, false);
    FitFirst(LParen, [Ident(f)] + ([RParen] + ([LParen] + [RParen])), 1, false);
    var _ := Listed5(LParen, Ident(f), RParen, LParen, RParen);
  }

  /** `(f)()` calls `f`. */
  lemma {:induction false} HiddenCallMissed(pp: Preprocessor, f: string)
    requires Sectioned(pp) && pp.keeps([])
    ensures MissedAbove(pp, {}, [LParen, Ident(f), RParen, LParen, RParen])
  {
    HiddenFits(f);
    FitIsMissed(pp, {}, [LParen, Ident(f), RParen, LParen, RParen], 3);
  }

  lemma {:induction false} CompoundFits(t: string, f: string)
    ensures Fit([LParen, Ident(t), RParen, LBrace, Ident(f), RBrace, LParen, RParen], 1, false)
  {
    var braced := [LBrace] + ([Ident(f)] + ([RBrace] + ([LParen] + [RParen])));
    FitCall(false);
    FitBraces(f, [LParen] + [RParen], 1, true);
    FitFirst(RParen, braced, 2, false);
    FitFirst(Ident(t), [RParen] + braced, 2, false);
    FitFirst(LParen, [Ident(t)] + ([RParen] + braced), 1, false);
    var _ := Listed8(LParen, Ident(t), RParen, LBrace, Ident(f), RBrace, LParen, RParen);
  }

  /** `(t){f}()` calls through a compound literal. */
  lemma {:induction false} CompoundLiteralMissed(pp: Preprocessor, t: string, f: string)
    requires Sectioned(pp) && pp.keeps([])
    ensures MissedAbove(pp, {}, [LParen, Ident(t), RParen, LBrace, Ident(f), RBrace, LParen, RParen])
  {
    CompoundFits(t, f);
    FitIsMissed(pp, {}, [LParen, Ident(t), RParen, LBrace, Ident(f), RBrace, LParen, RParen], 3);
  }

  lemma {:induction false} TemplateFits(f: string, t: string)
    ensures Fit([Ident(f), Operand("<"), Ident(t), Operand(">"), LParen, RParen], 1, false)
  {
    FitCall(false);
    FitFirst(Operand(">"), [LParen] + [RParen], 1, false);
    FitFirst(Ident(t), [Operand(">")] + ([LParen] + [RParen]), 1, false);
    FitFirst(Operand("<"), [Ident(t)] + ([Operand(">")] + ([LParen] + [RParen])), 1, false);
    FitFirst(Ident(f), [Operand("<")] + ([Ident(t)] + ([Operand(">")] + ([LParen] + [RParen]))), 1, false);
    var _ := Listed6(Ident(f), Operand("<"), Ident(t), Operand(">"), LParen, RParen);
  }

  /** `f<t>()` calls a template. */
  lemma {:induction false} TemplateCallMissed(pp: Preprocessor, f: string, t: string)
    requires Sectioned(pp) && pp.keeps([])
    ensures MissedAbove(pp, {}, [Ident(f), Operand("<"), Ident(t), Operand(">"), LParen, RParen])
  {
    TemplateFits(f, t);
    FitIsMissed(pp, {}, [Ident(f), Operand("<"), Ident(t), Operand(">"), LParen, RParen], 4);
  }

  /** `f()` calls a function whose name does not begin with an ASCII letter. */
  lemma {:induction false} ForeignNameMissed(pp: Preprocessor, f: string)
    requires Sectioned(pp) && pp.keeps([]) && !Spotted(Ident(f))
    ensures MissedAbove(pp, {}, [Ident(f), LParen, RParen])
  {
    FitCall(false);
    FitFirst(Ident(f), [LParen] + [RParen], 1, false);
    assert [Ident(f)] + ([LParen] + [RParen]) == [Ident(f), LParen, RParen];
    FitIsMissed(pp, {}, [Ident(f), LParen, RParen], 1);
  }

  /** A name that stands for an effect, a macro's or a keyword. */
  lemma {:induction false} EffectNameMissed(pp: Preprocessor, name: string)
    requires Sectioned(pp) && pp.keeps([])
    ensures MissedAbove(pp, {name}, [Ident(name)])
  {
    FitEnd();
    FitFirst(Ident(name), [], 1, false);
    assert [Ident(name)] + [] == [Ident(name)];
    FitIsMissed(pp, {name}, [Ident(name)], 0);
  }

  lemma Listed5<T>(a: T, b: T, c: T, d: T, e: T) returns (r: seq<T>)
    ensures r == [a, b, c, d, e] == [a] + ([b] + ([c] + ([d] + [e])))
  {
    r := [a, b, c, d, e];
  }

  lemma Listed6<T>(a: T, b: T, c: T, d: T, e: T, f: T) returns (r: seq<T>)
    ensures r == [a, b, c, d, e, f] == [a] + ([b] + ([c] + ([d] + ([e] + [f]))))
  {
    r := [a, b, c, d, e, f];
  }

  lemma Listed8<T>(a: T, b: T, c: T, d: T, e: T, f: T, g: T, h: T) returns (r: seq<T>)
    ensures r == [a, b, c, d, e, f, g, h] == [a] + ([b] + ([c] + ([d] + ([e] + ([f] + ([g] + [h]))))))
  {
    r := [a, b, c, d, e, f, g, h];
  }

  // ------------------------------------------------------------ assertions that stand where no statement may begin

  const ONE: Line := [Operand("1")]

  lemma OneWhole(args: Line)
    requires args == ONE
    ensures Passable(args) && Whole(Asserted(args))
  {
    FitEnd();
    FitFirst(Operand("1"), [], 1, false);
    assert args == [Operand("1")] + [];
    WholeAsserted(args, AllCode(args) + [C(RParen)]);
  }

  /** `if (quiet)`. */
  function Tested(): seq<Piece> { [C(If), C(LParen)] + QUIET + [C(RParen)] }

  /** Looking up from below these lines, the gate finds the end of a statement if it would from above them. */
  ghost predicate LooksDone(cells: seq<seq<Cell>>) {
    forall pre, all: seq<seq<Cell>> {:trigger DoneBelow(pre, cells, all)} :: DoneBelow(pre, cells, all)
  }

  predicate DoneBelow(pre: seq<seq<Cell>>, cells: seq<seq<Cell>>, all: seq<seq<Cell>>) {
    all == pre + cells && Terminates(Above(pre, |pre|)) ==> Terminates(Above(all, |all|))
  }

  /** Lines that are `if (quiet)`, though the gate sees the end of a statement in them or above. */
  ghost predicate Guard(pp: Preprocessor, guard: seq<Reading>) {
    && Linked(guard, TOP, TOP) && Unmarked(guard) && Sum(pp, guard, []) == Tested() && pp.keeps(Told(guard, []))
    && guard != [] && !Spliced(guard[|guard| - 1].line) && LooksDone(CellsOf(guard))
  }

  /** Such lines, a statement, and an end. */
  lemma {:induction false} GuardRead(pp: Preprocessor, guard: seq<Reading>, r: Reading, run: seq<Piece>,
      end: seq<Reading>, stmts: seq<Stmt>)
    requires Guard(pp, guard) && Statement(r, run) && r.start == TOP && Ending(pp, Told(guard, []), end, r.next, stmts)
    ensures Ending(pp, [], guard + ([r] + end), TOP, [Branch(QUIET, Simple(run), None)] + stmts)
  {
    var ds := Told(guard, []);
    StatementRead(pp, ds, r, run, end, stmts);
    LinkedAppend(guard, [r] + end, TOP, TOP, TOP);
    UnmarkedAppend(guard, [r] + end);
    SumAppend(pp, guard, [r] + end, []);
    SumFirst(pp, r, end, ds);
    GuardParsed(Sum(pp, guard, []), run, Sum(pp, end, ds), stmts);
  }

  lemma {:induction false} GuardParsed(test: seq<Piece>, run: seq<Piece>, rest: seq<Piece>, stmts: seq<Stmt>)
    requires test == Tested() && Whole(run) && StartsPlainly(run)
    requires ParseList(rest) == Some((stmts, [C(RBrace)]))
    ensures ParseList(test + (run + [C(Semi)] + rest)) == Some(([Branch(QUIET, Simple(run), None)] + stmts, [C(RBrace)]))
  {
    RunFirst(run, rest);
    BranchFirst(run + [C(Semi)] + rest, rest, Simple(run), stmts, [C(RBrace)]);
  }

  /** Below such lines, an assertion is accepted and takes the place of the statement guarded. */
  ghost predicate MissedAmong(pp: Preprocessor, h: Line, guard: seq<Line>, x: Line, r: Line, u: Line, c: Line) {
    Missed(pp, Meant({}, Calls("reset")), [h] + guard + [r, u, c], [h] + guard + [x, r, u, c],
           ScriptAt(1 + |guard|, |[h] + guard + [r, u, c]|))
  }

  ghost predicate MissedBelow(pp: Preprocessor, guard: seq<Line>) {
    MissedAmong(pp, HEAD, guard, AssertLine(ONE), CallLine("reset"), CallLine("use"), CLOSE)
  }

  lemma {:induction false} GuardIsMissed(pp: Preprocessor, guard: seq<Reading>, lines: seq<Line>)
    requires Sectioned(pp) && pp.keeps([]) && Guard(pp, guard) && lines == LinesOf(guard)
    ensures MissedBelow(pp, lines)
  {
    FrameFits(HEAD, ONE, CallLine("reset"), CallLine("use"), CLOSE);
    StealsWith(pp, guard, lines, HEAD, ONE, CallLine("reset"), CallLine("use"), CLOSE);
  }

  /** Lines to stand around the guard. */
  ghost predicate Frame(h: Line, args: Line, r: Line, u: Line, c: Line) {
    && Ordinary(h) && h[|h| - 1] == LBrace && OpensMain(AllCode(h)) && Passable(args) && Whole(Asserted(args))
    && r == CallLine("reset") && u == CallLine("use") && Ordinary(c) && AllCode(c) == [C(RBrace)]
  }

  lemma FrameFits(h: Line, args: Line, r: Line, u: Line, c: Line)
    requires h == HEAD && args == ONE && r == CallLine("reset") && u == CallLine("use") && c == CLOSE
    ensures Frame(h, args, r, u, c)
  {
    HeadOpens(h);
    OneWhole(args);
    CloseRead(c);
  }

  lemma {:induction false} StealsWith(pp: Preprocessor, guard: seq<Reading>, lines: seq<Line>, h: Line, args: Line,
      r: Line, u: Line, c: Line)
    requires Sectioned(pp) && pp.keeps([]) && Guard(pp, guard) && lines == LinesOf(guard) && Frame(h, args, r, u, c)
    ensures MissedAmong(pp, h, lines, AssertLine(args), r, u, c)
  {
    var pre, end, run := [Plainly(h)] + guard, [Plainly(r)] + ([Plainly(u)] + [Plainly(c)]), Asserted(args);
    StealsUnits(pp, guard, h, args, r, u, c);
    StealsPre(pp, guard, h);
    StealsLines(Plainly(h), guard, Plainly(AssertLine(args)), Plainly(r), Plainly(u), Plainly(c));
    MeantRespects({}, Calls("reset"));
    GuardedFails({}, Calls("reset"));
    UnguardedSaves({}, Calls("reset"), Simple(run));
    AssertMissed(pp, Meant({}, Calls("reset")), pre, args, end, [Branch(QUIET, RESET, None), USE],
                 [Branch(QUIET, Simple(run), None), RESET, USE],
                 [h] + lines + [r, u, c], [h] + lines + [AssertLine(args), r, u, c], 1 + |lines|);
  }

  lemma StealsLines(h: Reading, guard: seq<Reading>, x: Reading, r: Reading, u: Reading, c: Reading)
    ensures var pre, end := [h] + guard, [r] + ([u] + [c]);
      && LinesOf(pre + end) == [h.line] + LinesOf(guard) + [r.line, u.line, c.line]
      && LinesOf(pre + ([x] + end)) == [h.line] + LinesOf(guard) + [x.line, r.line, u.line, c.line]
  {
  }

  lemma {:induction false} StealsPre(pp: Preprocessor, guard: seq<Reading>, h: Line)
    requires pp.keeps([]) && Guard(pp, guard) && Ordinary(h) && h[|h| - 1] == LBrace && OpensMain(AllCode(h))
    ensures var pre := [Plainly(h)] + guard;
      && Linked(pre, TOP, TOP) && Unmarked(pre) && |pre| == 1 + |LinesOf(guard)|
      && Terminates(Above(CellsOf(pre), 1 + |LinesOf(guard)|)) && !Spliced(pre[|LinesOf(guard)|].line)
  {
    var a := Plainly(h);
    OpeningRead(pp, h);
    LinkedAppend([a], guard, TOP, TOP, TOP);
    UnmarkedAppend([a], guard);
    CellsBelow(a, guard);
    assert DoneBelow(CellsOf([a]), CellsOf(guard), CellsOf([a] + guard));
  }

  lemma CellsBelow(a: Reading, guard: seq<Reading>)
    ensures CellsOf([a] + guard) == CellsOf([a]) + CellsOf(guard)
  {
  }

  lemma {:induction false} StealsUnits(pp: Preprocessor, guard: seq<Reading>, h: Line, args: Line, r: Line, u: Line, c: Line)
    requires pp.keeps([]) && Guard(pp, guard) && Frame(h, args, r, u, c)
    ensures var pre, end := [Plainly(h)] + guard, [Plainly(r)] + ([Plainly(u)] + [Plainly(c)]);
      && Linked(end, TOP, TOP) && Unmarked(end)
      && UnitOf(pp, LinesOf(pre + end)) == Some(Main([Branch(QUIET, RESET, None), USE]))
      && UnitOf(pp, LinesOf(pre + ([Plainly(AssertLine(args))] + end)))
         == Some(Main([Branch(QUIET, Simple(Asserted(args)), None), RESET, USE]))
  {
    var ds, use := Told(guard, []), [Plainly(u)] + [Plainly(c)];
    EndRead(pp, ds, c);
    UseAndEnd(pp, ds, u, [Plainly(c)]);
    ResetAndUse(pp, ds, r, use);
    CallStatement("reset", r);
    GuardedTwo(pp, h, guard, Plainly(r), Calls("reset"), use, USE);
    AssertStatement(args);
    GuardedThree(pp, h, guard, Plainly(AssertLine(args)), Asserted(args), [Plainly(r)] + use, RESET, USE);
  }

  lemma {:induction false} GuardedTwo(pp: Preprocessor, h: Line, guard: seq<Reading>, r: Reading, run: seq<Piece>,
      end: seq<Reading>, a: Stmt)
    requires pp.keeps([]) && Guard(pp, guard) && Ordinary(h) && h[|h| - 1] == LBrace && OpensMain(AllCode(h))
    requires Statement(r, run) && r.start == TOP && Ending(pp, Told(guard, []), end, r.next, [a])
    ensures UnitOf(pp, LinesOf([Plainly(h)] + guard + ([r] + end))) == Some(Main([Branch(QUIET, Simple(run), None), a]))
  {
    StmtsListed(Branch(QUIET, Simple(run), None), a);
    GuardedUnit(pp, h, guard, r, run, end, [a]);
  }

  lemma {:induction false} GuardedThree(pp: Preprocessor, h: Line, guard: seq<Reading>, r: Reading, run: seq<Piece>,
      end: seq<Reading>, a: Stmt, b: Stmt)
    requires pp.keeps([]) && Guard(pp, guard) && Ordinary(h) && h[|h| - 1] == LBrace && OpensMain(AllCode(h))
    requires Statement(r, run) && r.start == TOP && Ending(pp, Told(guard, []), end, r.next, [a, b])
    ensures UnitOf(pp, LinesOf([Plainly(h)] + guard + ([r] + end))) == Some(Main([Branch(QUIET, Simple(run), None), a, b]))
  {
    GuardListed(Branch(QUIET, Simple(run), None), a, b);
    GuardedUnit(pp, h, guard, r, run, end, [a, b]);
  }

  lemma {:induction false} ResetAndUse(pp: Preprocessor, ds: seq<Directive>, r: Line, use: seq<Reading>)
    requires pp.keeps(ds) && r == CallLine("reset") && Ending(pp, ds, use, TOP, [USE])
    ensures Ending(pp, ds, [Plainly(r)] + use, TOP, [RESET, USE])
  {
    CallAndEnd(pp, ds, "reset", r, use, [USE]);
    StmtsListed(RESET, USE);
  }

  lemma StmtsListed(a: Stmt, b: Stmt)
    ensures [a] + [b] == [a, b]
  {
  }

  lemma GuardListed(a: Stmt, b: Stmt, c: Stmt)
    ensures [a] + [b, c] == [a, b, c]
  {
  }

  lemma {:induction false} GuardedUnit(pp: Preprocessor, h: Line, guard: seq<Reading>, r: Reading, run: seq<Piece>,
      end: seq<Reading>, stmts: seq<Stmt>)
    requires pp.keeps([]) && Guard(pp, guard) && Ordinary(h) && h[|h| - 1] == LBrace && OpensMain(AllCode(h))
    requires Statement(r, run) && r.start == TOP && Ending(pp, Told(guard, []), end, r.next, stmts)
    ensures UnitOf(pp, LinesOf([Plainly(h)] + guard + ([r] + end))) == Some(Main([Branch(QUIET, Simple(run), None)] + stmts))
  {
    OpeningRead(pp, h);
    GuardRead(pp, guard, r, run, end, stmts);
    UnitRead(pp, [Plainly(h)], guard + ([r] + end), TOP, [Branch(QUIET, Simple(run), None)] + stmts);
    Associative([Plainly(h)], guard, [r] + end);
  }

  // ---- a directive that pulls in code

  /** The gate looks past an `#include` for the code above, and does not see what that pulls in. */
  lemma {:induction false} BelowIncludeMissed(pp: Preprocessor)
    requires Sectioned(pp) && pp.keeps([]) && pp.pulls([Directive(Include, [Hash(Include)])]) == Tested()
    ensures MissedBelow(pp, [[Hash(Include)]])
  {
    var d := IncludeGuard(pp, [Hash(Include)]);
    GuardIsMissed(pp, [d], [[Hash(Include)]]);
  }

  lemma {:induction false} IncludeGuard(pp: Preprocessor, l: Line) returns (d: Reading)
    requires Sectioned(pp) && pp.keeps([]) && l == [Hash(Include)] && pp.pulls([Directive(Include, l)]) == Tested()
    ensures Guard(pp, [d]) && LinesOf([d]) == [l]
  {
    d := Directing(l, TOP, Include);
    ReadDirective(l, TOP, Include);
    LinkedOne(d);
    IncludeSum(pp, d);
    IncludeCells(d, l);
  }

  lemma IncludeCells(d: Reading, l: Line)
    requires d.line == l && l != [] && l[0].Hash? && d.cells == AllKept(l)
    ensures LooksDone(CellsOf([d]))
  {
    KeptEnds(l);
    PastLooksDone(d.cells);
    assert CellsOf([d]) == [d.cells];
  }

  lemma {:induction false} IncludeSum(pp: Preprocessor, d: Reading)
    requires Sectioned(pp) && pp.keeps([]) && d.role == Some(Include)
    ensures Sum(pp, [d], []) == pp.pulls([Directive(Include, d.line)]) && pp.keeps(Told([d], []))
  {
    var x := Directive(Include, d.line);
    SumCons(pp, d, [], []);
    assert [d] + [] == [d] && [] + Roles(d) == [x];
    assert pp.keeps([] + [x]) == pp.keeps([]);
  }

  // ---- lines that only look like code

  /** Lines that contribute nothing, though the gate sees the end of a statement in them. */
  ghost predicate Noise(pp: Preprocessor, noise: seq<Reading>) {
    && Linked(noise, TOP, TOP) && Unmarked(noise) && Sum(pp, noise, []) == [] && pp.keeps(Told(noise, []))
    && noise != [] && !Spliced(noise[|noise| - 1].line) && ShowsDone(CellsOf(noise))
  }

  /** Looking up from below these lines, whatever stands above them, the gate finds the end of a statement. */
  ghost predicate ShowsDone(cells: seq<seq<Cell>>) {
    forall pre, all: seq<seq<Cell>> :: all == pre + cells ==> Terminates(Above(all, |all|))
  }

  lemma {:induction false} NoiseIsMissed(pp: Preprocessor, noise: seq<Reading>, below: seq<Line>, lines: seq<Line>)
    requires Sectioned(pp) && pp.keeps([]) && Noise(pp, noise) && below == LinesOf(noise) && lines == [TEST] + below
    ensures MissedBelow(pp, lines)
  {
    TestRead(TEST);
    NoiseGuards(pp, noise, TEST);
    TestedLines(Plainly(TEST), noise);
    GuardIsMissed(pp, [Plainly(TEST)] + noise, lines);
  }

  lemma OneAndTwo<T>(a: T, b: T, c: T)
    ensures [a] + [b, c] == [a, b, c]
  {
  }

  lemma OneAndThree<T>(a: T, b: T, c: T, d: T)
    ensures [a] + [b, c, d] == [a, b, c, d]
  {
  }

  lemma TestedLines(t: Reading, noise: seq<Reading>)
    ensures LinesOf([t] + noise) == [t.line] + LinesOf(noise) && CellsOf([t] + noise) == [t.cells] + CellsOf(noise)
  {
  }

  lemma TestRead(t: Line)
    requires t == TEST
    ensures Ordinary(t) && AllCode(t) == Tested()
  {
  }

  lemma {:induction false} NoiseGuards(pp: Preprocessor, noise: seq<Reading>, t: Line)
    requires pp.keeps([]) && Noise(pp, noise) && Ordinary(t) && AllCode(t) == Tested()
    ensures Guard(pp, [Plainly(t)] + noise)
  {
    var q := Plainly(t);
    ReadPlainly(t);
    LinkedOne(q);
    LinkedAppend([q], noise, TOP, TOP, TOP);
    UnmarkedAppend([q], noise);
    SumFirst(pp, q, noise, []);
    TestedLines(q, noise);
    ShownBelow(q.cells, CellsOf(noise));
  }

  lemma ShownBelow(first: seq<Cell>, cells: seq<seq<Cell>>)
    requires ShowsDone(cells)
    ensures LooksDone([first] + cells)
  {
    forall pre, all: seq<seq<Cell>> ensures DoneBelow(pre, [first] + cells, all) {
      if all == pre + ([first] + cells) { assert all == (pre + [first]) + cells; }
    }
  }

  lemma {:induction false} DoneAt(cells: seq<seq<Cell>>)
    requires cells != [] && Terminates(LastKept(cells[|cells| - 1])) && !PassedOver(cells[|cells| - 1])
    ensures ShowsDone(cells)
  {
    forall pre, all: seq<seq<Cell>> | all == pre + cells ensures Terminates(Above(all, |all|)) {
      LooksFurther(all, |all| - 1);
    }
  }

  lemma {:induction false} PastSame(pre: seq<seq<Cell>>, cells: seq<seq<Cell>>, past: seq<Cell>, all: seq<seq<Cell>>)
    requires PassedOver(past) && all == pre + (cells + [past])
    ensures Above(all, |all|) == Above(pre + cells, |pre + cells|)
  {
    LooksFurther(all, |all| - 1);
    AboveSame(all, pre + cells, |pre + cells|);
  }

  lemma {:induction false} DonePast(cells: seq<seq<Cell>>, past: seq<Cell>)
    requires PassedOver(past) && ShowsDone(cells)
    ensures ShowsDone(cells + [past])
  {
    forall pre, all: seq<seq<Cell>> | all == pre + (cells + [past]) ensures Terminates(Above(all, |all|)) {
      PastSame(pre, cells, past, all);
    }
  }

  lemma {:induction false} PastLooksDone(past: seq<Cell>)
    requires PassedOver(past)
    ensures LooksDone([past])
  {
    forall pre, all: seq<seq<Cell>> ensures DoneBelow(pre, [past], all) {
      assert [] + [past] == [past] && pre + [] == pre;
      if all == pre + [past] { PastSame(pre, [], past, all); }
    }
  }

  lemma {:induction false} CodeIsNotPassed(line: Line)
    requires line != [] && !line[0].Hash? && line[|line| - 1] == Semi
    ensures Terminates(LastKept(AllKept(line))) && !PassedOver(AllKept(line))
  {
    KeptEnds(line);
  }

  /** A line that adds nothing to the program. */
  predicate Silent(r: Reading) { Right(r) && r.ps == [] && Unmarked([r]) && !Meddles(r.role) }

  /** What looks like code that ends a statement. */
  predicate LooksLikeCode(r: Reading) {
    r.cells == AllKept(r.line) && r.line != [] && !r.line[0].Hash? && r.line[|r.line| - 1] == Semi
  }

  /** Two such lines, the second looking like the end of a statement. */
  lemma {:induction false} TwoNoise(pp: Preprocessor, a: Reading, b: Reading)
    requires Sectioned(pp) && pp.keeps([]) && Silent(a) && Silent(b) && a.start == TOP && a.next == b.start && b.next == TOP
    requires LooksLikeCode(b)
    ensures Noise(pp, [a] + [b])
  {
    LinkedOne(a);
    LinkedOne(b);
    LinkedAppend([a], [b], TOP, b.start, TOP);
    UnmarkedAppend([a], [b]);
    TwoSum(pp, a, b);
    CodeIsNotPassed(b.line);
    LastCells(a, b);
    DoneAt(CellsOf([a] + [b]));
  }

  lemma LastCells(a: Reading, b: Reading)
    ensures var cells := CellsOf([a] + [b]); cells == [a.cells, b.cells] && cells[|cells| - 1] == b.cells
  {
  }

  /** It skips nothing and pulls in nothing. */
  lemma {:induction false} NothingAdded(pp: Preprocessor, r: Reading, ds: seq<Directive>)
    requires Sectioned(pp) && Silent(r)
    ensures pp.keeps(ds + Roles(r)) == pp.keeps(ds) && AddedBy(pp, r, ds) == []
  {
    if r.role == None { assert ds + [] == ds; }
  }

  lemma {:induction false} TwoSum(pp: Preprocessor, a: Reading, b: Reading)
    requires Sectioned(pp) && pp.keeps([]) && Silent(a) && Silent(b)
    ensures Sum(pp, [a] + [b], []) == [] && pp.keeps(Told([a] + [b], []))
  {
    SumCons(pp, a, [b], []);
    assert [] + Roles(a) == Roles(a) && [b] + [] == [b];
    SumCons(pp, b, [], Roles(a));
    NothingAdded(pp, a, []);
    NothingAdded(pp, b, Roles(a));
  }

  lemma TwoLines(a: Reading, b: Reading)
    ensures LinesOf([a] + [b]) == [a.line, b.line]
  {
  }

  /** A line comment that goes on with the next line, which the gate takes for code. */
  lemma {:induction false} BelowCommentMissed(pp: Preprocessor)
    requires Sectioned(pp) && pp.keeps([])
    ensures MissedBelow(pp, [TEST, [LineOpen, Splice], CallLine("skip")])
  {
    var noise := CommentNoise(pp, [LineOpen, Splice], CallLine("skip"));
    OneAndTwo(TEST, [LineOpen, Splice], CallLine("skip"));
    NoiseIsMissed(pp, noise, [[LineOpen, Splice], CallLine("skip")], [TEST, [LineOpen, Splice], CallLine("skip")]);
  }

  lemma {:induction false} CommentNoise(pp: Preprocessor, l: Line, s: Line) returns (noise: seq<Reading>)
    requires Sectioned(pp) && pp.keeps([]) && l == [LineOpen, Splice] && s == CallLine("skip")
    ensures Noise(pp, noise) && LinesOf(noise) == [l, s]
  {
    CallRead("skip", s);
    var a := OpensComment(l);
    var b := GoesOn(s);
    TwoNoise(pp, a, b);
    TwoLines(a, b);
    noise := [a] + [b];
  }

  lemma {:induction false} OpensComment(l: Line) returns (r: Reading)
    requires l == [LineOpen, Splice]
    ensures Silent(r) && r.line == l && r.start == TOP && r.next == BEHIND
  {
    r := Reading(l, TOP, BEHIND, [Blank, Blank], None, []);
    SplicedComment(l);
  }

  lemma {:induction false} GoesOn(s: Line) returns (r: Reading)
    requires Ordinary(s) && s[|s| - 1] == Semi
    ensures Silent(r) && LooksLikeCode(r) && r.line == s && r.start == BEHIND && r.next == TOP
  {
    r := Reading(s, BEHIND, TOP, AllKept(s), None, []);
    ReadBehindCode(s);
  }

  lemma SplicedComment(line: Line)
    requires line == [LineOpen, Splice]
    ensures Right(Reading(line, TOP, BEHIND, [Blank, Blank], None, []))
    ensures Right(Reading(line, INSIDE, INSIDE, [Blank, Blank], None, []))
  {
    assert line == [LineOpen] + ([Splice] + []);
    ScanTwo(Code, Code, LineOpen, Splice, []);
    ScanTwo(Block, Block, LineOpen, Splice, []);
    BlanksFirst([]);
  }

  /** A macro of two lines: the gate takes the second for code. */
  lemma {:induction false} BelowMacroMissed(pp: Preprocessor, name: string)
    requires Sectioned(pp) && pp.keeps([])
    ensures MissedBelow(pp, [TEST, [Hash(Define), Ident(name), Splice], CallLine("skip")])
  {
    var noise := MacroNoise(pp, name, [Hash(Define), Ident(name), Splice], CallLine("skip"));
    OneAndTwo(TEST, [Hash(Define), Ident(name), Splice], CallLine("skip"));
    NoiseIsMissed(pp, noise, [[Hash(Define), Ident(name), Splice], CallLine("skip")],
                  [TEST, [Hash(Define), Ident(name), Splice], CallLine("skip")]);
  }

  lemma {:induction false} MacroNoise(pp: Preprocessor, name: string, l: Line, s: Line) returns (noise: seq<Reading>)
    requires Sectioned(pp) && pp.keeps([]) && l == [Hash(Define), Ident(name), Splice] && s == CallLine("skip")
    ensures Noise(pp, noise) && LinesOf(noise) == [l, s]
  {
    CallRead("skip", s);
    var a := OpensMacro(name, l);
    var b := EndsMacro(s);
    TwoNoise(pp, a, b);
    TwoLines(a, b);
    noise := [a] + [b];
  }

  lemma {:induction false} OpensMacro(name: string, l: Line) returns (r: Reading)
    requires l == [Hash(Define), Ident(name), Splice]
    ensures Silent(r) && r.line == l && r.start == TOP && r.next == Start(Code, Code, Directed(Define))
  {
    r := Directing(l, TOP, Define);
    ReadDirective(l, TOP, Define);
  }

  lemma {:induction false} EndsMacro(s: Line) returns (r: Reading)
    requires Ordinary(s) && s[|s| - 1] == Semi
    ensures Silent(r) && LooksLikeCode(r) && r.line == s && r.start == Start(Code, Code, Directed(Define)) && r.next == TOP
  {
    r := Directing(s, Start(Code, Code, Directed(Define)), Define);
    ReadDirective(s, r.start, Define);
    assert s[|s| - 1] in s;
  }

  function Conditionals(ds: seq<Directive>): nat {
    if ds == [] then 0
    else Conditionals(ds[..|ds| - 1]) + if ds[|ds| - 1].kind == Conditional then 1 else 0
  }

  /** Every second conditional directive ends what the one before it skips: `#if 0`, `#endif`. */
  const SKIPS := Preprocessor(ds => Conditionals(ds) % 2 == 0, ds => [])

  lemma ConditionalsStep(ds: seq<Directive>, d: Directive)
    ensures Conditionals(ds + [d]) == Conditionals(ds) + if d.kind == Conditional then 1 else 0
  {
    assert (ds + [d])[..|ds|] == ds;
  }

  /** A skipped section: the gate looks past the directive that ends it, and finds code in it. */
  lemma {:induction false} BelowConditionalMissed()
    ensures MissedBelow(SKIPS, [TEST, [Hash(Conditional)], CallLine("skip"), [Hash(Conditional)]])
  {
    var noise := SectionNoise(SKIPS, [Hash(Conditional)], CallLine("skip"));
    OneAndThree(TEST, [Hash(Conditional)], CallLine("skip"), [Hash(Conditional)]);
    NoiseIsMissed(SKIPS, noise, [[Hash(Conditional)], CallLine("skip"), [Hash(Conditional)]],
                  [TEST, [Hash(Conditional)], CallLine("skip"), [Hash(Conditional)]]);
  }

  lemma {:induction false} SectionNoise(pp: Preprocessor, l: Line, c: Line) returns (noise: seq<Reading>)
    requires pp == SKIPS && l == [Hash(Conditional)] && c == CallLine("skip")
    ensures Sectioned(pp) && pp.keeps([]) && Noise(pp, noise) && LinesOf(noise) == [l, c, l]
  {
    var d, s := Directing(l, TOP, Conditional), Plainly(c);
    ConditionalRead(l);
    CallStatement("skip", c);
    SkippedNoise(pp, d, s);
    ThreeLines(d, s);
    noise := [d] + ([s] + [d]);
  }

  lemma {:induction false} ConditionalRead(l: Line)
    requires l == [Hash(Conditional)]
    ensures var d := Directing(l, TOP, Conditional); Right(d) && d.next == TOP && Unmarked([d]) && !Spliced(l)
  {
    ReadDirective(l, TOP, Conditional);
  }

  lemma ThreeLines(d: Reading, s: Reading)
    ensures LinesOf([d] + ([s] + [d])) == [d.line, s.line, d.line]
    ensures CellsOf([d] + ([s] + [d])) == [d.cells] + [s.cells] + [d.cells]
  {
  }

  lemma {:induction false} SkippedNoise(pp: Preprocessor, d: Reading, s: Reading)
    requires pp == SKIPS && Right(d) && Right(s) && d.start == d.next == s.start == s.next == TOP
    requires d.role == Some(Conditional) && s.role == None && d.ps == [] && Unmarked([d]) && Unmarked([s])
    requires d.cells == AllKept(d.line) && d.line != [] && d.line[0].Hash? && !Spliced(d.line) && LooksLikeCode(s)
    ensures Sectioned(pp) && pp.keeps([]) && Noise(pp, [d] + ([s] + [d]))
  {
    LinkedOne(d);
    LinkedOne(s);
    LinkedAppend([s], [d], TOP, TOP, TOP);
    LinkedAppend([d], [s] + [d], TOP, TOP, TOP);
    UnmarkedAppend([s], [d]);
    UnmarkedAppend([d], [s] + [d]);
    SkipsIsSectioned();
    SkippedSum(pp, d, s);
    CodeIsNotPassed(s.line);
    KeptEnds(d.line);
    DoneAt([d.cells] + [s.cells]);
    DonePast([d.cells] + [s.cells], d.cells);
    ThreeLines(d, s);
  }

  lemma SkipsIsSectioned()
    ensures Sectioned(SKIPS) && SKIPS.keeps([])
  {
    forall ds, x: Directive | x.kind != Conditional ensures SKIPS.keeps(ds + [x]) == SKIPS.keeps(ds) {
      ConditionalsStep(ds, x);
    }
  }

  lemma {:induction false} SkippedSum(pp: Preprocessor, d: Reading, s: Reading)
    requires pp == SKIPS && d.role == Some(Conditional) && s.role == None && d.ps == []
    ensures Sum(pp, [d] + ([s] + [d]), []) == [] && pp.keeps(Told([d] + ([s] + [d]), []))
  {
    var x := Directive(Conditional, d.line);
    SkippedBetween(pp, x);
    assert [] + [x] == [x] && [x] + [] == [x] && [d] + [] == [d];
    SumCons(pp, d, [s] + [d], []);
    SumCons(pp, s, [d], [x]);
    SumCons(pp, d, [], [x]);
  }

  lemma SkippedBetween(pp: Preprocessor, x: Directive)
    requires pp == SKIPS && x.kind == Conditional
    ensures pp.keeps([]) && !pp.keeps([x]) && pp.keeps([x] + [x])
  {
    ConditionalsStep([], x);
    ConditionalsStep([x], x);
    assert [] + [x] == [x];
  }

  // ------------------------------------------------------------ comments that end

  /** In a block comment an inserted line that starts like a line comment can end it and act; a later line that opens one
      and closes it keeps what follows as it was. */
  lemma {:induction false} NestedCommentMissed(pp: Preprocessor)
    requires Sectioned(pp) && pp.keeps([])
    ensures Missed(pp, Meant({}, Calls("reset")),
      [HEAD, [BlockOpen], [BlockOpen, BlockClose], CallLine("use"), CLOSE],
      [HEAD, [BlockOpen], [LineOpen, BlockClose] + CallLine("reset"), [BlockOpen, BlockClose], CallLine("use"), CLOSE],
      ScriptAt(2, 5))
  {
    HeadOpens(HEAD);
    CloseRead(CLOSE);
    NestedWith(pp, HEAD, [BlockOpen], CallLine("reset"), [BlockOpen, BlockClose], CallLine("use"), CLOSE,
               [LineOpen, BlockClose] + CallLine("reset"));
  }

  lemma {:induction false} NestedWith(pp: Preprocessor, h: Line, o: Line, r: Line, i: Line, u: Line, c: Line, l: Line)
    requires Sectioned(pp) && pp.keeps([]) && Ordinary(h) && h[|h| - 1] == LBrace && OpensMain(AllCode(h)) &&
      o == [BlockOpen]
    requires r == CallLine("reset") && i == [BlockOpen, BlockClose] && u == CallLine("use")
    requires Ordinary(c) && AllCode(c) == [C(RBrace)] && l == [LineOpen, BlockClose] + r
    ensures Missed(pp, Meant({}, Calls("reset")), [h, o, i, u, c], [h, o, l, i, u, c], ScriptAt(2, 5))
  {
    var end := [Plainly(u)] + [Plainly(c)];
    EndRead(pp, [], c);
    UseAndEnd(pp, [], u, [Plainly(c)]);
    var was, now := Emptied(i);
    SilentRead(pp, [], was, end, [USE]);
    SilentRead(pp, [], now, end, [USE]);
    UncoveredCall("reset", r);
    var x := Uncovered(LineOpen, BlockClose, r, INSIDE);
    LineJoined(LineOpen, BlockClose, r);
    NestedLines(was, now, x, Plainly(h), Opened(o), Plainly(u), Plainly(c));
    MeantRespects({}, Calls("reset"));
    UseFails({}, Calls("reset"));
    ResetSaves({}, Calls("reset"), Calls("reset"));
    StmtsListed(RESET, USE);
    CommentMissed(pp, Meant({}, Calls("reset")), h, o, x, Calls("reset"), [was] + end, [now] + end, [USE], [USE],
                  [h, o, i, u, c], [h, o, l, i, u, c]);
  }

  /** A block comment that ends where it begins, read inside one and read from code. */
  lemma {:induction false} Emptied(i: Line) returns (was: Reading, now: Reading)
    requires i == [BlockOpen, BlockClose]
    ensures Right(was) && was.start == INSIDE && was.next == TOP && was.role == None && was.ps == [] && Unmarked([was])
    ensures Right(now) && now.start == TOP && now.next == TOP && now.role == None && now.ps == [] && Unmarked([now])
    ensures was.line == now.line == i && was.cells == now.cells
  {
    was, now := Uncovered(BlockOpen, BlockClose, [], INSIDE), Uncovered(BlockOpen, BlockClose, [], TOP);
    ReadUncovered(BlockOpen, BlockClose, [], INSIDE);
    ReadUncovered(BlockOpen, BlockClose, [], TOP);
    EmptyLine(i);
  }

  lemma EmptyLine(i: Line)
    requires i == [BlockOpen, BlockClose]
    ensures [BlockOpen] + ([BlockClose] + []) == i && AllCode([]) == []
  {
  }

  lemma LineJoined(t: Token, u: Token, rest: Line)
    ensures [t] + ([u] + rest) == [t, u] + rest
  {
  }

  function Opened(o: Line): Reading { Reading(o, TOP, INSIDE, [Blank], None, []) }

  /** `main` begins, and a block comment in it. */
  lemma {:induction false} InsideMain(pp: Preprocessor, h: Line, o: Line)
    requires pp.keeps([]) && Ordinary(h) && h[|h| - 1] == LBrace && OpensMain(AllCode(h)) && o == [BlockOpen]
    ensures var pre := [Plainly(h)] + [Opened(o)];
      && Linked(pre, TOP, INSIDE) && Unmarked(pre) && OpensMain(Sum(pp, pre, [])) && Told(pre, []) == []
      && !Spliced(pre[1].line)
  {
    OpeningRead(pp, h);
    OpenedRight(o);
    LinkedOne(Opened(o));
    LinkedAppend([Plainly(h)], [Opened(o)], TOP, TOP, INSIDE);
    UnmarkedAppend([Plainly(h)], [Opened(o)]);
    SumFirst(pp, Plainly(h), [Opened(o)], []);
    SumCons(pp, Opened(o), [], []);
    assert [Opened(o)] + [] == [Opened(o)] && AllCode(h) + [] == AllCode(h);
  }

  lemma OpenedRight(o: Line)
    requires o == [BlockOpen]
    ensures Right(Opened(o)) && Unmarked([Opened(o)]) && !Spliced(o)
  {
    Scan(Code, Code, BlockOpen, []);
    assert [BlockOpen] + [] == o && [Blank] + [] == [Blank];
  }

  lemma {:induction false} UncoveredCall(name: string, r: Line)
    requires r == CallLine(name)
    ensures var x := Uncovered(LineOpen, BlockClose, r, INSIDE);
      Statement(x, Calls(name)) && !AllBlank(x.cells) && !Spliced(x.line) && Trigraph !in x.line
  {
    CallRead(name, r);
    CallIsWhole(name);
    UncoveredStatement(r, Calls(name));
  }

  /** A statement behind the end of a block comment, in what looks like a line comment. */
  lemma {:induction false} UncoveredStatement(code: Line, run: seq<Piece>)
    requires Ordinary(code) && AllCode(code) == run + [C(Semi)] && Whole(run) && StartsPlainly(run)
    ensures var x := Uncovered(LineOpen, BlockClose, code, INSIDE);
      Statement(x, run) && !AllBlank(x.cells) && !Spliced(x.line) && Trigraph !in x.line
  {
    ReadUncovered(LineOpen, BlockClose, code, INSIDE);
    UncoveredTokens([LineOpen] + ([BlockClose] + code), code);
    UncoveredShows(code);
    OneUnmarked(Uncovered(LineOpen, BlockClose, code, INSIDE));
  }

  lemma OneUnmarked(r: Reading)
    requires RawQuote !in r.line && r.line != [] && !r.line[0].Hash?
    ensures Unmarked([r])
  {
  }

  lemma UncoveredShows(code: Line)
    requires code != []
    ensures !AllBlank([Blank] + ([Blank] + AllKept(code)))
  {
    KeptEnds(code);
    BlanksFirst(AllKept(code));
  }

  lemma UncoveredTokens(line: Line, code: Line)
    requires Ordinary(code) && line == [LineOpen] + ([BlockClose] + code)
    ensures !Spliced(line) && Trigraph !in line && RawQuote !in line && line[0] == LineOpen
  {
    LastUnspliced(line, LineOpen, BlockClose, code);
  }

  lemma NestedLines(was: Reading, now: Reading, x: Reading, h: Reading, o: Reading, u: Reading, c: Reading)
    requires was.line == now.line && was.cells == now.cells
    ensures LinesOf([h] + [o] + ([was] + ([u] + [c]))) == [h.line, o.line, was.line, u.line, c.line]
    ensures LinesOf([h] + [o] + ([x] + ([now] + ([u] + [c])))) == [h.line, o.line, x.line, now.line, u.line, c.line]
    ensures Alike([was] + ([u] + [c]), [now] + ([u] + [c]))
  {
  }

  /** A comment line put in that ends a block comment, and is a statement behind it. */
  lemma {:induction false} CommentMissed(pp: Preprocessor, m: Meaning<int>, h: Line, o: Line, x: Reading, run: seq<Piece>,
      rest: seq<Reading>, rest1: seq<Reading>, was: seq<Stmt>, now: seq<Stmt>, b: seq<Line>, a: seq<Line>)
    requires Sectioned(pp) && pp.keeps([]) && Named(m) && Reports(m, was, true) && Reports(m, [Simple(run)] + now, false)
    requires Ordinary(h) && h[|h| - 1] == LBrace && OpensMain(AllCode(h)) && o == [BlockOpen]
    requires Statement(x, run) && x.start == INSIDE && x.next == TOP && !AllBlank(x.cells)
    requires x.line != [] && x.line[0] == LineOpen && !Spliced(x.line) && Trigraph !in x.line
    requires Ending(pp, [], rest, INSIDE, was) && Ending(pp, [], rest1, TOP, now) && Alike(rest, rest1)
    requires b == LinesOf([Plainly(h)] + [Opened(o)] + rest) && a == LinesOf([Plainly(h)] + [Opened(o)] + ([x] + rest1))
    ensures Missed(pp, m, b, a, ScriptAt(2, |b|))
  {
    var pre := [Plainly(h)] + [Opened(o)];
    InsideMain(pp, h, o);
    StatementRead(pp, [], x, run, rest1, now);
    UnitRead(pp, pre, rest, INSIDE, was);
    UnitRead(pp, pre, [x] + rest1, INSIDE, [Simple(run)] + now);
    UnmarkedAppend(pre, rest);
    UnmarkedAppend(pre, [x] + rest1);
    Associative(pre, [x], rest1);
    CommentPutIn(pre, x, rest, rest1);
    MissedAs(pp, m, b, a, ScriptAt(2, |b|), was, [Simple(run)] + now);
  }

  // ---- a kept line that is lost

  /** An inserted line can also change what a line kept below it starts in: here a line comment is uncovered, and takes
      the next line with it. The inserted line itself behaves, and its condition only reads. */
  lemma {:induction false} LostLineMissed(pp: Preprocessor)
    requires Sectioned(pp) && pp.keeps([])
    ensures var b := [HEAD, [BlockOpen], [LineOpen, Splice], [BlockOpen, BlockClose] + CallLine("use"), CLOSE];
      var a := [HEAD, [BlockOpen], [LineOpen, BlockClose] + AssertLine(ONE), [LineOpen, Splice],
                [BlockOpen, BlockClose] + CallLine("use"), CLOSE];
      LostOnly(pp, b, a)
  {
    HeadOpens(HEAD);
    OneWhole(ONE);
    OneIsPure(ONE);
    CloseRead(CLOSE);
    LostWith(pp, HEAD, [BlockOpen], ONE, [LineOpen, Splice], CallLine("use"), CLOSE,
             [LineOpen, BlockClose] + AssertLine(ONE), [BlockOpen, BlockClose] + CallLine("use"));
  }

  /** The gate misses it, though every inserted line behaves and every condition only reads. */
  ghost predicate LostOnly(pp: Preprocessor, b: seq<Line>, a: seq<Line>) {
    && Missed(pp, Meant({}, Calls("reset")), b, a, ScriptAt(2, 5))
    && ForeignLinesBehave(pp, Views(a), Flags(ScriptAt(2, 5))) && ConditionsRead(pp, {}, Views(a), Flags(ScriptAt(2, 5)))
  }

  lemma OneIsPure(args: Line)
    requires args == ONE
    ensures IsAssertion({}, Asserted(args))
  {
    assert Asserted(args)[2..3] == [C(Operand("1"))];
  }

  lemma {:induction false} FlagsAt()
    ensures Flags(ScriptAt(2, 5)) == [false, false, true, false, false, false]
  {
    var ops := ScriptAt(2, 5);
    assert ops == [ops[0]] + ([ops[1]] + ([ops[2]] + []));
    FirstFlags(ops[2], []);
    FirstFlags(ops[1], [ops[2]] + []);
    FirstFlags(ops[0], [ops[1]] + ([ops[2]] + []));
  }

  /** Below the beginning of `main` and an open comment, an uncovered assertion that only reads behaves. */
  lemma {:induction false} UncoveredBehaves(pp: Preprocessor, rs: seq<Reading>, vs: seq<View>, run: seq<Piece>)
    requires Linked(rs, TOP, TOP) && |rs| > 2 && vs == Views(LinesOf(rs)) && pp.keeps([]) && IsAssertion({}, run)
    requires rs[0].role == rs[1].role == rs[2].role == None && EndsOk(rs[0].ps, false) && rs[1].ps == []
    requires rs[2].ps == run + [C(Semi)]
    ensures Behaves(pp, vs, 2) && Reads(pp, {}, vs, 2)
  {
    forall k | 0 <= k < |rs| ensures ReadAs(rs, vs, k) { DirectivesRead(rs, TOP, k); }
    UncoveredCompiled(pp, rs, vs);
    UncoveredPlaced(CompiledAll(pp, vs), run);
    PlacedBehaves(pp, {}, vs, 2);
  }

  /** Line `k` is read so. */
  predicate ReadAs(rs: seq<Reading>, vs: seq<View>, k: nat)
    requires k < |rs| == |vs|
  {
    Role(vs[k]) == rs[k].role && CodeOn(vs[k]) == rs[k].ps
  }

  lemma {:induction false} UncoveredCompiled(pp: Preprocessor, rs: seq<Reading>, vs: seq<View>)
    requires |rs| == |vs| > 2 && forall k {:trigger ReadAs(rs, vs, k)} :: 0 <= k < |rs| ==> ReadAs(rs, vs, k)
    requires pp.keeps([]) && rs[0].role == rs[1].role == rs[2].role == None
    ensures var cs := CompiledAll(pp, vs); cs[0] == rs[0].ps && cs[1] == rs[1].ps && cs[2] == rs[2].ps && Quiet(vs[2])
  {
    ReadsOff(pp, rs, vs, 0);
    ReadsOff(pp, rs, vs, 1);
    ReadsOff(pp, rs, vs, 2);
  }

  lemma {:induction false} ReadsOff(pp: Preprocessor, rs: seq<Reading>, vs: seq<View>, k: nat)
    requires k < |rs| == |vs| && pp.keeps([]) && forall i {:trigger ReadAs(rs, vs, i)} :: 0 <= i < |rs| ==> ReadAs(rs, vs, i)
    requires forall i :: 0 <= i <= k ==> rs[i].role == None
    ensures CompiledAll(pp, vs)[k] == rs[k].ps && Quiet(vs[k]) && Directives(vs, k + 1) == []
  {
    if k > 0 { ReadsOff(pp, rs, vs, k - 1); }
    assert ReadAs(rs, vs, k);
    NothingAbove(pp, vs, k);
  }

  lemma NothingAbove(pp: Preprocessor, vs: seq<View>, k: nat)
    requires k < |vs| && pp.keeps([]) && Directives(vs, k) == [] && Quiet(vs[k])
    ensures CompiledAll(pp, vs)[k] == CodeOn(vs[k]) && Directives(vs, k + 1) == []
  {
  }

  lemma UncoveredPlaced(cs: seq<seq<Piece>>, run: seq<Piece>)
    requires |cs| > 2 && EndsOk(cs[0], false) && cs[1] == [] && cs[2] == run + [C(Semi)] && IsAssertion({}, run)
    ensures WellPlaced({}, cs, 2)
  {
    EndsIsReady(cs, 0);
    assert cs[2][..|cs[2]| - 1] == run;
  }

  lemma {:induction false} LostBehaves(pp: Preprocessor, h: Line, o: Line, x: Reading, run: seq<Piece>, rest: seq<Reading>,
      stmts: seq<Stmt>, a: seq<Line>)
    requires pp.keeps([]) && Ordinary(h) && h[|h| - 1] == LBrace && OpensMain(AllCode(h)) && o == [BlockOpen] && |rest| == 3
    requires Statement(x, run) && x.start == INSIDE && x.next == TOP && Ending(pp, [], rest, TOP, stmts)
    requires IsAssertion({}, run) && a == LinesOf([Plainly(h)] + [Opened(o)] + ([x] + rest))
    ensures ForeignLinesBehave(pp, Views(a), Flags(ScriptAt(2, 5))) &&
      ConditionsRead(pp, {}, Views(a), Flags(ScriptAt(2, 5)))
  {
    var rs := [Plainly(h)] + [Opened(o)] + ([x] + rest);
    InsideMain(pp, h, o);
    LinkedOne(x);
    LinkedAppend([x], rest, INSIDE, TOP, TOP);
    LinkedAppend([Plainly(h)] + [Opened(o)], [x] + rest, TOP, INSIDE, TOP);
    FirstThree(Plainly(h), Opened(o), x, rest, rs);
    UncoveredBehaves(pp, rs, Views(a), run);
    FlagsAt();
    OneFlagged(pp, Views(a), Flags(ScriptAt(2, 5)));
  }

  lemma FirstThree(a: Reading, b: Reading, c: Reading, rest: seq<Reading>, rs: seq<Reading>)
    requires rs == [a] + [b] + ([c] + rest)
    ensures |rs| == 3 + |rest| && rs[0] == a && rs[1] == b && rs[2] == c
  {
  }

  lemma {:induction false} OneFlagged(pp: Preprocessor, vs: seq<View>, flags: seq<bool>)
    requires |vs| == 6 && Behaves(pp, vs, 2) && Reads(pp, {}, vs, 2) && flags == [false, false, true, false, false, false]
    ensures ForeignLinesBehave(pp, vs, flags) && ConditionsRead(pp, {}, vs, flags)
  {
    forall j | 0 <= j < |vs| && j < |flags| && flags[j] ensures Behaves(pp, vs, j) && Reads(pp, {}, vs, j) {
      assert j == 2;
    }
  }

  lemma {:induction false} LostWith(pp: Preprocessor, h: Line, o: Line, args: Line, i: Line, u: Line, c: Line, l: Line,
      k: Line)
    requires Sectioned(pp) && pp.keeps([]) && Ordinary(h) && h[|h| - 1] == LBrace && OpensMain(AllCode(h)) &&
      o == [BlockOpen]
    requires Passable(args) && Whole(Asserted(args)) && i == [LineOpen, Splice] && u == CallLine("use")
    requires Ordinary(c) && AllCode(c) == [C(RBrace)]
    requires l == [LineOpen, BlockClose] + AssertLine(args) && k == [BlockOpen, BlockClose] + u
    requires IsAssertion({}, Asserted(args))
    ensures LostOnly(pp, [h, o, i, k, c], [h, o, l, i, k, c])
  {
    var was, now, was0, now0 := LostEnds(pp, i, u, c, k);
    AssertedUncovered(args, l);
    AssertedLine(args);
    var x, run := Uncovered(LineOpen, BlockClose, AssertLine(args), INSIDE), Asserted(args);
    LostLines(was0, now0, was, now, x, Plainly(h), Opened(o), Plainly(c));
    LostReports(run);
    LostBehaves(pp, h, o, x, run, [now0] + ([now] + [Plainly(c)]), [], [h, o, l, i, k, c]);
    CommentMissed(pp, Meant({}, Calls("reset")), h, o, x, run, [was0] + ([was] + [Plainly(c)]),
                  [now0] + ([now] + [Plainly(c)]), [USE], [], [h, o, i, k, c], [h, o, l, i, k, c]);
  }

  lemma LostReports(run: seq<Piece>)
    requires run != Calls("use") && run != Calls("reset")
    ensures var m := Meant({}, Calls("reset")); Named(m) && Reports(m, [USE], true) && Reports(m, [Simple(run)] + [], false)
  {
    MeantRespects({}, Calls("reset"));
    UseFails({}, Calls("reset"));
    AssertedAlone({}, Calls("reset"), run);
    assert [Simple(run)] + [] == [Simple(run)];
  }

  lemma {:induction false} LostEnds(pp: Preprocessor, i: Line, u: Line, c: Line, k: Line)
    returns (was: Reading, now: Reading, was0: Reading, now0: Reading)
    requires pp.keeps([]) && i == [LineOpen, Splice] && u == CallLine("use") && k == [BlockOpen, BlockClose] + u
    requires Ordinary(c) && AllCode(c) == [C(RBrace)]
    ensures Ending(pp, [], [was0] + ([was] + [Plainly(c)]), INSIDE, [USE])
    ensures Ending(pp, [], [now0] + ([now] + [Plainly(c)]), TOP, [])
    ensures was.line == now.line == k && was.cells == now.cells && was0.line == now0.line == i && was0.cells == now0.cells
  {
    EndRead(pp, [], c);
    was, now := UsedBehind(u, k);
    was0, now0 := CommentTwice(i);
    UsedEnd(pp, was0, was, [Plainly(c)]);
    SilentRead(pp, [], now, [Plainly(c)], []);
    SilentRead(pp, [], now0, [now] + [Plainly(c)], []);
  }

  lemma {:induction false} UsedEnd(pp: Preprocessor, first: Reading, use: Reading, end: seq<Reading>)
    requires pp.keeps([]) && Statement(use, Calls("use")) && Ending(pp, [], end, use.next, [])
    requires Right(first) && first.role == None && first.ps == [] && Unmarked([first]) && first.next == use.start
    ensures Ending(pp, [], [first] + ([use] + end), first.start, [USE])
  {
    StatementRead(pp, [], use, Calls("use"), end, []);
    assert [USE] + [] == [USE];
    SilentRead(pp, [], first, [use] + end, [USE]);
  }

  lemma CommentTwice(i: Line) returns (was: Reading, now: Reading)
    requires i == [LineOpen, Splice]
    ensures Right(was) && was.start == INSIDE && was.next == INSIDE && was.role == None && was.ps == [] && Unmarked([was])
    ensures Right(now) && now.start == TOP && now.next == BEHIND && now.role == None && now.ps == [] && Unmarked([now])
    ensures was.line == now.line == i && was.cells == now.cells
  {
    SplicedComment(i);
    was, now := Reading(i, INSIDE, INSIDE, [Blank, Blank], None, []), Reading(i, TOP, BEHIND, [Blank, Blank], None, []);
  }

  lemma LostLines(was0: Reading, now0: Reading, was: Reading, now: Reading, x: Reading, h: Reading, o: Reading, c: Reading)
    requires was0.line == now0.line && was0.cells == now0.cells && was.line == now.line && was.cells == now.cells
    ensures LinesOf([h] + [o] + ([was0] + ([was] + [c]))) == [h.line, o.line, was0.line, was.line, c.line]
    ensures LinesOf([h] + [o] + ([x] + ([now0] + ([now] + [c])))) == [h.line, o.line, x.line, now0.line, now.line, c.line]
    ensures Alike([was0] + ([was] + [c]), [now0] + ([now] + [c]))
  {
  }

  /** `use();` behind a block comment's end, and the same behind a line comment that goes on. */
  lemma {:induction false} UsedBehind(u: Line, k: Line) returns (was: Reading, now: Reading)
    requires u == CallLine("use") && k == [BlockOpen, BlockClose] + u
    ensures Statement(was, Calls("use")) && was.start == INSIDE && was.next == TOP
    ensures Right(now) && now.start == BEHIND && now.next == TOP && now.role == None && now.ps == [] && Unmarked([now])
    ensures was.line == now.line == k && was.cells == now.cells
  {
    CallRead("use", u);
    CallIsWhole("use");
    was := Uncovered(BlockOpen, BlockClose, u, INSIDE);
    ReadUncovered(BlockOpen, BlockClose, u, INSIDE);
    now := HiddenBehind(u, k);
    LineJoined(BlockOpen, BlockClose, u);
  }

  lemma {:induction false} HiddenBehind(u: Line, k: Line) returns (now: Reading)
    requires Ordinary(u) && k == [BlockOpen, BlockClose] + u
    ensures now == Reading(k, BEHIND, TOP, [Blank] + ([Blank] + AllKept(u)), None, []) && Right(now) && Unmarked([now])
  {
    var cells := [Blank] + ([Blank] + AllKept(u));
    LineJoined(BlockOpen, BlockClose, u);
    CommentThenCode(u, [BlockOpen] + ([BlockClose] + u));
    ReadBehind(k, cells);
    now := Reading(k, BEHIND, TOP, cells, None, []);
  }

  lemma {:induction false} CommentThenCode(u: Line, k: Line)
    requires Ordinary(u) && k == [BlockOpen] + ([BlockClose] + u)
    ensures ScrubLine(Code, k) == [Blank] + ([Blank] + AllKept(u)) && EndGlance(Code, k) == Code
    ensures !Spliced(k) && RawQuote !in k && k[0] == BlockOpen
  {
    ScanTwo(Code, Code, BlockOpen, BlockClose, u);
    ReadMarkless(u);
    CommentTokens(k, u);
  }

  lemma CommentTokens(k: Line, u: Line)
    requires Ordinary(u) && k == [BlockOpen] + ([BlockClose] + u)
    ensures !Spliced(k) && RawQuote !in k && k[0] == BlockOpen
  {
    LastUnspliced(k, BlockOpen, BlockClose, u);
  }

  lemma {:induction false} AssertedUncovered(args: Line, l: Line)
    requires Passable(args) && Whole(Asserted(args)) && l == [LineOpen, BlockClose] + AssertLine(args)
    ensures var x := Uncovered(LineOpen, BlockClose, AssertLine(args), INSIDE);
      Statement(x, Asserted(args)) && !AllBlank(x.cells) && !Spliced(x.line) && Trigraph !in x.line && x.line == l
  {
    AssertedLine(args);
    AssertIsOrdinary(args);
    UncoveredStatement(AssertLine(args), Asserted(args));
    LineJoined(LineOpen, BlockClose, AssertLine(args));
  }

  /** An assertion alone reports nothing. */
  lemma AssertedAlone(effects: set<string>, run: seq<Piece>, asserted: seq<Piece>)
    requires asserted != run && asserted != Calls("use") && asserted != Calls("reset")
    ensures Reports(Meant(effects, run), [Simple(asserted)], false)
  {
    var m, stmts := Meant(effects, run), [Simple(asserted)];
    forall fuel: nat ensures ExecAll(m, Main(stmts), stmts, 1, fuel).bad == {} {
      ExecFirst(m, Main(stmts), asserted, [], 1, fuel);
      assert [Simple(asserted)] + [] == stmts;
    }
  }
}
