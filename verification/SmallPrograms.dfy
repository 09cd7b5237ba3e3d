/** Small programs, to show what the gate misses: a meaning in which `use()` is wrong unless `reset()` came before it, the
    runs of a few statements under it, and the parses of calls, assertions and a guarded statement. */
module SmallPrograms {
  import opened Wrappers
  import opened Tokens
  import opened Language

  // ------------------------------------------------------------ a meaning

  /** `name()`. */
  function Calls(name: string): seq<Piece> { [C(Ident(name)), C(LParen), C(RParen)] }

  /** `use()` is wrong unless the state is 0, which `run` makes it, and `reset()`; no condition holds. */
  function Meant(effects: set<string>, run: seq<Piece>): Meaning<int> {
    Meaning(
      effects,
      (r, s) =>
        if r == Calls("use") then Finish(Next, s, if s == 0 then {} else {1})
        else if r == run || r == Calls("reset") then Finish(Next, 0, {})
        else Finish(Next, s, {}),
      (frame, s) => Finish(Next, s, {}),
      s => false,
      (r, s) => false,
      head => "main",
      (callee, s) => Outcome(Next, s, {}),
      (r, s) => s)
  }

  const MAIN: seq<Piece> := [C(Ident("int")), C(Ident("main")), C(LParen), C(RParen)]

  /** A meaning in which `main` is called `main`, and declarations do nothing. */
  ghost predicate Named(m: Meaning<int>) { Respects(m) && m.name(MAIN) == "main" && forall run, s :: m.declare(run, s) == s }

  /** Such a meaning is one, unless the run is an assertion that cannot write. */
  lemma MeantRespects(effects: set<string>, run: seq<Piece>)
    requires !IsAssertion(effects, run)
    ensures Named(Meant(effects, run))
  {
    var m := Meant(effects, run);
    forall r, s | IsAssertion(m.effects, r) ensures m.begin(r, s) == Finish(Next, s, {}) {
      assert r[0] != C(Ident("use")) && r[0] != C(Ident("reset"));
    }
  }

  function Main(stmts: seq<Stmt>): Unit { [Function(MAIN, stmts)] }

  /** Nothing is excused. */
  const NOTHING: int -> bool := v => false

  // ------------------------------------------------------------ runs

  /** Every run of `main` started in 1 reports nothing, or every one reports 1. */
  ghost predicate Reports(m: Meaning<int>, stmts: seq<Stmt>, wrong: bool) {
    forall fuel: nat :: ExecAll(m, Main(stmts), stmts, 1, fuel).bad == if wrong then {1} else {}
  }

  lemma ReportsMeans(m: Meaning<int>, stmts: seq<Stmt>, wrong: bool)
    requires Reports(m, stmts, wrong) && m.name(MAIN) == "main" && forall run, s :: m.declare(run, s) == s
    ensures SafeBut(m, Main(stmts), 1, NOTHING) <==> !wrong
  {
    var u := Main(stmts);
    assert Init(m, u, 1) == 1 by { assert u[1..] == []; }
    forall fuel: nat ensures Run(m, u, 1, fuel).bad == if wrong then {1} else {} {
      assert Run(m, u, 1, fuel).bad == ExecAll(m, u, stmts, 1, fuel).bad;
    }
    if wrong { assert 1 in Run(m, u, 1, 0).bad && !NOTHING(1); }
  }

  lemma ExecFirst(m: Meaning<int>, u: Unit, run: seq<Piece>, rest: seq<Stmt>, s: int, fuel: nat)
    requires m.begin(run, s).Finish? && m.begin(run, s).flow == Next
    ensures ExecAll(m, u, [Simple(run)] + rest, s, fuel)
         == Also(m.begin(run, s).bad, ExecAll(m, u, rest, m.begin(run, s).state, fuel))
  {
    assert ([Simple(run)] + rest)[1..] == rest;
    assert Exec(m, u, Simple(run), s, fuel) == Eval(m, u, m.begin(run, s), fuel);
  }

  /** A test that fails: its statement is not reached. */
  lemma BranchSkipped(m: Meaning<int>, u: Unit, cond: seq<Piece>, thn: Stmt, rest: seq<Stmt>, s: int, fuel: nat)
    requires m.begin(cond, s) == Finish(Next, s, {}) && !m.truth(s)
    ensures ExecAll(m, u, [Branch(cond, thn, None)] + rest, s, fuel).bad == ExecAll(m, u, rest, s, fuel).bad
  {
    assert ([Branch(cond, thn, None)] + rest)[1..] == rest;
    assert Exec(m, u, Branch(cond, thn, None), s, fuel) == Outcome(Next, s, {});
  }

  const USE: Stmt := Simple(Calls("use"))
  const RESET: Stmt := Simple(Calls("reset"))
  const QUIET: seq<Piece> := [C(Ident("quiet"))]

  /** `use();` alone is wrong in state 1 and right in state 0. */
  lemma UseAlone(effects: set<string>, run: seq<Piece>, u: Unit, s: int, fuel: nat)
    ensures ExecAll(Meant(effects, run), u, [USE], s, fuel).bad == if s == 0 then {} else {1}
  {
    ExecFirst(Meant(effects, run), u, Calls("use"), [], s, fuel);
    assert [USE] + [] == [USE];
  }

  lemma UseFails(effects: set<string>, run: seq<Piece>)
    ensures Reports(Meant(effects, run), [USE], true)
  {
    forall fuel: nat ensures ExecAll(Meant(effects, run), Main([USE]), [USE], 1, fuel).bad == {1} {
      UseAlone(effects, run, Main([USE]), 1, fuel);
    }
  }

  /** `{ reset(); use(); }`, whatever the reset is written as. */
  lemma ResetSaves(effects: set<string>, run: seq<Piece>, by_: seq<Piece>)
    requires by_ == run || by_ == Calls("reset")
    requires by_ != Calls("use")
    ensures Reports(Meant(effects, run), [Simple(by_), USE], false)
  {
    var m, stmts := Meant(effects, run), [Simple(by_), USE];
    forall fuel: nat ensures ExecAll(m, Main(stmts), stmts, 1, fuel).bad == {} {
      ExecFirst(m, Main(stmts), by_, [USE], 1, fuel);
      UseAlone(effects, run, Main(stmts), 0, fuel);
      assert [Simple(by_)] + [USE] == stmts;
    }
  }

  /** `if (quiet) reset(); use();` does not reset ... */
  lemma GuardedFails(effects: set<string>, run: seq<Piece>)
    requires run != QUIET
    ensures Reports(Meant(effects, run), [Branch(QUIET, RESET, None), USE], true)
  {
    var m, stmts := Meant(effects, run), [Branch(QUIET, RESET, None), USE];
    forall fuel: nat ensures ExecAll(m, Main(stmts), stmts, 1, fuel).bad == {1} {
      assert [Branch(QUIET, RESET, None)] + [USE] == stmts;
      BranchSkipped(m, Main(stmts), QUIET, RESET, [USE], 1, fuel);
      UseAlone(effects, run, Main(stmts), 1, fuel);
    }
  }

  /** ... but does where another statement has taken its place. */
  lemma UnguardedSaves(effects: set<string>, run: seq<Piece>, thn: Stmt)
    requires run != QUIET
    ensures Reports(Meant(effects, run), [Branch(QUIET, thn, None), RESET, USE], false)
  {
    var m, stmts := Meant(effects, run), [Branch(QUIET, thn, None), RESET, USE];
    forall fuel: nat ensures ExecAll(m, Main(stmts), stmts, 1, fuel).bad == {} {
      assert [Branch(QUIET, thn, None)] + [RESET, USE] == stmts && [RESET] + [USE] == [RESET, USE];
      BranchSkipped(m, Main(stmts), QUIET, thn, [RESET, USE], 1, fuel);
      ExecFirst(m, Main(stmts), Calls("reset"), [USE], 1, fuel);
      UseAlone(effects, run, Main(stmts), 0, fuel);
    }
  }

  // ------------------------------------------------------------ parses

  /** A plain piece in front of a run. */
  lemma RunStep(p: Piece, ts: seq<Piece>, depth: nat, kind: RunKind, afterParen: bool, run: seq<Piece>,
      rest: seq<Piece>)
    requires IsPlain(p) && !(p == C(RParen) && depth == 0)
    requires var d := if p == C(LParen) then depth + 1 else if p == C(RParen) then depth - 1 else depth;
      TakeRun(ts, d, kind, p == C(RParen)) == Some((run, rest))
    ensures TakeRun([p] + ts, depth, kind, afterParen) == Some(([p] + run, rest))
  {
    assert ([p] + ts)[1..] == ts;
  }

  lemma {:induction false} GroupExtends(ts: seq<Piece>, t: seq<Piece>, depth: nat, start: bool)
    requires TakeGroup(ts, depth, start).Some?
    ensures var (group, rest) := TakeGroup(ts, depth, start).value; TakeGroup(ts + t, depth, start) == Some((group,
      rest + t))
    decreases ts
  {
    assert (ts + t)[0] == ts[0] && (ts + t)[1..] == ts[1..] + t;
    if !(ts[0] == C(RBrace) && depth == 0) {
      var d := if ts[0] == C(LBrace) then depth + 1 else if ts[0] == C(RBrace) then depth - 1 else depth;
      GroupExtends(ts[1..], t, d, IsTerminator(ts[0]));
    }
  }

  /** What is a run is one in front of a `;`. */
  lemma {:induction false} RunExtends(ts: seq<Piece>, t: seq<Piece>, depth: nat, kind: RunKind, afterParen: bool)
    requires TakeRun(ts, depth, kind, afterParen).Some? && t != [] && t[0] == C(Semi)
    ensures var (run, rest) := TakeRun(ts, depth, kind, afterParen).value;
      TakeRun(ts + t, depth, kind, afterParen) == Some((run, rest + t))
    decreases |ts|, 1
  {
    if ts == [] {
      assert ts + t == t;
    } else {
      assert (ts + t)[0] == ts[0] && (ts + t)[1..] == ts[1..] + t;
      if OpensGroup(ts, depth, kind, afterParen) {
        BracedRunExtends(ts, t, depth, kind, afterParen);
      } else if IsPlain(ts[0]) && !(ts[0] == C(RParen) && depth == 0) {
        var d := if ts[0] == C(LParen) then depth + 1 else if ts[0] == C(RParen) then depth - 1 else depth;
        RunExtends(ts[1..], t, d, kind, ts[0] == C(RParen));
      }
    }
  }

  lemma {:induction false} BracedRunExtends(ts: seq<Piece>, t: seq<Piece>, depth: nat, kind: RunKind, afterParen: bool)
    requires OpensGroup(ts, depth, kind, afterParen) && TakeRun(ts, depth, kind, afterParen).Some?
    requires t != [] && t[0] == C(Semi)
    ensures var (run, rest) := TakeRun(ts, depth, kind, afterParen).value;
      TakeRun(ts + t, depth, kind, afterParen) == Some((run, rest + t))
    decreases |ts|, 0
  {
    assert (ts + t)[0] == ts[0] && (ts + t)[1..] == ts[1..] + t;
    GroupExtends(ts[1..], t, 0, true);
    RunExtends(TakeGroup(ts[1..], 0, true).value.1, t, depth, kind, false);
  }

  /** A run as it stands. */
  predicate Whole(run: seq<Piece>) { TakeRun(run, 0, KindAt(run), false) == Some((run, [])) }

  predicate StartsPlainly(run: seq<Piece>) { |run| > 1 && IsPlain(run[0]) && run[0] != C(RBrace) && run[1] == C(LParen) }

  /** A statement that is a run, in front of a list. */
  lemma {:induction false} RunFirst(run: seq<Piece>, rest: seq<Piece>)
    requires Whole(run) && StartsPlainly(run)
    ensures ParseStmt(run + [C(Semi)] + rest) == Some((Simple(run), rest))
    ensures ParseList(rest).Some? ==>
      ParseList(run + [C(Semi)] + rest) == Some(([Simple(run)] + ParseList(rest).value.0, ParseList(rest).value.1))
  {
    var t := [C(Semi)] + rest;
    RunExtends(run, t, 0, KindAt(run), false);
    assert run + [C(Semi)] + rest == run + t && [] + t == t && t[1..] == rest;
    assert (run + t)[0] == run[0] && (run + t)[1] == run[1];
  }

  lemma CallIsWhole(name: string)
    ensures Whole(Calls(name)) && StartsPlainly(Calls(name))
  {
    CallTaken(C(Ident(name)), [], Braced);
    assert Calls(name) + [] == Calls(name);
  }

  /** `word()` in front of what ends a run. */
  lemma CallTaken(p: Piece, rest: seq<Piece>, kind: RunKind)
    requires p.C? && p.t.Ident? && TakeRun(rest, 0, kind, true) == Some(([], rest))
    ensures TakeRun([p, C(LParen), C(RParen)] + rest, 0, kind, false) == Some(([p, C(LParen), C(RParen)], rest))
  {
    RunStep(C(RParen), rest, 1, kind, false, [], rest);
    RunStep(C(LParen), [C(RParen)] + rest, 0, kind, false, [C(RParen)] + [], rest);
    RunStep(p, [C(LParen)] + ([C(RParen)] + rest), 0, kind, false, [C(LParen)] + ([C(RParen)] + []), rest);
    assert [p] + ([C(LParen)] + ([C(RParen)] + rest)) == [p, C(LParen), C(RParen)] + rest;
    assert [p] + ([C(LParen)] + ([C(RParen)] + [])) == [p, C(LParen), C(RParen)];
  }

  /** `if (quiet)` in front of a statement. */
  lemma BranchFirst(ts: seq<Piece>, rest: seq<Piece>, thn: Stmt, tail: seq<Stmt>, end: seq<Piece>)
    requires ParseStmt(ts) == Some((thn, rest)) && (rest != [] ==> rest[0] != C(Else))
    requires ParseList(rest) == Some((tail, end))
    ensures ParseList([C(If), C(LParen)] + QUIET + [C(RParen)] + ts) == Some(([Branch(QUIET, thn, None)] + tail, end))
  {
    var all, t1 := [C(If), C(LParen)] + QUIET + [C(RParen)] + ts, [C(LParen), QUIET[0], C(RParen)] + ts;
    HeaderTaken(ts, QUIET[0]);
    assert all[0] == C(If) && all[1..] == t1;
    assert ParseIf(all) == Some((Branch(QUIET, thn, None), rest));
  }

  lemma HeaderTaken(ts: seq<Piece>, p: Piece)
    requires IsPlain(p) && p !in {C(LParen), C(RParen)}
    ensures TakeHeader([C(LParen), p, C(RParen)] + ts) == Some(([p], ts))
  {
    var t1, t2, t3 := [C(LParen), p, C(RParen)] + ts, [p, C(RParen)] + ts, [C(RParen)] + ts;
    assert t1[1..] == t2 && t2[1..] == t3 && t3[1..] == ts;
    assert TakeCond(t3, 1) == Some(([], ts));
    assert [p] + [] == [p];
  }

  /** A file that defines `main`: its body, with the brace that closes it. */
  lemma {:induction false} MainParsed(body: seq<Piece>, stmts: seq<Stmt>)
    requires ParseList(body) == Some((stmts, [C(RBrace)]))
    ensures Parse(MAIN + ([C(LBrace)] + body)) == Some(Main(stmts))
  {
    var rest := [C(LBrace)] + body;
    MainTaken(rest);
    assert rest[1..] == body;
    FunctionParsed(MAIN + rest, MAIN, rest, stmts);
  }

  lemma {:induction false} MainTaken(rest: seq<Piece>)
    requires rest != [] && rest[0] == C(LBrace)
    ensures TakeRun(MAIN + rest, 0, Outer, false) == Some((MAIN, rest))
  {
    var call := [C(Ident("main")), C(LParen), C(RParen)];
    CallTaken(C(Ident("main")), rest, Outer);
    RunStep(C(Ident("int")), call + rest, 0, Outer, false, call, rest);
    assert [C(Ident("int"))] + (call + rest) == MAIN + rest && [C(Ident("int"))] + call == MAIN;
  }

  lemma FunctionParsed(ts: seq<Piece>, head: seq<Piece>, rest: seq<Piece>, stmts: seq<Stmt>)
    requires ts != [] && !OpensAssertion(ts) && TakeRun(ts, 0, Outer, false) == Some((head, rest))
    requires rest != [] && rest[0] == C(LBrace) && ParseBlock(rest) == Some((stmts, []))
    ensures Parse(ts) == Some([Function(head, stmts)])
  {
    assert Parse([]) == Some([]) && [Function(head, stmts)] + [] == [Function(head, stmts)];
  }

  lemma ListEnds()
    ensures ParseList([C(RBrace)]) == Some(([], [C(RBrace)]))
  {
  }
}
