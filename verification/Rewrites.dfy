/** From pieces to programs: a program with well-placed assertions inserted parses to the program without them,
    with those assertions added. */
module Rewrites {
  import opened Wrappers
  import opened Tokens
  import opened Language
  import opened Gate
  import opened GateSoundness

  /** The rewritten program, piece by piece: what was there, and whole inserted assertions (without their `;`). */
  datatype Item = Orig(p: Piece) | Ins(run: seq<Piece>)

  /** The program of `after`. */
  function Flatten(items: seq<Item>): seq<Piece> {
    if items == [] then []
    else (match items[0] case Orig(p) => [p] case Ins(run) => run + [C(Semi)]) + Flatten(items[1..])
  }

  /** The program without the insertions. */
  function Drop(items: seq<Item>): seq<Piece> {
    if items == [] then []
    else (match items[0] case Orig(p) => [p] case Ins(_) => []) + Drop(items[1..])
  }

  /** Every insertion is an assertion that cannot write, standing where a statement may begin. */
  predicate Placed(effects: set<string>, items: seq<Item>, ok: bool) {
    items == [] ||
    match items[0]
    case Orig(p) => Placed(effects, items[1..], IsTerminator(p))
    case Ins(run) => ok && IsAssertion(effects, run) && Placed(effects, items[1..], true)
  }

  // --------------------------------------------------- parsing in lockstep

  predicate OrigFirst(items: seq<Item>) { items == [] || items[0].Orig? }

  /** After a statement, an insertion now hides the `else` that used to follow. */
  predicate ElseHidden(items: seq<Item>) {
    items != [] && items[0].Ins? && Drop(items) != [] && Drop(items)[0] == C(Else)
  }

  /** An insertion shows: the program goes on with an assertion. */
  lemma InsertionShows(effects: set<string>, items: seq<Item>, ok: bool)
    requires Placed(effects, items, ok)
    ensures !OrigFirst(items) ==> ok && OpensAssertion(Flatten(items)) && items[0].Ins?
    ensures Placed(effects, items, true)
  {
    if !OrigFirst(items) { assert Flatten(items)[0] == items[0].run[0]; }
  }

  /** A kept piece is the next piece of both programs. */
  lemma OrigStep(items: seq<Item>)
    requires items != [] && items[0].Orig?
    ensures Flatten(items) == [items[0].p] + Flatten(items[1..]) && Drop(items) == [items[0].p] + Drop(items[1..])
    ensures Flatten(items)[1..] == Flatten(items[1..]) && Drop(items)[1..] == Drop(items[1..])
  {
  }

  lemma {:induction false} GroupLockstep(effects: set<string>, items: seq<Item>, depth: nat, start: bool)
    returns (r: seq<Item>)
    requires Placed(effects, items, start) && TakeGroup(Flatten(items), depth, start).Some?
    ensures |r| < |items| && Placed(effects, r, true)
    ensures var (group, rest) := TakeGroup(Flatten(items), depth, start).value;
      Flatten(r) == rest && TakeGroup(Drop(items), depth, start) == Some((group, Drop(r)))
    decreases items
  {
    InsertionShows(effects, items, start);
    var p, tail := items[0].p, items[1..];
    OrigStep(items);
    if p == C(RBrace) && depth == 0 {
      r := tail;
    } else {
      var d := if p == C(LBrace) then depth + 1 else if p == C(RBrace) then depth - 1 else depth;
      r := GroupLockstep(effects, tail, d, IsTerminator(p));
    }
  }

  /** A brace group in a run, after which no assertion stands. */
  lemma BraceLockstep(effects: set<string>, items: seq<Item>) returns (r: seq<Item>)
    requires Placed(effects, items, true) && TakeGroup(Flatten(items), 0, true).Some?
    requires !OpensAssertion(TakeGroup(Flatten(items), 0, true).value.1)
    ensures |r| < |items| && Placed(effects, r, true) && OrigFirst(r) && !OpensAssertion(Drop(r))
    ensures var (group, rest) := TakeGroup(Flatten(items), 0, true).value;
      Flatten(r) == rest && TakeGroup(Drop(items), 0, true) == Some((group, Drop(r)))
  {
    r := GroupLockstep(effects, items, 0, true);
    InsertionShows(effects, r, true);
    NoAssertionDropped(r);
  }

  lemma {:induction false} RunLockstep(effects: set<string>, items: seq<Item>, depth: nat, kind: RunKind,
      afterParen: bool)
    returns (r: seq<Item>)
    requires Placed(effects, items, true) && OrigFirst(items)
    requires TakeRun(Flatten(items), depth, kind, afterParen).Some?
    ensures |r| <= |items| && Placed(effects, r, true) && OrigFirst(r)
    ensures var (run, rest) := TakeRun(Flatten(items), depth, kind, afterParen).value;
      Flatten(r) == rest && TakeRun(Drop(items), depth, kind, afterParen) == Some((run, Drop(r)))
    decreases |items|, 1
  {
    if items == [] { return []; }
    var p, tail := items[0].p, items[1..];
    OrigStep(items);
    if OpensGroup([p], depth, kind, afterParen) {
      r := BracedRunLockstep(effects, items, depth, kind, afterParen);
    } else if !IsPlain(p) || (p == C(RParen) && depth == 0) {
      r := items;
    } else {
      var d := if p == C(LParen) then depth + 1 else if p == C(RParen) then depth - 1 else depth;
      InsertionShows(effects, tail, false);
      r := RunLockstep(effects, tail, d, kind, p == C(RParen));
    }
  }

  lemma {:induction false} BracedRunLockstep(effects: set<string>, items: seq<Item>, depth: nat, kind: RunKind,
      afterParen: bool)
    returns (r: seq<Item>)
    requires Placed(effects, items, true) && items != [] && items[0] == Orig(C(LBrace))
    requires OpensGroup(Flatten(items), depth, kind, afterParen) && TakeRun(Flatten(items), depth, kind, afterParen).Some?
    ensures |r| <= |items| && Placed(effects, r, true) && OrigFirst(r)
    ensures var (run, rest) := TakeRun(Flatten(items), depth, kind, afterParen).value;
      Flatten(r) == rest && TakeRun(Drop(items), depth, kind, afterParen) == Some((run, Drop(r)))
    decreases |items|, 0
  {
    OrigStep(items);
    var r0 := BraceLockstep(effects, items[1..]);
    r := RunLockstep(effects, r0, depth, kind, false);
  }

  /** The same for a run up to its `;`. */
  lemma SimpleLockstep(effects: set<string>, items: seq<Item>, kind: RunKind) returns (r: seq<Item>)
    requires Placed(effects, items, true) && OrigFirst(items) && TakeSimple(Flatten(items), kind).Some?
    ensures |r| < |items| && Placed(effects, r, true)
    ensures var (run, rest) := TakeSimple(Flatten(items), kind).value;
      Flatten(r) == rest && TakeSimple(Drop(items), kind) == Some((run, Drop(r)))
  {
    var r0 := RunLockstep(effects, items, 0, kind, false);
    OrigStep(r0);
    r := r0[1..];
  }

  lemma {:induction false} CondLockstep(effects: set<string>, items: seq<Item>, depth: nat) returns (r: seq<Item>)
    requires Placed(effects, items, true) && OrigFirst(items) && TakeCond(Flatten(items), depth).Some?
    ensures |r| < |items| && Placed(effects, r, false)
    ensures var (cond, rest) := TakeCond(Flatten(items), depth).value;
      Flatten(r) == rest && TakeCond(Drop(items), depth) == Some((cond, Drop(r)))
    decreases |items|
  {
    var p, tail := items[0].p, items[1..];
    OrigStep(items);
    if p == C(LBrace) {
      var r0 := BraceLockstep(effects, tail);
      r := CondLockstep(effects, r0, depth);
    } else if p == C(RParen) && depth <= 1 {
      r := tail;
    } else {
      var d := if p == C(LParen) then depth + 1 else if p == C(RParen) then depth - 1 else depth;
      InsertionShows(effects, tail, false);
      r := CondLockstep(effects, tail, d);
    }
  }

  lemma HeaderLockstep(effects: set<string>, items: seq<Item>) returns (r: seq<Item>)
    requires Placed(effects, items, false) && TakeHeader(Flatten(items)).Some?
    ensures |r| < |items| && Placed(effects, r, false)
    ensures var (cond, rest) := TakeHeader(Flatten(items)).value;
      Flatten(r) == rest && TakeHeader(Drop(items)) == Some((cond, Drop(r)))
  {
    InsertionShows(effects, items, false);
    OrigStep(items);
    InsertionShows(effects, items[1..], false);
    r := CondLockstep(effects, items[1..], 1);
  }

  lemma ForLockstep(effects: set<string>, items: seq<Item>) returns (r: seq<Item>)
    requires Placed(effects, items, false) && TakeFor(Flatten(items)).Some?
    ensures |r| < |items| && Placed(effects, r, false)
    ensures var h := TakeFor(Flatten(items)).value;
      Flatten(r) == h.rest && TakeFor(Drop(items)) == Some(h.(rest := Drop(r)))
  {
    InsertionShows(effects, items, false);
    OrigStep(items);
    InsertionShows(effects, items[1..], false);
    var r1 := SimpleLockstep(effects, items[1..], Bare);
    InsertionShows(effects, r1, true);
    var r2 := SimpleLockstep(effects, r1, Bare);
    InsertionShows(effects, r2, true);
    r := CondLockstep(effects, r2, 1);
    NoAssertionDropped(r1);
    NoAssertionDropped(r2);
  }

  /** Where a kept piece comes next, the original goes on with an assertion only if the rewrite does. */
  lemma NoAssertionDropped(items: seq<Item>)
    requires OrigFirst(items)
    ensures OpensAssertion(Drop(items)) <==> OpensAssertion(Flatten(items))
  {
    if items != [] { OrigStep(items); }
  }

  lemma {:induction false} LabelLockstep(effects: set<string>, items: seq<Item>) returns (r: seq<Item>)
    requires Placed(effects, items, false) && TakeLabel(Flatten(items)).Some?
    ensures |r| < |items| && Placed(effects, r, false)
    ensures var (run, rest) := TakeLabel(Flatten(items)).value;
      Flatten(r) == rest && TakeLabel(Drop(items)) == Some((run, Drop(r)))
    decreases items
  {
    InsertionShows(effects, items, false);
    OrigStep(items);
    if items[0].p == C(Colon) {
      r := items[1..];
    } else {
      r := LabelLockstep(effects, items[1..]);
    }
  }

  /** An insertion at the head of a list parses as its own assertion. */
  lemma {:induction false} RunOf(run: seq<Piece>, rest: seq<Piece>, depth: nat, afterParen: bool)
    requires C(Semi) !in run && C(LBrace) !in run && TakeRun(run + [C(Semi)] + rest, depth, Bare, afterParen).Some?
    ensures var (a, b) := TakeRun(run + [C(Semi)] + rest, depth, Bare, afterParen).value;
      if a == run then b == [C(Semi)] + rest else b == [] || b[0] != C(Semi)
    decreases run
  {
    var all := run + [C(Semi)] + rest;
    if run == [] {
      assert all == [C(Semi)] + rest;
    } else {
      var p := run[0];
      assert all[0] == p && all[1..] == run[1..] + [C(Semi)] + rest;
      if IsPlain(p) && !(p == C(RParen) && depth == 0) {
        var d := if p == C(LParen) then depth + 1 else if p == C(RParen) then depth - 1 else depth;
        RunOf(run[1..], rest, d, p == C(RParen));
        assert run == [p] + run[1..];
      }
    }
  }

  lemma NoSemicolon(effects: set<string>, run: seq<Piece>)
    requires IsAssertion(effects, run)
    ensures C(Semi) !in run && C(LBrace) !in run
  {
    var inner := run[2..|run| - 1];
    forall k | 0 <= k < |run|
      ensures run[k] != C(Semi) && run[k] != C(LBrace)
    {
      if 2 <= k < |run| - 1 {
        assert run[k] == inner[k - 2] && inner[k - 2] in inner;
      }
    }
  }

  lemma AssertionStmt(run: seq<Piece>, rest: seq<Piece>)
    requires OpensAssertion(run) && C(Semi) !in run && C(LBrace) !in run && ParseStmt(run + [C(Semi)] + rest).Some?
    ensures ParseStmt(run + [C(Semi)] + rest) == Some((Simple(run), rest))
    ensures !Stops(run + [C(Semi)] + rest) && !StartsLabel(run + [C(Semi)] + rest)
  {
    var ts := run + [C(Semi)] + rest;
    assert ts[0] == run[0];
    SimpleFirst(ts);
    RunOf(run, rest, 0, false);
    assert ([C(Semi)] + rest)[1..] == rest;
  }

  lemma SimpleFirst(ts: seq<Piece>)
    requires OpensAssertion(ts) && ParseStmt(ts).Some?
    ensures TakeSimple(ts, Bare).Some?
    ensures ParseStmt(ts) == Some((Simple(TakeSimple(ts, Bare).value.0), TakeSimple(ts, Bare).value.1))
  {
  }

  lemma InsertedStmt(effects: set<string>, items: seq<Item>)
    requires Placed(effects, items, true) && items != [] && items[0].Ins?
    requires ParseStmt(Flatten(items)).Some?
    ensures ParseStmt(Flatten(items)) == Some((Simple(items[0].run), Flatten(items[1..])))
    ensures !Stops(Flatten(items)) && !StartsLabel(Flatten(items))
  {
    NoSemicolon(effects, items[0].run);
    assert Flatten(items) == items[0].run + [C(Semi)] + Flatten(items[1..]);
    AssertionStmt(items[0].run, Flatten(items[1..]));
  }

  /** A list that reaches an `else` hidden behind insertions stops there. */
  lemma {:induction false} StopsAtElse(effects: set<string>, items: seq<Item>)
    requires Placed(effects, items, true) && Drop(items) != [] && Drop(items)[0] == C(Else)
    requires ParseList(Flatten(items)).Some?
    ensures ParseList(Flatten(items)).value.1 != [] && ParseList(Flatten(items)).value.1[0] == C(Else)
    decreases items
  {
    if items[0].Ins? {
      InsertionShows(effects, items, true);
      InsertedStmt(effects, items);
      assert Drop(items) == Drop(items[1..]);
      StopsAtElse(effects, items[1..]);
    }
  }

  /** What a statement's lockstep delivers: where it goes on, and what the original parses to. `pa` and `pb` are
      the parses of the two programs. */
  ghost predicate Follows(effects: set<string>, items: seq<Item>, pa: Option<(Stmt, seq<Piece>)>,
      pb: Option<(Stmt, seq<Piece>)>, b: Stmt, r: seq<Item>)
  {
    && pa.Some? && |r| < |items| && Placed(effects, r, true) && Flatten(r) == pa.value.1
    && (!ElseHidden(r) ==> pb == Some((b, Drop(r))) && Erases(effects, pa.value.0, b))
  }

  lemma {:induction false} StmtLockstep(effects: set<string>, items: seq<Item>) returns (b: Stmt, r: seq<Item>)
    requires Placed(effects, items, true) && OrigFirst(items) && ParseStmt(Flatten(items)).Some?
    ensures Follows(effects, items, ParseStmt(Flatten(items)), ParseStmt(Drop(items)), b, r)
    decreases |items|, 3
  {
    var p := items[0].p;
    OrigStep(items);
    if p == C(LBrace) {
      var stmts;
      stmts, r := BlockLockstep(effects, items);
      b := Compound(stmts);
    } else if p == C(If) {
      b, r := BranchLockstep(effects, items);
    } else if p == C(While) {
      b, r := WhileLockstep(effects, items);
    } else if p == C(For) {
      b, r := ForLoopLockstep(effects, items);
    } else if p == C(Do) {
      b, r := DoLockstep(effects, items);
    } else if p == C(Switch) {
      b, r := SwitchLockstep(effects, items);
    } else {
      NoAssertionDropped(items);
      r := SimpleLockstep(effects, items, KindAt(Flatten(items)));
      b := Simple(TakeSimple(Flatten(items), KindAt(Flatten(items))).value.0);
    }
  }

  lemma {:induction false} BlockLockstep(effects: set<string>, items: seq<Item>) returns (b: seq<Stmt>, r: seq<Item>)
    requires Placed(effects, items, true) && OrigFirst(items) && ParseBlock(Flatten(items)).Some?
    ensures |r| < |items| && Placed(effects, r, true) && Flatten(r) == ParseBlock(Flatten(items)).value.1
    ensures ParseBlock(Drop(items)) == Some((b, Drop(r))) && ErasesAll(effects, ParseBlock(Flatten(items)).value.0, b)
    decreases |items|, 1
  {
    OrigStep(items);
    var r0;
    b, r0 := ListLockstep(effects, items[1..]);
    InsertionShows(effects, r0, true);
    OrigStep(r0);
    r := r0[1..];
  }

  lemma {:induction false} WhileLockstep(effects: set<string>, items: seq<Item>) returns (b: Stmt, r: seq<Item>)
    requires Placed(effects, items, true) && items != [] && items[0] == Orig(C(While)) && ParseWhile(Flatten(items)).Some?
    ensures Follows(effects, items, ParseWhile(Flatten(items)), ParseWhile(Drop(items)), b, r)
    decreases |items|, 2
  {
    OrigStep(items);
    var r0 := HeaderLockstep(effects, items[1..]);
    InsertionShows(effects, r0, false);
    var body;
    body, r := StmtLockstep(effects, r0);
    var (cond, rest) := TakeHeader(Flatten(items[1..])).value;
    b := Loop(false, cond, [], body);
    if !ElseHidden(r) { LoopErases(effects, false, cond, ParseStmt(rest).value.0, body); }
  }

  lemma {:induction false} ForLoopLockstep(effects: set<string>, items: seq<Item>) returns (b: Stmt, r: seq<Item>)
    requires Placed(effects, items, true) && items != [] && items[0] == Orig(C(For)) && ParseFor(Flatten(items)).Some?
    ensures Follows(effects, items, ParseFor(Flatten(items)), ParseFor(Drop(items)), b, r)
    decreases |items|, 2
  {
    OrigStep(items);
    var h := TakeFor(Flatten(items[1..])).value;
    var r0 := ForLockstep(effects, items[1..]);
    InsertionShows(effects, r0, false);
    var body;
    body, r := StmtLockstep(effects, r0);
    b := Compound([Simple(h.init), Loop(false, h.cond, h.step, body)]);
    if !ElseHidden(r) { ForErases(effects, h, ParseStmt(h.rest).value.0, body); }
  }

  lemma LoopErases(effects: set<string>, first: bool, cond: seq<Piece>, a: Stmt, b: Stmt)
    requires Erases(effects, a, b)
    ensures Erases(effects, Loop(first, cond, [], a), Loop(first, cond, [], b))
  {
  }

  lemma SelectErases(effects: set<string>, cond: seq<Piece>, a: seq<Stmt>, b: seq<Stmt>)
    requires ErasesAll(effects, a, b)
    ensures Erases(effects, Select(cond, a), Select(cond, b))
  {
  }

  lemma ForErases(effects: set<string>, h: ForHeader, a: Stmt, b: Stmt)
    requires Erases(effects, a, b)
    ensures Erases(effects, Compound([Simple(h.init), Loop(false, h.cond, h.step, a)]),
                   Compound([Simple(h.init), Loop(false, h.cond, h.step, b)]))
  {
    var la, lb := Loop(false, h.cond, h.step, a), Loop(false, h.cond, h.step, b);
    assert [Simple(h.init), la][1..] == [la] && [Simple(h.init), lb][1..] == [lb];
    assert [la][1..] == [] && [lb][1..] == [] && ErasesAll(effects, [], []);
    assert Erases(effects, la, lb);
    assert ErasesAll(effects, [la], [lb]);
  }

  lemma {:induction false} DoLockstep(effects: set<string>, items: seq<Item>) returns (b: Stmt, r: seq<Item>)
    requires Placed(effects, items, true) && items != [] && items[0] == Orig(C(Do)) && ParseDo(Flatten(items)).Some?
    ensures Follows(effects, items, ParseDo(Flatten(items)), ParseDo(Drop(items)), b, r)
    decreases |items|, 2
  {
    OrigStep(items);
    InsertionShows(effects, items[1..], false);
    var body, r0 := StmtLockstep(effects, items[1..]);
    InsertionShows(effects, r0, true);
    OrigStep(r0);
    var r1 := HeaderLockstep(effects, r0[1..]);
    InsertionShows(effects, r1, false);
    OrigStep(r1);
    var cond := TakeHeader(Flatten(r0[1..])).value.0;
    b, r := Loop(true, cond, [], body), r1[1..];
    LoopErases(effects, true, cond, ParseStmt(Flatten(items[1..])).value.0, body);
  }

  lemma {:induction false} SwitchLockstep(effects: set<string>, items: seq<Item>) returns (b: Stmt, r: seq<Item>)
    requires Placed(effects, items, true) && items != [] && items[0] == Orig(C(Switch)) && ParseSwitch(Flatten(items)).Some?
    ensures Follows(effects, items, ParseSwitch(Flatten(items)), ParseSwitch(Drop(items)), b, r)
    decreases |items|, 2
  {
    OrigStep(items);
    var r0 := HeaderLockstep(effects, items[1..]);
    InsertionShows(effects, r0, false);
    var cases;
    cases, r := BlockLockstep(effects, r0);
    var (cond, rest) := TakeHeader(Flatten(items[1..])).value;
    b := Select(cond, cases);
    SelectErases(effects, cond, ParseBlock(rest).value.0, cases);
  }

  lemma {:induction false} BranchLockstep(effects: set<string>, items: seq<Item>) returns (b: Stmt, r: seq<Item>)
    requires Placed(effects, items, true) && items != [] && items[0] == Orig(C(If)) && ParseIf(Flatten(items)).Some?
    ensures Follows(effects, items, ParseIf(Flatten(items)), ParseIf(Drop(items)), b, r)
    decreases |items|, 2
  {
    OrigStep(items);
    var cond := TakeHeader(Flatten(items[1..])).value.0;
    var r0 := HeaderLockstep(effects, items[1..]);
    InsertionShows(effects, r0, false);
    var thn, r1 := StmtLockstep(effects, r0);
    InsertionShows(effects, r1, true);
    if Flatten(r1) != [] && Flatten(r1)[0] == C(Else) {
      OrigStep(r1);
      InsertionShows(effects, r1[1..], false);
      var els, r2 := StmtLockstep(effects, r1[1..]);
      b, r := Branch(cond, thn, Some(els)), r2;
    } else {
      b, r := Branch(cond, thn, None), r1;
      if OrigFirst(r1) && r1 != [] { OrigStep(r1); }
    }
  }

  /** A list element other than an insertion: a label or a statement. */
  function ParseElement(ts: seq<Piece>): Option<(Stmt, seq<Piece>)> {
    if StartsLabel(ts) then ParseLabel(ts) else ParseStmt(ts)
  }

  lemma {:induction false} ElementLockstep(effects: set<string>, items: seq<Item>) returns (b: Stmt, r: seq<Item>)
    requires Placed(effects, items, true) && OrigFirst(items) && items != [] && ParseElement(Flatten(items)).Some?
    ensures |r| < |items| && Placed(effects, r, true) && Flatten(r) == ParseElement(Flatten(items)).value.1
    ensures !ElseHidden(r) ==>
      ParseElement(Drop(items)) == Some((b, Drop(r))) && Erases(effects, ParseElement(Flatten(items)).value.0, b)
    decreases |items|, 4
  {
    OrigStep(items);
    SameStart(effects, items);
    if StartsLabel(Flatten(items)) {
      InsertionShows(effects, items[1..], false);
      var r0 := LabelLockstep(effects, items[1..]);
      InsertionShows(effects, r0, false);
      b, r := Label([items[0].p] + TakeLabel(Flatten(items[1..])).value.0), r0;
    } else {
      b, r := StmtLockstep(effects, items);
    }
  }

  /** Whether a label starts here is the same in both programs. */
  lemma SameStart(effects: set<string>, items: seq<Item>)
    requires Placed(effects, items, true) && OrigFirst(items) && items != []
    ensures StartsLabel(Flatten(items)) <==> StartsLabel(Drop(items))
  {
    OrigStep(items);
    if !IsTerminator(items[0].p) {
      InsertionShows(effects, items[1..], false);
      if items[1..] != [] { OrigStep(items[1..]); }
    }
  }

  lemma {:induction false} ListLockstep(effects: set<string>, items: seq<Item>) returns (b: seq<Stmt>, r: seq<Item>)
    requires Placed(effects, items, true) && ParseList(Flatten(items)).Some?
    requires var rest := ParseList(Flatten(items)).value.1; rest == [] || rest[0] != C(Else)
    ensures |r| <= |items| && Placed(effects, r, true) && Flatten(r) == ParseList(Flatten(items)).value.1
    ensures ParseList(Drop(items)) == Some((b, Drop(r)))
    ensures ErasesAll(effects, ParseList(Flatten(items)).value.0, b)
    decreases |items|, 6
  {
    InsertionShows(effects, items, true);
    if Stops(Flatten(items)) {
      b, r := [], items;
      if items != [] { OrigStep(items); }
    } else if items[0].Ins? {
      InsertedStmt(effects, items);
      b, r := ListLockstep(effects, items[1..]);
      assert Drop(items) == Drop(items[1..]);
    } else {
      b, r := ElementsLockstep(effects, items);
    }
  }

  lemma {:induction false} ElementsLockstep(effects: set<string>, items: seq<Item>) returns (b: seq<Stmt>, r: seq<Item>)
    requires Placed(effects, items, true) && OrigFirst(items) && !Stops(Flatten(items)) && ParseList(Flatten(items)).Some?
    requires var rest := ParseList(Flatten(items)).value.1; rest == [] || rest[0] != C(Else)
    ensures |r| <= |items| && Placed(effects, r, true) && Flatten(r) == ParseList(Flatten(items)).value.1
    ensures ParseList(Drop(items)) == Some((b, Drop(r)))
    ensures ErasesAll(effects, ParseList(Flatten(items)).value.0, b)
    decreases |items|, 5
  {
    OrigStep(items);
    var s, r0 := ElementLockstep(effects, items);
    if ElseHidden(r0) {
      StopsAtElse(effects, r0);
    }
    var ss, r1 := ListLockstep(effects, r0);
    b, r := [s] + ss, r1;
  }

  /** The parse of a rewrite is the parse of the original with assertions added. */
  lemma {:induction false} ParseErases(effects: set<string>, items: seq<Item>) returns (b: Unit)
    requires Placed(effects, items, true) && Parse(Flatten(items)).Some?
    ensures Parse(Drop(items)) == Some(b) && ErasesUnit(effects, Parse(Flatten(items)).value, b)
    decreases |items|
  {
    InsertionShows(effects, items, true);
    if items == [] { return []; }
    NoAssertionDropped(items);
    OrigStep(items);
    var r0 := RunLockstep(effects, items, 0, Outer, false);
    var run := TakeRun(Flatten(items), 0, Outer, false).value.0;
    OrigStep(r0);
    if Flatten(r0)[0] == C(Semi) {
      var more := ParseErases(effects, r0[1..]);
      b := [Declaration(run)] + more;
    } else {
      var body, r1 := BlockLockstep(effects, r0);
      var more := ParseErases(effects, r1);
      b := [Function(run, body)] + more;
    }
  }
}
