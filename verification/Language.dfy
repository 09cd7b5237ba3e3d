/** The C the gate's soundness is about: a parser of translation units over `Tokens.Piece`s, and a fuelled
    execution in which every statement, condition and assertion may do anything, calls of the unit's own
    functions included. */
module Language {
  import opened Wrappers
  import opened Tokens

  datatype Stmt =
    | Simple(run: seq<Piece>)                                    // everything up to a `;`
    | Compound(stmts: seq<Stmt>)                                 // `{ ... }`
    | Branch(cond: seq<Piece>, thn: Stmt, els: Option<Stmt>)
    | Loop(first: bool, cond: seq<Piece>, step: seq<Piece>, body: Stmt)  // `first`: the body runs before any test
    | Select(cond: seq<Piece>, cases: seq<Stmt>)                 // `switch`
    | Label(run: seq<Piece>)                                     // `case ...:`, `default:`, `name:`

  datatype External = Declaration(run: seq<Piece>) | Function(head: seq<Piece>, body: seq<Stmt>)
  type Unit = seq<External>

  // ----------------------------------------------------------------- parsing

  predicate IsPlain(p: Piece) {
    p.Chars? || p.t !in {Semi, LBrace, RBrace, If, Else, While, For, Do, Switch, Case, Default}
  }

  predicate OpensAssertion(ts: seq<Piece>) { ts != [] && ts[0].C? && ts[0].t.AssertName? }

  /** The rest of a brace group that is no block, a struct's members or an initialiser: no assertion stands in it. */
  function TakeGroup(ts: seq<Piece>, depth: nat, start: bool): (r: Option<(seq<Piece>, seq<Piece>)>)
    ensures r.Some? ==> |r.value.1| < |ts|
  {
    if ts == [] || (start && OpensAssertion(ts)) then None
    else if ts[0] == C(RBrace) && depth == 0 then Some(([ts[0]], ts[1..]))
    else
      var d := if ts[0] == C(LBrace) then depth + 1 else if ts[0] == C(RBrace) then depth - 1 else depth;
      match TakeGroup(ts[1..], d, IsTerminator(ts[0]))
      case None => None
      case Some((group, rest)) => Some(([ts[0]] + group, rest))
  }

  /** Where a run stands: brace groups in it in parentheses only, anywhere, or at file scope, where a brace after `)`
      opens a body. */
  datatype RunKind = Bare | Braced | Outer

  predicate OpensGroup(ts: seq<Piece>, depth: nat, kind: RunKind, afterParen: bool) {
    ts != [] && ts[0] == C(LBrace) && (depth > 0 || kind == Braced || (kind == Outer && !afterParen))
  }

  /** The longest run of plain pieces with balanced parentheses, and what follows it. */
  function TakeRun(ts: seq<Piece>, depth: nat, kind: RunKind, afterParen: bool): (r: Option<(seq<Piece>, seq<Piece>)>)
    ensures r.Some? ==> |r.value.1| <= |ts| && (r.value.0 != [] ==> |r.value.1| < |ts|)
    decreases |ts|
  {
    if ts == [] then (if depth == 0 then Some(([], ts)) else None)
    else if OpensGroup(ts, depth, kind, afterParen) then
      match TakeGroup(ts[1..], 0, true)
      case None => None
      case Some((group, rest)) =>
        if OpensAssertion(rest) then None
        else
          (match TakeRun(rest, depth, kind, false)
           case None => None
           case Some((run, rest1)) => Some(([ts[0]] + group + run, rest1)))
    else if !IsPlain(ts[0]) || (ts[0] == C(RParen) && depth == 0) then (if depth == 0 then Some(([], ts)) else None)
    else
      var d := if ts[0] == C(LParen) then depth + 1 else if ts[0] == C(RParen) then depth - 1 else depth;
      match TakeRun(ts[1..], d, kind, ts[0] == C(RParen))
      case None => None
      case Some((run, rest)) => Some(([ts[0]] + run, rest))
  }

  /** A run up to its `;`. */
  function TakeSimple(ts: seq<Piece>, kind: RunKind): (r: Option<(seq<Piece>, seq<Piece>)>)
    ensures r.Some? ==> |r.value.1| < |ts|
  {
    match TakeRun(ts, 0, kind, false)
    case None => None
    case Some((run, rest)) => if rest != [] && rest[0] == C(Semi) then Some((run, rest[1..])) else None
  }

  /** A parenthesised condition, `depth` parentheses already open: its pieces and what follows it. */
  function TakeCond(ts: seq<Piece>, depth: nat): (r: Option<(seq<Piece>, seq<Piece>)>)
    ensures r.Some? ==> |r.value.1| < |ts|
    decreases |ts|
  {
    if ts == [] then None
    else if ts[0] == C(LBrace) then
      match TakeGroup(ts[1..], 0, true)
      case None => None
      case Some((group, rest)) =>
        if OpensAssertion(rest) then None
        else
          (match TakeCond(rest, depth)
           case None => None
           case Some((cond, rest1)) => Some(([ts[0]] + group + cond, rest1)))
    else if !IsPlain(ts[0]) then None
    else if ts[0] == C(RParen) && depth <= 1 then Some(([], ts[1..]))
    else
      var d := if ts[0] == C(LParen) then depth + 1 else if ts[0] == C(RParen) then depth - 1 else depth;
      match TakeCond(ts[1..], d)
      case None => None
      case Some((cond, rest)) => Some(([ts[0]] + cond, rest))
  }

  /** `( condition )` after the keyword `if`, `while` or `switch`. */
  function TakeHeader(ts: seq<Piece>): (r: Option<(seq<Piece>, seq<Piece>)>)
    ensures r.Some? ==> |r.value.1| < |ts|
  {
    if ts == [] || ts[0] != C(LParen) then None else TakeCond(ts[1..], 1)
  }

  datatype ForHeader = ForHeader(init: seq<Piece>, cond: seq<Piece>, step: seq<Piece>, rest: seq<Piece>)

  /** `( init ; condition ; step )`; an assertion is no value, so neither of the last two is one. */
  function TakeFor(ts: seq<Piece>): (r: Option<ForHeader>)
    ensures r.Some? ==> |r.value.rest| < |ts|
  {
    if ts == [] || ts[0] != C(LParen) then None
    else
      match TakeSimple(ts[1..], Bare)
      case None => None
      case Some((init, r1)) =>
        if OpensAssertion(r1) then None
        else
          (match TakeSimple(r1, Bare)
           case None => None
           case Some((cond, r2)) =>
             if OpensAssertion(r2) then None
             else
               match TakeCond(r2, 1)
               case None => None
               case Some((step, rest)) => Some(ForHeader(init, cond, step, rest)))
  }

  /** The kind of run a statement is: an assertion holds braces in its parentheses only. */
  function KindAt(ts: seq<Piece>): RunKind { if OpensAssertion(ts) then Bare else Braced }

  predicate StartsLabel(ts: seq<Piece>) {
    ts != [] && ts[0].C? && (ts[0].t == Case || ts[0].t == Default || (ts[0].t.Ident? && |ts| > 1 && ts[1] == C(Colon)))
  }

  /** What follows a label's first word, up to its colon. */
  function TakeLabel(ts: seq<Piece>): (r: Option<(seq<Piece>, seq<Piece>)>)
    ensures r.Some? ==> |r.value.1| < |ts|
  {
    if ts == [] || !IsPlain(ts[0]) then None
    else if ts[0] == C(Colon) then Some(([], ts[1..]))
    else
      match TakeLabel(ts[1..])
      case None => None
      case Some((run, rest)) => Some(([ts[0]] + run, rest))
  }

  predicate Stops(ts: seq<Piece>) {
    ts == [] || ts[0] == C(RBrace) || ts[0] == C(Else)
  }

  /** `{ ... }`. */
  function ParseBlock(ts: seq<Piece>): (r: Option<(seq<Stmt>, seq<Piece>)>)
    ensures r.Some? ==> |r.value.1| < |ts|
    decreases |ts|, 0
  {
    if ts == [] || ts[0] != C(LBrace) then None
    else
      match ParseList(ts[1..])
      case None => None
      case Some((body, rest)) => if rest != [] && rest[0] == C(RBrace) then Some((body, rest[1..])) else None
  }

  function ParseIf(ts: seq<Piece>): (r: Option<(Stmt, seq<Piece>)>)
    ensures r.Some? ==> |r.value.1| < |ts|
    decreases |ts|, 0
  {
    if ts == [] then None
    else
      match TakeHeader(ts[1..])
      case None => None
      case Some((cond, rest)) =>
        (match ParseStmt(rest)
         case None => None
         case Some((thn, rest1)) =>
           if rest1 != [] && rest1[0] == C(Else) then
             match ParseStmt(rest1[1..])
             case None => None
             case Some((els, rest2)) => Some((Branch(cond, thn, Some(els)), rest2))
           else Some((Branch(cond, thn, None), rest1)))
  }

  function ParseWhile(ts: seq<Piece>): (r: Option<(Stmt, seq<Piece>)>)
    ensures r.Some? ==> |r.value.1| < |ts|
    decreases |ts|, 0
  {
    if ts == [] then None
    else
      match TakeHeader(ts[1..])
      case None => None
      case Some((cond, rest)) =>
        (match ParseStmt(rest)
         case None => None
         case Some((body, rest1)) => Some((Loop(false, cond, [], body), rest1)))
  }

  function ParseFor(ts: seq<Piece>): (r: Option<(Stmt, seq<Piece>)>)
    ensures r.Some? ==> |r.value.1| < |ts|
    decreases |ts|, 0
  {
    if ts == [] then None
    else
      match TakeFor(ts[1..])
      case None => None
      case Some(h) =>
        (match ParseStmt(h.rest)
         case None => None
         case Some((body, rest1)) => Some((Compound([Simple(h.init), Loop(false, h.cond, h.step, body)]), rest1)))
  }

  function ParseDo(ts: seq<Piece>): (r: Option<(Stmt, seq<Piece>)>)
    ensures r.Some? ==> |r.value.1| < |ts|
    decreases |ts|, 0
  {
    if ts == [] then None
    else
      match ParseStmt(ts[1..])
      case None => None
      case Some((body, rest)) =>
        if rest == [] || rest[0] != C(While) then None
        else
          (match TakeHeader(rest[1..])
           case None => None
           case Some((cond, rest1)) =>
             if rest1 != [] && rest1[0] == C(Semi) then Some((Loop(true, cond, [], body), rest1[1..])) else None)
  }

  function ParseSwitch(ts: seq<Piece>): (r: Option<(Stmt, seq<Piece>)>)
    ensures r.Some? ==> |r.value.1| < |ts|
    decreases |ts|, 0
  {
    if ts == [] then None
    else
      match TakeHeader(ts[1..])
      case None => None
      case Some((cond, rest)) =>
        (match ParseBlock(rest)
         case None => None
         case Some((cases, rest1)) => Some((Select(cond, cases), rest1)))
  }

  function ParseStmt(ts: seq<Piece>): (r: Option<(Stmt, seq<Piece>)>)
    ensures r.Some? ==> |r.value.1| < |ts|
    decreases |ts|, 1
  {
    if ts == [] then None
    else if ts[0] == C(LBrace) then
      match ParseBlock(ts)
      case None => None
      case Some((body, rest)) => Some((Compound(body), rest))
    else if ts[0] == C(If) then ParseIf(ts)
    else if ts[0] == C(While) then ParseWhile(ts)
    else if ts[0] == C(For) then ParseFor(ts)
    else if ts[0] == C(Do) then ParseDo(ts)
    else if ts[0] == C(Switch) then ParseSwitch(ts)
    else
      match TakeSimple(ts, KindAt(ts))
      case None => None
      case Some((run, rest)) => Some((Simple(run), rest))
  }

  /** Statements up to the end, a `}` or an `else`. */
  function ParseList(ts: seq<Piece>): (r: Option<(seq<Stmt>, seq<Piece>)>)
    ensures r.Some? ==> |r.value.1| <= |ts| && Stops(r.value.1)
    decreases |ts|, 2
  {
    if Stops(ts) then Some(([], ts))
    else
      match if StartsLabel(ts) then ParseLabel(ts) else ParseStmt(ts)
      case None => None
      case Some((s, rest)) =>
        match ParseList(rest)
        case None => None
        case Some((ss, rest1)) => Some(([s] + ss, rest1))
  }

  function ParseLabel(ts: seq<Piece>): (r: Option<(Stmt, seq<Piece>)>)
    requires StartsLabel(ts)
    ensures r.Some? ==> |r.value.1| < |ts|
  {
    match TakeLabel(ts[1..])
    case None => None
    case Some((run, rest)) => Some((Label([ts[0]] + run), rest))
  }

  /** A translation unit: declarations and function definitions, and no assertion among them. */
  function Parse(ts: seq<Piece>): Option<Unit>
    decreases |ts|
  {
    if ts == [] then Some([])
    else if OpensAssertion(ts) then None
    else
      match TakeRun(ts, 0, Outer, false)
      case None => None
      case Some((run, rest)) =>
        if rest != [] && rest[0] == C(Semi) then
          match Parse(rest[1..])
          case None => None
          case Some(more) => Some([Declaration(run)] + more)
        else
          (match ParseBlock(rest)
           case None => None
           case Some((body, rest1)) =>
             match Parse(rest1)
             case None => None
             case Some(more) => Some([Function(run, body)] + more))
  }

  // ---------------------------------------------------------------- execution

  datatype Flow = Next | Break | Continue | Return | Exit | OutOfFuel

  /** How something ended, and the properties violated on the way; a violation does not stop the others
      from being looked for. */
  datatype Outcome<S> = Outcome(flow: Flow, state: S, bad: set<int>)

  /** A step of evaluating an expression or simple statement: it ends, or calls a function and will go on. */
  datatype Move<S> =
    | Finish(flow: Flow, state: S, bad: set<int>)
    | Invoke(callee: string, state: S, frame: S, bad: set<int>)

  /** What the opaque parts mean. `effects` are the names that stand for effects without a parenthesis:
      macros, and keywords such as `throw`, `new` and `and_eq`. */
  datatype Meaning<!S> = Meaning(
    effects: set<string>,
    begin: (seq<Piece>, S) -> Move<S>,
    resume: (S, S) -> Move<S>,          // the frame left behind, and the state the callee returned in
    truth: S -> bool,                   // the value of the condition just evaluated
    selects: (seq<Piece>, S) -> bool,   // the label is the one the value just evaluated jumps to
    name: seq<Piece> -> string,         // the function a head defines
    extern: (string, S) -> Outcome<S>,  // functions defined elsewhere
    declare: (seq<Piece>, S) -> S)

  function Also<S>(bad: set<int>, o: Outcome<S>): Outcome<S> { o.(bad := bad + o.bad) }

  function Find<S>(m: Meaning<S>, u: Unit, callee: string): Option<seq<Stmt>> {
    if u == [] then None
    else if u[0].Function? && m.name(u[0].head) == callee then Some(u[0].body)
    else Find(m, u[1..], callee)
  }

  /** The first label from the `i`-th case on that matches. */
  function EnterAt<S>(m: Meaning<S>, cases: seq<Stmt>, i: nat, s: S, default: bool): (r: nat)
    requires i <= |cases|
    ensures i <= r <= |cases|
    decreases |cases| - i
  {
    if i == |cases| then i
    else if cases[i].Label? && (if default then cases[i].run == [C(Default)] else m.selects(cases[i].run, s)) then i
    else EnterAt(m, cases, i + 1, s, default)
  }

  /** Where a `switch` jumps to: the label of its value, or `default`, or its end. */
  function Entry<S>(m: Meaning<S>, cases: seq<Stmt>, s: S): (r: nat)
    ensures r <= |cases|
  {
    if EnterAt(m, cases, 0, s, false) < |cases| then EnterAt(m, cases, 0, s, false) else EnterAt(m, cases, 0, s, true)
  }

  function Eval<S>(m: Meaning<S>, u: Unit, move: Move<S>, fuel: nat): Outcome<S>
    decreases fuel, 0
  {
    match move
    case Finish(flow, s, bad) => Outcome(flow, s, bad)
    case Invoke(callee, s, frame, bad) =>
      if fuel == 0 then Outcome(OutOfFuel, s, bad)
      else
        var c := Call(m, u, callee, s, fuel - 1);
        if c.flow != Next then Also(bad, c)
        else Also(bad + c.bad, Eval(m, u, m.resume(frame, c.state), fuel - 1))
  }

  function Call<S>(m: Meaning<S>, u: Unit, callee: string, s: S, fuel: nat): Outcome<S>
    decreases fuel, 2
  {
    match Find(m, u, callee)
    case None => m.extern(callee, s)
    case Some(body) =>
      var o := ExecAll(m, u, body, s, fuel);
      if o.flow == Exit || o.flow == OutOfFuel then o else o.(flow := Next)
  }

  function Exec<S>(m: Meaning<S>, u: Unit, p: Stmt, s: S, fuel: nat): Outcome<S>
    decreases fuel, 1, p
  {
    match p
    case Simple(run) => Eval(m, u, m.begin(run, s), fuel)
    case Compound(stmts) => ExecAll(m, u, stmts, s, fuel)
    case Branch(cond, thn, els) =>
      var o := Eval(m, u, m.begin(cond, s), fuel);
      if o.flow != Next then o
      else if m.truth(o.state) then Also(o.bad, Exec(m, u, thn, o.state, fuel))
      else if els.Some? then Also(o.bad, Exec(m, u, els.value, o.state, fuel))
      else o
    case Loop(first, cond, step, body) =>
      var o := if first || cond == [] then Outcome(Next, s, {}) else Eval(m, u, m.begin(cond, s), fuel);
      if o.flow != Next || (!first && cond != [] && !m.truth(o.state)) then o
      else if fuel == 0 then o.(flow := OutOfFuel)
      else
        var b := Exec(m, u, body, o.state, fuel);
        if b.flow == Break then Also(o.bad, b.(flow := Next))
        else if b.flow != Next && b.flow != Continue then Also(o.bad, b)
        else
          var t := if step == [] then Outcome(Next, b.state, {}) else Eval(m, u, m.begin(step, b.state), fuel);
          if t.flow != Next then Also(o.bad + b.bad, t)
          else Also(o.bad + b.bad + t.bad, Exec(m, u, Loop(false, cond, step, body), t.state, fuel - 1))
    case Select(cond, cases) =>
      var o := Eval(m, u, m.begin(cond, s), fuel);
      if o.flow != Next then o
      else
        var r := ExecAll(m, u, cases[Entry(m, cases, o.state)..], o.state, fuel);
        Also(o.bad, if r.flow == Break then r.(flow := Next) else r)
    case Label(_) => Outcome(Next, s, {})
  }

  function ExecAll<S>(m: Meaning<S>, u: Unit, ps: seq<Stmt>, s: S, fuel: nat): Outcome<S>
    decreases fuel, 1, ps
  {
    if ps == [] then Outcome(Next, s, {})
    else
      var o := Exec(m, u, ps[0], s, fuel);
      if o.flow != Next then o else Also(o.bad, ExecAll(m, u, ps[1..], o.state, fuel))
  }

  /** The state `main` starts in. */
  function Init<S>(m: Meaning<S>, u: Unit, s: S): S {
    if u == [] then s
    else Init(m, u[1..], if u[0].Declaration? then m.declare(u[0].run, s) else s)
  }

  function Run<S>(m: Meaning<S>, u: Unit, s: S, fuel: nat): Outcome<S> {
    Call(m, u, "main", Init(m, u, s), fuel)
  }

  /** No run of the program, however long, violates a property that is not excused. */
  ghost predicate SafeBut<S>(m: Meaning<S>, u: Unit, s: S, excused: int -> bool) {
    forall fuel: nat, v :: v in Run(m, u, s, fuel).bad ==> excused(v)
  }

  // ------------------------------------------------- programs up to assertions

  /** A parenthesis after this may be a call: after a word, after an expression that has ended, and after a `>`, which
      may end template arguments. */
  predicate Applies(p: Piece) {
    p.C? && (IsWord(p.t) || p.t == RParen || p.t == RBracket
             || (p.t.Operand? && p.t.text != "" && p.t.text[|p.t.text| - 1] == '>'))
  }

  /** An expression that reads and cannot write, as far as its tokens tell: no assignment or increment, no statement
      end, nothing that may be a call, no braces, which construct an object or are a body, and no name that stands for an
      effect. */
  predicate Pure(effects: set<string>, ps: seq<Piece>) {
    && (forall p <- ps :: p.C? ==>
          !p.t.Effect? && p.t !in {Semi, LBrace, RBrace} && !(p.t.Ident? && p.t.name in effects))
    && (forall k :: 0 < k < |ps| && ps[k] == C(LParen) ==> !Applies(ps[k - 1]))
  }

  /** `assert(condition)` with a condition that cannot write. */
  predicate IsAssertion(effects: set<string>, run: seq<Piece>) {
    && |run| >= 3 && OpensAssertion(run) && run[1] == C(LParen) && run[|run| - 1] == C(RParen)
    && Pure(effects, run[2..|run| - 1])
  }

  /** All that is asked of a meaning: evaluating such an assertion ends where it began, whether it holds or not. */
  ghost predicate Respects<S(!new)>(m: Meaning<S>) {
    forall run, s :: IsAssertion(m.effects, run) ==>
      m.begin(run, s).Finish? && m.begin(run, s).flow == Next && m.begin(run, s).state == s
  }

  /** `a` is `b` with assertions added as statements of its own lists. */
  predicate Erases(effects: set<string>, a: Stmt, b: Stmt)
    decreases a, 0
  {
    match a
    case Simple(_) => a == b
    case Label(_) => a == b
    case Compound(stmts) => b.Compound? && ErasesAll(effects, stmts, b.stmts)
    case Branch(cond, thn, els) =>
      b.Branch? && b.cond == cond && Erases(effects, thn, b.thn) && els.Some? == b.els.Some? &&
      (els.Some? ==> Erases(effects, els.value, b.els.value))
    case Loop(first, cond, step, body) =>
      b.Loop? && b.first == first && b.cond == cond && b.step == step && Erases(effects, body, b.body)
    case Select(cond, cases) => b.Select? && b.cond == cond && ErasesAll(effects, cases, b.cases)
  }

  predicate ErasesAll(effects: set<string>, a: seq<Stmt>, b: seq<Stmt>)
    decreases a, 1
  {
    if a == [] then b == []
    else
      || (b != [] && Erases(effects, a[0], b[0]) && ErasesAll(effects, a[1..], b[1..]))
      || (a[0].Simple? && IsAssertion(effects, a[0].run) && ErasesAll(effects, a[1..], b))
  }

  /** The same declarations and functions, assertions added in the bodies. */
  predicate ErasesUnit(effects: set<string>, a: Unit, b: Unit) {
    if a == [] then b == []
    else
      && b != [] && ErasesUnit(effects, a[1..], b[1..])
      && match a[0]
         case Declaration(_) => a[0] == b[0]
         case Function(head, body) => b[0].Function? && b[0].head == head && ErasesAll(effects, body, b[0].body)
  }

  /** The same end, and no violation the first does not have. */
  predicate Covers<S(==)>(a: Outcome<S>, b: Outcome<S>) {
    a.flow == b.flow && a.state == b.state && b.bad <= a.bad
  }

  lemma {:induction false} FindErases<S>(m: Meaning<S>, a: Unit, b: Unit, callee: string)
    requires ErasesUnit(m.effects, a, b)
    ensures match Find(m, a, callee)
      case None => Find(m, b, callee) == None
      case Some(body) => Find(m, b, callee).Some? && ErasesAll(m.effects, body, Find(m, b, callee).value)
  {
    if a != [] { FindErases(m, a[1..], b[1..], callee); }
  }

  lemma {:induction false} EnterErases<S>(m: Meaning<S>, a: seq<Stmt>, i: nat, b: seq<Stmt>, j: nat, s: S,
      default: bool)
    requires i <= |a| && j <= |b| && ErasesAll(m.effects, a[i..], b[j..])
    ensures var i', j' := EnterAt(m, a, i, s, default), EnterAt(m, b, j, s, default);
      ErasesAll(m.effects, a[i'..], b[j'..]) && (i' == |a| <==> j' == |b|)
    decreases |a| - i
  {
    if i < |a| {
      assert a[i..][1..] == a[i + 1..];
      if j < |b| && Erases(m.effects, a[i], b[j]) && ErasesAll(m.effects, a[i + 1..], b[j + 1..]) {
        EnterErases(m, a, i + 1, b, j + 1, s, default);
      } else {
        if j < |b| { assert b[j..][1..] == b[j + 1..]; }
        EnterErases(m, a, i + 1, b, j, s, default);
      }
    }
  }

  lemma EntryErases<S>(m: Meaning<S>, a: seq<Stmt>, b: seq<Stmt>, s: S)
    requires ErasesAll(m.effects, a, b)
    ensures ErasesAll(m.effects, a[Entry(m, a, s)..], b[Entry(m, b, s)..])
  {
    assert a[0..] == a && b[0..] == b;
    EnterErases(m, a, 0, b, 0, s, false);
    EnterErases(m, a, 0, b, 0, s, true);
  }

  lemma {:induction false} EraseEval<S(!new)>(m: Meaning<S>, a: Unit, b: Unit, move: Move<S>, fuel: nat)
    requires Respects(m) && ErasesUnit(m.effects, a, b)
    ensures Covers(Eval(m, a, move, fuel), Eval(m, b, move, fuel))
    decreases fuel, 0
  {
    if move.Invoke? && fuel > 0 {
      EraseCall(m, a, b, move.callee, move.state, fuel - 1);
      var c := Call(m, a, move.callee, move.state, fuel - 1);
      if c.flow == Next { EraseEval(m, a, b, m.resume(move.frame, c.state), fuel - 1); }
    }
  }

  lemma {:induction false} EraseCall<S(!new)>(m: Meaning<S>, a: Unit, b: Unit, callee: string, s: S, fuel: nat)
    requires Respects(m) && ErasesUnit(m.effects, a, b)
    ensures Covers(Call(m, a, callee, s, fuel), Call(m, b, callee, s, fuel))
    decreases fuel, 2
  {
    FindErases(m, a, b, callee);
    if Find(m, a, callee).Some? {
      EraseExecAll(m, a, b, Find(m, a, callee).value, Find(m, b, callee).value, s, fuel);
    }
  }

  /** An added assertion changes no run: it can only report a violation of its own. */
  lemma {:induction false} EraseExec<S(!new)>(m: Meaning<S>, ua: Unit, ub: Unit, a: Stmt, b: Stmt, s: S, fuel: nat)
    requires Respects(m) && ErasesUnit(m.effects, ua, ub) && Erases(m.effects, a, b)
    ensures Covers(Exec(m, ua, a, s, fuel), Exec(m, ub, b, s, fuel))
    decreases fuel, 1, a
  {
    match a
    case Simple(run) => EraseEval(m, ua, ub, m.begin(run, s), fuel);
    case Label(_) =>
    case Compound(stmts) => EraseExecAll(m, ua, ub, stmts, b.stmts, s, fuel);
    case Branch(cond, thn, els) =>
      EraseEval(m, ua, ub, m.begin(cond, s), fuel);
      var o := Eval(m, ua, m.begin(cond, s), fuel);
      if o.flow == Next {
        EraseExec(m, ua, ub, thn, b.thn, o.state, fuel);
        if els.Some? { EraseExec(m, ua, ub, els.value, b.els.value, o.state, fuel); }
      }
    case Loop(_, _, _, _) => EraseLoop(m, ua, ub, a, b, s, fuel);
    case Select(cond, cases) =>
      EraseEval(m, ua, ub, m.begin(cond, s), fuel);
      var o := Eval(m, ua, m.begin(cond, s), fuel);
      EntryErases(m, cases, b.cases, o.state);
      if o.flow == Next {
        EraseExecAll(m, ua, ub, cases[Entry(m, cases, o.state)..], b.cases[Entry(m, b.cases, o.state)..], o.state, fuel);
      }
  }

  lemma {:induction false} EraseLoop<S(!new)>(m: Meaning<S>, ua: Unit, ub: Unit, a: Stmt, b: Stmt, s: S, fuel: nat)
    requires Respects(m) && ErasesUnit(m.effects, ua, ub) && a.Loop? && Erases(m.effects, a, b)
    ensures Covers(Exec(m, ua, a, s, fuel), Exec(m, ub, b, s, fuel))
    decreases fuel, 1, a, 0
  {
    var o := if a.first || a.cond == [] then Outcome(Next, s, {}) else Eval(m, ua, m.begin(a.cond, s), fuel);
    if !(a.first || a.cond == []) { EraseEval(m, ua, ub, m.begin(a.cond, s), fuel); }
    if o.flow == Next && fuel > 0 {
      EraseExec(m, ua, ub, a.body, b.body, o.state, fuel);
      var c := Exec(m, ua, a.body, o.state, fuel);
      if a.step != [] { EraseEval(m, ua, ub, m.begin(a.step, c.state), fuel); }
      var t := if a.step == [] then Outcome(Next, c.state, {}) else Eval(m, ua, m.begin(a.step, c.state), fuel);
      EraseLoop(m, ua, ub, Loop(false, a.cond, a.step, a.body), Loop(false, b.cond, b.step, b.body), t.state, fuel - 1);
    }
  }

  lemma AssertionRuns<S(!new)>(m: Meaning<S>, u: Unit, a: Stmt, s: S, fuel: nat)
    requires Respects(m) && a.Simple? && IsAssertion(m.effects, a.run)
    ensures Exec(m, u, a, s, fuel).flow == Next && Exec(m, u, a, s, fuel).state == s
  {
    assert m.begin(a.run, s).Finish?;
  }

  lemma {:induction false} EraseExecAll<S(!new)>(m: Meaning<S>, ua: Unit, ub: Unit, a: seq<Stmt>, b: seq<Stmt>, s: S,
      fuel: nat)
    requires Respects(m) && ErasesUnit(m.effects, ua, ub) && ErasesAll(m.effects, a, b)
    ensures Covers(ExecAll(m, ua, a, s, fuel), ExecAll(m, ub, b, s, fuel))
    decreases fuel, 1, a
  {
    if a != [] {
      var o := Exec(m, ua, a[0], s, fuel);
      if b != [] && Erases(m.effects, a[0], b[0]) && ErasesAll(m.effects, a[1..], b[1..]) {
        EraseExec(m, ua, ub, a[0], b[0], s, fuel);
        if o.flow == Next { EraseExecAll(m, ua, ub, a[1..], b[1..], o.state, fuel); }
      } else {
        AssertionRuns(m, ua, a[0], s, fuel);
        EraseExecAll(m, ua, ub, a[1..], b, s, fuel);
      }
    }
  }

  lemma {:induction false} InitErases<S>(m: Meaning<S>, a: Unit, b: Unit, s: S)
    requires ErasesUnit(m.effects, a, b)
    ensures Init(m, a, s) == Init(m, b, s)
  {
    if a != [] { InitErases(m, a[1..], b[1..], if a[0].Declaration? then m.declare(a[0].run, s) else s); }
  }

  /** Every run of the unit with assertions added is the same run of the unit without, violations of the added
      ones apart. */
  lemma EraseRun<S(!new)>(m: Meaning<S>, a: Unit, b: Unit, s: S, fuel: nat)
    requires Respects(m) && ErasesUnit(m.effects, a, b)
    ensures Covers(Run(m, a, s, fuel), Run(m, b, s, fuel))
  {
    InitErases(m, a, b, s);
    EraseCall(m, a, b, "main", Init(m, a, s), fuel);
  }
}
