/** The straight-line language the harness generator writes objects in, and what a program in it leaves behind. */
module Target {
  import opened Wrappers

  /** Memory: the object under construction, and the storage declared for a pointer field of it.
      Storage is named by the field it is for, so the flattened C name is taken to be unambiguous. */
  datatype Object = Root | Storage(of: Loc, kind: StorageKind)
  datatype StorageKind = ItemsOf | BytesOf | TargetOf
  datatype Loc = Loc(obj: Object, path: seq<string>)

  datatype Pointer = Null | To(obj: Object)
  datatype Value = Int(n: int) | Ints(ns: seq<int>) | Ptr(p: Pointer) | Stub

  datatype Formula =
    | AtMost(l: Loc, cap: nat)                                           // l <= cap
    | IsZero(l: Loc)                                                     // l == 0
    | NotAbove(a: Loc, b: Loc)                                           // a <= b
    | PowerOfTwo(l: Loc)                                                 // l != 0 && (l & (l - 1)) == 0
    | Indexes(o: Object, count: nat, bound: Loc, sentinel: Option<nat>)  // every o[k] == sentinel || o[k] < bound

  datatype Stmt =
    | Declare(o: Object, extent: nat)                     // `T o;` (extent 1) or `T o[extent];`
    | Havoc(l: Loc)                                       // l = nondet
    | HavocArray(l: Loc, n: nat)                          // an array member, element by element
    | SetNull(l: Loc)
    | SetAddr(l: Loc, to: Object)
    | SetStub(l: Loc)                                     // a callback stub or a copied hook table
    | FillNondet(o: Object, n: nat, terminated: bool)     // n nondeterministic elements, and a NUL after them
    | FillZero(o: Object, n: nat)
    | Assume(f: Formula)

  /** Uninitialised memory holds anything, so states are total. */
  datatype State = State(vals: Loc -> Value, extent: Object -> int, cells: (Object, nat) -> int)

  function AsInt(v: Value): int { if v.Int? then v.n else 0 }

  predicate IsPow2(n: int) {
    n == 1 || (n > 1 && n % 2 == 0 && IsPow2(n / 2))
  }

  ghost predicate Holds(f: Formula, s: State) {
    match f
    case AtMost(l, cap) => AsInt(s.vals(l)) <= cap
    case IsZero(l) => AsInt(s.vals(l)) == 0
    case NotAbove(a, b) => AsInt(s.vals(a)) <= AsInt(s.vals(b))
    case PowerOfTwo(l) => IsPow2(AsInt(s.vals(l)))
    case Indexes(o, count, bound, sentinel) =>
      forall k: nat :: k < count ==>
        (sentinel.Some? && s.cells(o, k) == sentinel.value) || s.cells(o, k) < AsInt(s.vals(bound))
  }

  /** The solver's choices: what the k-th nondeterministic value of the i-th statement is. */
  type Choices = (nat, nat) -> int

  /** The first `n` of the `i`-th statement. */
  function Choose(ch: Choices, i: nat, n: nat): (r: seq<int>)
    ensures |r| == n && forall k :: 0 <= k < n ==> r[k] == ch(i, k)
  {
    seq(n, k requires 0 <= k < n => ch(i, k))
  }

  ghost function Effect(p: Stmt, i: nat, ch: Choices, s: State): Option<State> {
    match p
    case Declare(o, n) => Some(s.(extent := x => if x == o then n else s.extent(x)))
    case Havoc(l) => Some(s.(vals := x => if x == l then Int(ch(i, 0)) else s.vals(x)))
    case HavocArray(l, n) => Some(s.(vals := x => if x == l then Ints(Choose(ch, i, n)) else s.vals(x)))
    case SetNull(l) => Some(s.(vals := x => if x == l then Ptr(Null) else s.vals(x)))
    case SetAddr(l, o) => Some(s.(vals := x => if x == l then Ptr(To(o)) else s.vals(x)))
    case SetStub(l) => Some(s.(vals := x => if x == l then Stub else s.vals(x)))
    case FillNondet(o, n, terminated) =>
      Some(s.(cells := (x: Object, k: nat) =>
        if x == o && k < n then ch(i, k) else if x == o && k == n && terminated then 0 else s.cells(x, k)))
    case FillZero(o, n) => Some(s.(cells := (x: Object, k: nat) => if x == o && k < n then 0 else s.cells(x, k)))
    case Assume(f) => if Holds(f, s) then Some(s) else None
  }

  /** Runs the program from statement `i`; None is an execution an assumption rules out. */
  ghost function Exec(prog: seq<Stmt>, i: nat, ch: Choices, s: State): Option<State>
    requires i <= |prog|
    decreases |prog| - i
  {
    if i == |prog| then Some(s)
    else
      match Effect(prog[i], i, ch, s)
      case None => None
      case Some(s') => Exec(prog, i + 1, ch, s')
  }

  // ------------------------------------------------------------- footprints

  datatype Region = Val(l: Loc) | Cells(o: Object) | Extent(o: Object)

  function Writes(p: Stmt): set<Region> {
    match p
    case Declare(o, _) => {Extent(o)}
    case Havoc(l) => {Val(l)}
    case HavocArray(l, _) => {Val(l)}
    case SetNull(l) => {Val(l)}
    case SetAddr(l, _) => {Val(l)}
    case SetStub(l) => {Val(l)}
    case FillNondet(o, _, _) => {Cells(o)}
    case FillZero(o, _) => {Cells(o)}
    case Assume(_) => {}
  }

  function Mentions(f: Formula): set<Region> {
    match f
    case AtMost(l, _) => {Val(l)}
    case IsZero(l) => {Val(l)}
    case NotAbove(a, b) => {Val(a), Val(b)}
    case PowerOfTwo(l) => {Val(l)}
    case Indexes(o, _, bound, _) => {Cells(o), Val(bound)}
  }

  /** The regions a statement says something lasting about: what it assigns, or what it assumes of. */
  function Pins(p: Stmt): set<Region> {
    if p.Assume? then Mentions(p.f) else Writes(p)
  }

  /** Nothing a statement pins is written again after it. */
  ghost predicate Stable(prog: seq<Stmt>) {
    forall i, j :: 0 <= i < j < |prog| ==> Writes(prog[j]) !! Pins(prog[i])
  }

  /** What statement `i` established, read off a later state. */
  ghost predicate Established(p: Stmt, i: nat, ch: Choices, s: State) {
    match p
    case Declare(o, n) => s.extent(o) == n
    case Havoc(l) => s.vals(l) == Int(ch(i, 0))
    case HavocArray(l, n) => s.vals(l) == Ints(Choose(ch, i, n))
    case SetNull(l) => s.vals(l) == Ptr(Null)
    case SetAddr(l, o) => s.vals(l) == Ptr(To(o))
    case SetStub(l) => s.vals(l) == Stub
    case FillNondet(o, n, terminated) =>
      (forall k: nat :: k < n ==> s.cells(o, k) == ch(i, k)) && (terminated ==> s.cells(o, n) == 0)
    case FillZero(o, n) => forall k: nat :: k < n ==> s.cells(o, k) == 0
    case Assume(f) => Holds(f, s)
  }

  lemma EffectEstablishes(p: Stmt, i: nat, ch: Choices, s: State)
    requires Effect(p, i, ch, s).Some?
    ensures Established(p, i, ch, Effect(p, i, ch, s).value)
  {
  }

  lemma EffectKeeps(p: Stmt, i: nat, q: Stmt, j: nat, ch: Choices, s: State)
    requires Effect(q, j, ch, s).Some? && Writes(q) !! Pins(p) && Established(p, i, ch, s)
    ensures Established(p, i, ch, Effect(q, j, ch, s).value)
  {
    var s' := Effect(q, j, ch, s).value;
    assert forall l :: Val(l) in Pins(p) ==> s'.vals(l) == s.vals(l);
    assert forall o, k :: Cells(o) in Pins(p) ==> s'.cells(o, k) == s.cells(o, k);
    assert forall o :: Extent(o) in Pins(p) ==> s'.extent(o) == s.extent(o);
    if p.Assume? {
      HoldsByMentions(p.f, s, s');
    }
  }

  lemma HoldsByMentions(f: Formula, s: State, s': State)
    requires Holds(f, s)
    requires forall l :: Val(l) in Mentions(f) ==> s'.vals(l) == s.vals(l)
    requires forall o, k :: Cells(o) in Mentions(f) ==> s'.cells(o, k) == s.cells(o, k)
    ensures Holds(f, s')
  {
    if f.Indexes? {
      assert Cells(f.o) in Mentions(f) && Val(f.bound) in Mentions(f);
    }
  }

  /** In a stable program everything established, every assumption included, holds of the final state. */
  lemma {:induction false} FinalState(prog: seq<Stmt>, i: nat, ch: Choices, s: State)
    requires Stable(prog) && i <= |prog| && Exec(prog, i, ch, s).Some?
    requires forall k :: 0 <= k < i ==> Established(prog[k], k, ch, s)
    ensures forall k :: 0 <= k < |prog| ==> Established(prog[k], k, ch, Exec(prog, i, ch, s).value)
    decreases |prog| - i
  {
    if i < |prog| {
      var s' := Effect(prog[i], i, ch, s).value;
      EffectEstablishes(prog[i], i, ch, s);
      forall k | 0 <= k < i
        ensures Established(prog[k], k, ch, s')
      {
        EffectKeeps(prog[k], k, prog[i], i, ch, s);
      }
      FinalState(prog, i + 1, ch, s');
    }
  }

  // ------------------------------------------------- what the assumptions rule out

  /** The state the program would leave if nothing were assumed. */
  ghost function Leaves(prog: seq<Stmt>, i: nat, ch: Choices, s: State): State
    requires i <= |prog|
    decreases |prog| - i
  {
    if i == |prog| then s
    else if prog[i].Assume? then Leaves(prog, i + 1, ch, s)
    else Leaves(prog, i + 1, ch, Effect(prog[i], i, ch, s).value)
  }

  /** What no later statement writes stays as it is. */
  lemma {:induction false} LeavesBe(prog: seq<Stmt>, i: nat, ch: Choices, s: State, r: Region)
    requires i <= |prog| && forall j :: i <= j < |prog| ==> r !in Writes(prog[j])
    ensures SameAt(r, s, Leaves(prog, i, ch, s))
    decreases |prog| - i
  {
    if i < |prog| {
      if prog[i].Assume? {
        LeavesBe(prog, i + 1, ch, s, r);
      } else {
        EffectLeaves(prog[i], i, ch, s, r);
        LeavesBe(prog, i + 1, ch, Effect(prog[i], i, ch, s).value, r);
      }
    }
  }

  ghost predicate SameAt(r: Region, s: State, s': State) {
    match r
    case Val(l) => s'.vals(l) == s.vals(l)
    case Cells(o) => forall k: nat :: s'.cells(o, k) == s.cells(o, k)
    case Extent(o) => s'.extent(o) == s.extent(o)
  }

  lemma EffectLeaves(p: Stmt, i: nat, ch: Choices, s: State, r: Region)
    requires !p.Assume? && r !in Writes(p)
    ensures SameAt(r, s, Effect(p, i, ch, s).value)
  {
  }

  lemma {:induction false} HoldsLater(prog: seq<Stmt>, i: nat, ch: Choices, s: State, f: Formula)
    requires i <= |prog| && forall j :: i <= j < |prog| ==> Writes(prog[j]) !! Mentions(f)
    ensures Holds(f, s) <==> Holds(f, Leaves(prog, i, ch, s))
  {
    var s' := Leaves(prog, i, ch, s);
    forall r | r in Mentions(f) ensures SameAt(r, s, s') {
      LeavesBe(prog, i, ch, s, r);
    }
    assert forall l :: Val(l) in Mentions(f) ==> SameAt(Val(l), s, s');
    assert forall o :: Cells(o) in Mentions(f) ==> SameAt(Cells(o), s, s');
    if Holds(f, s) { HoldsByMentions(f, s, s'); }
    if Holds(f, s') { HoldsByMentions(f, s', s); }
  }

  /** A stable program has an execution exactly if what it leaves meets all its assumptions; and then that is what it
      leaves. */
  lemma {:induction false} RunsIff(prog: seq<Stmt>, i: nat, ch: Choices, s: State)
    requires Stable(prog) && i <= |prog|
    ensures Exec(prog, i, ch, s).Some? <==>
              forall k :: i <= k < |prog| && prog[k].Assume? ==> Holds(prog[k].f, Leaves(prog, i, ch, s))
    ensures Exec(prog, i, ch, s).Some? ==> Exec(prog, i, ch, s).value == Leaves(prog, i, ch, s)
    decreases |prog| - i
  {
    if i < |prog| {
      if prog[i].Assume? {
        forall j | i + 1 <= j < |prog| ensures Writes(prog[j]) !! Mentions(prog[i].f) {
          assert Writes(prog[j]) !! Pins(prog[i]);
        }
        HoldsLater(prog, i + 1, ch, s, prog[i].f);
        RunsIff(prog, i + 1, ch, s);
      } else {
        RunsIff(prog, i + 1, ch, Effect(prog[i], i, ch, s).value);
      }
    }
  }

  // ------------------------------------------------- fills within what is declared

  /** The statement writes no element past the end of what is declared. */
  ghost predicate InBounds(p: Stmt, s: State) {
    match p
    case FillNondet(o, n, terminated) => n + (if terminated then 1 else 0) <= s.extent(o)
    case FillZero(o, n) => n <= s.extent(o)
    case _ => true
  }

  /** Wherever the program starts, no execution of it writes past the end of what is declared. */
  ghost predicate NeverStrays(prog: seq<Stmt>) {
    forall i: nat, ch: Choices, s: State :: Strays(prog, i, ch, s) == None
  }

  /** The first statement that does, from the `i`-th choice on. */
  ghost function Strays(prog: seq<Stmt>, i: nat, ch: Choices, s: State): Option<Stmt> {
    if prog == [] then None
    else if !InBounds(prog[0], s) then Some(prog[0])
    else
      match Effect(prog[0], i, ch, s)
      case None => None
      case Some(s') => Strays(prog[1..], i + 1, ch, s')
  }

  lemma {:induction false} StraysAppend(a: seq<Stmt>, b: seq<Stmt>, i: nat, ch: Choices, s: State)
    requires Strays(a, i, ch, s) == None && NeverStrays(b)
    ensures Strays(a + b, i, ch, s) == None
    decreases a
  {
    if a == [] {
      assert a + b == b;
    } else {
      assert (a + b)[0] == a[0] && (a + b)[1..] == a[1..] + b;
      if Effect(a[0], i, ch, s).Some? { StraysAppend(a[1..], b, i + 1, ch, Effect(a[0], i, ch, s).value); }
    }
  }

  /** One after the other neither strays. */
  lemma NeitherStrays(a: seq<Stmt>, b: seq<Stmt>)
    requires NeverStrays(a) && NeverStrays(b)
    ensures NeverStrays(a + b)
  {
    forall i: nat, ch: Choices, s: State ensures Strays(a + b, i, ch, s) == None {
      StraysAppend(a, b, i, ch, s);
    }
  }

  /** In terms of an execution: each statement that is reached writes within what is declared then. */
  lemma {:induction false} NeverStraysMeans(prog: seq<Stmt>, i: nat, k: nat, ch: Choices, s: State)
    requires i <= k < |prog| && Strays(prog[i..], i, ch, s) == None && Exec(prog[..k], i, ch, s).Some?
    ensures InBounds(prog[k], Exec(prog[..k], i, ch, s).value)
    decreases k - i
  {
    if i < k {
      assert prog[i..][0] == prog[i] && prog[..k][i] == prog[i] && prog[i..][1..] == prog[i + 1..];
      NeverStraysMeans(prog, i + 1, k, ch, Effect(prog[i], i, ch, s).value);
    }
  }
}
