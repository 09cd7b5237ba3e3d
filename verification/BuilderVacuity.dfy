/** When the assumptions a built object carries can be met at all. */
module BuilderVacuity {
  import opened Wrappers
  import opened Target
  import opened ObjectBuilder
  import opened BuilderSoundness
  import opened BuilderTheorems

  // ------------------------------------------- what the heuristics deliver

  /** The names of the integral fields. */
  function Integrals(info: StructInfo): set<string> {
    set f <- info.fields | f.kind == Scalar(true) :: f.name
  }

  ghost predicate InferenceOk(inf: Inferred, info: StructInfo) {
    match inf
    case Growth(used, capacity) => used in Integrals(info) && capacity in Integrals(info)
    case Mask(f) => f in Integrals(info)
    case IndexArray(slots, target, _) => slots in info.pairs && target in info.pairs && slots != target
  }

  /** What the pairing and inference code checks before it returns a pair or an invariant. */
  ghost predicate Inferable(info: StructInfo) {
    && Distinct(info)
    && (forall n <- info.pairs ::
          info.pairs[n] in Integrals(info) && exists f <- info.fields :: f.name == n && f.kind.PointerTo?)
    && (forall n <- info.lengthNamed :: n in Integrals(info))
    && (forall n <- info.cursorNamed :: n in Integrals(info))
    && (forall inf <- info.inferred :: InferenceOk(inf, info))
    && (forall i, j :: 0 <= i < j < |info.inferred| && info.inferred[i].IndexArray? && info.inferred[j].IndexArray? ==>
          info.inferred[i].slots != info.inferred[j].slots)
  }

  ghost predicate AllInferable(env: Env) {
    forall n <- env.structs :: Inferable(env.structs[n])
  }

  // ----------------------------------------- assumptions come after their data

  /** A counted pointer whose array is declared under the name the index assumptions use. */
  predicate HasItems(pointee: Pointee) { !pointee.VoidPtr? && !pointee.NamedPtr? }

  /** An index array is a pointer to structs, which is nulled, or to anything, whose bytes have another name: the
      assumption about its elements names an array that is not there. */
  ghost predicate Dangling(opt: Options, info: StructInfo) {
    opt.inferInvariants && exists inf <- info.inferred, f <- info.fields ::
      inf.IndexArray? && f.name == inf.slots && f.kind.PointerTo? && !HasItems(f.kind.pointee)
  }

  ghost predicate NoneDangling(opt: Options, insts: seq<Instance>) {
    forall inst <- insts :: !Dangling(opt, inst.0)
  }

  /** Everything the formula mentions is declared and has been given a value in `before`. */
  ghost predicate Grounded(f: Formula, before: seq<Stmt>) {
    && (forall l :: Val(l) in Mentions(f) ==> Havoc(l) in before)
    && (f.Indexes? ==>
          && (exists m :: Declare(f.o, m) in before)
          && ((exists t :: FillNondet(f.o, f.count, t) in before) || FillZero(f.o, f.count) in before))
  }

  ghost predicate Scoped(prog: seq<Stmt>) {
    forall i :: 0 <= i < |prog| && prog[i].Assume? ==> Grounded(prog[i].f, prog[..i])
  }

  lemma ScopedAppend(a: seq<Stmt>, b: seq<Stmt>)
    requires Scoped(a)
    requires forall k :: 0 <= k < |b| && b[k].Assume? ==> Grounded(b[k].f, b[..k]) || Grounded(b[k].f, a)
    ensures Scoped(a + b)
  {
    var c := a + b;
    forall i | 0 <= i < |c| && c[i].Assume?
      ensures Grounded(c[i].f, c[..i])
    {
      if i < |a| {
        assert c[..i] == a[..i];
      } else {
        assert c[..i] == a + b[..i - |a|];
      }
    }
  }

  lemma NoneDanglingParts(opt: Options, a: seq<Instance>, b: seq<Instance>)
    requires NoneDangling(opt, a + b)
    ensures NoneDangling(opt, a) && NoneDangling(opt, b)
  {
    assert (forall inst <- a :: inst in a + b) && forall inst <- b :: inst in a + b;
  }

  /** The struct behind a pointer, between the line that declares it and the one that sets the pointer. */
  lemma WrappedScoped(o: Object, inner: seq<Stmt>, target: Loc)
    requires Scoped(inner)
    ensures Scoped([Declare(o, 1)] + inner + [SetAddr(target, o)])
  {
    ScopedAppend([Declare(o, 1)], inner);
    ScopedAppend([Declare(o, 1)] + inner, [SetAddr(target, o)]);
  }

  lemma {:induction false} EmitPointerScoped(env: Env, opt: Options, pointee: Pointee, target: Loc, depth: nat,
      seen: set<string>)
    requires AllInferable(env) && NoneDangling(opt, InstancesPointer(env, opt, pointee, target, depth, seen))
    ensures Scoped(EmitPointer(env, opt, pointee, target, depth, seen))
    decreases Left(opt, depth), env.structs.Keys - seen, 0
  {
    if depth < opt.maxDepth && pointee.NamedPtr? && BuiltAs(env, pointee.name).Some? {
      var o, built := Storage(target, TargetOf), BuiltAs(env, pointee.name).value;
      var seen' := seen + {Marked(env, pointee)};
      EmitStructScoped(env, opt, env.structs[built], Loc(o, []), depth + 1, seen');
      WrappedScoped(o, EmitStruct(env, opt, env.structs[built], Loc(o, []), depth + 1, seen'), target);
    }
  }

  lemma CountedScoped(pointee: Pointee, target: Loc, count: Loc, cap: nat)
    ensures Scoped(Counted(pointee, target, count, cap).0)
  {
  }

  lemma {:induction false} EmitFieldScoped(env: Env, opt: Options, info: StructInfo, f: Field, p: Loc, depth: nat,
      seen: set<string>)
    requires AllInferable(env) && NoneDangling(opt, InstancesField(env, opt, info, f, p, depth, seen))
    ensures Scoped(EmitField(env, opt, info, f, p, depth, seen))
    decreases Left(opt, depth), env.structs.Keys - seen, 1
  {
    match f.kind
    case PointerTo(pointee) =>
      if f.name in info.pairs { CountedScoped(pointee, Sub(p, f.name), Sub(p, info.pairs[f.name]), opt.cap); }
      else { EmitPointerScoped(env, opt, pointee, Sub(p, f.name), depth, seen); }
    case Named(name) =>
      if name in env.structs && name !in seen {
        EmitStructScoped(env, opt, env.structs[name], Sub(p, f.name), depth, seen + {name});
      }
    case _ =>
  }

  lemma {:induction false} EmitFieldsScoped(env: Env, opt: Options, info: StructInfo, k: nat, p: Loc, depth: nat,
      seen: set<string>)
    requires k <= |info.fields|
    requires AllInferable(env) && NoneDangling(opt, InstancesFields(env, opt, info, k, p, depth, seen))
    ensures Scoped(EmitFields(env, opt, info, k, p, depth, seen))
    decreases Left(opt, depth), env.structs.Keys - seen, 2, k
  {
    if k > 0 {
      NoneDanglingParts(opt, InstancesFields(env, opt, info, k - 1, p, depth, seen),
        InstancesField(env, opt, info, info.fields[k - 1], p, depth, seen));
      EmitFieldsScoped(env, opt, info, k - 1, p, depth, seen);
      EmitFieldScoped(env, opt, info, info.fields[k - 1], p, depth, seen);
      ScopedAppend(EmitFields(env, opt, info, k - 1, p, depth, seen),
        EmitField(env, opt, info, info.fields[k - 1], p, depth, seen));
    }
  }

  /** The field has its value, or its array. */
  ghost predicate FieldFilled(lines: seq<Stmt>, opt: Options, info: StructInfo, f: Field, p: Loc) {
    && (f.kind.Scalar? ==> Havoc(Sub(p, f.name)) in lines)
    && (f.kind.PointerTo? && f.name in info.pairs && HasItems(f.kind.pointee) ==>
          var o := Storage(Sub(p, f.name), ItemsOf);
          && Declare(o, opt.cap) in lines
          && (FillNondet(o, opt.cap, false) in lines || FillZero(o, opt.cap) in lines))
  }

  lemma OneFilled(env: Env, opt: Options, info: StructInfo, f: Field, p: Loc, depth: nat, seen: set<string>)
    ensures FieldFilled(EmitField(env, opt, info, f, p, depth, seen), opt, info, f, p)
  {
    var one := EmitField(env, opt, info, f, p, depth, seen);
    if f.kind.PointerTo? && f.name in info.pairs && HasItems(f.kind.pointee) {
      assert one[0] in one && one[1] in one;
    }
  }

  /** Every field, and every array an index refers to, is filled by the pass over the fields. */
  lemma {:induction false} FieldsFill(env: Env, opt: Options, info: StructInfo, k: nat, i: nat, p: Loc, depth: nat,
      seen: set<string>)
    requires i < k <= |info.fields|
    ensures FieldFilled(EmitFields(env, opt, info, k, p, depth, seen), opt, info, info.fields[i], p)
    decreases k
  {
    if i < k - 1 {
      FieldsFill(env, opt, info, k - 1, i, p, depth, seen);
    } else {
      OneFilled(env, opt, info, info.fields[i], p, depth, seen);
    }
  }

  ghost predicate Filled(lines: seq<Stmt>, opt: Options, info: StructInfo, p: Loc) {
    && (forall n <- Integrals(info) :: Havoc(Sub(p, n)) in lines)
    && (forall f <- info.fields :: FieldFilled(lines, opt, info, f, p))
  }

  lemma AllFilled(env: Env, opt: Options, info: StructInfo, p: Loc, depth: nat, seen: set<string>)
    ensures Filled(EmitFields(env, opt, info, |info.fields|, p, depth, seen), opt, info, p)
  {
    var lines := EmitFields(env, opt, info, |info.fields|, p, depth, seen);
    forall f | f in info.fields
      ensures FieldFilled(lines, opt, info, f, p)
    {
      var i :| 0 <= i < |info.fields| && info.fields[i] == f;
      FieldsFill(env, opt, info, |info.fields|, i, p, depth, seen);
    }
  }

  lemma {:induction false} CountBoundsGrounded(lines: seq<Stmt>, opt: Options, info: StructInfo, k: nat, p: Loc)
    requires k <= |info.fields| && Inferable(info) && Filled(lines, opt, info, p)
    ensures forall f <- CountBounds(opt, info, k, p) :: Grounded(f, lines)
    decreases k
  {
    if k > 0 {
      CountBoundsGrounded(lines, opt, info, k - 1, p);
      CountBoundGrounded(lines, opt, info, info.fields[k - 1], p);
    }
  }

  lemma CountBoundGrounded(lines: seq<Stmt>, opt: Options, info: StructInfo, f: Field, p: Loc)
    requires Inferable(info) && Filled(lines, opt, info, p)
    ensures forall b <- CountBound(opt, info, f, p) :: Grounded(b, lines)
  {
    if f.kind.PointerTo? && f.name in info.pairs { assert info.pairs[f.name] in Integrals(info); }
  }

  lemma {:induction false} LengthBoundsGrounded(lines: seq<Stmt>, opt: Options, info: StructInfo,
      names: seq<string>, p: Loc)
    requires Filled(lines, opt, info, p) && forall n <- names :: n in Integrals(info)
    ensures forall f <- LengthBounds(names, info.pairs.Values, p, opt.cap) :: Grounded(f, lines)
    decreases names
  {
    if names != [] {
      LengthBoundsGrounded(lines, opt, info, names[1..], p);
    }
  }

  lemma IndexGrounded(lines: seq<Stmt>, opt: Options, info: StructInfo, inf: Inferred, p: Loc)
    requires Filled(lines, opt, info, p) && Inferable(info) && !Dangling(opt, info) && opt.inferInvariants
    requires inf in info.inferred && inf.IndexArray?
    ensures Grounded(Indexes(Storage(Sub(p, inf.slots), ItemsOf), opt.cap, Sub(p, info.pairs[inf.target]),
      inf.sentinel), lines)
  {
    assert InferenceOk(inf, info);
    var f :| f in info.fields && f.name == inf.slots && f.kind.PointerTo?;
    assert FieldFilled(lines, opt, info, f, p);
    assert info.pairs[inf.target] in Integrals(info);
  }

  lemma {:induction false} InferredBoundsGrounded(lines: seq<Stmt>, opt: Options, info: StructInfo,
      inferred: seq<Inferred>, p: Loc)
    requires Filled(lines, opt, info, p) && Inferable(info) && !Dangling(opt, info) && opt.inferInvariants
    requires forall inf <- inferred :: inf in info.inferred
    ensures forall f <- InferredBounds(inferred, info, p, opt.cap) :: Grounded(f, lines)
    decreases inferred
  {
    if inferred != [] {
      InferredBoundsGrounded(lines, opt, info, inferred[1..], p);
      var inf := inferred[0];
      assert InferenceOk(inf, info);
      if inf.IndexArray? { IndexGrounded(lines, opt, info, inf, p); }
    }
  }

  lemma {:induction false} CursorBoundsGrounded(lines: seq<Stmt>, opt: Options, info: StructInfo,
      names: seq<string>, length: string, p: Loc)
    requires Filled(lines, opt, info, p) && length in Integrals(info) && forall n <- names :: n in Integrals(info)
    ensures forall f <- CursorBounds(names, info.pairs.Values, length, p) :: Grounded(f, lines)
    decreases names
  {
    if names != [] {
      CursorBoundsGrounded(lines, opt, info, names[1..], length, p);
    }
  }

  lemma ConstraintsGrounded(lines: seq<Stmt>, opt: Options, info: StructInfo, p: Loc)
    requires Inferable(info) && Filled(lines, opt, info, p) && !Dangling(opt, info)
    ensures forall f <- Constraints(opt, info, p) :: Grounded(f, lines)
  {
    CountBoundsGrounded(lines, opt, info, |info.fields|, p);
    OtherBoundsGrounded(lines, opt, info, p);
  }

  lemma OtherBoundsGrounded(lines: seq<Stmt>, opt: Options, info: StructInfo, p: Loc)
    requires Inferable(info) && Filled(lines, opt, info, p) && !Dangling(opt, info)
    ensures forall f <- OtherBounds(opt, info, p) :: Grounded(f, lines)
  {
    var counts := info.pairs.Values;
    LengthBoundsGrounded(lines, opt, info, info.lengthNamed, p);
    if opt.inferInvariants { InferredBoundsGrounded(lines, opt, info, info.inferred, p); }
    if exists c <- counts :: counts == {c} {
      var c :| c in counts && counts == {c};
      CursorBoundsGrounded(lines, opt, info, info.cursorNamed, c, p);
    }
  }

  /** Constraints are emitted after every field is assigned. */
  lemma {:induction false} EmitStructScoped(env: Env, opt: Options, info: StructInfo, p: Loc, depth: nat,
      seen: set<string>)
    requires AllInferable(env) && Inferable(info) && NoneDangling(opt, Instances(env, opt, info, p, depth, seen))
    ensures Scoped(EmitStruct(env, opt, info, p, depth, seen))
    decreases Left(opt, depth), env.structs.Keys - seen, 3
  {
    if !info.isUnion {
      var fields := EmitFields(env, opt, info, |info.fields|, p, depth, seen);
      var lines := fields + EmitCallbacks(info.callbacks, p);
      NoneDanglingParts(opt, [(info, p)], InstancesFields(env, opt, info, |info.fields|, p, depth, seen));
      assert (info, p) in [(info, p)];
      EmitFieldsScoped(env, opt, info, |info.fields|, p, depth, seen);
      CallbacksAssumeNothing(info.callbacks, p);
      var stubs := EmitCallbacks(info.callbacks, p);
      assert forall k :: 0 <= k < |stubs| ==> stubs[k] in stubs;
      ScopedAppend(fields, EmitCallbacks(info.callbacks, p));
      AllFilled(env, opt, info, p, depth, seen);
      ConstraintsGrounded(lines, opt, info, p);
      ScopedAppend(lines, Assumes(Constraints(opt, info, p)));
    }
  }

  lemma {:induction false} CallbacksAssumeNothing(names: seq<string>, p: Loc)
    ensures forall s <- EmitCallbacks(names, p) :: s.SetStub?
    decreases names
  {
    if names != [] {
      CallbacksAssumeNothing(names[1..], p);
    }
  }

  // ------------------------------------------------ one sentinel for an array

  /** Every index assumption is about the items of a field of something under `p`. */
  ghost predicate IndexesUnder(prog: seq<Stmt>, p: Loc) {
    forall s <- prog :: s.Assume? && s.f.Indexes? ==>
      exists q, x: string :: s.f.o == Storage(Sub(q, x), ItemsOf) && Under(q, p)
  }

  ghost predicate OneSentinel(prog: seq<Stmt>) {
    forall s, t :: s in prog && t in prog && s.Assume? && t.Assume? && s.f.Indexes? && t.f.Indexes? && s.f.o == t.f.o ==>
      s.f.sentinel == t.f.sentinel
  }

  ghost predicate IndexesApart(a: seq<Stmt>, b: seq<Stmt>) {
    forall s, t :: s in a && t in b && s.Assume? && t.Assume? && s.f.Indexes? && t.f.Indexes? ==> s.f.o != t.f.o
  }

  lemma OneSentinelAppend(a: seq<Stmt>, b: seq<Stmt>)
    requires OneSentinel(a) && OneSentinel(b) && IndexesApart(a, b)
    ensures OneSentinel(a + b)
  {
  }

  /** Every index assumption belongs to one of the named fields of `p`. */
  ghost predicate IndexesInFields(prog: seq<Stmt>, p: Loc, names: set<string>) {
    forall s <- prog :: s.Assume? && s.f.Indexes? ==>
      exists n <- names, q, x: string :: s.f.o == Storage(Sub(q, x), ItemsOf) && Under(q, Sub(p, n))
  }

  lemma FieldIndexesApart(a: seq<Stmt>, b: seq<Stmt>, p: Loc, names: set<string>, g: string)
    requires IndexesInFields(a, p, names) && IndexesUnder(b, Sub(p, g)) && g !in names
    ensures IndexesApart(a, b)
  {
    forall s, t | s in a && t in b && s.Assume? && t.Assume? && s.f.Indexes? && t.f.Indexes?
      ensures s.f.o != t.f.o
    {
      var n, q, x: string :| n in names && s.f.o == Storage(Sub(q, x), ItemsOf) && Under(q, Sub(p, n));
      var q', x': string :| t.f.o == Storage(Sub(q', x'), ItemsOf) && Under(q', Sub(p, g));
      if s.f.o == t.f.o {
        SubInjective(q, x, q', x');
        FieldsSeparate(q, p, n, g);
      }
    }
  }

  lemma SubInjective(q: Loc, x: string, q': Loc, x': string)
    requires Sub(q, x) == Sub(q', x')
    ensures q == q' && x == x'
  {
    var a, b := q.path + [x], q'.path + [x'];
    assert a == b;
    assert a[..|q.path|] == q.path && b[..|q'.path|] == q'.path;
    assert a[|a| - 1] == x && b[|b| - 1] == x';
  }

  lemma {:induction false} EmitFieldIndexes(env: Env, opt: Options, info: StructInfo, f: Field, p: Loc, depth: nat,
      seen: set<string>)
    requires AllInferable(env)
    ensures IndexesUnder(EmitField(env, opt, info, f, p, depth, seen), Sub(p, f.name))
    ensures OneSentinel(EmitField(env, opt, info, f, p, depth, seen))
    decreases Left(opt, depth), env.structs.Keys - seen, 1
  {
    match f.kind
    case PointerTo(pointee) =>
      if f.name !in info.pairs {
        EmitPointerIndexes(env, opt, pointee, Sub(p, f.name), depth, seen);
      }
    case Named(name) =>
      if name in env.structs && name !in seen {
        EmitStructIndexes(env, opt, env.structs[name], Sub(p, f.name), depth, seen + {name});
      }
    case _ =>
  }

  lemma {:induction false} EmitPointerIndexes(env: Env, opt: Options, pointee: Pointee, target: Loc, depth: nat,
      seen: set<string>)
    requires AllInferable(env)
    ensures IndexesUnder(EmitPointer(env, opt, pointee, target, depth, seen), target)
    ensures OneSentinel(EmitPointer(env, opt, pointee, target, depth, seen))
    decreases Left(opt, depth), env.structs.Keys - seen, 0
  {
    if depth < opt.maxDepth && pointee.NamedPtr? && BuiltAs(env, pointee.name).Some? {
      var o := Storage(target, TargetOf);
      var built := BuiltAs(env, pointee.name).value;
      EmitStructIndexes(env, opt, env.structs[built], Loc(o, []), depth + 1, seen + {Marked(env, pointee)});
      var inner := EmitStruct(env, opt, env.structs[built], Loc(o, []), depth + 1, seen + {Marked(env, pointee)});
      WrappedIndexes(o, inner, target);
    }
  }

  lemma WrappedIndexes(o: Object, inner: seq<Stmt>, target: Loc)
    requires o == Storage(target, TargetOf) && IndexesUnder(inner, Loc(o, [])) && OneSentinel(inner)
    ensures IndexesUnder([Declare(o, 1)] + inner + [SetAddr(target, o)], target)
    ensures OneSentinel([Declare(o, 1)] + inner + [SetAddr(target, o)])
  {
    IndexesUnderTransitive(inner, Loc(o, []), target);
    OneSentinelAppend([Declare(o, 1)], inner);
    OneSentinelAppend([Declare(o, 1)] + inner, [SetAddr(target, o)]);
  }

  lemma IndexesUnderTransitive(prog: seq<Stmt>, q: Loc, p: Loc)
    requires IndexesUnder(prog, q) && Under(q, p)
    ensures IndexesUnder(prog, p)
  {
    forall s | s in prog && s.Assume? && s.f.Indexes?
      ensures exists r, x: string :: s.f.o == Storage(Sub(r, x), ItemsOf) && Under(r, p)
    {
      var r, x: string :| s.f.o == Storage(Sub(r, x), ItemsOf) && Under(r, q);
      UnderTransitive(r, q, p);
    }
  }

  lemma {:induction false} EmitFieldsIndexes(env: Env, opt: Options, info: StructInfo, k: nat, p: Loc, depth: nat,
      seen: set<string>)
    requires AllInferable(env) && Distinct(info) && k <= |info.fields|
    ensures IndexesInFields(EmitFields(env, opt, info, k, p, depth, seen), p, FieldNames(info, k))
    ensures OneSentinel(EmitFields(env, opt, info, k, p, depth, seen))
    decreases Left(opt, depth), env.structs.Keys - seen, 2, k
  {
    if k > 0 {
      var f := info.fields[k - 1];
      var before, one := EmitFields(env, opt, info, k - 1, p, depth, seen), EmitField(env, opt, info, f, p, depth, seen);
      EmitFieldsIndexes(env, opt, info, k - 1, p, depth, seen);
      EmitFieldIndexes(env, opt, info, f, p, depth, seen);
      FieldIndexesApart(before, one, p, FieldNames(info, k - 1), f.name);
      OneSentinelAppend(before, one);
      assert f.name in FieldNames(info, k);
      assert forall n <- FieldNames(info, k - 1) :: n in FieldNames(info, k);
    }
  }

  ghost predicate IndexesOwn(fs: seq<Formula>, p: Loc, inferred: seq<Inferred>) {
    forall f <- fs :: f.Indexes? ==>
      exists inf <- inferred :: inf.IndexArray? && f.o == Storage(Sub(p, inf.slots), ItemsOf) && f.sentinel == inf.sentinel
  }

  lemma {:induction false} InferredIndexesOwn(inferred: seq<Inferred>, info: StructInfo, p: Loc, cap: nat)
    ensures IndexesOwn(InferredBounds(inferred, info, p, cap), p, inferred)
    decreases inferred
  {
    if inferred != [] {
      InferredIndexesOwn(inferred[1..], info, p, cap);
      assert forall inf <- inferred[1..] :: inf in inferred;
      assert inferred[0] in inferred;
    }
  }

  lemma {:induction false} CountBoundsNoIndex(opt: Options, info: StructInfo, k: nat, p: Loc)
    requires k <= |info.fields|
    ensures forall f <- CountBounds(opt, info, k, p) :: !f.Indexes?
    decreases k
  {
    if k > 0 {
      CountBoundsNoIndex(opt, info, k - 1, p);
    }
  }

  lemma {:induction false} NameBoundsNoIndex(names: seq<string>, counts: set<string>, length: string, p: Loc, cap: nat)
    ensures forall f <- LengthBounds(names, counts, p, cap) :: !f.Indexes?
    ensures forall f <- CursorBounds(names, counts, length, p) :: !f.Indexes?
    decreases names
  {
    if names != [] {
      NameBoundsNoIndex(names[1..], counts, length, p, cap);
    }
  }

  lemma ConstraintIndexesOwn(opt: Options, info: StructInfo, p: Loc)
    ensures IndexesOwn(Constraints(opt, info, p), p, info.inferred)
  {
    var counts := info.pairs.Values;
    CountBoundsNoIndex(opt, info, |info.fields|, p);
    NameBoundsNoIndex(info.lengthNamed, counts, "", p, opt.cap);
    InferredIndexesOwn(info.inferred, info, p, opt.cap);
    if exists c <- counts :: counts == {c} {
      var c :| c in counts && counts == {c};
      NameBoundsNoIndex(info.cursorNamed, counts, c, p, opt.cap);
    }
  }

  /** An array is inferred to be an index at most once. */
  lemma SameSlots(info: StructInfo, a: Inferred, b: Inferred)
    requires Inferable(info) && a in info.inferred && b in info.inferred
    requires a.IndexArray? && b.IndexArray? && a.slots == b.slots
    ensures a == b
  {
    var i :| 0 <= i < |info.inferred| && info.inferred[i] == a;
    var j :| 0 <= j < |info.inferred| && info.inferred[j] == b;
    assert i == j;
  }

  lemma AssumesOneSentinel(fs: seq<Formula>, info: StructInfo, p: Loc)
    requires Inferable(info) && IndexesOwn(fs, p, info.inferred)
    ensures OneSentinel(Assumes(fs))
  {
    var prog := Assumes(fs);
    forall s | s in prog ensures s.Assume? && s.f in fs { AssumedIsFormula(fs, s); }
    forall s, t | s in prog && t in prog && s.Assume? && t.Assume? && s.f.Indexes? && t.f.Indexes? && s.f.o == t.f.o
      ensures s.f.sentinel == t.f.sentinel
    {
      SameSentinel(fs, info, p, s.f, t.f);
    }
  }

  lemma AssumedIsFormula(fs: seq<Formula>, s: Stmt)
    requires s in Assumes(fs)
    ensures s.Assume? && s.f in fs
  {
  }

  lemma SameSentinel(fs: seq<Formula>, info: StructInfo, p: Loc, f: Formula, g: Formula)
    requires Inferable(info) && IndexesOwn(fs, p, info.inferred)
    requires f in fs && g in fs && f.Indexes? && g.Indexes? && f.o == g.o
    ensures f.sentinel == g.sentinel
  {
    var a :| a in info.inferred && a.IndexArray? && f.o == Storage(Sub(p, a.slots), ItemsOf) && f.sentinel == a.sentinel;
    var b :| b in info.inferred && b.IndexArray? && g.o == Storage(Sub(p, b.slots), ItemsOf) && g.sentinel == b.sentinel;
    SameStorage(info, p, a, b);
  }

  lemma SameStorage(info: StructInfo, p: Loc, a: Inferred, b: Inferred)
    requires Inferable(info) && a in info.inferred && b in info.inferred && a.IndexArray? && b.IndexArray?
    requires Storage(Sub(p, a.slots), ItemsOf) == Storage(Sub(p, b.slots), ItemsOf)
    ensures a.sentinel == b.sentinel
  {
    SubInjective(p, a.slots, p, b.slots);
    SameSlots(info, a, b);
  }

  lemma AssumesIndexesUnder(fs: seq<Formula>, info: StructInfo, p: Loc)
    requires IndexesOwn(fs, p, info.inferred)
    ensures IndexesUnder(Assumes(fs), p)
  {
    forall s | s in Assumes(fs) && s.f.Indexes?
      ensures exists q, x: string :: s.f.o == Storage(Sub(q, x), ItemsOf) && Under(q, p)
    {
      assert s.f in fs;
      var a :| a in info.inferred && a.IndexArray? && s.f.o == Storage(Sub(p, a.slots), ItemsOf);
      assert Under(p, p);
    }
  }

  lemma OwnIndexesApart(fields: seq<Stmt>, fs: seq<Formula>, info: StructInfo, p: Loc, names: set<string>)
    requires IndexesInFields(fields, p, names) && IndexesOwn(fs, p, info.inferred)
    ensures IndexesApart(fields, Assumes(fs))
  {
    forall s, t | s in fields && t in Assumes(fs) && s.Assume? && t.Assume? && s.f.Indexes? && t.f.Indexes?
      ensures s.f.o != t.f.o
    {
      assert t.f in fs;
      var n, q, x: string :| n in names && s.f.o == Storage(Sub(q, x), ItemsOf) && Under(q, Sub(p, n));
      var a :| a in info.inferred && a.IndexArray? && t.f.o == Storage(Sub(p, a.slots), ItemsOf);
      if s.f.o == t.f.o {
        SubInjective(q, x, p, a.slots);
        UnderIsDeeper(p, Sub(p, n));
      }
    }
  }

  lemma {:induction false} EmitStructIndexes(env: Env, opt: Options, info: StructInfo, p: Loc, depth: nat,
      seen: set<string>)
    requires AllInferable(env) && Inferable(info)
    ensures IndexesUnder(EmitStruct(env, opt, info, p, depth, seen), p)
    ensures OneSentinel(EmitStruct(env, opt, info, p, depth, seen))
    decreases Left(opt, depth), env.structs.Keys - seen, 3
  {
    if !info.isUnion {
      var n := |info.fields|;
      var fields := EmitFields(env, opt, info, n, p, depth, seen);
      var stubs, fs := EmitCallbacks(info.callbacks, p), Constraints(opt, info, p);
      EmitFieldsIndexes(env, opt, info, n, p, depth, seen);
      CallbacksAssumeNothing(info.callbacks, p);
      ConstraintIndexesOwn(opt, info, p);
      AssumesOneSentinel(fs, info, p);
      AssumesIndexesUnder(fs, info, p);
      OwnIndexesApart(fields, fs, info, p, FieldNames(info, n));
      OneSentinelAppend(fields, stubs);
      OneSentinelAppend(fields + stubs, Assumes(fs));
      FieldsIndexesUnder(fields, p, FieldNames(info, n));
    }
  }

  lemma FieldsIndexesUnder(fields: seq<Stmt>, p: Loc, names: set<string>)
    requires IndexesInFields(fields, p, names)
    ensures IndexesUnder(fields, p)
  {
    forall s | s in fields && s.Assume? && s.f.Indexes?
      ensures exists q, x: string :: s.f.o == Storage(Sub(q, x), ItemsOf) && Under(q, p)
    {
      var n, q, x: string :| n in names && s.f.o == Storage(Sub(q, x), ItemsOf) && Under(q, Sub(p, n));
      assert Under(Sub(p, n), p);
      UnderTransitive(q, Sub(p, n), p);
    }
  }

  // ------------------------------------------------------------ satisfiability

  /** A location the assumptions force down to 0, by a chain of at most `n` upper bounds. */
  ghost predicate ForcedIn(prog: seq<Stmt>, l: Loc, n: nat)
    decreases n
  {
    || Assume(IsZero(l)) in prog
    || (n > 0 && exists b :: Assume(NotAbove(l, b)) in prog && ForcedIn(prog, b, n - 1))
  }

  ghost predicate Forced(prog: seq<Stmt>, l: Loc) {
    exists n: nat :: ForcedIn(prog, l, n)
  }

  /** No index of 0 entries will do for these elements, nor are they all the sentinel. */
  ghost predicate NeedsRoom(prog: seq<Stmt>, o: Object, n: nat, sentinel: Option<nat>) {
    sentinel.None? || (sentinel != Some(0) && FillZero(o, n) in prog)
  }

  /** A field forced to 0 that a mask wants nonzero, or that bounds an index array. */
  ghost predicate Contradictory(prog: seq<Stmt>) {
    exists l :: Forced(prog, l) &&
      (Assume(PowerOfTwo(l)) in prog
       || exists o, n: nat, v :: n > 0 && Assume(Indexes(o, n, l, v)) in prog && NeedsRoom(prog, o, n, v))
  }

  ghost predicate Nonnegative(ch: Choices) {
    forall i, k :: ch(i, k) >= 0
  }

  /** The program declares an array before it assumes anything of its elements; otherwise it does not compile. */
  ghost predicate WellDeclared(prog: seq<Stmt>) {
    forall i :: 0 <= i < |prog| && prog[i].Assume? && prog[i].f.Indexes? ==>
      exists m :: Declare(prog[i].f.o, m) in prog[..i]
  }

  /** No execution with nonnegative field and element values reaches the call. */
  ghost predicate VacuousFrom(prog: seq<Stmt>, s: State) {
    !WellDeclared(prog) || forall ch :: Nonnegative(ch) ==> Exec(prog, 0, ch, s) == None
  }

  /** The values that satisfy everything: 0 where forced, 1 elsewhere, and sentinels or 0 in the arrays. */
  ghost function Choose(prog: seq<Stmt>): Choices {
    (i: nat, k: nat) =>
      if i < |prog| && prog[i].Havoc? then (if Forced(prog, prog[i].l) then 0 else 1)
      else if i < |prog| && prog[i].FillNondet? then SentinelOf(prog, prog[i].o)
      else 0
  }

  ghost function SentinelOf(prog: seq<Stmt>, o: Object): (r: nat) {
    if exists n: nat, b, v: nat :: Assume(Indexes(o, n, b, Some(v))) in prog then
      var n: nat, b, v: nat :| Assume(Indexes(o, n, b, Some(v))) in prog; v
    else 0
  }

  /** In the chosen execution each assumption holds when it is reached. */
  lemma ChosenHolds(prog: seq<Stmt>, i: nat, s: State)
    requires i < |prog| && prog[i].Assume? && Scoped(prog) && OneSentinel(prog) && !Contradictory(prog)
    requires forall f :: Assume(f) in prog && f.AtMost? ==> f.cap >= 1
    requires forall k :: 0 <= k < i ==> Established(prog[k], k, Choose(prog), s)
    ensures Holds(prog[i].f, s)
  {
    var f := prog[i].f;
    assert Grounded(f, prog[..i]);
    forall l | Val(l) in Mentions(f)
      ensures s.vals(l) == Int(if Forced(prog, l) then 0 else 1)
    {
      var k :| 0 <= k < i && prog[..i][k] == Havoc(l);
      assert Established(prog[k], k, Choose(prog), s);
    }
    match f
    case AtMost(l, cap) =>
    case IsZero(l) => assert ForcedIn(prog, l, 0);
    case NotAbove(a, b) =>
      if Forced(prog, b) {
        var n: nat :| ForcedIn(prog, b, n);
        assert ForcedIn(prog, a, n + 1);
      }
    case PowerOfTwo(l) =>
    case Indexes(o, count, bound, sentinel) => ChosenElements(prog, i, s);
  }

  lemma ChosenElements(prog: seq<Stmt>, i: nat, s: State)
    requires i < |prog| && prog[i].Assume? && prog[i].f.Indexes? && Scoped(prog) && OneSentinel(prog) && !Contradictory(prog)
    requires s.vals(prog[i].f.bound) == Int(if Forced(prog, prog[i].f.bound) then 0 else 1)
    requires forall k :: 0 <= k < i ==> Established(prog[k], k, Choose(prog), s)
    ensures Holds(prog[i].f, s)
  {
    var Indexes(o, count, bound, sentinel) := prog[i].f;
    assert Grounded(prog[i].f, prog[..i]);
    assert prog[i] in prog;
    if FillZero(o, count) in prog[..i] {
      var j :| 0 <= j < i && prog[..i][j] == FillZero(o, count);
      assert Established(prog[j], j, Choose(prog), s);
      assert FillZero(o, count) in prog;
      if sentinel != Some(0) && count > 0 { assert NeedsRoom(prog, o, count, sentinel); }
    } else {
      var t :| FillNondet(o, count, t) in prog[..i];
      var j :| 0 <= j < i && prog[..i][j] == FillNondet(o, count, t);
      assert Established(prog[j], j, Choose(prog), s);
      if sentinel.Some? {
        assert Assume(Indexes(o, count, bound, Some(sentinel.value))) in prog;
      } else {
        assert forall n: nat, b, v: nat :: Assume(Indexes(o, n, b, Some(v))) !in prog;
        if count > 0 { assert NeedsRoom(prog, o, count, sentinel); }
      }
    }
  }

  lemma {:induction false} ChosenRuns(prog: seq<Stmt>, i: nat, s: State)
    requires Stable(prog) && Scoped(prog) && OneSentinel(prog) && !Contradictory(prog) && i <= |prog|
    requires forall f :: Assume(f) in prog && f.AtMost? ==> f.cap >= 1
    requires forall k :: 0 <= k < i ==> Established(prog[k], k, Choose(prog), s)
    ensures Exec(prog, i, Choose(prog), s).Some?
    decreases |prog| - i
  {
    if i < |prog| {
      if prog[i].Assume? {
        ChosenHolds(prog, i, s);
      }
      var s' := Effect(prog[i], i, Choose(prog), s).value;
      EffectEstablishes(prog[i], i, Choose(prog), s);
      forall k | 0 <= k < i
        ensures Established(prog[k], k, Choose(prog), s')
      {
        EffectKeeps(prog[k], k, prog[i], i, Choose(prog), s);
      }
      ChosenRuns(prog, i + 1, s');
    }
  }

  lemma {:induction false} ForcedIsZero(prog: seq<Stmt>, l: Loc, n: nat, s: State)
    requires ForcedIn(prog, l, n) && forall f :: Assume(f) in prog ==> Holds(f, s)
    ensures AsInt(s.vals(l)) <= 0
    decreases n
  {
    if Assume(IsZero(l)) !in prog {
      var b :| Assume(NotAbove(l, b)) in prog && ForcedIn(prog, b, n - 1);
      ForcedIsZero(prog, b, n - 1, s);
      assert Holds(NotAbove(l, b), s);
    } else {
      assert Holds(IsZero(l), s);
    }
  }

  /** In a nonnegative execution the elements of an indexed array are nonnegative at the end, and 0 where they are null. */
  lemma ElementsStay(prog: seq<Stmt>, o: Object, n: nat, bound: Loc, v: Option<nat>, ch: Choices, s: State)
    requires Scoped(prog) && Nonnegative(ch) && n > 0 && Assume(Indexes(o, n, bound, v)) in prog
    requires forall k :: 0 <= k < |prog| ==> Established(prog[k], k, ch, s)
    ensures s.cells(o, 0) >= 0 && (FillZero(o, n) in prog ==> s.cells(o, 0) == 0)
  {
    var k :| 0 <= k < |prog| && prog[k] == Assume(Indexes(o, n, bound, v));
    assert Grounded(prog[k].f, prog[..k]);
    if FillZero(o, n) in prog {
      var j :| 0 <= j < |prog| && prog[j] == FillZero(o, n);
      assert Established(prog[j], j, ch, s);
    } else {
      var t :| FillNondet(o, n, t) in prog[..k];
      var j :| 0 <= j < k && prog[..k][j] == FillNondet(o, n, t);
      assert Established(prog[j], j, ch, s);
      assert s.cells(o, 0) == ch(j, 0);
    }
  }

  lemma AssumptionHolds(prog: seq<Stmt>, f: Formula, ch: Choices, s: State)
    requires Assume(f) in prog && forall k :: 0 <= k < |prog| ==> Established(prog[k], k, ch, s)
    ensures Holds(f, s)
  {
    var k :| 0 <= k < |prog| && prog[k] == Assume(f);
    assert Established(prog[k], k, ch, s);
  }

  lemma PositiveIsNotForced(prog: seq<Stmt>, l: Loc, s: State)
    requires AsInt(s.vals(l)) > 0 && forall f :: Assume(f) in prog ==> Holds(f, s)
    ensures !Forced(prog, l)
  {
    if Forced(prog, l) {
      var n: nat :| ForcedIn(prog, l, n);
      ForcedIsZero(prog, l, n, s);
    }
  }

  lemma NoContradictionAtTheEnd(prog: seq<Stmt>, ch: Choices, s: State)
    requires Scoped(prog) && Nonnegative(ch) && forall k :: 0 <= k < |prog| ==> Established(prog[k], k, ch, s)
    ensures !Contradictory(prog)
  {
    forall f | Assume(f) in prog
      ensures Holds(f, s)
    {
      AssumptionHolds(prog, f, ch, s);
    }
    forall l | Assume(PowerOfTwo(l)) in prog
      ensures !Forced(prog, l)
    {
      assert Holds(PowerOfTwo(l), s);
      PositiveIsNotForced(prog, l, s);
    }
    forall l, o, m: nat, v | m > 0 && Assume(Indexes(o, m, l, v)) in prog && NeedsRoom(prog, o, m, v)
      ensures !Forced(prog, l)
    {
      ElementsStay(prog, o, m, l, v, ch, s);
      assert Holds(Indexes(o, m, l, v), s);
      assert s.cells(o, 0) < AsInt(s.vals(l));
      PositiveIsNotForced(prog, l, s);
    }
  }

  lemma ScopedIsDeclared(prog: seq<Stmt>)
    requires Scoped(prog)
    ensures WellDeclared(prog)
  {
    forall i | 0 <= i < |prog| && prog[i].Assume? && prog[i].f.Indexes?
      ensures exists m :: Declare(prog[i].f.o, m) in prog[..i]
    {
      assert Grounded(prog[i].f, prog[..i]);
    }
  }

  /** Where every index array is there, the assumptions can be met unless they contradict each other. */
  lemma VacuousProgramIff(env: Env, opt: Options, info: StructInfo, seen: set<string>, s: State)
    requires AllInferable(env) && Inferable(info) && opt.cap >= 1
    requires NoneDangling(opt, Instances(env, opt, info, Loc(Root, []), 0, seen))
    ensures var prog := EmitStruct(env, opt, info, Loc(Root, []), 0, seen);
      VacuousFrom(prog, s) <==> Contradictory(prog)
  {
    var p := Loc(Root, []);
    var prog := EmitStruct(env, opt, info, p, 0, seen);
    EmitStructStable(env, opt, info, p, 0, seen);
    EmitStructScoped(env, opt, info, p, 0, seen);
    EmitStructIndexes(env, opt, info, p, 0, seen);
    EmitStructCaps(env, opt, info, p, 0, seen);
    ScopedIsDeclared(prog);
    if !Contradictory(prog) {
      ChosenRuns(prog, 0, s);
      assert Nonnegative(Choose(prog));
    } else {
      forall ch | Nonnegative(ch)
        ensures Exec(prog, 0, ch, s) == None
      {
        if Exec(prog, 0, ch, s).Some? {
          FinalState(prog, 0, ch, s);
          NoContradictionAtTheEnd(prog, ch, Exec(prog, 0, ch, s).value);
        }
      }
    }
  }

  // ---------------------------------------------------- every bound is the cap

  ghost predicate Capped(prog: seq<Stmt>, cap: nat) {
    forall f :: Assume(f) in prog && f.AtMost? ==> f.cap == cap
  }

  lemma {:induction false} ConstraintsCapped(opt: Options, info: StructInfo, p: Loc)
    ensures forall f <- Constraints(opt, info, p) :: f.AtMost? ==> f.cap == opt.cap
  {
    var counts := info.pairs.Values;
    CountBoundsCapped(opt, info, |info.fields|, p);
    NamesCapped(info.lengthNamed, counts, "", p, opt.cap);
    InferredCapped(info.inferred, info, p, opt.cap);
    if exists c <- counts :: counts == {c} {
      var c :| c in counts && counts == {c};
      NamesCapped(info.cursorNamed, counts, c, p, opt.cap);
    }
  }

  lemma {:induction false} CountBoundsCapped(opt: Options, info: StructInfo, k: nat, p: Loc)
    requires k <= |info.fields|
    ensures forall f <- CountBounds(opt, info, k, p) :: f.AtMost? ==> f.cap == opt.cap
    decreases k
  {
    if k > 0 {
      CountBoundsCapped(opt, info, k - 1, p);
    }
  }

  lemma {:induction false} NamesCapped(names: seq<string>, counts: set<string>, length: string, p: Loc, cap: nat)
    ensures forall f <- LengthBounds(names, counts, p, cap) :: f.AtMost? ==> f.cap == cap
    ensures forall f <- CursorBounds(names, counts, length, p) :: !f.AtMost?
    decreases names
  {
    if names != [] {
      NamesCapped(names[1..], counts, length, p, cap);
    }
  }

  lemma {:induction false} InferredCapped(inferred: seq<Inferred>, info: StructInfo, p: Loc, cap: nat)
    ensures forall f <- InferredBounds(inferred, info, p, cap) :: !f.AtMost?
    decreases inferred
  {
    if inferred != [] {
      InferredCapped(inferred[1..], info, p, cap);
    }
  }

  lemma {:induction false} EmitFieldCaps(env: Env, opt: Options, info: StructInfo, f: Field, p: Loc, depth: nat,
      seen: set<string>)
    ensures Capped(EmitField(env, opt, info, f, p, depth, seen), opt.cap)
    decreases Left(opt, depth), env.structs.Keys - seen, 1
  {
    match f.kind
    case PointerTo(pointee) =>
      if f.name !in info.pairs && depth < opt.maxDepth && pointee.NamedPtr? && BuiltAs(env, pointee.name).Some? {
        var built := BuiltAs(env, pointee.name).value;
        EmitStructCaps(env, opt, env.structs[built], Loc(Storage(Sub(p, f.name), TargetOf), []), depth + 1,
          seen + {Marked(env, pointee)});
      }
    case Named(name) =>
      if name in env.structs && name !in seen {
        EmitStructCaps(env, opt, env.structs[name], Sub(p, f.name), depth, seen + {name});
      }
    case _ =>
  }

  lemma {:induction false} EmitFieldsCaps(env: Env, opt: Options, info: StructInfo, k: nat, p: Loc, depth: nat,
      seen: set<string>)
    requires k <= |info.fields|
    ensures Capped(EmitFields(env, opt, info, k, p, depth, seen), opt.cap)
    decreases Left(opt, depth), env.structs.Keys - seen, 2, k
  {
    if k > 0 {
      EmitFieldsCaps(env, opt, info, k - 1, p, depth, seen);
      EmitFieldCaps(env, opt, info, info.fields[k - 1], p, depth, seen);
    }
  }

  lemma {:induction false} EmitStructCaps(env: Env, opt: Options, info: StructInfo, p: Loc, depth: nat,
      seen: set<string>)
    ensures Capped(EmitStruct(env, opt, info, p, depth, seen), opt.cap)
    decreases Left(opt, depth), env.structs.Keys - seen, 3
  {
    if !info.isUnion {
      EmitFieldsCaps(env, opt, info, |info.fields|, p, depth, seen);
      CallbacksAssumeNothing(info.callbacks, p);
      ConstraintsCapped(opt, info, p);
    }
  }
}
