/** The object builder's promise: what it assumes holds of the object at the call, and every count fits its array. Whether
    its assumptions can be met at all is the matter of `BuilderVacuity` and `VacuousNests`. */
module BuilderTheorems {
  import opened Wrappers
  import opened Target
  import opened ObjectBuilder
  import opened BuilderSoundness

  // ------------------------------------------------- every struct in the nest

  /** A struct the program builds, and where. */
  type Instance = (StructInfo, Loc)

  function InstancesPointer(env: Env, opt: Options, pointee: Pointee, target: Loc, depth: nat,
      seen: set<string>): seq<Instance>
    decreases Left(opt, depth), env.structs.Keys - seen, 0
  {
    if depth < opt.maxDepth && pointee.NamedPtr? && BuiltAs(env, pointee.name).Some? then
      var built := BuiltAs(env, pointee.name).value;
      Instances(env, opt, env.structs[built], Loc(Storage(target, TargetOf), []), depth + 1, seen + {Marked(env, pointee)})
    else []
  }

  function InstancesField(env: Env, opt: Options, info: StructInfo, f: Field, p: Loc, depth: nat,
      seen: set<string>): seq<Instance>
    decreases Left(opt, depth), env.structs.Keys - seen, 1
  {
    match f.kind
    case PointerTo(pointee) =>
      if f.name in info.pairs then [] else InstancesPointer(env, opt, pointee, Sub(p, f.name), depth, seen)
    case Named(name) =>
      if name in env.structs && name !in seen then
        Instances(env, opt, env.structs[name], Sub(p, f.name), depth, seen + {name})
      else []
    case _ => []
  }

  function InstancesFields(env: Env, opt: Options, info: StructInfo, k: nat, p: Loc, depth: nat,
      seen: set<string>): seq<Instance>
    requires k <= |info.fields|
    decreases Left(opt, depth), env.structs.Keys - seen, 2, k
  {
    if k == 0 then []
    else
      InstancesFields(env, opt, info, k - 1, p, depth, seen)
      + InstancesField(env, opt, info, info.fields[k - 1], p, depth, seen)
  }

  /** The struct itself and every struct nested in it, by value or behind a pointer. */
  function Instances(env: Env, opt: Options, info: StructInfo, p: Loc, depth: nat, seen: set<string>): seq<Instance>
    decreases Left(opt, depth), env.structs.Keys - seen, 3
  {
    if info.isUnion then [] else [(info, p)] + InstancesFields(env, opt, info, |info.fields|, p, depth, seen)
  }

  /** The program makes the array, and assumes the bound, of every counted pointer of the instance. */
  ghost predicate Covered(prog: seq<Stmt>, opt: Options, inst: Instance) {
    var (info, p) := inst;
    && (forall f <- info.fields :: f.kind.PointerTo? && f.name in info.pairs ==>
          forall s <- Counted(f.kind.pointee, Sub(p, f.name), Sub(p, info.pairs[f.name]), opt.cap).0 :: s in prog)
    && (forall c <- Constraints(opt, info, p) :: Assume(c) in prog)
  }

  lemma CoveredMore(prog: seq<Stmt>, more: seq<Stmt>, opt: Options, inst: Instance)
    requires Covered(prog, opt, inst) && forall s <- prog :: s in more
    ensures Covered(more, opt, inst)
  {
  }

  lemma {:induction false} FieldsEmitted(env: Env, opt: Options, info: StructInfo, k: nat, i: nat, p: Loc,
      depth: nat, seen: set<string>)
    requires i < k <= |info.fields|
    ensures forall s <- EmitField(env, opt, info, info.fields[i], p, depth, seen) ::
      s in EmitFields(env, opt, info, k, p, depth, seen)
    decreases k
  {
    if i < k - 1 {
      FieldsEmitted(env, opt, info, k - 1, i, p, depth, seen);
    }
  }

  lemma {:induction false} FieldInstanceCovered(env: Env, opt: Options, info: StructInfo, f: Field, p: Loc, depth: nat,
      seen: set<string>, inst: Instance)
    requires inst in InstancesField(env, opt, info, f, p, depth, seen)
    ensures Covered(EmitField(env, opt, info, f, p, depth, seen), opt, inst)
    decreases Left(opt, depth), env.structs.Keys - seen, 1
  {
    match f.kind
    case PointerTo(pointee) =>
      var o := Storage(Sub(p, f.name), TargetOf);
      var built := BuiltAs(env, pointee.name).value;
      InstanceCovered(env, opt, env.structs[built], Loc(o, []), depth + 1, seen + {Marked(env, pointee)}, inst);
      var inner := EmitStruct(env, opt, env.structs[built], Loc(o, []), depth + 1, seen + {Marked(env, pointee)});
      assert EmitField(env, opt, info, f, p, depth, seen) == [Declare(o, 1)] + inner + [SetAddr(Sub(p, f.name), o)];
      CoveredMore(inner, EmitField(env, opt, info, f, p, depth, seen), opt, inst);
    case Named(name) =>
      InstanceCovered(env, opt, env.structs[name], Sub(p, f.name), depth, seen + {name}, inst);
    case _ =>
  }

  lemma {:induction false} FieldsInstanceCovered(env: Env, opt: Options, info: StructInfo, k: nat, p: Loc, depth: nat,
      seen: set<string>, inst: Instance)
    requires k <= |info.fields| && inst in InstancesFields(env, opt, info, k, p, depth, seen)
    ensures Covered(EmitFields(env, opt, info, k, p, depth, seen), opt, inst)
    decreases Left(opt, depth), env.structs.Keys - seen, 2, k
  {
    var f := info.fields[k - 1];
    if inst in InstancesField(env, opt, info, f, p, depth, seen) {
      FieldInstanceCovered(env, opt, info, f, p, depth, seen, inst);
      CoveredMore(EmitField(env, opt, info, f, p, depth, seen), EmitFields(env, opt, info, k, p, depth, seen), opt, inst);
    } else {
      FieldsInstanceCovered(env, opt, info, k - 1, p, depth, seen, inst);
      CoveredMore(EmitFields(env, opt, info, k - 1, p, depth, seen), EmitFields(env, opt, info, k, p, depth, seen),
        opt, inst);
    }
  }

  lemma {:induction false} InstanceCovered(env: Env, opt: Options, info: StructInfo, p: Loc, depth: nat,
      seen: set<string>, inst: Instance)
    requires inst in Instances(env, opt, info, p, depth, seen)
    ensures Covered(EmitStruct(env, opt, info, p, depth, seen), opt, inst)
    decreases Left(opt, depth), env.structs.Keys - seen, 3
  {
    var fields := EmitFields(env, opt, info, |info.fields|, p, depth, seen);
    if inst in InstancesFields(env, opt, info, |info.fields|, p, depth, seen) {
      FieldsInstanceCovered(env, opt, info, |info.fields|, p, depth, seen, inst);
      CoveredMore(fields, EmitStruct(env, opt, info, p, depth, seen), opt, inst);
    } else {
      var assumes := Assumes(Constraints(opt, info, p));
      forall i | 0 <= i < |info.fields|
        ensures forall s <- EmitField(env, opt, info, info.fields[i], p, depth, seen) :: s in fields
      {
        FieldsEmitted(env, opt, info, |info.fields|, i, p, depth, seen);
      }
      forall c | c in Constraints(opt, info, p)
        ensures Assume(c) in EmitStruct(env, opt, info, p, depth, seen)
      {
        var k :| 0 <= k < |Constraints(opt, info, p)| && Constraints(opt, info, p)[k] == c;
        assert assumes[k] == Assume(c);
      }
    }
  }

  lemma {:induction false} CountBoundEmitted(opt: Options, info: StructInfo, k: nat, i: nat, p: Loc)
    requires i < k <= |info.fields|
    requires info.fields[i].kind.PointerTo? && info.fields[i].name in info.pairs
    ensures var f := info.fields[i];
      Counted(f.kind.pointee, Sub(p, f.name), Sub(p, info.pairs[f.name]), opt.cap).1 in CountBounds(opt, info, k, p)
    decreases k
  {
    if i < k - 1 {
      CountBoundEmitted(opt, info, k - 1, i, p);
    }
  }

  /** At the call: the pointer is null and its count 0, or its count is at most the extent of what it points to. */
  ghost predicate CountFits(s: State, pointer: Loc, count: Loc) {
    || (s.vals(pointer) == Ptr(Null) && AsInt(s.vals(count)) == 0)
    || (exists o :: s.vals(pointer) == Ptr(To(o)) && AsInt(s.vals(count)) <= s.extent(o))
  }

  /** Every assumption the builder emits constrains the object that is passed: it holds of the final state,
      and every counted pointer in the nest has a count within its array. */
  lemma AssumptionsHoldAtTheCall(env: Env, opt: Options, info: StructInfo, seen: set<string>, ch: Choices, s: State)
    requires AllDistinct(env) && Distinct(info)
    requires Exec(EmitStruct(env, opt, info, Loc(Root, []), 0, seen), 0, ch, s).Some?
    ensures var prog := EmitStruct(env, opt, info, Loc(Root, []), 0, seen);
      var s' := Exec(prog, 0, ch, s).value;
      && (forall f :: Assume(f) in prog ==> Holds(f, s'))
      && forall inst <- Instances(env, opt, info, Loc(Root, []), 0, seen), f <- inst.0.fields ::
           f.kind.PointerTo? && f.name in inst.0.pairs ==>
           CountFits(s', Sub(inst.1, f.name), Sub(inst.1, inst.0.pairs[f.name]))
  {
    var p := Loc(Root, []);
    var prog := EmitStruct(env, opt, info, p, 0, seen);
    var s' := Exec(prog, 0, ch, s).value;
    EmitStructStable(env, opt, info, p, 0, seen);
    FinalState(prog, 0, ch, s);
    forall inst <- Instances(env, opt, info, p, 0, seen), f <- inst.0.fields |
      f.kind.PointerTo? && f.name in inst.0.pairs
      ensures CountFits(s', Sub(inst.1, f.name), Sub(inst.1, inst.0.pairs[f.name]))
    {
      InstanceCovered(env, opt, info, p, 0, seen, inst);
      CountedFits(prog, opt, inst, f, ch, s');
    }
  }

  /** A fact that does not depend on which statement established it. */
  lemma Fact(prog: seq<Stmt>, st: Stmt, ch: Choices, s: State)
    requires st in prog && !st.Havoc? && !st.HavocArray? && !st.FillNondet?
    requires forall k :: 0 <= k < |prog| ==> Established(prog[k], k, ch, s)
    ensures Established(st, 0, ch, s)
  {
    var k :| 0 <= k < |prog| && prog[k] == st;
    assert Established(prog[k], k, ch, s);
  }

  lemma CountedFits(prog: seq<Stmt>, opt: Options, inst: Instance, f: Field, ch: Choices, s: State)
    requires Covered(prog, opt, inst) && forall k :: 0 <= k < |prog| ==> Established(prog[k], k, ch, s)
    requires f in inst.0.fields && f.kind.PointerTo? && f.name in inst.0.pairs
    ensures CountFits(s, Sub(inst.1, f.name), Sub(inst.1, inst.0.pairs[f.name]))
  {
    var (info, p) := inst;
    var i :| 0 <= i < |info.fields| && info.fields[i] == f;
    CountBoundEmitted(opt, info, |info.fields|, i, p);
    PairFits(prog, f.kind.pointee, Sub(p, f.name), Sub(p, info.pairs[f.name]), opt.cap, ch, s);
  }

  lemma PairFits(prog: seq<Stmt>, pointee: Pointee, target: Loc, counter: Loc, cap: nat, ch: Choices, s: State)
    requires forall k :: 0 <= k < |prog| ==> Established(prog[k], k, ch, s)
    requires var (lines, bound) := Counted(pointee, target, counter, cap);
      Assume(bound) in prog && forall st <- lines :: st in prog
    ensures CountFits(s, target, counter)
  {
    var (lines, bound) := Counted(pointee, target, counter, cap);
    var last := lines[|lines| - 1];
    assert last in lines && lines[0] in lines;
    Fact(prog, Assume(bound), ch, s);
    Fact(prog, last, ch, s);
    Fact(prog, lines[0], ch, s);
  }
}
