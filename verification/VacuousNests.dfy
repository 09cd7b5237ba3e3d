/** Which nests of structs the builder leaves nothing to check of: the condition, read off the structs. */
module VacuousNests {
  import opened Wrappers
  import opened Target
  import opened ObjectBuilder
  import opened BuilderSoundness
  import opened BuilderTheorems
  import opened BuilderVacuity

  // ------------------------------------------------------------ the condition

  /** `x` counts a table of structs, which is nulled. */
  ghost predicate CountsStructs(info: StructInfo, x: string) {
    exists f <- info.fields ::
      f.kind.PointerTo? && f.kind.pointee.NamedPtr? && f.name in info.pairs && info.pairs[f.name] == x
  }

  /** `x` is kept within `y`: by a growth check, or as the cursor into the one counted buffer. */
  ghost predicate KeptWithin(opt: Options, info: StructInfo, x: string, y: string) {
    || (opt.inferInvariants && Growth(x, y) in info.inferred)
    || (x in info.cursorNamed && x !in info.pairs.Values && info.pairs.Values == {y})
  }

  /** `x` counts a table of structs, or is kept within such a count by a chain of at most `n`. */
  ghost predicate ZeroIn(opt: Options, info: StructInfo, x: string, n: nat)
    decreases n
  {
    CountsStructs(info, x) || (n > 0 && exists y :: KeptWithin(opt, info, x, y) && ZeroIn(opt, info, y, n - 1))
  }

  ghost predicate Zero(opt: Options, info: StructInfo, x: string) { exists n: nat :: ZeroIn(opt, info, x, n) }

  /** The array `slots` indexes one counted by `x`, and no index below 0 will do: there is no sentinel, or the elements
      are null pointers and the sentinel is not 0. */
  ghost predicate IndexedBy(info: StructInfo, slots: string, x: string) {
    exists target, v :: IndexArray(slots, target, v) in info.inferred && target in info.pairs && info.pairs[target] == x
      && (v.None? || (v != Some(0) && Field(slots, PointerTo(PointerPtr)) in info.fields))
  }

  /** A field that comes to 0 is one the library masks with, or counts what an index array indexes. */
  ghost predicate Impossible(opt: Options, info: StructInfo) {
    opt.inferInvariants &&
      exists x :: Zero(opt, info, x) && (Mask(x) in info.inferred || exists slots :: IndexedBy(info, slots, x))
  }

  // ------------------------------------------------------------ one struct's constraints

  /** Where in the struct a constraint comes from. */
  ghost predicate Arises(opt: Options, info: StructInfo, p: Loc, c: Formula) {
    match c
    case AtMost(_, _) => true
    case IsZero(l) => exists x :: l == Sub(p, x) && CountsStructs(info, x)
    case NotAbove(a, b) => exists x, y :: a == Sub(p, x) && b == Sub(p, y) && KeptWithin(opt, info, x, y)
    case PowerOfTwo(l) => opt.inferInvariants && exists x :: l == Sub(p, x) && Mask(x) in info.inferred
    case Indexes(o, n, l, v) =>
      opt.inferInvariants && n == opt.cap && exists slots, target ::
        && o == Storage(Sub(p, slots), ItemsOf) && IndexArray(slots, target, v) in info.inferred
        && target in info.pairs && l == Sub(p, info.pairs[target])
  }

  lemma {:induction false} CountBoundArises(opt: Options, info: StructInfo, k: nat, p: Loc, c: Formula)
    requires k <= |info.fields| && c in CountBounds(opt, info, k, p)
    ensures Arises(opt, info, p, c)
    decreases k
  {
    if c in CountBounds(opt, info, k - 1, p) {
      CountBoundArises(opt, info, k - 1, p, c);
    } else {
      var f := info.fields[k - 1];
      assert c in CountBound(opt, info, f, p);
      if c.IsZero? { assert CountsStructs(info, info.pairs[f.name]); }
    }
  }

  lemma {:induction false} LengthBoundArises(names: seq<string>, counts: set<string>, p: Loc, cap: nat, c: Formula)
    requires c in LengthBounds(names, counts, p, cap)
    ensures c.AtMost?
    decreases names
  {
    if c in LengthBounds(names[1..], counts, p, cap) { LengthBoundArises(names[1..], counts, p, cap, c); }
  }

  lemma {:induction false} InferredArises(opt: Options, inferred: seq<Inferred>, info: StructInfo, p: Loc, c: Formula)
    requires opt.inferInvariants && (forall inf <- inferred :: inf in info.inferred)
    requires c in InferredBounds(inferred, info, p, opt.cap)
    ensures Arises(opt, info, p, c)
    decreases inferred
  {
    if c in InferredBounds(inferred[1..], info, p, opt.cap) {
      InferredArises(opt, inferred[1..], info, p, c);
    } else {
      assert inferred[0] in info.inferred;
      match inferred[0]
      case Growth(x, y) => assert KeptWithin(opt, info, x, y);
      case Mask(x) => assert c == PowerOfTwo(Sub(p, x));
      case IndexArray(slots, target, v) => assert c.o == Storage(Sub(p, slots), ItemsOf);
    }
  }

  lemma {:induction false} CursorArises(opt: Options, names: seq<string>, info: StructInfo, y: string, p: Loc,
      c: Formula)
    requires info.pairs.Values == {y} && (forall n <- names :: n in info.cursorNamed)
    requires c in CursorBounds(names, info.pairs.Values, y, p)
    ensures Arises(opt, info, p, c)
    decreases names
  {
    if c in CursorBounds(names[1..], info.pairs.Values, y, p) {
      CursorArises(opt, names[1..], info, y, p, c);
    } else {
      assert names[0] in info.cursorNamed && KeptWithin(opt, info, names[0], y);
    }
  }

  lemma ConstraintArises(opt: Options, info: StructInfo, p: Loc, c: Formula)
    requires c in Constraints(opt, info, p)
    ensures Arises(opt, info, p, c)
  {
    var counts := info.pairs.Values;
    if c in CountBounds(opt, info, |info.fields|, p) {
      CountBoundArises(opt, info, |info.fields|, p, c);
    } else if info.pairs != map[] && c in LengthBounds(info.lengthNamed, counts, p, opt.cap) {
      LengthBoundArises(info.lengthNamed, counts, p, opt.cap, c);
    } else if opt.inferInvariants && c in InferredBounds(info.inferred, info, p, opt.cap) {
      InferredArises(opt, info.inferred, info, p, c);
    } else {
      var y :| y in counts && counts == {y};
      CursorArises(opt, info.cursorNamed, info, y, p, c);
    }
  }

  // ... and back

  lemma {:induction false} CountBoundAmong(opt: Options, info: StructInfo, k: nat, f: Field, p: Loc)
    requires k <= |info.fields| && f in info.fields[..k]
    requires f.kind.PointerTo? && f.kind.pointee.NamedPtr? && f.name in info.pairs
    ensures IsZero(Sub(p, info.pairs[f.name])) in CountBounds(opt, info, k, p)
    decreases k
  {
    if f != info.fields[k - 1] {
      CountBoundAmong(opt, info, k - 1, f, p);
    }
  }

  lemma {:induction false} InferredAmong(inferred: seq<Inferred>, inf: Inferred, info: StructInfo, p: Loc, cap: nat)
    requires inf in inferred
    ensures forall c <- InferredBounds([inf], info, p, cap) :: c in InferredBounds(inferred, info, p, cap)
    decreases inferred
  {
    if inferred[0] != inf { InferredAmong(inferred[1..], inf, info, p, cap); }
  }

  lemma {:induction false} CursorAmong(names: seq<string>, x: string, counts: set<string>, y: string, p: Loc)
    requires x in names && x !in counts
    ensures NotAbove(Sub(p, x), Sub(p, y)) in CursorBounds(names, counts, y, p)
    decreases names
  {
    if names[0] != x { CursorAmong(names[1..], x, counts, y, p); }
  }

  lemma ZeroConstrained(opt: Options, info: StructInfo, x: string, p: Loc)
    requires CountsStructs(info, x)
    ensures IsZero(Sub(p, x)) in Constraints(opt, info, p)
  {
    var f :| f in info.fields && f.kind.PointerTo? && f.kind.pointee.NamedPtr? && f.name in info.pairs
      && info.pairs[f.name] == x;
    CountBoundAmong(opt, info, |info.fields|, f, p);
  }

  lemma InferredConstrained(opt: Options, info: StructInfo, inf: Inferred, p: Loc)
    requires opt.inferInvariants && inf in info.inferred
    ensures forall c <- InferredBounds([inf], info, p, opt.cap) :: c in Constraints(opt, info, p)
  {
    InferredAmong(info.inferred, inf, info, p, opt.cap);
  }

  lemma KeptConstrained(opt: Options, info: StructInfo, x: string, y: string, p: Loc)
    requires KeptWithin(opt, info, x, y)
    ensures NotAbove(Sub(p, x), Sub(p, y)) in Constraints(opt, info, p)
  {
    if opt.inferInvariants && Growth(x, y) in info.inferred {
      InferredConstrained(opt, info, Growth(x, y), p);
      assert InferredBounds([Growth(x, y)], info, p, opt.cap)[0] == NotAbove(Sub(p, x), Sub(p, y));
    } else {
      var counts := info.pairs.Values;
      assert y in counts && counts == {y};
      CursorAmong(info.cursorNamed, x, counts, y, p);
    }
  }

  // ------------------------------------------------------------ whose a statement is

  /** A statement that says whose it is: an assumption, or one about the array of a counted pointer. */
  predicate Telling(s: Stmt) {
    s.Assume? || s.FillZero? || (s.Declare? && s.o.Storage? && s.o.kind == ItemsOf)
  }

  ghost predicate OwnsArray(opt: Options, inst: Instance, f: Field, s: Stmt) {
    var (info, p) := inst;
    f in info.fields && f.kind.PointerTo? && f.name in info.pairs &&
    s in Counted(f.kind.pointee, Sub(p, f.name), Sub(p, info.pairs[f.name]), opt.cap).0
  }

  /** It is one of the constraints of this instance, or makes one of its arrays. */
  ghost predicate Owns(opt: Options, inst: Instance, s: Stmt) {
    (s.Assume? && s.f in Constraints(opt, inst.0, inst.1)) || exists f :: OwnsArray(opt, inst, f, s)
  }

  lemma {:induction false} FieldOwner(env: Env, opt: Options, info: StructInfo, f: Field, p: Loc, depth: nat,
      seen: set<string>,
      s: Stmt) returns (inst: Instance)
    requires f in info.fields && Telling(s) && s in EmitField(env, opt, info, f, p, depth, seen)
    ensures inst == (info, p) || inst in InstancesField(env, opt, info, f, p, depth, seen)
    ensures Owns(opt, inst, s)
    decreases Left(opt, depth), env.structs.Keys - seen, 1
  {
    inst := (info, p);
    match f.kind
    case PointerTo(pointee) =>
      if f.name in info.pairs {
        assert OwnsArray(opt, inst, f, s);
      } else {
        var built := BuiltAs(env, pointee.name).value;
        inst := StructOwner(env, opt, env.structs[built], Loc(Storage(Sub(p, f.name), TargetOf), []), depth + 1,
          seen + {Marked(env, pointee)}, s);
      }
    case Named(name) => inst := StructOwner(env, opt, env.structs[name], Sub(p, f.name), depth, seen + {name}, s);
    case _ =>
  }

  lemma {:induction false} FieldsOwner(env: Env, opt: Options, info: StructInfo, k: nat, p: Loc, depth: nat,
      seen: set<string>,
      s: Stmt) returns (inst: Instance)
    requires k <= |info.fields| && Telling(s) && s in EmitFields(env, opt, info, k, p, depth, seen)
    ensures inst == (info, p) || inst in InstancesFields(env, opt, info, k, p, depth, seen)
    ensures Owns(opt, inst, s)
    decreases Left(opt, depth), env.structs.Keys - seen, 2, k
  {
    if s in EmitFields(env, opt, info, k - 1, p, depth, seen) {
      inst := FieldsOwner(env, opt, info, k - 1, p, depth, seen, s);
    } else {
      inst := FieldOwner(env, opt, info, info.fields[k - 1], p, depth, seen, s);
    }
  }

  /** Every such statement is some instance's. */
  lemma {:induction false} StructOwner(env: Env, opt: Options, info: StructInfo, p: Loc, depth: nat,
      seen: set<string>, s: Stmt)
    returns (inst: Instance)
    requires Telling(s) && s in EmitStruct(env, opt, info, p, depth, seen)
    ensures inst in Instances(env, opt, info, p, depth, seen) && Owns(opt, inst, s)
    decreases Left(opt, depth), env.structs.Keys - seen, 3
  {
    inst := (info, p);
    CallbacksAssumeNothing(info.callbacks, p);
    if s in EmitFields(env, opt, info, |info.fields|, p, depth, seen) {
      inst := FieldsOwner(env, opt, info, |info.fields|, p, depth, seen, s);
    } else {
      assert s in Assumes(Constraints(opt, info, p));
    }
  }

  lemma {:induction false} FieldInstanceUnder(env: Env, opt: Options, info: StructInfo, f: Field, p: Loc, depth: nat,
      seen: set<string>, inst: Instance)
    requires inst in InstancesField(env, opt, info, f, p, depth, seen)
    ensures Under(inst.1, Sub(p, f.name))
    decreases Left(opt, depth), env.structs.Keys - seen, 1
  {
    match f.kind
    case PointerTo(pointee) =>
      var q := Loc(Storage(Sub(p, f.name), TargetOf), []);
      InstanceUnder(env, opt, env.structs[BuiltAs(env, pointee.name).value], q, depth + 1, seen + {Marked(env,
        pointee)}, inst);
      UnderTransitive(inst.1, q, Sub(p, f.name));
    case Named(name) => InstanceUnder(env, opt, env.structs[name], Sub(p, f.name), depth, seen + {name}, inst);
    case _ =>
  }

  lemma {:induction false} FieldsInstance(env: Env, opt: Options, info: StructInfo, k: nat, p: Loc, depth: nat,
      seen: set<string>, inst: Instance) returns (i: nat)
    requires k <= |info.fields| && inst in InstancesFields(env, opt, info, k, p, depth, seen)
    ensures i < k && inst in InstancesField(env, opt, info, info.fields[i], p, depth, seen)
    decreases k
  {
    if inst in InstancesField(env, opt, info, info.fields[k - 1], p, depth, seen) {
      i := k - 1;
    } else {
      i := FieldsInstance(env, opt, info, k - 1, p, depth, seen, inst);
    }
  }

  lemma {:induction false} InstanceUnder(env: Env, opt: Options, info: StructInfo, p: Loc, depth: nat,
      seen: set<string>,
      inst: Instance)
    requires inst in Instances(env, opt, info, p, depth, seen)
    ensures Under(inst.1, p)
    decreases Left(opt, depth), env.structs.Keys - seen, 3
  {
    if inst != (info, p) {
      var i := FieldsInstance(env, opt, info, |info.fields|, p, depth, seen, inst);
      FieldInstanceUnder(env, opt, info, info.fields[i], p, depth, seen, inst);
      UnderTransitive(inst.1, Sub(p, info.fields[i].name), p);
    }
  }

  lemma NotUnderOwnField(p: Loc, x: string)
    ensures !Under(p, Sub(p, x))
  {
    if Under(p, Sub(p, x)) { UnderIsDeeper(p, Sub(p, x)); }
  }

  /** One place, one struct. */
  lemma {:induction false} SameInstance(env: Env, opt: Options, info: StructInfo, p: Loc, depth: nat, seen: set<string>,
      a: Instance, b: Instance)
    requires AllDistinct(env) && Distinct(info) && a.1 == b.1
    requires a in Instances(env, opt, info, p, depth, seen) && b in Instances(env, opt, info, p, depth, seen)
    ensures a == b
    decreases Left(opt, depth), env.structs.Keys - seen, 3
  {
    if a != (info, p) || b != (info, p) {
      if a == (info, p) || b == (info, p) {
        var other := if a == (info, p) then b else a;
        var i := FieldsInstance(env, opt, info, |info.fields|, p, depth, seen, other);
        FieldInstanceUnder(env, opt, info, info.fields[i], p, depth, seen, other);
        NotUnderOwnField(p, info.fields[i].name);
      } else {
        var i := FieldsInstance(env, opt, info, |info.fields|, p, depth, seen, a);
        var j := FieldsInstance(env, opt, info, |info.fields|, p, depth, seen, b);
        FieldInstanceUnder(env, opt, info, info.fields[i], p, depth, seen, a);
        FieldInstanceUnder(env, opt, info, info.fields[j], p, depth, seen, b);
        FieldsSeparate(a.1, p, info.fields[i].name, info.fields[j].name);
        assert i == j;
        SameFieldInstance(env, opt, info, info.fields[i], p, depth, seen, a, b);
      }
    }
  }

  lemma {:induction false} SameFieldInstance(env: Env, opt: Options, info: StructInfo, f: Field, p: Loc, depth: nat,
      seen: set<string>, a: Instance, b: Instance)
    requires AllDistinct(env) && a.1 == b.1
    requires a in InstancesField(env, opt, info, f, p, depth, seen) && b in InstancesField(env, opt, info, f, p, depth, seen)
    ensures a == b
    decreases Left(opt, depth), env.structs.Keys - seen, 1
  {
    match f.kind
    case PointerTo(pointee) =>
      SameInstance(env, opt, env.structs[BuiltAs(env, pointee.name).value], Loc(Storage(Sub(p, f.name), TargetOf), []),
        depth + 1, seen + {Marked(env, pointee)}, a, b);
    case Named(name) => SameInstance(env, opt, env.structs[name], Sub(p, f.name), depth, seen + {name}, a, b);
    case _ =>
  }

  // ------------------------------------------------------------ the whole nest

  ghost predicate Owned(opt: Options, insts: seq<Instance>, s: Stmt) { exists inst <- insts :: Owns(opt, inst, s) }

  ghost predicate SamePlace(insts: seq<Instance>, a: Instance, b: Instance) {
    a in insts && b in insts && a.1 == b.1 ==> a == b
  }

  /** What the program and its instances have to do with each other: the lemmas above, for one nest. */
  ghost predicate Nest(opt: Options, prog: seq<Stmt>, insts: seq<Instance>) {
    && (forall inst {:trigger Covered(prog, opt, inst)} :: inst in insts ==> Covered(prog, opt, inst))
    && (forall a, b {:trigger SamePlace(insts, a, b)} :: SamePlace(insts, a, b))
    && (forall s {:trigger Owned(opt, insts, s)} :: s in prog && Telling(s) ==> Owned(opt, insts, s))
    && (forall inst: Instance {:trigger Inferable(inst.0)} :: inst in insts ==> Inferable(inst.0))
  }

  lemma {:induction false} InstancesInferable(env: Env, opt: Options, info: StructInfo, p: Loc, depth: nat,
      seen: set<string>,
      inst: Instance)
    requires AllInferable(env) && Inferable(info) && inst in Instances(env, opt, info, p, depth, seen)
    ensures Inferable(inst.0)
    decreases Left(opt, depth), env.structs.Keys - seen, 3
  {
    if inst != (info, p) {
      var i := FieldsInstance(env, opt, info, |info.fields|, p, depth, seen, inst);
      var f := info.fields[i];
      match f.kind
      case PointerTo(pointee) =>
        InstancesInferable(env, opt, env.structs[BuiltAs(env, pointee.name).value],
          Loc(Storage(Sub(p, f.name), TargetOf), []), depth + 1, seen + {Marked(env, pointee)}, inst);
      case Named(name) =>
        InstancesInferable(env, opt, env.structs[name], Sub(p, f.name), depth, seen + {name}, inst);
      case _ =>
    }
  }

  lemma IsNest(env: Env, opt: Options, info: StructInfo, seen: set<string>)
    requires AllInferable(env) && Inferable(info)
    ensures Nest(opt, EmitStruct(env, opt, info, Loc(Root, []), 0, seen), Instances(env, opt, info, Loc(Root, []), 0, seen))
  {
    var p := Loc(Root, []);
    var prog, insts := EmitStruct(env, opt, info, p, 0, seen), Instances(env, opt, info, p, 0, seen);
    forall inst | inst in insts ensures Covered(prog, opt, inst) && Inferable(inst.0) {
      InstanceCovered(env, opt, info, p, 0, seen, inst);
      InstancesInferable(env, opt, info, p, 0, seen, inst);
    }
    forall a, b ensures SamePlace(insts, a, b) {
      if a in insts && b in insts && a.1 == b.1 { SameInstance(env, opt, info, p, 0, seen, a, b); }
    }
    forall s | s in prog && Telling(s) ensures Owned(opt, insts, s) {
      var inst := StructOwner(env, opt, info, p, 0, seen, s);
    }
  }

  lemma NotAnArray(opt: Options, inst: Instance, c: Formula)
    requires Owns(opt, inst, Assume(c))
    ensures c in Constraints(opt, inst.0, inst.1)
  {
  }

  /** The instance an assumption is of. */
  lemma AssumedBy(opt: Options, prog: seq<Stmt>, insts: seq<Instance>, c: Formula) returns (inst: Instance)
    requires Nest(opt, prog, insts) && Assume(c) in prog
    ensures inst in insts && Arises(opt, inst.0, inst.1, c)
  {
    assert Owned(opt, insts, Assume(c));
    inst :| inst in insts && Owns(opt, inst, Assume(c));
    NotAnArray(opt, inst, c);
    ConstraintArises(opt, inst.0, inst.1, c);
  }

  lemma {:induction false} ZeroIsForced(opt: Options, prog: seq<Stmt>, insts: seq<Instance>, inst: Instance,
      x: string, n: nat)
    requires Nest(opt, prog, insts) && inst in insts && ZeroIn(opt, inst.0, x, n)
    ensures ForcedIn(prog, Sub(inst.1, x), n)
    decreases n
  {
    assert Covered(prog, opt, inst);
    if CountsStructs(inst.0, x) {
      ZeroConstrained(opt, inst.0, x, inst.1);
    } else {
      var y :| KeptWithin(opt, inst.0, x, y) && ZeroIn(opt, inst.0, y, n - 1);
      KeptConstrained(opt, inst.0, x, y, inst.1);
      ZeroIsForced(opt, prog, insts, inst, y, n - 1);
    }
  }

  lemma {:induction false} ForcedIsZeroed(opt: Options, prog: seq<Stmt>, insts: seq<Instance>, inst: Instance,
      x: string, n: nat)
    requires Nest(opt, prog, insts) && inst in insts && ForcedIn(prog, Sub(inst.1, x), n)
    ensures ZeroIn(opt, inst.0, x, n)
    decreases n
  {
    var l := Sub(inst.1, x);
    if Assume(IsZero(l)) in prog {
      var other := AssumedBy(opt, prog, insts, IsZero(l));
      var x' :| l == Sub(other.1, x') && CountsStructs(other.0, x');
      SubInjective(inst.1, x, other.1, x');
      assert SamePlace(insts, inst, other);
    } else {
      var b :| Assume(NotAbove(l, b)) in prog && ForcedIn(prog, b, n - 1);
      var other := AssumedBy(opt, prog, insts, NotAbove(l, b));
      var x', y :| l == Sub(other.1, x') && b == Sub(other.1, y) && KeptWithin(opt, other.0, x', y);
      SubInjective(inst.1, x, other.1, x');
      assert SamePlace(insts, inst, other);
      ForcedIsZeroed(opt, prog, insts, inst, y, n - 1);
    }
  }

  lemma ForcedIff(opt: Options, prog: seq<Stmt>, insts: seq<Instance>, inst: Instance, x: string)
    requires Nest(opt, prog, insts) && inst in insts
    ensures Forced(prog, Sub(inst.1, x)) <==> Zero(opt, inst.0, x)
  {
    if n: nat :| ForcedIn(prog, Sub(inst.1, x), n) {
      ForcedIsZeroed(opt, prog, insts, inst, x, n);
    }
    if n: nat :| ZeroIn(opt, inst.0, x, n) {
      ZeroIsForced(opt, prog, insts, inst, x, n);
    }
  }

  /** The statements about the array of a counted pointer. */
  lemma ArrayOf(opt: Options, inst: Instance, f: Field, s: Stmt)
    requires OwnsArray(opt, inst, f, s)
    ensures s.FillZero? ==> f.kind.pointee == PointerPtr && s.o == Storage(Sub(inst.1, f.name), ItemsOf)
    ensures s.Declare? && s.o.kind == ItemsOf ==> HasItems(f.kind.pointee) && s.o == Storage(Sub(inst.1, f.name), ItemsOf)
    ensures !s.Assume? && (s.Declare? ==> s.o.Storage?)
  {
  }

  /** The field whose array a statement makes, if it makes the array of `slots`. */
  lemma ArrayOwner(opt: Options, prog: seq<Stmt>, insts: seq<Instance>, inst: Instance, slots: string, s: Stmt)
    returns (f: Field)
    requires Nest(opt, prog, insts) && inst in insts && s in prog && (s.FillZero? || s.Declare?)
    requires s.o == Storage(Sub(inst.1, slots), ItemsOf)
    ensures f in inst.0.fields && f.name == slots && f.kind.PointerTo? && HasItems(f.kind.pointee)
    ensures s.FillZero? ==> f.kind.pointee == PointerPtr
  {
    assert Owned(opt, insts, s);
    var other :| other in insts && Owns(opt, other, s);
    f :| OwnsArray(opt, other, f, s);
    ArrayOf(opt, other, f, s);
    SubInjective(inst.1, slots, other.1, f.name);
    assert SamePlace(insts, inst, other);
  }

  /** Null pointers are what fills the array of a pointer to pointers. */
  lemma NullsFilled(opt: Options, prog: seq<Stmt>, inst: Instance, slots: string)
    requires Covered(prog, opt, inst) && slots in inst.0.pairs && Field(slots, PointerTo(PointerPtr)) in inst.0.fields
    ensures FillZero(Storage(Sub(inst.1, slots), ItemsOf), opt.cap) in prog
  {
    var f := Field(slots, PointerTo(PointerPtr));
    var lines := Counted(PointerPtr, Sub(inst.1, slots), Sub(inst.1, inst.0.pairs[slots]), opt.cap).0;
    assert lines == Counted(f.kind.pointee, Sub(inst.1, f.name), Sub(inst.1, inst.0.pairs[f.name]), opt.cap).0;
    assert lines[1] == FillZero(Storage(Sub(inst.1, slots), ItemsOf), opt.cap) && lines[1] in lines;
  }

  lemma NullsIff(opt: Options, prog: seq<Stmt>, insts: seq<Instance>, inst: Instance, slots: string)
    requires Nest(opt, prog, insts) && inst in insts && slots in inst.0.pairs
    ensures FillZero(Storage(Sub(inst.1, slots), ItemsOf), opt.cap) in prog
       <==> Field(slots, PointerTo(PointerPtr)) in inst.0.fields
  {
    var o := Storage(Sub(inst.1, slots), ItemsOf);
    if FillZero(o, opt.cap) in prog {
      var f := ArrayOwner(opt, prog, insts, inst, slots, FillZero(o, opt.cap));
      assert f == Field(slots, PointerTo(PointerPtr));
    }
    if Field(slots, PointerTo(PointerPtr)) in inst.0.fields {
      assert Covered(prog, opt, inst);
      NullsFilled(opt, prog, inst, slots);
    }
  }

  lemma MaskedIsContradictory(opt: Options, prog: seq<Stmt>, insts: seq<Instance>, inst: Instance, x: string)
    requires Nest(opt, prog, insts) && inst in insts && opt.inferInvariants
    requires Zero(opt, inst.0, x) && Mask(x) in inst.0.inferred
    ensures Contradictory(prog)
  {
    ForcedIff(opt, prog, insts, inst, x);
    InferredConstrained(opt, inst.0, Mask(x), inst.1);
    assert Covered(prog, opt, inst);
    assert InferredBounds([Mask(x)], inst.0, inst.1, opt.cap)[0] == PowerOfTwo(Sub(inst.1, x));
  }

  lemma IndexConstrained(opt: Options, info: StructInfo, slots: string, target: string, v: Option<nat>, p: Loc)
    requires opt.inferInvariants && IndexArray(slots, target, v) in info.inferred && target in info.pairs
    ensures Indexes(Storage(Sub(p, slots), ItemsOf), opt.cap, Sub(p, info.pairs[target]), v) in Constraints(opt, info, p)
  {
    InferredConstrained(opt, info, IndexArray(slots, target, v), p);
    assert InferredBounds([IndexArray(slots, target, v)], info, p, opt.cap)[0]
        == Indexes(Storage(Sub(p, slots), ItemsOf), opt.cap, Sub(p, info.pairs[target]), v);
  }

  lemma IndexedIsContradictory(opt: Options, prog: seq<Stmt>, insts: seq<Instance>, inst: Instance, x: string,
      slots: string)
    requires Nest(opt, prog, insts) && inst in insts && opt.inferInvariants && opt.cap > 0
    requires Zero(opt, inst.0, x) && IndexedBy(inst.0, slots, x)
    ensures Contradictory(prog)
  {
    var (info, p) := inst;
    var target, v :| IndexArray(slots, target, v) in info.inferred && target in info.pairs && info.pairs[target] == x
      && (v.None? || (v != Some(0) && Field(slots, PointerTo(PointerPtr)) in info.fields));
    assert Inferable(inst.0) && InferenceOk(IndexArray(slots, target, v), info);
    ForcedIff(opt, prog, insts, inst, x);
    NullsIff(opt, prog, insts, inst, slots);
    IndexConstrained(opt, info, slots, target, v, p);
    assert Covered(prog, opt, inst);
    assert NeedsRoom(prog, Storage(Sub(p, slots), ItemsOf), opt.cap, v);
  }

  lemma ContradictionIsImpossible(opt: Options, prog: seq<Stmt>, insts: seq<Instance>) returns (inst: Instance)
    requires Nest(opt, prog, insts) && Contradictory(prog)
    ensures inst in insts && Impossible(opt, inst.0)
  {
    var l :| Forced(prog, l) &&
      (Assume(PowerOfTwo(l)) in prog
       || exists o, n: nat, v :: n > 0 && Assume(Indexes(o, n, l, v)) in prog && NeedsRoom(prog, o, n, v));
    if Assume(PowerOfTwo(l)) in prog {
      inst := AssumedBy(opt, prog, insts, PowerOfTwo(l));
      var x :| l == Sub(inst.1, x) && Mask(x) in inst.0.inferred;
      ForcedIff(opt, prog, insts, inst, x);
    } else {
      var o, n: nat, v :| n > 0 && Assume(Indexes(o, n, l, v)) in prog && NeedsRoom(prog, o, n, v);
      inst := AssumedBy(opt, prog, insts, Indexes(o, n, l, v));
      var slots, target :| o == Storage(Sub(inst.1, slots), ItemsOf) && IndexArray(slots, target, v) in inst.0.inferred
        && target in inst.0.pairs && l == Sub(inst.1, inst.0.pairs[target]);
      assert Inferable(inst.0) && InferenceOk(IndexArray(slots, target, v), inst.0);
      ForcedIff(opt, prog, insts, inst, inst.0.pairs[target]);
      NullsIff(opt, prog, insts, inst, slots);
      assert IndexedBy(inst.0, slots, inst.0.pairs[target]);
    }
  }

  /** The program's own contradictions are those of its structs. */
  lemma ContradictoryIff(opt: Options, prog: seq<Stmt>, insts: seq<Instance>)
    requires Nest(opt, prog, insts) && opt.cap > 0
    ensures Contradictory(prog) <==> exists inst <- insts :: Impossible(opt, inst.0)
  {
    if Contradictory(prog) {
      var inst := ContradictionIsImpossible(opt, prog, insts);
    }
    if inst :| inst in insts && Impossible(opt, inst.0) {
      var x :| Zero(opt, inst.0, x) && (Mask(x) in inst.0.inferred || exists slots :: IndexedBy(inst.0, slots, x));
      if Mask(x) in inst.0.inferred {
        MaskedIsContradictory(opt, prog, insts, inst, x);
      } else {
        var slots :| IndexedBy(inst.0, slots, x);
        IndexedIsContradictory(opt, prog, insts, inst, x, slots);
      }
    }
  }

  /** No statement makes the array of a field that has none. */
  lemma NeverDeclared(opt: Options, prog: seq<Stmt>, insts: seq<Instance>, inst: Instance, f: Field, m: nat)
    requires Nest(opt, prog, insts) && inst in insts && f in inst.0.fields && f.kind.PointerTo? && !HasItems(f.kind.pointee)
    ensures Declare(Storage(Sub(inst.1, f.name), ItemsOf), m) !in prog
  {
    var s := Declare(Storage(Sub(inst.1, f.name), ItemsOf), m);
    assert Inferable(inst.0);
    if s in prog { var g := ArrayOwner(opt, prog, insts, inst, f.name, s); }
  }

  /** An assumption about an array that is not there. */
  lemma DanglingIsUndeclared(opt: Options, prog: seq<Stmt>, insts: seq<Instance>, inst: Instance)
    requires Nest(opt, prog, insts) && inst in insts && Dangling(opt, inst.0)
    ensures !WellDeclared(prog)
  {
    var (info, p) := inst;
    var inf, f :| inf in info.inferred && f in info.fields && inf.IndexArray? && f.name == inf.slots && f.kind.PointerTo?
      && !HasItems(f.kind.pointee);
    assert Covered(prog, opt, inst);
    var i := DanglingAssumed(opt, prog, inst, inf);
    forall m ensures Declare(Storage(Sub(p, inf.slots), ItemsOf), m) !in prog[..i] {
      NeverDeclared(opt, prog, insts, inst, f, m);
    }
  }

  lemma DanglingAssumed(opt: Options, prog: seq<Stmt>, inst: Instance, inf: Inferred) returns (i: nat)
    requires Inferable(inst.0) && Covered(prog, opt, inst) && opt.inferInvariants && inf in inst.0.inferred &&
      inf.IndexArray?
    ensures i < |prog| && prog[i].Assume? && prog[i].f.Indexes? && prog[i].f.o == Storage(Sub(inst.1, inf.slots), ItemsOf)
  {
    var (info, p) := inst;
    assert InferenceOk(inf, info);
    var c := Indexes(Storage(Sub(p, inf.slots), ItemsOf), opt.cap, Sub(p, info.pairs[inf.target]), inf.sentinel);
    IndexConstrained(opt, info, inf.slots, inf.target, inf.sentinel, p);
    i :| 0 <= i < |prog| && prog[i] == Assume(c);
  }

  // ------------------------------------------------------------ the theorems

  /** The builder leaves nothing to check exactly when some struct in the nest has a field that comes to 0 and that it
      cannot do with at 0, or an index array that is not there. */
  lemma VacuousIff(env: Env, opt: Options, info: StructInfo, seen: set<string>, s: State)
    requires AllInferable(env) && Inferable(info) && opt.cap >= 1
    ensures VacuousFrom(EmitStruct(env, opt, info, Loc(Root, []), 0, seen), s)
       <==> exists inst <- Instances(env, opt, info, Loc(Root, []), 0, seen) :: Impossible(opt,
         inst.0) || Dangling(opt, inst.0)
  {
    var prog := EmitStruct(env, opt, info, Loc(Root, []), 0, seen);
    var insts := Instances(env, opt, info, Loc(Root, []), 0, seen);
    IsNest(env, opt, info, seen);
    if inst :| inst in insts && Dangling(opt, inst.0) {
      DanglingIsUndeclared(opt, prog, insts, inst);
    } else {
      VacuousProgramIff(env, opt, info, seen, s);
      ContradictoryIff(opt, prog, insts);
    }
  }

  lemma {:induction false} NothingZero(opt: Options, info: StructInfo, x: string, n: nat)
    requires forall y :: !CountsStructs(info, y)
    ensures !ZeroIn(opt, info, x, n)
    decreases n
  {
    if n > 0 && exists y :: KeptWithin(opt, info, x, y) && ZeroIn(opt, info, y, n - 1) {
      var y :| KeptWithin(opt, info, x, y) && ZeroIn(opt, info, y, n - 1);
      NothingZero(opt, info, y, n - 1);
    }
  }

  /** With no counted table of structs, and index arrays of scalars, characters or pointers, there is always an object. */
  lemma NeverVacuousByItself(env: Env, opt: Options, info: StructInfo, seen: set<string>, s: State)
    requires AllInferable(env) && Inferable(info) && opt.cap >= 1
    requires forall inst <- Instances(env, opt, info, Loc(Root, []), 0, seen) ::
      !Dangling(opt, inst.0) && forall x :: !CountsStructs(inst.0, x)
    ensures !VacuousFrom(EmitStruct(env, opt, info, Loc(Root, []), 0, seen), s)
  {
    VacuousIff(env, opt, info, seen, s);
    forall inst | inst in Instances(env, opt, info, Loc(Root, []), 0, seen) ensures !Impossible(opt, inst.0) {
      forall x, n: nat ensures !ZeroIn(opt, inst.0, x, n) { NothingZero(opt, inst.0, x, n); }
    }
  }

  /** The case in real code: a table of structs counted by a field the library masks with.
      The builder nulls the table, forces the count to 0, and assumes it is a power of two. */
  lemma MaskedTableIsVacuous(env: Env, opt: Options, info: StructInfo, f: Field, seen: set<string>, s: State)
    requires AllInferable(env) && Inferable(info) && opt.cap >= 1 && opt.inferInvariants && !info.isUnion
    requires f in info.fields && f.kind.PointerTo? && f.kind.pointee.NamedPtr? && f.name in info.pairs
    requires Mask(info.pairs[f.name]) in info.inferred
    ensures VacuousFrom(EmitStruct(env, opt, info, Loc(Root, []), 0, seen), s)
  {
    var x := info.pairs[f.name];
    assert CountsStructs(info, x);
    assert ZeroIn(opt, info, x, 0);
    assert (info, Loc(Root, [])) in Instances(env, opt, info, Loc(Root, []), 0, seen);
    VacuousIff(env, opt, info, seen, s);
  }
}
