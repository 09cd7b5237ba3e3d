/** What the object builder's programs keep: nothing assumed or established earlier is written later, and a fill stays
    within its own object and the storage declared for it. */
module BuilderSoundness {
  import opened Wrappers
  import opened Target
  import opened ObjectBuilder

  // ------------------------------------------------------------ where things are

  function Nesting(o: Object): nat {
    match o
    case Root => 0
    case Storage(of, _) => 1 + Nesting(of.obj)
  }

  /** `l` is at or inside `p`, or in storage declared for something that is. */
  predicate Under(l: Loc, p: Loc)
    decreases Nesting(l.obj)
  {
    (l.obj == p.obj && p.path <= l.path) || (l.obj.Storage? && Under(l.obj.of, p))
  }

  predicate RegionUnder(r: Region, p: Loc) {
    match r
    case Val(l) => Under(l, p)
    case Cells(o) => o.Storage? && Under(o.of, p)
    case Extent(o) => o.Storage? && Under(o.of, p)
  }

  ghost predicate StmtUnder(s: Stmt, p: Loc) {
    forall r <- Writes(s) + Pins(s) :: RegionUnder(r, p)
  }

  ghost predicate Within(prog: seq<Stmt>, p: Loc) {
    forall s <- prog :: StmtUnder(s, p)
  }

  lemma {:induction false} UnderIsDeeper(l: Loc, p: Loc)
    requires Under(l, p)
    ensures Nesting(l.obj) >= Nesting(p.obj)
    ensures Nesting(l.obj) == Nesting(p.obj) ==> l.obj == p.obj && p.path <= l.path
    decreases Nesting(l.obj)
  {
    if !(l.obj == p.obj && p.path <= l.path) {
      UnderIsDeeper(l.obj.of, p);
    }
  }

  /** Nothing is under two different fields of the same object. */
  lemma {:induction false} FieldsSeparate(l: Loc, p: Loc, f: string, g: string)
    requires Under(l, Sub(p, f)) && Under(l, Sub(p, g))
    ensures f == g
    decreases Nesting(l.obj)
  {
    UnderIsDeeper(l, Sub(p, f));
    UnderIsDeeper(l, Sub(p, g));
    if Nesting(l.obj) == Nesting(p.obj) {
      assert l.path[|p.path|] == f && l.path[|p.path|] == g;
    } else {
      FieldsSeparate(l.obj.of, p, f, g);
    }
  }

  lemma {:induction false} UnderTransitive(l: Loc, q: Loc, p: Loc)
    requires Under(l, q) && Under(q, p)
    ensures Under(l, p)
    decreases Nesting(l.obj)
  {
    if l.obj == q.obj && q.path <= l.path {
      if !(q.obj == p.obj && p.path <= q.path) {
        assert Under(l.obj.of, p);
      }
    } else {
      UnderTransitive(l.obj.of, q, p);
    }
  }

  lemma RegionTransitive(r: Region, q: Loc, p: Loc)
    requires RegionUnder(r, q) && Under(q, p)
    ensures RegionUnder(r, p)
  {
    match r
    case Val(l) => UnderTransitive(l, q, p);
    case Cells(o) => UnderTransitive(o.of, q, p);
    case Extent(o) => UnderTransitive(o.of, q, p);
  }

  lemma WithinTransitive(prog: seq<Stmt>, q: Loc, p: Loc)
    requires Within(prog, q) && Under(q, p)
    ensures Within(prog, p)
  {
    forall s, r | s in prog && r in Writes(s) + Pins(s)
      ensures RegionUnder(r, p)
    {
      assert StmtUnder(s, q);
      RegionTransitive(r, q, p);
    }
  }

  lemma RegionsSeparate(r: Region, p: Loc, f: string, g: string)
    requires RegionUnder(r, Sub(p, f)) && RegionUnder(r, Sub(p, g))
    ensures f == g
  {
    match r
    case Val(l) => FieldsSeparate(l, p, f, g);
    case Cells(o) => FieldsSeparate(o.of, p, f, g);
    case Extent(o) => FieldsSeparate(o.of, p, f, g);
  }

  // ------------------------------------------------------------ the footprint of a fill

  lemma CountedWithin(pointee: Pointee, target: Loc, counter: Loc, cap: nat)
    ensures Within(Counted(pointee, target, counter, cap).0, target)
    ensures forall r <- Mentions(Counted(pointee, target, counter, cap).1) :: r == Val(counter)
  {
  }

  lemma {:induction false} EmitPointerWithin(env: Env, opt: Options, pointee: Pointee, target: Loc, depth: nat,
      seen: set<string>)
    ensures Within(EmitPointer(env, opt, pointee, target, depth, seen), target)
    decreases Left(opt, depth), env.structs.Keys - seen, 0
  {
    var o := Storage(target, TargetOf);
    if depth < opt.maxDepth && pointee.NamedPtr? && BuiltAs(env, pointee.name).Some? {
      var built := BuiltAs(env, pointee.name).value;
      var inner := EmitStruct(env, opt, env.structs[built], Loc(o, []), depth + 1, seen + {Marked(env, pointee)});
      EmitStructWithin(env, opt, env.structs[built], Loc(o, []), depth + 1, seen + {Marked(env, pointee)});
      WithinTransitive(inner, Loc(o, []), target);
      assert Within([Declare(o, 1)], target) && Within([SetAddr(target, o)], target);
    }
  }

  lemma {:induction false} EmitFieldWithin(env: Env, opt: Options, info: StructInfo, f: Field, p: Loc, depth: nat,
      seen: set<string>)
    ensures Within(EmitField(env, opt, info, f, p, depth, seen), Sub(p, f.name))
    decreases Left(opt, depth), env.structs.Keys - seen, 1
  {
    match f.kind
    case PointerTo(pointee) =>
      if f.name !in info.pairs {
        EmitPointerWithin(env, opt, pointee, Sub(p, f.name), depth, seen);
      } else {
        CountedWithin(pointee, Sub(p, f.name), Sub(p, info.pairs[f.name]), opt.cap);
      }
    case Named(name) =>
      if name in env.structs && name !in seen {
        EmitStructWithin(env, opt, env.structs[name], Sub(p, f.name), depth, seen + {name});
      }
    case _ =>
  }

  lemma {:induction false} EmitFieldsWithin(env: Env, opt: Options, info: StructInfo, k: nat, p: Loc, depth: nat,
      seen: set<string>)
    requires k <= |info.fields|
    ensures Within(EmitFields(env, opt, info, k, p, depth, seen), p)
    decreases Left(opt, depth), env.structs.Keys - seen, 2, k
  {
    if k > 0 {
      var f := info.fields[k - 1];
      EmitFieldsWithin(env, opt, info, k - 1, p, depth, seen);
      EmitFieldWithin(env, opt, info, f, p, depth, seen);
      WithinTransitive(EmitField(env, opt, info, f, p, depth, seen), Sub(p, f.name), p);
    }
  }

  lemma {:induction false} EmitCallbacksWithin(names: seq<string>, p: Loc)
    ensures Within(EmitCallbacks(names, p), p)
    decreases names
  {
    if names != [] {
      EmitCallbacksWithin(names[1..], p);
    }
  }

  /** A constraint mentions only fields of the struct itself, and the items of its own counted pointers. */
  ghost predicate Own(f: Formula, p: Loc) {
    forall r <- Mentions(f) ::
      (exists x :: r == Val(Sub(p, x))) || (exists x :: r == Cells(Storage(Sub(p, x), ItemsOf)))
  }

  lemma {:induction false} CountBoundsOwn(opt: Options, info: StructInfo, k: nat, p: Loc)
    requires k <= |info.fields|
    ensures forall f <- CountBounds(opt, info, k, p) :: Own(f, p)
    decreases k
  {
    if k > 0 {
      CountBoundsOwn(opt, info, k - 1, p);
    }
  }

  lemma {:induction false} LengthBoundsOwn(names: seq<string>, counts: set<string>, p: Loc, cap: nat)
    ensures forall f <- LengthBounds(names, counts, p, cap) :: Own(f, p)
    decreases names
  {
    if names != [] {
      LengthBoundsOwn(names[1..], counts, p, cap);
    }
  }

  lemma {:induction false} InferredBoundsOwn(inferred: seq<Inferred>, info: StructInfo, p: Loc, cap: nat)
    ensures forall f <- InferredBounds(inferred, info, p, cap) :: Own(f, p)
    decreases inferred
  {
    if inferred != [] {
      InferredBoundsOwn(inferred[1..], info, p, cap);
    }
  }

  lemma {:induction false} CursorBoundsOwn(names: seq<string>, counts: set<string>, length: string, p: Loc)
    ensures forall f <- CursorBounds(names, counts, length, p) :: Own(f, p)
    decreases names
  {
    if names != [] {
      CursorBoundsOwn(names[1..], counts, length, p);
    }
  }

  lemma ConstraintsOwn(opt: Options, info: StructInfo, p: Loc)
    ensures forall f <- Constraints(opt, info, p) :: Own(f, p)
  {
    var counts := info.pairs.Values;
    CountBoundsOwn(opt, info, |info.fields|, p);
    LengthBoundsOwn(info.lengthNamed, counts, p, opt.cap);
    InferredBoundsOwn(info.inferred, info, p, opt.cap);
    if exists c <- counts :: counts == {c} {
      var c :| c in counts && counts == {c};
      CursorBoundsOwn(info.cursorNamed, counts, c, p);
    }
  }

  lemma OwnIsUnder(fs: seq<Formula>, p: Loc)
    requires forall f <- fs :: Own(f, p)
    ensures Within(Assumes(fs), p)
  {
    forall s, r | s in Assumes(fs) && r in Writes(s) + Pins(s)
      ensures RegionUnder(r, p)
    {
      var k :| 0 <= k < |fs| && s == Assume(fs[k]);
      assert Own(fs[k], p);
    }
  }

  lemma {:induction false} EmitStructWithin(env: Env, opt: Options, info: StructInfo, p: Loc, depth: nat,
      seen: set<string>)
    ensures Within(EmitStruct(env, opt, info, p, depth, seen), p)
    decreases Left(opt, depth), env.structs.Keys - seen, 3
  {
    if !info.isUnion {
      EmitFieldsWithin(env, opt, info, |info.fields|, p, depth, seen);
      EmitCallbacksWithin(info.callbacks, p);
      ConstraintsOwn(opt, info, p);
      OwnIsUnder(Constraints(opt, info, p), p);
    }
  }

  // ------------------------------------------------------------------ stability

  /** No two members of a struct share a name. */
  ghost predicate Distinct(info: StructInfo) {
    && (forall i, j :: 0 <= i < j < |info.fields| ==> info.fields[i].name != info.fields[j].name)
    && (forall i, j :: 0 <= i < j < |info.callbacks| ==> info.callbacks[i] != info.callbacks[j])
    && (forall i, j :: 0 <= i < |info.fields| && 0 <= j < |info.callbacks| ==> info.fields[i].name != info.callbacks[j])
  }

  ghost predicate AllDistinct(env: Env) {
    forall n <- env.structs :: Distinct(env.structs[n])
  }

  ghost predicate Undisturbed(a: seq<Stmt>, b: seq<Stmt>) {
    forall s, t :: s in a && t in b ==> Writes(t) !! Pins(s)
  }

  lemma StableAppend(a: seq<Stmt>, b: seq<Stmt>)
    requires Stable(a) && Stable(b) && Undisturbed(a, b)
    ensures Stable(a + b)
  {
    var c := a + b;
    forall i, j | 0 <= i < j < |c|
      ensures Writes(c[j]) !! Pins(c[i])
    {
      if j < |a| {
        assert c[i] == a[i] && c[j] == a[j];
      } else if i >= |a| {
        assert c[i] == b[i - |a|] && c[j] == b[j - |a|];
      }
    }
  }

  /** Every statement belongs to one of the named fields of `p`. */
  ghost predicate WithinFields(prog: seq<Stmt>, p: Loc, names: set<string>) {
    forall s <- prog :: exists x <- names :: StmtUnder(s, Sub(p, x))
  }

  lemma SeparateFields(a: seq<Stmt>, b: seq<Stmt>, p: Loc, names: set<string>, g: string)
    requires WithinFields(a, p, names) && Within(b, Sub(p, g)) && g !in names
    ensures Undisturbed(a, b)
  {
    forall s, t | s in a && t in b
      ensures Writes(t) !! Pins(s)
    {
      var x :| x in names && StmtUnder(s, Sub(p, x));
      assert StmtUnder(t, Sub(p, g));
      forall r | r in Writes(t) && r in Pins(s)
        ensures false
      {
        RegionsSeparate(r, p, x, g);
      }
    }
  }

  function FieldNames(info: StructInfo, k: nat): set<string>
    requires k <= |info.fields|
  {
    set i | 0 <= i < k :: info.fields[i].name
  }

  lemma {:induction false} EmitFieldsWithinFields(env: Env, opt: Options, info: StructInfo, k: nat, p: Loc,
      depth: nat, seen: set<string>)
    requires k <= |info.fields|
    ensures WithinFields(EmitFields(env, opt, info, k, p, depth, seen), p, FieldNames(info, k))
    decreases k
  {
    if k > 0 {
      EmitFieldsWithinFields(env, opt, info, k - 1, p, depth, seen);
      EmitFieldWithin(env, opt, info, info.fields[k - 1], p, depth, seen);
      assert info.fields[k - 1].name in FieldNames(info, k);
      assert forall x <- FieldNames(info, k - 1) :: x in FieldNames(info, k);
    }
  }

  lemma {:induction false} CallbacksStable(before: seq<Stmt>, p: Loc, names: set<string>, callbacks: seq<string>)
    requires Stable(before) && WithinFields(before, p, names)
    requires forall i :: 0 <= i < |callbacks| ==> callbacks[i] !in names
    requires forall i, j :: 0 <= i < j < |callbacks| ==> callbacks[i] != callbacks[j]
    ensures Stable(before + EmitCallbacks(callbacks, p))
    decreases callbacks
  {
    if callbacks == [] {
      assert before + EmitCallbacks(callbacks, p) == before;
    } else {
      var one := [SetStub(Sub(p, callbacks[0]))];
      assert Within(one, Sub(p, callbacks[0]));
      SeparateFields(before, one, p, names, callbacks[0]);
      StableAppend(before, one);
      var names' := names + {callbacks[0]};
      assert StmtUnder(one[0], Sub(p, callbacks[0]));
      assert WithinFields(before + one, p, names');
      CallbacksStable(before + one, p, names', callbacks[1..]);
      assert before + EmitCallbacks(callbacks, p) == before + one + EmitCallbacks(callbacks[1..], p);
    }
  }

  /** What fills the storage of a pointer neither declares that storage nor touches the pointer. */
  lemma TargetApart(inner: seq<Stmt>, target: Loc)
    requires Within(inner, Loc(Storage(target, TargetOf), []))
    ensures var o := Storage(target, TargetOf);
      Undisturbed([Declare(o, 1)], inner) && Undisturbed([Declare(o, 1)] + inner, [SetAddr(target, o)])
  {
    var o := Storage(target, TargetOf);
    forall s | s in inner
      ensures Extent(o) !in Writes(s) && Val(target) !in Pins(s)
    {
      assert StmtUnder(s, Loc(o, []));
      if Under(target, Loc(o, [])) {
        UnderIsDeeper(target, Loc(o, []));
      }
      assert !RegionUnder(Extent(o), Loc(o, [])) && !RegionUnder(Val(target), Loc(o, []));
    }
  }

  lemma {:induction false} EmitPointerStable(env: Env, opt: Options, pointee: Pointee, target: Loc, depth: nat,
      seen: set<string>)
    requires AllDistinct(env)
    ensures Stable(EmitPointer(env, opt, pointee, target, depth, seen))
    decreases Left(opt, depth), env.structs.Keys - seen, 0
  {
    var o := Storage(target, TargetOf);
    if depth < opt.maxDepth && pointee.NamedPtr? && BuiltAs(env, pointee.name).Some? {
      var built := BuiltAs(env, pointee.name).value;
      var inner := EmitStruct(env, opt, env.structs[built], Loc(o, []), depth + 1, seen + {Marked(env, pointee)});
      EmitStructStable(env, opt, env.structs[built], Loc(o, []), depth + 1, seen + {Marked(env, pointee)});
      EmitStructWithin(env, opt, env.structs[built], Loc(o, []), depth + 1, seen + {Marked(env, pointee)});
      TargetApart(inner, target);
      StableAppend([Declare(o, 1)], inner);
      StableAppend([Declare(o, 1)] + inner, [SetAddr(target, o)]);
    }
  }

  lemma {:induction false} EmitFieldStable(env: Env, opt: Options, info: StructInfo, f: Field, p: Loc, depth: nat,
      seen: set<string>)
    requires AllDistinct(env)
    ensures Stable(EmitField(env, opt, info, f, p, depth, seen))
    decreases Left(opt, depth), env.structs.Keys - seen, 1
  {
    match f.kind
    case PointerTo(pointee) =>
      if f.name !in info.pairs {
        EmitPointerStable(env, opt, pointee, Sub(p, f.name), depth, seen);
      }
    case Named(name) =>
      if name in env.structs && name !in seen {
        EmitStructStable(env, opt, env.structs[name], Sub(p, f.name), depth, seen + {name});
      }
    case _ =>
  }

  lemma {:induction false} EmitFieldsStable(env: Env, opt: Options, info: StructInfo, k: nat, p: Loc, depth: nat,
      seen: set<string>)
    requires AllDistinct(env) && Distinct(info) && k <= |info.fields|
    ensures Stable(EmitFields(env, opt, info, k, p, depth, seen))
    decreases Left(opt, depth), env.structs.Keys - seen, 2, k
  {
    if k > 0 {
      var f := info.fields[k - 1];
      EmitFieldsStable(env, opt, info, k - 1, p, depth, seen);
      EmitFieldStable(env, opt, info, f, p, depth, seen);
      EmitFieldsWithinFields(env, opt, info, k - 1, p, depth, seen);
      EmitFieldWithin(env, opt, info, f, p, depth, seen);
      SeparateFields(EmitFields(env, opt, info, k - 1, p, depth, seen), EmitField(env, opt, info, f, p, depth, seen),
        p, FieldNames(info, k - 1), f.name);
      StableAppend(EmitFields(env, opt, info, k - 1, p, depth, seen), EmitField(env, opt, info, f, p, depth, seen));
    }
  }

  /** Nothing an assumption mentions, and nothing assigned, is written again later in the program. */
  lemma {:induction false} EmitStructStable(env: Env, opt: Options, info: StructInfo, p: Loc, depth: nat,
      seen: set<string>)
    requires AllDistinct(env) && Distinct(info)
    ensures Stable(EmitStruct(env, opt, info, p, depth, seen))
    decreases Left(opt, depth), env.structs.Keys - seen, 3
  {
    if !info.isUnion {
      var fields := EmitFields(env, opt, info, |info.fields|, p, depth, seen);
      EmitFieldsStable(env, opt, info, |info.fields|, p, depth, seen);
      EmitFieldsWithinFields(env, opt, info, |info.fields|, p, depth, seen);
      CallbacksStable(fields, p, FieldNames(info, |info.fields|), info.callbacks);
      StableAppend(fields + EmitCallbacks(info.callbacks, p), Assumes(Constraints(opt, info, p)));
    }
  }
}
