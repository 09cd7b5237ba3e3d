/** What the builder's programs make: the object each field of a nest is when the function is called, exactly the bounds
    assumed of it, and no write past the end of what is declared. */
module BuilderObjects {
  import opened Wrappers
  import opened Target
  import opened ObjectBuilder
  import opened BuilderSoundness

  // ------------------------------------------------------------ within bounds

  lemma FillsNothing(st: Stmt)
    requires !st.FillNondet? && !st.FillZero?
    ensures NeverStrays([st])
  {
    forall i: nat, ch: Choices, s: State ensures Strays([st], i, ch, s) == None {
      if Effect(st, i, ch, s).Some? { assert [st][1..] == []; }
    }
  }

  /** Storage declared, filled, and pointed to. */
  lemma FilledInBounds(o: Object, extent: nat, fill: Stmt, last: Stmt)
    requires match fill
      case FillNondet(o', n, terminated) => o' == o && n + (if terminated then 1 else 0) <= extent
      case FillZero(o', n) => o' == o && n <= extent
      case _ => false
    requires last.SetAddr?
    ensures NeverStrays([Declare(o, extent), fill, last])
  {
    forall i: nat, ch: Choices, s: State ensures Strays([Declare(o, extent), fill, last], i, ch, s) == None {
      var declared := Effect(Declare(o, extent), i, ch, s).value;
      var filled := Effect(fill, i + 1, ch, declared).value;
      FillsNothing(last);
      assert Strays([last], i + 2, ch, filled) == None;
      assert [fill, last][1..] == [last];
      assert Strays([fill, last], i + 1, ch, declared) == None;
      assert [Declare(o, extent), fill, last][1..] == [fill, last];
    }
  }

  lemma NothingStrays()
    ensures NeverStrays([])
  {
  }

  lemma CountedInBounds(pointee: Pointee, target: Loc, counter: Loc, cap: nat)
    ensures NeverStrays(Counted(pointee, target, counter, cap).0)
  {
    match pointee
    case VoidPtr =>
      var o := Storage(target, BytesOf);
      FilledInBounds(o, cap, FillNondet(o, cap, false), SetAddr(target, o));
    case ScalarPtr | StringPtr =>
      var o := Storage(target, ItemsOf);
      FilledInBounds(o, cap, FillNondet(o, cap, false), SetAddr(target, o));
    case PointerPtr =>
      var o := Storage(target, ItemsOf);
      FilledInBounds(o, cap, FillZero(o, cap), SetAddr(target, o));
    case NamedPtr(_, _) => FillsNothing(SetNull(target));
  }

  lemma {:induction false} PointerInBounds(env: Env, opt: Options, pointee: Pointee, target: Loc, depth: nat,
      seen: set<string>)
    ensures NeverStrays(EmitPointer(env, opt, pointee, target, depth, seen))
    decreases Left(opt, depth), env.structs.Keys - seen, 0
  {
    var o := Storage(target, TargetOf);
    if depth < opt.maxDepth && pointee.NamedPtr? && BuiltAs(env, pointee.name).Some? {
      var built := BuiltAs(env, pointee.name).value;
      var inner := EmitStruct(env, opt, env.structs[built], Loc(o, []), depth + 1, seen + {Marked(env, pointee)});
      StructInBounds(env, opt, env.structs[built], Loc(o, []), depth + 1, seen + {Marked(env, pointee)});
      FillsNothing(Declare(o, 1));
      FillsNothing(SetAddr(target, o));
      NeitherStrays([Declare(o, 1)], inner);
      NeitherStrays([Declare(o, 1)] + inner, [SetAddr(target, o)]);
    } else {
      FillsNothing(SetNull(target));
      FilledInBounds(o, opt.cap + 1, FillNondet(o, opt.cap, true), SetAddr(target, o));
      FilledInBounds(o, opt.cap, FillNondet(o, opt.cap, false), SetAddr(target, o));
      FilledInBounds(o, 1, FillNondet(o, 1, false), SetAddr(target, o));
    }
  }

  lemma {:induction false} FieldInBounds(env: Env, opt: Options, info: StructInfo, f: Field, p: Loc, depth: nat,
      seen: set<string>)
    ensures NeverStrays(EmitField(env, opt, info, f, p, depth, seen))
    decreases Left(opt, depth), env.structs.Keys - seen, 1
  {
    var target := Sub(p, f.name);
    match f.kind
    case PointerTo(pointee) =>
      if f.name in info.pairs {
        CountedInBounds(pointee, target, Sub(p, info.pairs[f.name]), opt.cap);
      } else {
        PointerInBounds(env, opt, pointee, target, depth, seen);
      }
    case ArrayOf(scalar, extent) =>
      NothingStrays();
      if extent.Some? { FillsNothing(HavocArray(target, extent.value)); }
    case Scalar(_) => FillsNothing(Havoc(target));
    case Callback | HookTable => FillsNothing(SetStub(target));
    case Named(name) =>
      NothingStrays();
      if name in env.structs && name !in seen {
        StructInBounds(env, opt, env.structs[name], target, depth, seen + {name});
      }
  }

  lemma {:induction false} FieldsInBounds(env: Env, opt: Options, info: StructInfo, k: nat, p: Loc, depth: nat,
      seen: set<string>)
    requires k <= |info.fields|
    ensures NeverStrays(EmitFields(env, opt, info, k, p, depth, seen))
    decreases Left(opt, depth), env.structs.Keys - seen, 2, k
  {
    NothingStrays();
    if k > 0 {
      FieldsInBounds(env, opt, info, k - 1, p, depth, seen);
      FieldInBounds(env, opt, info, info.fields[k - 1], p, depth, seen);
      NeitherStrays(EmitFields(env, opt, info, k - 1, p, depth, seen),
        EmitField(env, opt, info, info.fields[k - 1], p, depth, seen));
    }
  }

  lemma {:induction false} CallbacksInBounds(names: seq<string>, p: Loc)
    ensures NeverStrays(EmitCallbacks(names, p))
    decreases names
  {
    NothingStrays();
    if names != [] {
      FillsNothing(SetStub(Sub(p, names[0])));
      CallbacksInBounds(names[1..], p);
      NeitherStrays([SetStub(Sub(p, names[0]))], EmitCallbacks(names[1..], p));
    }
  }

  lemma {:induction false} AssumesInBounds(fs: seq<Formula>)
    ensures NeverStrays(Assumes(fs))
    decreases fs
  {
    NothingStrays();
    if fs != [] {
      FillsNothing(Assume(fs[0]));
      AssumesInBounds(fs[1..]);
      NeitherStrays([Assume(fs[0])], Assumes(fs[1..]));
    }
  }

  /** No execution of the builder's program writes past the end of what it declares. */
  lemma {:induction false} StructInBounds(env: Env, opt: Options, info: StructInfo, p: Loc, depth: nat, seen: set<string>)
    ensures NeverStrays(EmitStruct(env, opt, info, p, depth, seen))
    decreases Left(opt, depth), env.structs.Keys - seen, 3
  {
    NothingStrays();
    if !info.isUnion {
      var fields := EmitFields(env, opt, info, |info.fields|, p, depth, seen);
      FieldsInBounds(env, opt, info, |info.fields|, p, depth, seen);
      CallbacksInBounds(info.callbacks, p);
      AssumesInBounds(Constraints(opt, info, p));
      NeitherStrays(fields, EmitCallbacks(info.callbacks, p));
      NeitherStrays(fields + EmitCallbacks(info.callbacks, p), Assumes(Constraints(opt, info, p)));
    }
  }

  // ------------------------------------------------------------ exactly these bounds

  /** A count is within the array length, or 0 where there is no array. */
  ghost predicate CountMeets(s: State, opt: Options, info: StructInfo, f: Field, p: Loc) {
    f.kind.PointerTo? && f.name in info.pairs ==>
      var count := AsInt(s.vals(Sub(p, info.pairs[f.name])));
      if f.kind.pointee.NamedPtr? then count == 0 else count <= opt.cap
  }

  ghost predicate InferredMeets(s: State, opt: Options, info: StructInfo, inferred: Inferred, p: Loc) {
    match inferred
    case Growth(used, capacity) => AsInt(s.vals(Sub(p, used))) <= AsInt(s.vals(Sub(p, capacity)))
    case Mask(f) => IsPow2(AsInt(s.vals(Sub(p, f))))
    case IndexArray(slots, target, sentinel) =>
      target in info.pairs ==>
        forall k: nat :: k < opt.cap ==>
          var element := s.cells(Storage(Sub(p, slots), ItemsOf), k);
          (sentinel.Some? && element == sentinel.value) || element < AsInt(s.vals(Sub(p, info.pairs[target])))
  }

  /** What is asked of one struct: its counts; its other lengths, if any is a count; what was inferred, if that is wanted;
      and its cursors, if it has one count alone. */
  ghost predicate Meets(s: State, opt: Options, info: StructInfo, p: Loc) {
    && (forall f <- info.fields :: CountMeets(s, opt, info, f, p))
    && (info.pairs != map[] ==>
          forall n <- info.lengthNamed :: n !in info.pairs.Values ==> AsInt(s.vals(Sub(p, n))) <= opt.cap)
    && (opt.inferInvariants ==> forall i <- info.inferred :: InferredMeets(s, opt, info, i, p))
    && CursorsMeet(s, info, p)
  }

  ghost predicate CursorsMeet(s: State, info: StructInfo, p: Loc) {
    forall c | c in info.pairs.Values && info.pairs.Values == {c}, n <- info.cursorNamed :: n != c ==>
      AsInt(s.vals(Sub(p, n))) <= AsInt(s.vals(Sub(p, c)))
  }

  ghost predicate AllHold(fs: seq<Formula>, s: State) { forall f <- fs :: Holds(f, s) }

  lemma AllHoldAppend(a: seq<Formula>, b: seq<Formula>, s: State)
    ensures AllHold(a + b, s) <==> AllHold(a, s) && AllHold(b, s)
  {
    if AllHold(a + b, s) {
      forall f | f in a ensures Holds(f, s) { assert f in a + b; }
      forall f | f in b ensures Holds(f, s) { assert f in a + b; }
    }
  }

  lemma AllHoldOne(f: Formula, s: State)
    ensures AllHold([f], s) <==> Holds(f, s)
  {
    assert f in [f];
  }

  lemma {:induction false} CountBoundsIff(s: State, opt: Options, info: StructInfo, k: nat, p: Loc)
    requires k <= |info.fields|
    ensures AllHold(CountBounds(opt, info, k, p), s) <==> forall f <- info.fields[..k] :: CountMeets(s, opt, info, f, p)
    decreases k
  {
    if k > 0 {
      CountBoundsIff(s, opt, info, k - 1, p);
      AllHoldAppend(CountBounds(opt, info, k - 1, p), CountBound(opt, info, info.fields[k - 1], p), s);
      CountBoundIff(s, opt, info, info.fields[k - 1], p);
      assert info.fields[..k] == info.fields[..k - 1] + [info.fields[k - 1]];
    }
  }

  lemma CountBoundIff(s: State, opt: Options, info: StructInfo, f: Field, p: Loc)
    ensures AllHold(CountBound(opt, info, f, p), s) <==> CountMeets(s, opt, info, f, p)
  {
    if f.kind.PointerTo? && f.name in info.pairs {
      var bound := Counted(f.kind.pointee, Sub(p, f.name), Sub(p, info.pairs[f.name]), opt.cap).1;
      AllHoldOne(bound, s);
    }
  }

  ghost predicate LengthMeets(s: State, n: string, counts: set<string>, p: Loc, cap: nat) {
    n in counts || AsInt(s.vals(Sub(p, n))) <= cap
  }

  lemma {:induction false} LengthBoundsIff(s: State, names: seq<string>, counts: set<string>, p: Loc, cap: nat)
    ensures AllHold(LengthBounds(names, counts, p, cap), s) <==> forall n <- names :: LengthMeets(s, n, counts, p, cap)
    decreases names
  {
    if names != [] {
      LengthBoundsIff(s, names[1..], counts, p, cap);
      LengthBoundIff(s, names[0], names[1..], counts, p, cap);
      assert names == [names[0]] + names[1..];
    }
  }

  lemma LengthBoundIff(s: State, n: string, rest: seq<string>, counts: set<string>, p: Loc, cap: nat)
    ensures AllHold(LengthBounds([n] + rest, counts, p, cap), s)
       <==> LengthMeets(s, n, counts, p, cap) && AllHold(LengthBounds(rest, counts, p, cap), s)
  {
    assert ([n] + rest)[1..] == rest;
    AllHoldOne(AtMost(Sub(p, n), cap), s);
    AllHoldAppend(if n in counts then [] else [AtMost(Sub(p, n), cap)], LengthBounds(rest, counts, p, cap), s);
  }

  lemma {:induction false} InferredBoundsIff(s: State, opt: Options, inferred: seq<Inferred>, info: StructInfo, p: Loc)
    ensures AllHold(InferredBounds(inferred, info, p, opt.cap), s)
       <==> forall i <- inferred :: InferredMeets(s, opt, info, i, p)
    decreases inferred
  {
    if inferred != [] {
      assert inferred == [inferred[0]] + inferred[1..];
      InferredBoundsIff(s, opt, inferred[1..], info, p);
      InferredBoundIff(s, opt, inferred[0], inferred[1..], info, p);
    }
  }

  lemma InferredBoundIff(s: State, opt: Options, inferred: Inferred, rest: seq<Inferred>, info: StructInfo, p: Loc)
    ensures AllHold(InferredBounds([inferred] + rest, info, p, opt.cap), s)
       <==> InferredMeets(s, opt, info, inferred, p) && AllHold(InferredBounds(rest, info, p, opt.cap), s)
  {
    var more := InferredBounds(rest, info, p, opt.cap);
    assert ([inferred] + rest)[1..] == rest;
    match inferred
    case Growth(used, capacity) =>
      AllHoldOne(NotAbove(Sub(p, used), Sub(p, capacity)), s);
      AllHoldAppend([NotAbove(Sub(p, used), Sub(p, capacity))], more, s);
    case Mask(f) =>
      AllHoldOne(PowerOfTwo(Sub(p, f)), s);
      AllHoldAppend([PowerOfTwo(Sub(p, f))], more, s);
    case IndexArray(slots, target, sentinel) =>
      if target in info.pairs {
        var f := Indexes(Storage(Sub(p, slots), ItemsOf), opt.cap, Sub(p, info.pairs[target]), sentinel);
        AllHoldOne(f, s);
        AllHoldAppend([f], more, s);
      } else {
        AllHoldAppend([], more, s);
      }
  }

  ghost predicate CursorMeets(s: State, n: string, counts: set<string>, length: string, p: Loc) {
    n in counts || AsInt(s.vals(Sub(p, n))) <= AsInt(s.vals(Sub(p, length)))
  }

  lemma {:induction false} CursorBoundsIff(s: State, names: seq<string>, counts: set<string>, length: string, p: Loc)
    ensures AllHold(CursorBounds(names, counts, length, p), s) <==> forall n <- names :: CursorMeets(s, n, counts, length, p)
    decreases names
  {
    if names != [] {
      CursorBoundsIff(s, names[1..], counts, length, p);
      CursorBoundIff(s, names[0], names[1..], counts, length, p);
      assert names == [names[0]] + names[1..];
    }
  }

  lemma CursorBoundIff(s: State, n: string, rest: seq<string>, counts: set<string>, length: string, p: Loc)
    ensures AllHold(CursorBounds([n] + rest, counts, length, p), s)
       <==> CursorMeets(s, n, counts, length, p) && AllHold(CursorBounds(rest, counts, length, p), s)
  {
    assert ([n] + rest)[1..] == rest;
    AllHoldOne(NotAbove(Sub(p, n), Sub(p, length)), s);
    AllHoldAppend(if n in counts then [] else [NotAbove(Sub(p, n), Sub(p, length))],
      CursorBounds(rest, counts, length, p), s);
  }

  /** The constraints of a struct are exactly what is asked of it. */
  lemma ConstraintsIff(s: State, opt: Options, info: StructInfo, p: Loc)
    ensures AllHold(Constraints(opt, info, p), s) <==> Meets(s, opt, info, p)
  {
    CountBoundsIff(s, opt, info, |info.fields|, p);
    assert info.fields[..|info.fields|] == info.fields;
    AllHoldAppend(CountBounds(opt, info, |info.fields|, p), OtherBounds(opt, info, p), s);
    OtherBoundsIff(s, opt, info, p);
  }

  lemma OtherBoundsIff(s: State, opt: Options, info: StructInfo, p: Loc)
    ensures AllHold(OtherBounds(opt, info, p), s) <==>
      && (info.pairs != map[] ==>
            forall n <- info.lengthNamed :: n !in info.pairs.Values ==> AsInt(s.vals(Sub(p, n))) <= opt.cap)
      && (opt.inferInvariants ==> forall i <- info.inferred :: InferredMeets(s, opt, info, i, p))
      && CursorsMeet(s, info, p)
  {
    var counts := info.pairs.Values;
    var lengths := if info.pairs != map[] then LengthBounds(info.lengthNamed, counts, p, opt.cap) else [];
    var inferred := if opt.inferInvariants then InferredBounds(info.inferred, info, p, opt.cap) else [];
    LengthBoundsIff(s, info.lengthNamed, counts, p, opt.cap);
    InferredBoundsIff(s, opt, info.inferred, info, p);
    if c :| c in counts && counts == {c} {
      var cursors := CursorBounds(info.cursorNamed, counts, c, p);
      CursorBoundsIff(s, info.cursorNamed, counts, c, p);
      assert forall d <- counts :: d == c;
      AllHoldAppend(lengths, inferred, s);
      AllHoldAppend(lengths + inferred, cursors, s);
    } else {
      AllHoldAppend(lengths, inferred, s);
      assert OtherBounds(opt, info, p) == lengths + inferred + [];
      AllHoldAppend(lengths + inferred, [], s);
    }
  }

  // ------------------------------------------------------------ every struct of the nest

  /** The struct behind a pointer. */
  ghost predicate PointeeMeets(env: Env, opt: Options, pointee: Pointee, target: Loc, depth: nat, seen: set<string>,
                               s: State)
    decreases Left(opt, depth), env.structs.Keys - seen, 0
  {
    depth < opt.maxDepth && pointee.NamedPtr? ==>
      var name, p := pointee.name, Loc(Storage(target, TargetOf), []);
      if name in env.owners && env.owners[name] in env.structs then
        NestMeets(env, opt, env.structs[env.owners[name]], p, depth + 1, seen + {env.owners[name]}, s)
      else name in env.structs ==> NestMeets(env, opt, env.structs[name], p, depth + 1, seen + {pointee.text}, s)
  }

  ghost predicate FieldMeets(env: Env, opt: Options, info: StructInfo, f: Field, p: Loc, depth: nat, seen: set<string>,
      s: State)
    decreases Left(opt, depth), env.structs.Keys - seen, 1
  {
    match f.kind
    case PointerTo(pointee) => f.name in info.pairs || PointeeMeets(env, opt, pointee, Sub(p, f.name), depth, seen, s)
    case Named(name) =>
      name in env.structs && name !in seen ==>
        NestMeets(env, opt, env.structs[name], Sub(p, f.name), depth, seen + {name}, s)
    case _ => true
  }

  /** What is asked of the struct, and of every struct nested in it by value or behind a pointer. */
  ghost predicate NestMeets(env: Env, opt: Options, info: StructInfo, p: Loc, depth: nat, seen: set<string>, s: State)
    decreases Left(opt, depth), env.structs.Keys - seen, 3
  {
    !info.isUnion ==>
      Meets(s, opt, info, p) && forall f <- info.fields :: FieldMeets(env, opt, info, f, p, depth, seen, s)
  }

  ghost predicate AllAssumed(prog: seq<Stmt>, s: State) { forall st <- prog :: st.Assume? ==> Holds(st.f, s) }

  lemma AllAssumedAppend(a: seq<Stmt>, b: seq<Stmt>, s: State)
    ensures AllAssumed(a + b, s) <==> AllAssumed(a, s) && AllAssumed(b, s)
  {
    if AllAssumed(a + b, s) {
      forall st | st in a ensures st.Assume? ==> Holds(st.f, s) { assert st in a + b; }
      forall st | st in b ensures st.Assume? ==> Holds(st.f, s) { assert st in a + b; }
    }
  }

  lemma {:induction false} AssumesIff(fs: seq<Formula>, s: State)
    ensures AllAssumed(Assumes(fs), s) <==> AllHold(fs, s)
  {
    if AllAssumed(Assumes(fs), s) {
      forall f | f in fs ensures Holds(f, s) {
        var k :| 0 <= k < |fs| && fs[k] == f;
        assert Assumes(fs)[k] in Assumes(fs);
      }
    }
  }

  lemma {:induction false} CallbacksAssumeNothing(names: seq<string>, p: Loc, s: State)
    ensures AllAssumed(EmitCallbacks(names, p), s)
    decreases names
  {
    if names != [] { CallbacksAssumeNothing(names[1..], p, s); }
  }

  lemma {:induction false} PointeeIff(env: Env, opt: Options, pointee: Pointee, target: Loc, depth: nat, seen: set<string>,
      s: State)
    ensures AllAssumed(EmitPointer(env, opt, pointee, target, depth, seen), s)
       <==> PointeeMeets(env, opt, pointee, target, depth, seen, s)
    decreases Left(opt, depth), env.structs.Keys - seen, 0
  {
    var o := Storage(target, TargetOf);
    if depth < opt.maxDepth && pointee.NamedPtr? && BuiltAs(env, pointee.name).Some? {
      var built := BuiltAs(env, pointee.name).value;
      var inner := EmitStruct(env, opt, env.structs[built], Loc(o, []), depth + 1, seen + {Marked(env, pointee)});
      NestIff(env, opt, env.structs[built], Loc(o, []), depth + 1, seen + {Marked(env, pointee)}, s);
      AssumedWithin(o, inner, target, s);
      PointeeIsNest(env, opt, pointee, target, depth, seen, s);
    } else {
      FlatPointeeIff(env, opt, pointee, target, depth, seen, s);
    }
  }

  lemma {:induction false} PointeeIsNest(env: Env, opt: Options, pointee: Pointee, target: Loc, depth: nat, seen: set<string>,
      s: State)
    requires depth < opt.maxDepth && pointee.NamedPtr? && BuiltAs(env, pointee.name).Some?
    ensures PointeeMeets(env, opt, pointee, target, depth, seen, s) <==>
              NestMeets(env, opt, env.structs[BuiltAs(env, pointee.name).value], Loc(Storage(target, TargetOf), []), depth + 1,
                seen + {Marked(env, pointee)}, s)
  {
  }

  lemma {:induction false} FlatPointeeIff(env: Env, opt: Options, pointee: Pointee, target: Loc, depth: nat, seen: set<string>,
      s: State)
    requires !(depth < opt.maxDepth && pointee.NamedPtr? && BuiltAs(env, pointee.name).Some?)
    ensures AllAssumed(EmitPointer(env, opt, pointee, target, depth, seen), s)
       <==> PointeeMeets(env, opt, pointee, target, depth, seen, s)
  {
    FlatAssumesNothing(EmitPointer(env, opt, pointee, target, depth, seen), s);
  }

  lemma AssumedWithin(o: Object, inner: seq<Stmt>, target: Loc, s: State)
    ensures AllAssumed([Declare(o, 1)] + inner + [SetAddr(target, o)], s) <==> AllAssumed(inner, s)
  {
    AllAssumedAppend([Declare(o, 1)], inner, s);
    AllAssumedAppend([Declare(o, 1)] + inner, [SetAddr(target, o)], s);
  }

  lemma FlatAssumesNothing(lines: seq<Stmt>, s: State)
    requires forall k :: 0 <= k < |lines| ==> !lines[k].Assume?
    ensures AllAssumed(lines, s)
  {
  }

  lemma {:induction false} FieldIff(env: Env, opt: Options, info: StructInfo, f: Field, p: Loc, depth: nat,
      seen: set<string>, s: State)
    ensures AllAssumed(EmitField(env, opt, info, f, p, depth, seen), s)
       <==> FieldMeets(env, opt, info, f, p, depth, seen, s)
    decreases Left(opt, depth), env.structs.Keys - seen, 1
  {
    match f.kind
    case PointerTo(pointee) =>
      if f.name !in info.pairs { PointeeIff(env, opt, pointee, Sub(p, f.name), depth, seen, s); }
    case Named(name) =>
      if name in env.structs && name !in seen {
        NestIff(env, opt, env.structs[name], Sub(p, f.name), depth, seen + {name}, s);
      }
    case _ =>
  }

  lemma {:induction false} FieldsIff(env: Env, opt: Options, info: StructInfo, k: nat, p: Loc, depth: nat,
      seen: set<string>, s: State)
    requires k <= |info.fields|
    ensures AllAssumed(EmitFields(env, opt, info, k, p, depth, seen), s)
       <==> forall f <- info.fields[..k] :: FieldMeets(env, opt, info, f, p, depth, seen, s)
    decreases Left(opt, depth), env.structs.Keys - seen, 2, k
  {
    if k > 0 {
      var f := info.fields[k - 1];
      FieldsIff(env, opt, info, k - 1, p, depth, seen, s);
      FieldIff(env, opt, info, f, p, depth, seen, s);
      AllAssumedAppend(EmitFields(env, opt, info, k - 1, p, depth, seen), EmitField(env, opt, info, f, p, depth, seen), s);
      AllOneMore(info.fields, k - 1, g => FieldMeets(env, opt, info, g, p, depth, seen, s));
    }
  }

  lemma AllOneMore(fs: seq<Field>, k: nat, meets: Field -> bool)
    requires k < |fs|
    ensures (forall f <- fs[..k + 1] :: meets(f)) <==> (forall f <- fs[..k] :: meets(f)) && meets(fs[k])
  {
    assert fs[..k + 1] == fs[..k] + [fs[k]];
  }

  /** The program's assumptions are exactly what is asked of the structs of the nest. */
  lemma {:induction false} NestIff(env: Env, opt: Options, info: StructInfo, p: Loc, depth: nat, seen: set<string>, s: State)
    ensures AllAssumed(EmitStruct(env, opt, info, p, depth, seen), s) <==> NestMeets(env, opt, info, p, depth, seen, s)
    decreases Left(opt, depth), env.structs.Keys - seen, 3
  {
    if !info.isUnion {
      var fields, callbacks := EmitFields(env, opt, info, |info.fields|, p, depth, seen), EmitCallbacks(info.callbacks, p);
      FieldsIff(env, opt, info, |info.fields|, p, depth, seen, s);
      assert info.fields[..|info.fields|] == info.fields;
      CallbacksAssumeNothing(info.callbacks, p, s);
      AssumesIff(Constraints(opt, info, p), s);
      ConstraintsIff(s, opt, info, p);
      AllAssumedAppend(fields, callbacks, s);
      AllAssumedAppend(fields + callbacks, Assumes(Constraints(opt, info, p)), s);
    }
  }

  /** The harness explores exactly the objects that meet what is asked of them: of what the solver may choose for the
      fields, nothing else is ruled out. */
  lemma ExploredIff(env: Env, opt: Options, info: StructInfo, seen: set<string>, ch: Choices, s: State)
    requires AllDistinct(env) && Distinct(info)
    ensures var prog := EmitStruct(env, opt, info, Loc(Root, []), 0, seen);
      Exec(prog, 0, ch, s).Some? <==> NestMeets(env, opt, info, Loc(Root, []), 0, seen, Leaves(prog, 0, ch, s))
  {
    var prog := EmitStruct(env, opt, info, Loc(Root, []), 0, seen);
    EmitStructStable(env, opt, info, Loc(Root, []), 0, seen);
    RunsIff(prog, 0, ch, s);
    NestIff(env, opt, info, Loc(Root, []), 0, seen, Leaves(prog, 0, ch, s));
  }

  // ------------------------------------------------------------ the object at the call

  /** A program, what the solver chose, and the state at the call. */
  datatype Call = Call(prog: seq<Stmt>, ch: Choices, s: State)

  /** The value is a choice of its own. */
  ghost predicate Free(x: Call, l: Loc) {
    exists i :: 0 <= i < |x.prog| && x.prog[i] == Havoc(l) && x.s.vals(l) == Int(x.ch(i, 0))
  }

  ghost predicate FreeElements(x: Call, l: Loc, n: nat) {
    exists i :: 0 <= i < |x.prog| && x.prog[i] == HavocArray(l, n) && x.s.vals(l) == Ints(Choose(x.ch, i, n))
  }

  /** ... and so is each of the first `n` elements of the storage. */
  ghost predicate FreeCells(x: Call, o: Object, n: nat) {
    exists i, t :: 0 <= i < |x.prog| && x.prog[i] == FillNondet(o, n, t) &&
      forall k: nat :: k < n ==> x.s.cells(o, k) == x.ch(i, k)
  }

  /** The pointer leads to storage of its own, with so many elements. */
  predicate LeadsTo(x: Call, l: Loc, o: Object, extent: nat) {
    x.s.vals(l) == Ptr(To(o)) && o.Storage? && o.of == l && x.s.extent(o) == extent
  }

  /** A counted pointer: null, with the count 0, if its elements have a name; otherwise an array, of null pointers or of free
      elements, that the count fits. */
  ghost predicate CountedBuilt(x: Call, opt: Options, pointee: Pointee, l: Loc, count: Loc) {
    if pointee.NamedPtr? then x.s.vals(l) == Ptr(Null) && AsInt(x.s.vals(count)) == 0
    else
      && AsInt(x.s.vals(count)) <= opt.cap
      && exists o :: LeadsTo(x, l, o, opt.cap) &&
           if pointee.PointerPtr? then forall k: nat :: k < opt.cap ==> x.s.cells(o, k) == 0 else FreeCells(x, o, opt.cap)
  }

  /** Another pointer: null at the depth bound, or if a pointer or nothing known is behind it; a string, terminated if it is
      to be; one free value; bytes; or an object built in turn, as the struct it is cast to if there is one. */
  ghost predicate PointerBuilt(x: Call, env: Env, opt: Options, pointee: Pointee, l: Loc, depth: nat, seen: set<string>)
    decreases Left(opt, depth), env.structs.Keys - seen, 0
  {
    if depth >= opt.maxDepth then x.s.vals(l) == Ptr(Null)
    else
      match pointee
      case PointerPtr => x.s.vals(l) == Ptr(Null)
      case ScalarPtr => exists o :: LeadsTo(x, l, o, 1) && FreeCells(x, o, 1)
      case VoidPtr => exists o :: LeadsTo(x, l, o, opt.cap) && FreeCells(x, o, opt.cap)
      case StringPtr =>
        exists o :: FreeCells(x, o, opt.cap) &&
          if opt.terminatedStrings then LeadsTo(x, l, o, opt.cap + 1) && x.s.cells(o, opt.cap) == 0
          else LeadsTo(x, l, o, opt.cap)
      case NamedPtr(name, text) =>
        if name in env.owners && env.owners[name] in env.structs then
          exists o :: LeadsTo(x, l, o, 1) &&
            StructBuilt(x, env, opt, env.structs[env.owners[name]], Loc(o, []), depth + 1, seen + {env.owners[name]})
        else if name in env.structs then
          exists o :: LeadsTo(x, l, o, 1) &&
            StructBuilt(x, env, opt, env.structs[name], Loc(o, []), depth + 1, seen + {text})
        else x.s.vals(l) == Ptr(Null)
  }

  /** Nothing is written there, so that anything may be. */
  ghost predicate Untouched(prog: seq<Stmt>, l: Loc) {
    forall st <- prog, r <- Writes(st) :: !RegionUnder(r, l)
  }

  ghost predicate FieldBuilt(x: Call, env: Env, opt: Options, info: StructInfo, f: Field, p: Loc, depth: nat,
      seen: set<string>)
    decreases Left(opt, depth), env.structs.Keys - seen, 1
  {
    var l := Sub(p, f.name);
    match f.kind
    case Scalar(_) => Free(x, l)
    case ArrayOf(scalar, extent) => if scalar && extent.Some? then FreeElements(x, l, extent.value) else Untouched(x.prog, l)
    case Callback | HookTable => x.s.vals(l) == Stub
    case PointerTo(pointee) =>
      if f.name in info.pairs then CountedBuilt(x, opt, pointee, l, Sub(p, info.pairs[f.name]))
      else PointerBuilt(x, env, opt, pointee, l, depth, seen)
    case Named(name) =>
      if name in env.structs && name !in seen then StructBuilt(x, env, opt, env.structs[name], l, depth, seen + {name})
      else Untouched(x.prog, l)
  }

  /** A struct as it is built; of a union nothing is. */
  ghost predicate StructBuilt(x: Call, env: Env, opt: Options, info: StructInfo, p: Loc, depth: nat, seen: set<string>)
    decreases Left(opt, depth), env.structs.Keys - seen, 3
  {
    if info.isUnion then Untouched(x.prog, p)
    else
      && (forall f <- info.fields :: FieldBuilt(x, env, opt, info, f, p, depth, seen))
      && (forall c <- info.callbacks :: x.s.vals(Sub(p, c)) == Stub)
      && Meets(x.s, opt, info, p)
  }

  // ------------------------------------------------------------ ... is what the program makes

  /** Everything the program established holds at the call. */
  ghost predicate Settled(x: Call) { forall k :: 0 <= k < |x.prog| ==> Established(x.prog[k], k, x.ch, x.s) }

  ghost predicate Part(x: Call, part: seq<Stmt>) { forall st <- part :: st in x.prog }

  /** Only the part writes there. */
  ghost predicate OnlyHere(x: Call, part: seq<Stmt>, l: Loc) {
    forall st <- x.prog :: st in part || forall r <- Writes(st) :: !RegionUnder(r, l)
  }

  lemma Made(x: Call, st: Stmt) returns (i: nat)
    requires Settled(x) && st in x.prog
    ensures i < |x.prog| && x.prog[i] == st && Established(st, i, x.ch, x.s)
  {
    i :| 0 <= i < |x.prog| && x.prog[i] == st;
  }

  lemma LedTo(x: Call, l: Loc, o: Object, extent: nat)
    requires Settled(x) && Declare(o, extent) in x.prog && SetAddr(l, o) in x.prog && o.Storage? && o.of == l
    ensures LeadsTo(x, l, o, extent)
  {
    var i := Made(x, Declare(o, extent));
    var j := Made(x, SetAddr(l, o));
  }

  lemma Filled(x: Call, o: Object, n: nat, terminated: bool)
    requires Settled(x) && FillNondet(o, n, terminated) in x.prog
    ensures FreeCells(x, o, n) && (terminated ==> x.s.cells(o, n) == 0)
  {
    var i := Made(x, FillNondet(o, n, terminated));
  }

  lemma CountedMade(x: Call, opt: Options, pointee: Pointee, l: Loc, count: Loc)
    requires Settled(x) && Part(x, Counted(pointee, l, count, opt.cap).0)
    requires if pointee.NamedPtr? then AsInt(x.s.vals(count)) == 0 else AsInt(x.s.vals(count)) <= opt.cap
    ensures CountedBuilt(x, opt, pointee, l, count)
  {
    var lines := Counted(pointee, l, count, opt.cap).0;
    if pointee.NamedPtr? {
      assert lines == [SetNull(l)] && lines[0] in x.prog;
      var i := Made(x, SetNull(l));
    } else {
      var o := Storage(l, if pointee.VoidPtr? then BytesOf else ItemsOf);
      assert lines[0] in x.prog && lines[1] in x.prog && lines[2] in x.prog;
      LedTo(x, l, o, opt.cap);
      if pointee.PointerPtr? { var i := Made(x, FillZero(o, opt.cap)); } else { Filled(x, o, opt.cap, false); }
    }
  }

  lemma {:induction false} PointerMade(x: Call, env: Env, opt: Options, pointee: Pointee, l: Loc, depth: nat,
                                       seen: set<string>)
    requires AllDistinct(env) && Settled(x)
    requires var part := EmitPointer(env, opt, pointee, l, depth, seen); Part(x, part) && OnlyHere(x, part, l)
    ensures PointerBuilt(x, env, opt, pointee, l, depth, seen)
    decreases Left(opt, depth), env.structs.Keys - seen, 1
  {
    var o, lines := Storage(l, TargetOf), EmitPointer(env, opt, pointee, l, depth, seen);
    if depth < opt.maxDepth && pointee.NamedPtr? && BuiltAs(env, pointee.name).Some? {
      PointeeMade(x, env, opt, pointee, l, depth, seen, o);
    } else if depth >= opt.maxDepth || pointee.NamedPtr? || pointee.PointerPtr? {
      assert lines == [SetNull(l)] && lines[0] in x.prog;
      var i := Made(x, SetNull(l));
    } else {
      assert lines[0] in x.prog && lines[1] in x.prog && lines[2] in x.prog;
      LedTo(x, l, o, lines[0].extent);
      Filled(x, o, lines[1].n, lines[1].terminated);
    }
  }

  lemma {:induction false} PointeeMade(x: Call, env: Env, opt: Options, pointee: Pointee, l: Loc,
      depth: nat, seen: set<string>, o: Object)
    requires AllDistinct(env) && Settled(x) && o == Storage(l, TargetOf)
    requires depth < opt.maxDepth && pointee.NamedPtr? && BuiltAs(env, pointee.name).Some?
    requires var part := EmitPointer(env, opt, pointee, l, depth, seen); Part(x, part) && OnlyHere(x, part, l)
    ensures PointerBuilt(x, env, opt, pointee, l, depth, seen)
    decreases Left(opt, depth), env.structs.Keys - seen, 0
  {
    var built, mark := BuiltAs(env, pointee.name).value, Marked(env, pointee);
    var inner := EmitStruct(env, opt, env.structs[built], Loc(o, []), depth + 1, seen + {mark});
    var lines := EmitPointer(env, opt, pointee, l, depth, seen);
    assert lines == [Declare(o, 1)] + inner + [SetAddr(l, o)];
    assert lines[0] in lines && lines[|lines| - 1] in lines;
    LedTo(x, l, o, 1);
    InnerOnlyHere(x, inner, l, o);
    StructMade(x, env, opt, env.structs[built], Loc(o, []), depth + 1, seen + {mark});
  }

  /** What is built behind a pointer is built by its own lines alone. */
  lemma InnerOnlyHere(x: Call, inner: seq<Stmt>, l: Loc, o: Object)
    requires o == Storage(l, TargetOf) && OnlyHere(x, [Declare(o, 1)] + inner + [SetAddr(l, o)], l)
    ensures OnlyHere(x, inner, Loc(o, []))
  {
    var q := Loc(o, []);
    forall st | st in x.prog && st !in inner ensures forall r <- Writes(st) :: !RegionUnder(r, q) {
      if Under(l, q) { UnderIsDeeper(l, q); }
      forall r | r in Writes(st) ensures !RegionUnder(r, q) {
        if RegionUnder(r, q) { RegionTransitive(r, q, l); }
      }
    }
  }

  lemma {:induction false} FieldMade(x: Call, env: Env, opt: Options, info: StructInfo, f: Field, p: Loc, depth: nat,
      seen: set<string>)
    requires AllDistinct(env) && Settled(x) && CountMeets(x.s, opt, info, f, p)
    requires var part := EmitField(env, opt, info, f, p, depth, seen); Part(x, part) && OnlyHere(x, part, Sub(p, f.name))
    ensures FieldBuilt(x, env, opt, info, f, p, depth, seen)
    decreases Left(opt, depth), env.structs.Keys - seen, 2
  {
    var l, part := Sub(p, f.name), EmitField(env, opt, info, f, p, depth, seen);
    match f.kind
    case PointerTo(pointee) =>
      if f.name in info.pairs {
        CountedMade(x, opt, pointee, l, Sub(p, info.pairs[f.name]));
      } else {
        PointerMade(x, env, opt, pointee, l, depth, seen);
      }
    case Named(name) =>
      if name in env.structs && name !in seen { StructMade(x, env, opt, env.structs[name], l, depth, seen + {name}); }
    case ArrayOf(scalar, extent) =>
      if scalar && extent.Some? {
        assert part[0] in x.prog;
        var i := Made(x, HavocArray(l, extent.value));
      }
    case Scalar(_) =>
      assert part[0] in x.prog;
      var i := Made(x, Havoc(l));
    case Callback | HookTable =>
      assert part[0] in x.prog;
      var i := Made(x, SetStub(l));
  }

  /** The lines of a field are part of the struct's, and no other line of it writes there. */
  lemma {:induction false} FieldApart(env: Env, opt: Options, info: StructInfo, i: nat, p: Loc,
      depth: nat, seen: set<string>, st: Stmt)
    requires Distinct(info) && i < |info.fields| && !info.isUnion
    ensures var part := EmitField(env, opt, info, info.fields[i], p, depth, seen);
      && (st in part ==> st in EmitStruct(env, opt, info, p, depth, seen))
      && (st in EmitStruct(env, opt, info, p, depth, seen) && st !in part ==>
            forall r <- Writes(st) :: !RegionUnder(r, Sub(p, info.fields[i].name)))
  {
    var f := info.fields[i];
    var fields := EmitFields(env, opt, info, |info.fields|, p, depth, seen);
    var part := EmitField(env, opt, info, f, p, depth, seen);
    FieldsCover(env, opt, info, |info.fields|, p, depth, seen, st);
    if st in fields && st !in part {
      var j: nat :| j < |info.fields| && st in EmitField(env, opt, info, info.fields[j], p, depth, seen);
      EmitFieldWithin(env, opt, info, info.fields[j], p, depth, seen);
      OtherFieldApart(st, p, info.fields[j].name, f.name);
    }
    if st in EmitCallbacks(info.callbacks, p) {
      CallbackIs(info.callbacks, p, st);
      var c :| c in info.callbacks && st == SetStub(Sub(p, c));
      assert StmtUnder(st, Sub(p, c));
      OtherFieldApart(st, p, c, f.name);
    }
  }

  lemma OtherFieldApart(st: Stmt, p: Loc, g: string, f: string)
    requires StmtUnder(st, Sub(p, g)) && f != g
    ensures forall r <- Writes(st) :: !RegionUnder(r, Sub(p, f))
  {
    forall r | r in Writes(st) ensures !RegionUnder(r, Sub(p, f)) {
      if RegionUnder(r, Sub(p, f)) { RegionsSeparate(r, p, f, g); }
    }
  }

  lemma {:induction false} FieldsCover(env: Env, opt: Options, info: StructInfo, k: nat, p: Loc,
      depth: nat, seen: set<string>, st: Stmt)
    requires k <= |info.fields|
    ensures st in EmitFields(env, opt, info, k, p, depth, seen) <==>
      exists j: nat :: j < k && st in EmitField(env, opt, info, info.fields[j], p, depth, seen)
    decreases k
  {
    if k > 0 { FieldsCover(env, opt, info, k - 1, p, depth, seen, st); }
  }

  lemma {:induction false} CallbackIs(names: seq<string>, p: Loc, st: Stmt)
    ensures st in EmitCallbacks(names, p) <==> exists c <- names :: st == SetStub(Sub(p, c))
    decreases names
  {
    if names != [] {
      CallbackIs(names[1..], p, st);
      assert names == [names[0]] + names[1..];
    }
  }

  lemma {:induction false} StructMade(x: Call, env: Env, opt: Options, info: StructInfo, p: Loc, depth: nat,
                                      seen: set<string>)
    requires AllDistinct(env) && Distinct(info) && Settled(x)
    requires var part := EmitStruct(env, opt, info, p, depth, seen); Part(x, part) && OnlyHere(x, part, p)
    ensures StructBuilt(x, env, opt, info, p, depth, seen)
    decreases Left(opt, depth), env.structs.Keys - seen, 3
  {
    if !info.isUnion {
      StructMeets(x, env, opt, info, p, depth, seen);
      forall f | f in info.fields ensures FieldBuilt(x, env, opt, info, f, p, depth, seen) {
        var i :| 0 <= i < |info.fields| && info.fields[i] == f;
        FieldOnlyHere(x, env, opt, info, i, p, depth, seen);
        FieldMade(x, env, opt, info, f, p, depth, seen);
      }
      forall c | c in info.callbacks ensures x.s.vals(Sub(p, c)) == Stub {
        CallbackIs(info.callbacks, p, SetStub(Sub(p, c)));
        var i := Made(x, SetStub(Sub(p, c)));
      }
    }
  }

  lemma {:induction false} StructMeets(x: Call, env: Env, opt: Options, info: StructInfo, p: Loc, depth: nat,
                                       seen: set<string>)
    requires Settled(x) && !info.isUnion && Part(x, EmitStruct(env, opt, info, p, depth, seen))
    ensures Meets(x.s, opt, info, p)
  {
    var part := EmitStruct(env, opt, info, p, depth, seen);
    forall st | st in part && st.Assume? ensures Holds(st.f, x.s) {
      var i := Made(x, st);
    }
    NestIff(env, opt, info, p, depth, seen, x.s);
  }

  lemma {:induction false} FieldOnlyHere(x: Call, env: Env, opt: Options, info: StructInfo, i: nat, p: Loc, depth: nat,
      seen: set<string>)
    requires Distinct(info) && i < |info.fields| && !info.isUnion
    requires var part := EmitStruct(env, opt, info, p, depth, seen); Part(x, part) && OnlyHere(x, part, p)
    ensures var part := EmitField(env, opt, info, info.fields[i], p, depth, seen);
      Part(x, part) && OnlyHere(x, part, Sub(p, info.fields[i].name))
  {
    var part, l := EmitField(env, opt, info, info.fields[i], p, depth, seen), Sub(p, info.fields[i].name);
    forall st | st in part ensures st in x.prog { FieldApart(env, opt, info, i, p, depth, seen, st); }
    forall st | st in x.prog && st !in part ensures forall r <- Writes(st) :: !RegionUnder(r, l) {
      FieldApart(env, opt, info, i, p, depth, seen, st);
      forall r | r in Writes(st) ensures !RegionUnder(r, l) {
        if RegionUnder(r, l) { RegionTransitive(r, l, p); }
      }
    }
  }

  /** At the call the object is the one described: in every execution, every field of every struct of the nest. */
  lemma BuiltAtTheCall(env: Env, opt: Options, info: StructInfo, seen: set<string>, ch: Choices, s: State)
    requires AllDistinct(env) && Distinct(info)
    requires Exec(EmitStruct(env, opt, info, Loc(Root, []), 0, seen), 0, ch, s).Some?
    ensures var prog := EmitStruct(env, opt, info, Loc(Root, []), 0, seen);
      StructBuilt(Call(prog, ch, Exec(prog, 0, ch, s).value), env, opt, info, Loc(Root, []), 0, seen)
  {
    var prog := EmitStruct(env, opt, info, Loc(Root, []), 0, seen);
    var x := Call(prog, ch, Exec(prog, 0, ch, s).value);
    EmitStructStable(env, opt, info, Loc(Root, []), 0, seen);
    FinalState(prog, 0, ch, s);
    StructMade(x, env, opt, info, Loc(Root, []), 0, seen);
  }
}
