/** `_fill_fields` and its helpers: from a struct definition to the program that builds one object of it. */
module ObjectBuilder {
  import opened Wrappers
  import opened Target

  /** A named pointee is looked up by `name`, without qualifiers and tags; `text` is how the field spells it. */
  datatype Pointee = ScalarPtr | StringPtr | VoidPtr | PointerPtr | NamedPtr(name: string, text: string)

  datatype FieldType =
    | Scalar(integral: bool)                              // a type with a nondeterministic value
    | ArrayOf(scalar: bool, extent: Option<nat>)
    | PointerTo(pointee: Pointee)
    | Callback | HookTable
    | Named(name: string)                                 // a struct by value, or a type nothing is known of

  datatype Field = Field(name: string, kind: FieldType)

  /** What `inferred_invariants` read off the library's own code. */
  datatype Inferred =
    | Growth(used: string, capacity: string)
    | Mask(field: string)
    | IndexArray(slots: string, target: string, sentinel: Option<nat>)

  /** A struct, with what the name and text heuristics say of its fields. */
  datatype StructInfo = StructInfo(
    fields: seq<Field>,
    isUnion: bool,
    callbacks: seq<string>,           // `_inline_callback_members`
    pairs: map<string, string>,       // `_pair_struct_fields`
    lengthNamed: seq<string>,         // integral fields with a length's name, sorted
    cursorNamed: seq<string>,         // integral fields with a cursor's name, sorted
    inferred: seq<Inferred>)

  datatype Env = Env(structs: map<string, StructInfo>, owners: map<string, string>)

  datatype Options = Options(cap: nat, maxDepth: nat, terminatedStrings: bool, inferInvariants: bool)

  function Sub(p: Loc, f: string): Loc { Loc(p.obj, p.path + [f]) }

  // ---------------------------------------------------------------- emission

  /** `_fill_counted_pointer_field`: a real array for the pointer, and the bound on its count. */
  function Counted(pointee: Pointee, target: Loc, counter: Loc, cap: nat): (seq<Stmt>, Formula) {
    match pointee
    case VoidPtr =>
      var o := Storage(target, BytesOf);
      ([Declare(o, cap), FillNondet(o, cap, false), SetAddr(target, o)], AtMost(counter, cap))
    case ScalarPtr | StringPtr =>
      var o := Storage(target, ItemsOf);
      ([Declare(o, cap), FillNondet(o, cap, false), SetAddr(target, o)], AtMost(counter, cap))
    case PointerPtr =>
      var o := Storage(target, ItemsOf);
      ([Declare(o, cap), FillZero(o, cap), SetAddr(target, o)], AtMost(counter, cap))
    case NamedPtr(_, _) => ([SetNull(target)], IsZero(counter))
  }

  /** The struct a named pointee is built as: the owner it is cast to, or itself. */
  function BuiltAs(env: Env, name: string): Option<string> {
    if name in env.owners && env.owners[name] in env.structs then Some(env.owners[name])
    else if name in env.structs then Some(name)
    else None
  }

  /** What the fill behind the pointer has then seen: the owner, or the pointee as it is spelled. */
  function Marked(env: Env, pointee: Pointee): string
    requires pointee.NamedPtr?
  {
    if pointee.name in env.owners && env.owners[pointee.name] in env.structs then env.owners[pointee.name]
    else pointee.text
  }

  function Left(opt: Options, depth: nat): nat { if depth < opt.maxDepth then opt.maxDepth - depth else 0 }

  /** `_fill_pointer_field`. */
  function EmitPointer(env: Env, opt: Options, pointee: Pointee, target: Loc, depth: nat, seen: set<string>): seq<Stmt>
    decreases Left(opt, depth), env.structs.Keys - seen, 0
  {
    var o := Storage(target, TargetOf);
    if depth >= opt.maxDepth then [SetNull(target)]
    else
      match pointee
      case StringPtr =>
        if opt.terminatedStrings then [Declare(o, opt.cap + 1), FillNondet(o, opt.cap, true), SetAddr(target, o)]
        else [Declare(o, opt.cap), FillNondet(o, opt.cap, false), SetAddr(target, o)]
      case ScalarPtr => [Declare(o, 1), FillNondet(o, 1, false), SetAddr(target, o)]
      case VoidPtr => [Declare(o, opt.cap), FillNondet(o, opt.cap, false), SetAddr(target, o)]
      case PointerPtr => [SetNull(target)]
      case NamedPtr(name, _) =>
        match BuiltAs(env, name)
        case None => [SetNull(target)]
        case Some(built) =>
          [Declare(o, 1)]
          + EmitStruct(env, opt, env.structs[built], Loc(o, []), depth + 1, seen + {Marked(env, pointee)})
          + [SetAddr(target, o)]
  }

  /** The statements of one field. */
  function EmitField(env: Env, opt: Options, info: StructInfo, f: Field, p: Loc, depth: nat,
      seen: set<string>): seq<Stmt>
    decreases Left(opt, depth), env.structs.Keys - seen, 1
  {
    var target := Sub(p, f.name);
    match f.kind
    case PointerTo(pointee) =>
      if f.name in info.pairs then Counted(pointee, target, Sub(p, info.pairs[f.name]), opt.cap).0
      else EmitPointer(env, opt, pointee, target, depth, seen)
    case ArrayOf(scalar, extent) => if scalar && extent.Some? then [HavocArray(target, extent.value)] else []
    case Scalar(_) => [Havoc(target)]
    case Callback => [SetStub(target)]
    case HookTable => [SetStub(target)]
    case Named(name) =>
      if name in env.structs && name !in seen then
        EmitStruct(env, opt, env.structs[name], target, depth, seen + {name})
      else []
  }

  /** The lines of the first `k` fields. */
  function EmitFields(env: Env, opt: Options, info: StructInfo, k: nat, p: Loc, depth: nat,
      seen: set<string>): seq<Stmt>
    requires k <= |info.fields|
    decreases Left(opt, depth), env.structs.Keys - seen, 2, k
  {
    if k == 0 then []
    else EmitFields(env, opt, info, k - 1, p, depth, seen) + EmitField(env, opt, info, info.fields[k - 1], p, depth, seen)
  }

  function EmitCallbacks(names: seq<string>, p: Loc): seq<Stmt> {
    if names == [] then [] else [SetStub(Sub(p, names[0]))] + EmitCallbacks(names[1..], p)
  }

  /** `_fill_fields`: every field, then every constraint. */
  function EmitStruct(env: Env, opt: Options, info: StructInfo, p: Loc, depth: nat, seen: set<string>): seq<Stmt>
    decreases Left(opt, depth), env.structs.Keys - seen, 3
  {
    if info.isUnion then []
    else
      EmitFields(env, opt, info, |info.fields|, p, depth, seen) + EmitCallbacks(info.callbacks,
        p) + Assumes(Constraints(opt, info, p))
  }

  // ------------------------------------------------------------- constraints

  function Assumes(fs: seq<Formula>): (r: seq<Stmt>)
    ensures |r| == |fs| && forall k :: 0 <= k < |fs| ==> r[k] == Assume(fs[k])
  {
    if fs == [] then [] else [Assume(fs[0])] + Assumes(fs[1..])
  }

  function CountBound(opt: Options, info: StructInfo, f: Field, p: Loc): seq<Formula> {
    if f.kind.PointerTo? && f.name in info.pairs then
      [Counted(f.kind.pointee, Sub(p, f.name), Sub(p, info.pairs[f.name]), opt.cap).1]
    else []
  }

  function CountBounds(opt: Options, info: StructInfo, k: nat, p: Loc): seq<Formula>
    requires k <= |info.fields|
    decreases k
  {
    if k == 0 then [] else CountBounds(opt, info, k - 1, p) + CountBound(opt, info, info.fields[k - 1], p)
  }

  /** Every other length of a struct that has a counted buffer is bounded by the array length too. */
  function LengthBounds(names: seq<string>, counts: set<string>, p: Loc, cap: nat): seq<Formula> {
    if names == [] then []
    else (if names[0] in counts then [] else [AtMost(Sub(p, names[0]), cap)]) + LengthBounds(names[1..], counts, p, cap)
  }

  function InferredBounds(inferred: seq<Inferred>, info: StructInfo, p: Loc, cap: nat): seq<Formula> {
    if inferred == [] then []
    else
      (match inferred[0]
       case Growth(used, capacity) => [NotAbove(Sub(p, used), Sub(p, capacity))]
       case Mask(f) => [PowerOfTwo(Sub(p, f))]
       case IndexArray(slots, target, sentinel) =>
         if target in info.pairs then
           [Indexes(Storage(Sub(p, slots), ItemsOf), cap, Sub(p, info.pairs[target]), sentinel)]
         else [])
      + InferredBounds(inferred[1..], info, p, cap)
  }

  /** `_cursor_fields`: cursors are paired only when the struct has exactly one counted length. */
  function CursorBounds(names: seq<string>, counts: set<string>, length: string, p: Loc): seq<Formula> {
    if names == [] then []
    else
      (if names[0] in counts then [] else [NotAbove(Sub(p, names[0]), Sub(p, length))])
      + CursorBounds(names[1..], counts, length, p)
  }

  /** The constraints appended after the pass over the fields. */
  function OtherBounds(opt: Options, info: StructInfo, p: Loc): seq<Formula> {
    var counts := info.pairs.Values;
    (if info.pairs != map[] then LengthBounds(info.lengthNamed, counts, p, opt.cap) else [])
    + (if opt.inferInvariants then InferredBounds(info.inferred, info, p, opt.cap) else [])
    + (if exists c <- counts :: counts == {c} then
         var c :| c in counts && counts == {c};
         CursorBounds(info.cursorNamed, counts, c, p)
       else [])
  }

  function Constraints(opt: Options, info: StructInfo, p: Loc): seq<Formula> {
    CountBounds(opt, info, |info.fields|, p) + OtherBounds(opt, info, p)
  }

  // ---------------------------------------------------------------- as built

  /** `_fill_pointer_field`, as written: lines appended around the recursive fill. */
  method FillPointerField(env: Env, opt: Options, pointee: Pointee, target: Loc, depth: nat, seen: set<string>)
    returns (lines: seq<Stmt>)
    ensures lines == EmitPointer(env, opt, pointee, target, depth, seen)
    decreases Left(opt, depth), env.structs.Keys - seen, 0
  {
    var o := Storage(target, TargetOf);
    if depth >= opt.maxDepth { return [SetNull(target)]; }
    match pointee
    case StringPtr =>
      if !opt.terminatedStrings {
        return [Declare(o, opt.cap), FillNondet(o, opt.cap, false), SetAddr(target, o)];
      }
      return [Declare(o, opt.cap + 1), FillNondet(o, opt.cap, true), SetAddr(target, o)];
    case ScalarPtr => return [Declare(o, 1), FillNondet(o, 1, false), SetAddr(target, o)];
    case VoidPtr => return [Declare(o, opt.cap), FillNondet(o, opt.cap, false), SetAddr(target, o)];
    case PointerPtr => return [SetNull(target)];
    case NamedPtr(name, _) =>
      var built := BuiltAs(env, name);
      if built == None { return [SetNull(target)]; }
      lines := [Declare(o, 1)];
      var inner := FillFields(env, opt, env.structs[built.value], Loc(o, []), depth + 1, seen + {Marked(env, pointee)});
      lines := lines + inner;
      lines := lines + [SetAddr(target, o)];
  }

  /** One turn of the loop of `_fill_fields`: the lines of a field, and the constraint its pairing adds. */
  method FillField(env: Env, opt: Options, info: StructInfo, f: Field, p: Loc, depth: nat, seen: set<string>)
    returns (lines: seq<Stmt>, bounds: seq<Formula>)
    ensures lines == EmitField(env, opt, info, f, p, depth, seen)
    ensures bounds == CountBound(opt, info, f, p)
    decreases Left(opt, depth), env.structs.Keys - seen, 1
  {
    lines, bounds := [], [];
    var target := Sub(p, f.name);
    match f.kind
    case PointerTo(pointee) =>
      if f.name in info.pairs {
        var (storage, bound) := Counted(pointee, target, Sub(p, info.pairs[f.name]), opt.cap);
        lines, bounds := storage, [bound];
      } else {
        lines := FillPointerField(env, opt, pointee, target, depth, seen);
      }
    case ArrayOf(scalar, extent) => if scalar && extent.Some? { lines := [HavocArray(target, extent.value)]; }
    case Scalar(_) => lines := [Havoc(target)];
    case Callback => lines := [SetStub(target)];
    case HookTable => lines := [SetStub(target)];
    case Named(name) =>
      if name in env.structs && name !in seen {
        lines := FillFields(env, opt, env.structs[name], target, depth, seen + {name});
      }
  }

  /** `_fill_fields`, as written: one pass over the fields that appends to the lines and to the constraints. */
  method FillFields(env: Env, opt: Options, info: StructInfo, p: Loc, depth: nat, seen: set<string>)
    returns (lines: seq<Stmt>)
    ensures lines == EmitStruct(env, opt, info, p, depth, seen)
    decreases Left(opt, depth), env.structs.Keys - seen, 3
  {
    if info.isUnion { return []; }
    lines := [];
    var constraints: seq<Formula> := [];
    for k := 0 to |info.fields|
      invariant lines == EmitFields(env, opt, info, k, p, depth, seen)
      invariant constraints == CountBounds(opt, info, k, p)
    {
      var added, bounds := FillField(env, opt, info, info.fields[k], p, depth, seen);
      lines := lines + added;
      constraints := constraints + bounds;
    }
    lines := lines + EmitCallbacks(info.callbacks, p);
    constraints := constraints + OtherBounds(opt, info, p);
    return lines + Assumes(constraints);
  }
}
