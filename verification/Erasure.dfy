/** The gate's guarantee: when an accepted rewrite is the original with assertions added, and what follows from it. */
module Erasure {
  import opened Wrappers
  import opened Tokens
  import opened Language
  import opened Gate
  import opened GateSoundness
  import opened Rewrites

  function Origs(ps: seq<Piece>): seq<Item> {
    if ps == [] then [] else [Orig(ps[0])] + Origs(ps[1..])
  }

  /** The items of an inserted line that contributes `ps`. */
  function Inserted(ps: seq<Piece>): seq<Item> { if ps == [] then [] else [Ins(ps[..|ps| - 1])] }

  /** The rewritten program from line `j` on, with what every flagged line contributes marked as one insertion. */
  function Items(cs: seq<seq<Piece>>, flags: seq<bool>, j: nat): seq<Item>
    requires |flags| == |cs| && j <= |cs|
    decreases |cs| - j
  {
    if j == |cs| then [] else (if flags[j] then Inserted(cs[j]) else Origs(cs[j])) + Items(cs, flags, j + 1)
  }

  /** The same line reads alike: as the same directive's, or as the same code. */
  predicate SameReading(w: View, v: View) { w.line == v.line && Role(w) == Role(v) && CodeOn(w) == CodeOn(v) }

  /** Kept line `j` reads as it did. */
  predicate StaysAt(after: seq<View>, flags: seq<bool>, before: seq<View>, j: nat)
    requires |flags| == |after| && j < |after|
  {
    Rank(flags, j) < |before| && SameReading(after[j], before[Rank(flags, j)])
  }

  /** `after` is `before` with assertions added that cannot write and stand where a statement may begin: every line
      kept reads as it did, the directives are the same, and without the insertions it is the same program. */
  ghost predicate Preserved(pp: Preprocessor, effects: set<string>, before: seq<View>, after: seq<View>, flags: seq<bool>) {
    && |flags| == |after|
    && (forall j {:trigger StaysAt(after, flags, before, j)} ::
          0 <= j < |after| && !flags[j] ==> StaysAt(after, flags, before, j))
    && Directives(after, |after|) == Directives(before, |before|)
    && var items := Items(CompiledAll(pp, after), flags, 0);
       Placed(effects, items, false) && Flatten(items) == Joined(CompiledAll(pp, after), 0)
       && Drop(items) == Joined(CompiledAll(pp, before), 0)
  }

  /** The check the gate does not make of a line it cannot see rightly: that as compiled it is no directive's, and is
      nothing or an assertion standing where a statement may begin. */
  predicate Behaves(pp: Preprocessor, vs: seq<View>, j: nat)
    requires j < |vs|
  {
    Role(vs[j]) == None && (Compiled(pp, vs, j) != [] ==> Shaped(Compiled(pp, vs, j)) && Ready(pp, vs, j))
  }

  /** A line the gate cannot see rightly: it starts in a comment or a literal, or between it and the code above stands a
      directive that may skip code or pull some in, or a line that `scrub` misreads or that is a directive's without
      looking so. */
  predicate Foreign(vs: seq<View>, j: nat)
    requires j < |vs|
  {
    vs[j].start.mode != Code || !SeesAbove(vs, j)
  }

  /** Every such inserted line behaves. */
  ghost predicate ForeignLinesBehave(pp: Preprocessor, after: seq<View>, flags: seq<bool>) {
    forall j {:trigger Behaves(pp, after, j)} ::
      0 <= j < |after| && j < |flags| && flags[j] && Foreign(after, j) ==> Behaves(pp, after, j)
  }

  /** The line starts as it did: in the same mode, and in the same logical line. */
  predicate SameStart(w: View, v: View) { w.start.mode == v.start.mode && w.start.logical == v.start.logical }

  /** A kept line that an inserted one has made to start otherwise, and that the gate misreads in one of the files. */
  predicate Shifted(after: seq<View>, flags: seq<bool>, before: seq<View>, j: nat)
    requires |flags| == |after| && j < |after|
  {
    var i := Rank(flags, j);
    i < |before| && !SameStart(after[j], before[i]) && !(InTune(after[j]) && InTune(before[i]))
  }

  /** Every such kept line reads as it did. */
  ghost predicate ShiftedLinesStay(before: seq<View>, after: seq<View>, flags: seq<bool>) {
    |flags| == |after| && forall j {:trigger StaysAt(after, flags, before, j)} ::
      0 <= j < |after| && !flags[j] && Shifted(after, flags, before, j) ==> StaysAt(after, flags, before, j)
  }

  predicate Reads(pp: Preprocessor, effects: set<string>, vs: seq<View>, j: nat)
    requires j < |vs|
  {
    NothingHidden(effects, Compiled(pp, vs, j))
  }

  /** No inserted condition calls anything past the gate's pattern, holds braces, or names an effect. */
  ghost predicate ConditionsRead(pp: Preprocessor, effects: set<string>, after: seq<View>, flags: seq<bool>) {
    forall j {:trigger Reads(pp, effects, after, j)} ::
      0 <= j < |after| && j < |flags| && flags[j] ==> Reads(pp, effects, after, j)
  }

  // ------------------------------------------------------------ items, piece by piece

  lemma {:induction false} OrigFirstStep(p: Piece, items: seq<Item>)
    ensures Flatten([Orig(p)] + items) == [p] + Flatten(items) && Drop([Orig(p)] + items) == [p] + Drop(items)
    ensures forall effects, ok :: Placed(effects, [Orig(p)] + items, ok) <==> Placed(effects, items, IsTerminator(p))
  {
    assert ([Orig(p)] + items)[1..] == items;
  }

  lemma {:induction false} OrigsFirst(ps: seq<Piece>, rest: seq<Item>)
    requires ps != []
    ensures Origs(ps) + rest == [Orig(ps[0])] + (Origs(ps[1..]) + rest)
  {
  }

  lemma {:induction false} Reassoc(ps: seq<Piece>, rest: seq<Piece>)
    requires ps != []
    ensures ps + rest == [ps[0]] + (ps[1..] + rest)
  {
  }

  lemma {:induction false} FlattenOrigs(ps: seq<Piece>, rest: seq<Item>)
    ensures Flatten(Origs(ps) + rest) == ps + Flatten(rest)
    ensures Drop(Origs(ps) + rest) == ps + Drop(rest)
    decreases ps
  {
    if ps == [] {
      assert Origs(ps) + rest == rest;
    } else {
      FlattenOrigs(ps[1..], rest);
      OrigsFirst(ps, rest);
      OrigFirstStep(ps[0], Origs(ps[1..]) + rest);
      Reassoc(ps, Flatten(rest));
      Reassoc(ps, Drop(rest));
    }
  }

  lemma {:induction false} PlacedOrigs(effects: set<string>, ps: seq<Piece>, rest: seq<Item>, ok: bool)
    ensures Placed(effects, Origs(ps) + rest, ok) <==> Placed(effects, rest, EndsOk(ps, ok))
    decreases ps
  {
    if ps == [] {
      assert Origs(ps) + rest == rest;
    } else {
      OrigsFirst(ps, rest);
      OrigFirstStep(ps[0], Origs(ps[1..]) + rest);
      PlacedOrigs(effects, ps[1..], rest, IsTerminator(ps[0]));
    }
  }

  lemma {:induction false} InsFirst(effects: set<string>, run: seq<Piece>, rest: seq<Item>, ok: bool)
    ensures Drop([Ins(run)] + rest) == Drop(rest) && Flatten([Ins(run)] + rest) == run + [C(Semi)] + Flatten(rest)
    ensures Placed(effects, [Ins(run)] + rest, ok) <==> ok && IsAssertion(effects, run) && Placed(effects, rest, true)
  {
    assert ([Ins(run)] + rest)[1..] == rest;
  }

  /** An inserted line of items is dropped, and where it ends with `;` it is flattened to itself. */
  lemma {:induction false} InsertedStep(ps: seq<Piece>, rest: seq<Item>)
    ensures Drop(Inserted(ps) + rest) == Drop(rest)
    ensures |Flatten(Inserted(ps) + rest)| == |ps| + |Flatten(rest)|
    ensures ps == [] || ps[|ps| - 1] == C(Semi) ==> Flatten(Inserted(ps) + rest) == ps + Flatten(rest)
    ensures ps != [] ==> Flatten(Inserted(ps) + rest) == ps[..|ps| - 1] + [C(Semi)] + Flatten(rest)
  {
    if ps == [] {
      assert [] + rest == rest;
    } else {
      InsFirst({}, ps[..|ps| - 1], rest, true);
      if ps[|ps| - 1] == C(Semi) { assert ps[..|ps| - 1] + [C(Semi)] == ps; }
    }
  }

  lemma {:induction false} PlacedInserted(effects: set<string>, ps: seq<Piece>, rest: seq<Item>, ok: bool)
    requires ps == [] || ps[|ps| - 1] == C(Semi)
    ensures Placed(effects, Inserted(ps) + rest, ok)
       <==> (ps != [] ==> ok && Harmless(effects, ps)) && Placed(effects, rest, EndsOk(ps, ok))
  {
    if ps == [] {
      assert [] + rest == rest;
    } else {
      InsFirst(effects, ps[..|ps| - 1], rest, ok);
    }
  }

  // ------------------------------------------------------------ line by line

  /** What one line adds to the items, to the program and to the original. */
  lemma {:induction false} LineStep(flagged: bool, ps: seq<Piece>, rest: seq<Item>)
    ensures var items := (if flagged then Inserted(ps) else Origs(ps)) + rest;
      && Drop(items) == (if flagged then [] else ps) + Drop(rest)
      && (!flagged || Shaped(ps) ==> Flatten(items) == ps + Flatten(rest))
  {
    if flagged { InsertedStep(ps, rest); } else { FlattenOrigs(ps, rest); }
  }

  /** Whether one line's items are placed, the rest's being so. */
  lemma {:induction false} PlacedStep(effects: set<string>, flagged: bool, ps: seq<Piece>, rest: seq<Item>, ok: bool)
    requires flagged && ps != [] ==> ps[|ps| - 1] == C(Semi)
    ensures Placed(effects, (if flagged then Inserted(ps) else Origs(ps)) + rest, ok)
       <==> (flagged && ps != [] ==> ok && Harmless(effects, ps)) && Placed(effects, rest, EndsOk(ps, ok))
  {
    if flagged { PlacedInserted(effects, ps, rest, ok); } else { PlacedOrigs(effects, ps, rest, ok); }
  }

  /** Insertions shaped as the gate wants are flattened to themselves. */
  lemma {:induction false} FlattenItems(cs: seq<seq<Piece>>, flags: seq<bool>, j: nat)
    requires |flags| == |cs| && j <= |cs| && forall k :: j <= k < |cs| && flags[k] ==> Shaped(cs[k])
    ensures Flatten(Items(cs, flags, j)) == Joined(cs, j)
    decreases |cs| - j
  {
    if j < |cs| {
      FlattenItems(cs, flags, j + 1);
      LineStep(flags[j], cs[j], Items(cs, flags, j + 1));
    }
  }

  /** As compiled, the line is nothing, or an assertion that cannot write where a statement may begin. */
  predicate WellPlaced(effects: set<string>, cs: seq<seq<Piece>>, j: nat)
    requires j < |cs|
  {
    cs[j] != [] ==> Harmless(effects, cs[j]) && ReadyAt(cs, j)
  }

  lemma {:induction false} PlacedItems(effects: set<string>, cs: seq<seq<Piece>>, flags: seq<bool>, j: nat)
    requires |flags| == |cs| && j <= |cs| && forall k :: j <= k < |cs| && flags[k] ==> WellPlaced(effects, cs, k)
    ensures Placed(effects, Items(cs, flags, j), ReadyAt(cs, j))
    decreases |cs| - j
  {
    if j < |cs| {
      PlacedItems(effects, cs, flags, j + 1);
      PlacedStep(effects, flags[j], cs[j], Items(cs, flags, j + 1), ReadyAt(cs, j));
    }
  }

  /** Read back: placed insertions that are flattened to the program come from well-placed lines. */
  lemma {:induction false} PlacedBack(effects: set<string>, cs: seq<seq<Piece>>, flags: seq<bool>, j: nat, k: nat)
    requires |flags| == |cs| && j <= k < |cs| && flags[k]
    requires Placed(effects, Items(cs, flags, j), ReadyAt(cs, j)) && Flatten(Items(cs, flags, j)) == Joined(cs, j)
    ensures WellPlaced(effects, cs, k)
    decreases k - j
  {
    LineBack(flags[j], cs[j], Items(cs, flags, j + 1), Joined(cs, j + 1));
    PlacedStep(effects, flags[j], cs[j], Items(cs, flags, j + 1), ReadyAt(cs, j));
    if j < k { PlacedBack(effects, cs, flags, j + 1, k); }
  }

  lemma {:induction false} LineBack(flagged: bool, ps: seq<Piece>, rest: seq<Item>, program: seq<Piece>)
    requires Flatten((if flagged then Inserted(ps) else Origs(ps)) + rest) == ps + program
    ensures flagged && ps != [] ==> ps[|ps| - 1] == C(Semi)
    ensures Flatten(rest) == program
  {
    if flagged {
      InsertedStep(ps, rest);
      if ps != [] { LastIsSemi(ps, Flatten(rest), program); }
    } else {
      FlattenOrigs(ps, rest);
    }
    SameTail(ps, Flatten(rest), program);
  }

  /** How many of the first `j` lines were kept: where line `j` was. */
  function Rank(flags: seq<bool>, j: nat): (r: nat)
    requires j <= |flags|
    ensures r <= j
  {
    if j == 0 then 0 else Rank(flags, j - 1) + if flags[j - 1] then 0 else 1
  }

  lemma {:induction false} RankGrows(flags: seq<bool>, j: nat, k: nat)
    requires j <= k <= |flags|
    ensures Rank(flags, j) <= Rank(flags, k) && (j < k && !flags[j] ==> Rank(flags, j) < Rank(flags, k))
    decreases k - j
  {
    if j < k { RankGrows(flags, j + 1, k); }
  }

  predicate SamePart(cs: seq<seq<Piece>>, flags: seq<bool>, was: seq<seq<Piece>>, k: nat)
    requires |flags| == |cs| && k < |cs|
  {
    Rank(flags, k) < |was| && cs[k] == was[Rank(flags, k)]
  }

  /** Without the insertions, what is kept is what there was. */
  lemma {:induction false} DropItems(cs: seq<seq<Piece>>, flags: seq<bool>, j: nat, was: seq<seq<Piece>>)
    requires |flags| == |cs| && j <= |cs| && Rank(flags, |flags|) == |was|
    requires forall k {:trigger SamePart(cs, flags, was, k)} :: 0 <= k < |cs| && !flags[k] ==> SamePart(cs, flags, was, k)
    ensures Rank(flags, j) <= |was| && Drop(Items(cs, flags, j)) == Joined(was, Rank(flags, j))
    decreases |cs| - j
  {
    if j == |cs| {
      JoinedEnd(cs, flags, was);
    } else {
      DropItems(cs, flags, j + 1, was);
      assert !flags[j] ==> SamePart(cs, flags, was, j);
      DropAt(cs, flags, j, was);
    }
  }

  lemma {:induction false} DropAt(cs: seq<seq<Piece>>, flags: seq<bool>, j: nat, was: seq<seq<Piece>>)
    requires |flags| == |cs| && j < |cs| && (!flags[j] ==> SamePart(cs, flags, was, j))
    requires Rank(flags, j + 1) <= |was| && Drop(Items(cs, flags, j + 1)) == Joined(was, Rank(flags, j + 1))
    ensures Rank(flags, j) <= |was| && Drop(Items(cs, flags, j)) == Joined(was, Rank(flags, j))
  {
    DropOne(cs, flags, j, was, Rank(flags, j));
  }

  lemma {:induction false} DropOne(cs: seq<seq<Piece>>, flags: seq<bool>, j: nat, was: seq<seq<Piece>>, i: nat)
    requires |flags| == |cs| && j < |cs| && i + (if flags[j] then 0 else 1) <= |was|
    requires !flags[j] ==> cs[j] == was[i]
    requires Drop(Items(cs, flags, j + 1)) == Joined(was, if flags[j] then i else i + 1)
    ensures Drop(Items(cs, flags, j)) == Joined(was, i)
  {
    DropStep(cs, flags, j);
  }

  lemma {:induction false} JoinedEnd(cs: seq<seq<Piece>>, flags: seq<bool>, was: seq<seq<Piece>>)
    requires |flags| == |cs|
    ensures Drop(Items(cs, flags, |cs|)) == [] == Joined(was, |was|)
  {
  }

  lemma {:induction false} DropStep(cs: seq<seq<Piece>>, flags: seq<bool>, j: nat)
    requires |flags| == |cs| && j < |cs|
    ensures Drop(Items(cs, flags, j))
         == if flags[j] then Drop(Items(cs, flags, j + 1)) else cs[j] + Drop(Items(cs, flags, j + 1))
  {
    LineStep(flags[j], cs[j], Items(cs, flags, j + 1));
    assert [] + Drop(Items(cs, flags, j + 1)) == Drop(Items(cs, flags, j + 1));
  }

  // ------------------------------------------------------------ two files, line by line

  /** Kept line `j` is the line it was, and scrubs to the same cells. */
  predicate KeptAt(after: seq<View>, flags: seq<bool>, before: seq<View>, j: nat)
    requires |flags| == |after| && j < |after|
  {
    var i := Rank(flags, j);
    i < |before| && before[i].line == after[j].line && Cells(before[i]) == Cells(after[j])
  }

  lemma {:induction false} AgreesKept(after: seq<View>, flags: seq<bool>, j: nat, before: seq<View>, k: nat)
    requires |flags| == |after| && j <= k < |after| && !flags[k] && Rank(flags, j) <= |before|
    requires Agrees(after, flags, j, before, Rank(flags, j))
    ensures KeptAt(after, flags, before, k)
    decreases k - j
  {
    if j < k { AgreesKept(after, flags, j + 1, before, k); }
  }

  lemma {:induction false} AgreesEnd(after: seq<View>, flags: seq<bool>, j: nat, before: seq<View>)
    requires |flags| == |after| && j <= |after| && Rank(flags, j) <= |before|
    requires Agrees(after, flags, j, before, Rank(flags, j))
    ensures Rank(flags, |flags|) == |before|
    decreases |after| - j
  {
    if j < |after| { AgreesEnd(after, flags, j + 1, before); }
  }

  /** Every kept line is what it was. */
  ghost predicate Keeps(after: seq<View>, flags: seq<bool>, before: seq<View>) {
    && |flags| == |after| && Rank(flags, |flags|) == |before|
    && forall j {:trigger KeptAt(after, flags, before, j)} ::
          0 <= j < |after| && !flags[j] ==> KeptAt(after, flags, before, j)
  }

  lemma {:induction false} AcceptedKeeps(before: seq<Line>, after: seq<Line>, ops: seq<Opcode>)
    requires ValidScript(ops, before, after, 0, 0) && Accepts(before, after, ops)
    ensures |Flags(ops)| == |after| && Keeps(Views(after), Flags(ops), Views(before))
  {
    var flags, vs, ws := Flags(ops), Views(before), Views(after);
    FlagsFit(before, after, ops, 0, 0);
    assert flags[0..] == flags;
    ScriptAgrees(before, after, flags, ops, 0, 0);
    AgreesEnd(ws, flags, 0, vs);
    forall j | 0 <= j < |ws| && !flags[j] ensures KeptAt(ws, flags, vs, j) {
      AgreesKept(ws, flags, 0, vs, j);
    }
  }

  /** A kept line reads as it did: it starts as it did, or `scrub` shows it rightly in both files, or it was asked. */
  lemma {:induction false} KeptStays(before: seq<View>, after: seq<View>, flags: seq<bool>, j: nat)
    requires Keeps(after, flags, before) && ShiftedLinesStay(before, after, flags) && j < |after| && !flags[j]
    ensures StaysAt(after, flags, before, j)
  {
    assert KeptAt(after, flags, before, j);
    var i := Rank(flags, j);
    if SameStart(after[j], before[i]) {
      SameStartReads(after[j], before[i]);
    } else if InTune(after[j]) && InTune(before[i]) {
      InTuneReads(after[j], before[i]);
    } else {
      assert Shifted(after, flags, before, j);
    }
  }

  lemma {:induction false} SameStartReads(w: View, v: View)
    requires w.line == v.line && SameStart(w, v)
    ensures SameReading(w, v)
  {
  }

  lemma {:induction false} InTuneReads(w: View, v: View)
    requires w.line == v.line && Cells(w) == Cells(v) && InTune(w) && InTune(v)
    ensures SameReading(w, v)
  {
    SameCellsSamePieces(w.start.mode, v.start.mode, w.line);
  }

  /** The line is no directive's. */
  predicate Quiet(v: View) { Role(v) == None }

  /** Every kept line reads as it did, and no inserted line is a directive's. */
  ghost predicate Aligned(before: seq<View>, after: seq<View>, flags: seq<bool>) {
    && |flags| == |after| && Rank(flags, |flags|) == |before|
    && (forall j {:trigger StaysAt(after, flags, before, j)} ::
          0 <= j < |after| && !flags[j] ==> StaysAt(after, flags, before, j))
    && (forall j {:trigger Quiet(after[j])} :: 0 <= j < |after| && flags[j] ==> Quiet(after[j]))
  }

  /** Then the directives above a line are those above the line it was. */
  lemma {:induction false} SameDirectives(before: seq<View>, after: seq<View>, flags: seq<bool>, j: nat)
    requires Aligned(before, after, flags) && j <= |after|
    ensures Rank(flags, j) <= |before| && Directives(after, j) == Directives(before, Rank(flags, j))
    decreases j
  {
    if j == 0 {
      RankGrows(flags, 0, |flags|);
    } else {
      SameDirectives(before, after, flags, j - 1);
      DirectivesOnward(before, after, flags, j - 1);
    }
  }

  lemma {:induction false} DirectivesOnward(before: seq<View>, after: seq<View>, flags: seq<bool>, j: nat)
    requires Aligned(before, after, flags) && j < |after|
    requires Rank(flags, j) <= |before| && Directives(after, j) == Directives(before, Rank(flags, j))
    ensures Rank(flags, j + 1) <= |before| && Directives(after, j + 1) == Directives(before, Rank(flags, j + 1))
  {
    RankGrows(flags, j + 1, |flags|);
    if flags[j] { assert Quiet(after[j]); } else { assert StaysAt(after, flags, before, j); }
    OneDirective(before, after, flags, j);
  }

  lemma {:induction false} OneDirective(before: seq<View>, after: seq<View>, flags: seq<bool>, j: nat)
    requires |flags| == |after| && j < |after| && Rank(flags, j) <= |before|
    requires if flags[j] then Quiet(after[j]) else StaysAt(after, flags, before, j)
    requires Directives(after, j) == Directives(before, Rank(flags, j)) && Rank(flags, j + 1) <= |before|
    ensures Directives(after, j + 1) == Directives(before, Rank(flags, j + 1))
  {
    DirectivesStep(after, j);
    if flags[j] {
      assert Directives(after, j) + [] == Directives(after, j);
    } else {
      DirectivesStep(before, Rank(flags, j));
    }
  }

  lemma {:induction false} DirectivesStep(vs: seq<View>, j: nat)
    requires j < |vs|
    ensures Directives(vs, j + 1) == Directives(vs, j) + DirectiveOn(vs[j])
  {
  }

  lemma {:induction false} CompiledAlike(pp: Preprocessor, before: seq<View>, after: seq<View>, flags: seq<bool>, j: nat)
    requires Aligned(before, after, flags) && j < |after| && !flags[j]
    ensures Rank(flags, j) < |before| && Compiled(pp, after, j) == Compiled(pp, before, Rank(flags, j))
  {
    SameDirectives(before, after, flags, j);
    assert StaysAt(after, flags, before, j);
  }

  lemma {:induction false} LastIsSemi(ps: seq<Piece>, a: seq<Piece>, b: seq<Piece>)
    requires ps != [] && ps[..|ps| - 1] + [C(Semi)] + a == ps + b
    ensures ps[|ps| - 1] == C(Semi)
  {
    assert (ps + b)[|ps| - 1] == ps[|ps| - 1];
    assert (ps[..|ps| - 1] + [C(Semi)] + a)[|ps| - 1] == C(Semi);
  }

  lemma {:induction false} SameTail(ps: seq<Piece>, a: seq<Piece>, b: seq<Piece>)
    requires ps + a == ps + b
    ensures a == b
  {
    assert a == (ps + a)[|ps|..] && b == (ps + b)[|ps|..];
  }

  // ------------------------------------------------------------ what the gate makes sure of

  lemma {:induction false} FlagsFit(before: seq<Line>, after: seq<Line>, ops: seq<Opcode>, i: nat, j: nat)
    requires ValidScript(ops, before, after, i, j)
    ensures |Flags(ops)| == |after| - j
    decreases ops
  {
    if ops != [] {
      assert ops == [ops[0]] + ops[1..];
      FirstFlags(ops[0], ops[1..]);
      FlagsFit(before, after, ops[1..], ops[0].i2, ops[0].j2);
    }
  }

  lemma {:induction false} FlagsNotRefused(before: seq<Line>, after: seq<Line>, ops: seq<Opcode>, i: nat, j: nat,
      k: nat)
    requires ValidScript(ops, before, after, i, j) && AllFine(ops, before, after)
    ensures |Flags(ops)| == |after| - j
    ensures j <= k < |after| && Flags(ops)[k - j] ==> RefuseInsertion(after, ScrubAll(after), k) == None
    decreases ops
  {
    FlagsFit(before, after, ops, i, j);
    if ops != [] && j <= k < |after| {
      var op, more := ops[0], ops[1..];
      assert ops == [op] + more;
      FirstFlags(op, more);
      if k < op.j2 {
        assert OpFine(op, after, ScrubAll(before), ScrubAll(after));
      } else {
        FlagsFit(before, after, more, op.i2, op.j2);
        FlagsNotRefused(before, after, more, op.i2, op.j2, k);
      }
    }
  }

  lemma {:induction false} FirstFlags(op: Opcode, ops: seq<Opcode>)
    requires op.j1 <= op.j2
    ensures |Flags([op] + ops)| == op.j2 - op.j1 + |Flags(ops)|
    ensures forall k :: 0 <= k < op.j2 - op.j1 ==> Flags([op] + ops)[k] == (op.tag == Insert)
    ensures forall k :: op.j2 - op.j1 <= k < |Flags([op] + ops)| ==> Flags([op] + ops)[k] == Flags(ops)[k - (op.j2 - op.j1)]
  {
    assert ([op] + ops)[1..] == ops;
  }

  /** Inserted line `k` is no directive's and is shaped as the gate wants. */
  ghost predicate GateHolds(pp: Preprocessor, vs: seq<View>, k: nat)
    requires k < |vs|
  {
    Quiet(vs[k]) && Shaped(Compiled(pp, vs, k))
  }

  lemma {:induction false} AcceptedLine(pp: Preprocessor, before: seq<Line>, after: seq<Line>, ops: seq<Opcode>, k: nat)
    requires ValidScript(ops, before, after, 0, 0) && Accepts(before, after, ops)
    requires |Flags(ops)| == |after| && k < |after| && Flags(ops)[k]
    requires ForeignLinesBehave(pp, Views(after), Flags(ops))
    ensures GateHolds(pp, Views(after), k)
  {
    if Views(after)[k].start.mode == Code {
      FlagsNotRefused(before, after, ops, 0, 0, k);
      AcceptedFromCodeIsHarmless(after, ScrubAll(after), k);
      OwnIsQuiet(after, k);
    } else {
      assert Behaves(pp, Views(after), k);
    }
  }

  /** A line of code behind an unspliced line begins a logical line of its own. */
  lemma {:induction false} StartsFresh(lines: seq<Line>, k: nat)
    requires k < |lines| && StartOf(lines, k).mode == Code && (k > 0 ==> !Spliced(lines[k - 1]))
    ensures StartOf(lines, k).logical == Fresh
  {
  }

  lemma {:induction false} OwnIsQuiet(lines: seq<Line>, k: nat)
    requires k < |lines| && StartOf(lines, k).mode == Code && RefuseInsertion(lines, ScrubAll(lines), k) == None
    requires Shaped(Pieces(Code, lines[k]))
    ensures Quiet(Views(lines)[k])
  {
    StartsFresh(lines, k);
    ShapedIsNoDirective(Code, lines[k]);
  }

  /** Outside a literal, the first kept cell is the first piece. */
  lemma {:induction false} FirstCellIsFirstPiece(m: Mode, line: Line)
    requires m != Literal
    ensures var c := FirstKept(ReadLine(m, line));
      c.Kept? && c.t != Splice ==> Pieces(m, line) != [] && Pieces(m, line)[0] == C(c.t)
    decreases line
  {
    if line != [] {
      var (m', k) := Step(m, line[0]);
      assert ReadLine(m, line)[1..] == ReadLine(m', line[1..]);
      if k != Shown {
        FirstCellIsFirstPiece(m', line[1..]);
      }
    }
  }

  lemma {:induction false} ShapedIsNoDirective(m: Mode, line: Line)
    requires m != Literal && Shaped(Pieces(m, line))
    ensures !IsDirective(ReadLine(m, line))
  {
    FirstCellIsFirstPiece(m, line);
  }

  /** ... and, where it is compiled at all, stands where a statement may begin. */
  lemma {:induction false} AcceptedIsReady(pp: Preprocessor, before: seq<Line>, after: seq<Line>, ops: seq<Opcode>, k: nat)
    requires ValidScript(ops, before, after, 0, 0) && Accepts(before, after, ops) && Sectioned(pp)
    requires |Flags(ops)| == |after| && k < |after| && Flags(ops)[k] && Compiled(pp, Views(after), k) != []
    requires ForeignLinesBehave(pp, Views(after), Flags(ops)) && Quiet(Views(after)[k])
    ensures Ready(pp, Views(after), k)
  {
    var vs := Views(after);
    if Foreign(vs, k) {
      assert Behaves(pp, vs, k);
    } else {
      FlagsNotRefused(before, after, ops, 0, 0, k);
      UnrefusedIsReady(pp, after, vs, k);
    }
  }

  lemma {:induction false} UnrefusedIsReady(pp: Preprocessor, lines: seq<Line>, vs: seq<View>, k: nat)
    requires vs == Views(lines) && k < |lines| && RefuseInsertion(lines, ScrubAll(lines), k) == None && Sectioned(pp)
    requires vs[k].start.mode == Code && SeesAbove(vs, k) && Compiled(pp, vs, k) != [] && Quiet(vs[k])
    ensures Ready(pp, vs, k)
  {
    UnrefusedFollows(pp, lines, k);
    forall i | 0 <= i < |vs| ensures Scrubs(vs, ScrubAll(lines), i) {}
    AboveIsReady(pp, vs, ScrubAll(lines), k);
  }

  lemma {:induction false} UnrefusedFollows(pp: Preprocessor, lines: seq<Line>, k: nat)
    requires k < |lines| && RefuseInsertion(lines, ScrubAll(lines), k) == None
    requires StartOf(lines, k).mode == Code && Compiled(pp, Views(lines), k) != [] && Quiet(Views(lines)[k])
    ensures Terminates(Above(ScrubAll(lines), k)) && pp.keeps(Directives(Views(lines), k))
  {
    if lines[k][0] == LineOpen {
      TrailingIsSilent(lines[k][1..]);
    } else {
      var _ := AcceptedShape(lines, ScrubAll(lines), k);
    }
  }

  // ------------------------------------------------------------ the iff

  /** What an accepted rewrite must be asked. */
  ghost predicate WellBehaved(pp: Preprocessor, effects: set<string>, before: seq<View>, after: seq<View>,
      flags: seq<bool>) {
    && ForeignLinesBehave(pp, after, flags) && ShiftedLinesStay(before, after, flags)
    && ConditionsRead(pp, effects, after, flags)
  }

  /** An accepted rewrite whose foreign lines behave, whose shifted lines stay and whose conditions only read is the
      original with assertions added. */
  lemma {:induction false} AcceptedIsPreserved(pp: Preprocessor, effects: set<string>, before: seq<Line>, after: seq<Line>,
      ops: seq<Opcode>)
    requires ValidScript(ops, before, after, 0, 0) && Accepts(before, after, ops) && Sectioned(pp)
    requires WellBehaved(pp, effects, Views(before), Views(after), Flags(ops))
    ensures Preserved(pp, effects, Views(before), Views(after), Flags(ops))
  {
    var flags, vs, ws := Flags(ops), Views(before), Views(after);
    AcceptedKeeps(before, after, ops);
    forall k | 0 <= k < |ws| && flags[k] ensures Quiet(ws[k]) && WellPlaced(effects, CompiledAll(pp, ws), k) {
      AcceptedLine(pp, before, after, ops, k);
      AcceptedWellPlaced(pp, effects, before, after, ops, k);
    }
    forall k | 0 <= k < |ws| && !flags[k] ensures StaysAt(ws, flags, vs, k) {
      KeptStays(vs, ws, flags, k);
    }
    AllPreserved(pp, effects, vs, ws, flags);
  }

  lemma {:induction false} AcceptedWellPlaced(pp: Preprocessor, effects: set<string>, before: seq<Line>, after: seq<Line>,
      ops: seq<Opcode>, k: nat)
    requires ValidScript(ops, before, after, 0, 0) && Accepts(before, after, ops) && Sectioned(pp)
    requires ForeignLinesBehave(pp, Views(after), Flags(ops)) && ConditionsRead(pp, effects, Views(after), Flags(ops))
    requires |Flags(ops)| == |after| && k < |after| && Flags(ops)[k] && GateHolds(pp, Views(after), k)
    ensures WellPlaced(effects, CompiledAll(pp, Views(after)), k)
  {
    HarmlessIff(effects, Compiled(pp, Views(after), k));
    assert Reads(pp, effects, Views(after), k);
    if Compiled(pp, Views(after), k) != [] { AcceptedIsReady(pp, before, after, ops, k); }
  }

  lemma {:induction false} AllPreserved(pp: Preprocessor, effects: set<string>, before: seq<View>, after: seq<View>,
      flags: seq<bool>)
    requires Aligned(before, after, flags)
    requires forall k :: 0 <= k < |after| && flags[k] ==> WellPlaced(effects, CompiledAll(pp, after), k)
    ensures Preserved(pp, effects, before, after, flags)
  {
    var cs, was := CompiledAll(pp, after), CompiledAll(pp, before);
    forall k | 0 <= k < |after| && flags[k] ensures Shaped(cs[k]) {
      assert WellPlaced(effects, cs, k);
      HarmlessIff(effects, cs[k]);
    }
    forall k | 0 <= k < |after| && !flags[k] ensures SamePart(cs, flags, was, k) {
      CompiledAlike(pp, before, after, flags, k);
    }
    SameDirectives(before, after, flags, |after|);
    DropItems(cs, flags, 0, was);
    FlattenItems(cs, flags, 0);
    PlacedItems(effects, cs, flags, 0);
  }

  lemma {:induction false} PlacedBehaves(pp: Preprocessor, effects: set<string>, vs: seq<View>, k: nat)
    requires k < |vs| && WellPlaced(effects, CompiledAll(pp, vs), k) && Quiet(vs[k])
    ensures Behaves(pp, vs, k) && Reads(pp, effects, vs, k)
  {
    HarmlessIff(effects, Compiled(pp, vs, k));
  }

  lemma {:induction false} AllPlacedBack(effects: set<string>, cs: seq<seq<Piece>>, flags: seq<bool>, k: nat)
    requires |flags| == |cs| && k < |cs| && flags[k]
    requires Placed(effects, Items(cs, flags, 0), false) && Flatten(Items(cs, flags, 0)) == Joined(cs, 0)
    ensures WellPlaced(effects, cs, k)
  {
    PlacedBack(effects, cs, flags, 0, k);
  }

  /** ... and only then. */
  lemma {:induction false} PreservedBehaves(pp: Preprocessor, effects: set<string>, before: seq<View>,
      after: seq<View>, flags: seq<bool>,
      k: nat)
    requires Preserved(pp, effects, before, after, flags) && Rank(flags, |flags|) == |before|
    requires k < |after| && flags[k]
    ensures Behaves(pp, after, k) && Reads(pp, effects, after, k)
  {
    AllPlacedBack(effects, CompiledAll(pp, after), flags, k);
    NoDirectiveInserted(after, flags, before, k);
    PlacedBehaves(pp, effects, after, k);
  }

  /** An accepted rewrite is the original with assertions added exactly when its foreign lines behave, its shifted lines
      stay, and no inserted condition hides a call or an effect. */
  lemma {:induction false} AcceptedIsPreservedIff(pp: Preprocessor, effects: set<string>, before: seq<Line>,
      after: seq<Line>,
      ops: seq<Opcode>)
    requires ValidScript(ops, before, after, 0, 0) && Accepts(before, after, ops) && Sectioned(pp)
    ensures |Flags(ops)| == |after|
    ensures Preserved(pp, effects, Views(before), Views(after), Flags(ops))
       <==> WellBehaved(pp, effects, Views(before), Views(after), Flags(ops))
  {
    var flags, vs, ws := Flags(ops), Views(before), Views(after);
    AcceptedKeeps(before, after, ops);
    if WellBehaved(pp, effects, vs, ws, flags) {
      AcceptedIsPreserved(pp, effects, before, after, ops);
    } else if Preserved(pp, effects, vs, ws, flags) {
      forall k | 0 <= k < |ws| && flags[k] ensures Behaves(pp, ws, k) && Reads(pp, effects, ws, k) {
        PreservedBehaves(pp, effects, vs, ws, flags, k);
      }
    }
  }

  // ------------------------------------------------------------ directives, counted

  function Count(bs: seq<bool>, n: nat): nat
    requires n <= |bs|
  {
    if n == 0 then 0 else Count(bs, n - 1) + if bs[n - 1] then 1 else 0
  }

  function DirectiveLines(vs: seq<View>): (r: seq<bool>)
    ensures |r| == |vs|
  {
    seq(|vs|, j requires 0 <= j < |vs| => Role(vs[j]).Some?)
  }

  lemma {:induction false} CountStep(bs: seq<bool>, j: nat)
    requires j < |bs|
    ensures Count(bs, j + 1) == Count(bs, j) + if bs[j] then 1 else 0
  {
  }

  lemma {:induction false} DirectivesCounted(vs: seq<View>, bs: seq<bool>, j: nat)
    requires j <= |vs| == |bs| && forall k :: 0 <= k < |bs| ==> |DirectiveOn(vs[k])| == if bs[k] then 1 else 0
    ensures |Directives(vs, j)| == Count(bs, j)
  {
    if j > 0 {
      DirectivesCounted(vs, bs, j - 1);
      DirectivesStep(vs, j - 1);
      CountStep(bs, j - 1);
    }
  }

  /** What is inserted counts on top of what is kept. */
  lemma {:induction false} InsertedCount(now: seq<bool>, flags: seq<bool>, was: seq<bool>, j: nat, k: nat)
    requires |flags| == |now| && j <= |now| && k < |now| && flags[k]
    requires forall i {:trigger SameFlag(now, flags, was, i)} :: 0 <= i < |now| && !flags[i] ==> SameFlag(now, flags, was, i)
    requires Rank(flags, |flags|) <= |was|
    ensures Rank(flags, j) <= |was|
    ensures Count(now, j) >= Count(was, Rank(flags, j)) + if k < j && now[k] then 1 else 0
    decreases j
  {
    RankGrows(flags, j, |flags|);
    if j > 0 {
      InsertedCount(now, flags, was, j - 1, k);
      if !flags[j - 1] { assert SameFlag(now, flags, was, j - 1); }
    }
  }

  predicate SameFlag(now: seq<bool>, flags: seq<bool>, was: seq<bool>, i: nat)
    requires |flags| == |now| && i < |now|
  {
    Rank(flags, i) < |was| && now[i] == was[Rank(flags, i)]
  }

  /** Where both files have the same directives in all, none was inserted. */
  lemma {:induction false} NoDirectiveInserted(after: seq<View>, flags: seq<bool>, before: seq<View>, k: nat)
    requires |flags| == |after| && Rank(flags, |flags|) == |before| && k < |after| && flags[k]
    requires forall j {:trigger StaysAt(after, flags, before, j)} ::
      0 <= j < |after| && !flags[j] ==> StaysAt(after, flags, before, j)
    requires Directives(after, |after|) == Directives(before, |before|)
    ensures Quiet(after[k])
  {
    var now, was := DirectiveLines(after), DirectiveLines(before);
    DirectivesCounted(after, now, |after|);
    DirectivesCounted(before, was, |before|);
    forall i | 0 <= i < |now| && !flags[i] ensures SameFlag(now, flags, was, i) {
      assert StaysAt(after, flags, before, i);
      KeptFlag(after, flags, before, i);
    }
    InsertedCount(now, flags, was, |now|, k);
    assert now[k] == Role(after[k]).Some?;
  }

  lemma {:induction false} KeptFlag(after: seq<View>, flags: seq<bool>, before: seq<View>, i: nat)
    requires |flags| == |after| && i < |after| && StaysAt(after, flags, before, i)
    ensures SameFlag(DirectiveLines(after), flags, DirectiveLines(before), i)
  {
  }

  // ------------------------------------------------------------ what it amounts to

  /** An accepted, well-behaved step from one version of a file to the next. */
  ghost predicate SoundStep(pp: Preprocessor, effects: set<string>, before: seq<Line>, after: seq<Line>,
      ops: seq<Opcode>) {
    && ValidScript(ops, before, after, 0, 0) && Accepts(before, after, ops)
    && WellBehaved(pp, effects, Views(before), Views(after), Flags(ops))
  }

  /** The translation unit a file is. */
  function UnitOf(pp: Preprocessor, lines: seq<Line>): Option<Unit> { Parse(Program(pp, lines)) }

  /** One step: if the rewrite parses, so does the original, and every run of the rewrite is the same run of the
      original, violations of the added assertions apart. */
  lemma {:induction false} StepIsSafe<S(!new)>(pp: Preprocessor, m: Meaning<S>, before: seq<Line>, after: seq<Line>,
      ops: seq<Opcode>, s: S)
    requires SoundStep(pp, m.effects, before, after, ops) && Sectioned(pp) && Respects(m)
    requires UnitOf(pp, after).Some?
    ensures UnitOf(pp, before).Some?
    ensures forall fuel: nat :: Covers(Run(m, UnitOf(pp, after).value, s, fuel), Run(m, UnitOf(pp, before).value, s, fuel))
  {
    AcceptedIsPreserved(pp, m.effects, before, after, ops);
    var items := Items(CompiledAll(pp, Views(after)), Flags(ops), 0);
    InsertionShows(m.effects, items, false);
    var b := ParseErases(m.effects, items);
    forall fuel: nat
      ensures Covers(Run(m, UnitOf(pp, after).value, s, fuel), Run(m, UnitOf(pp, before).value, s, fuel))
    {
      EraseRun(m, UnitOf(pp, after).value, b, s, fuel);
    }
  }

  /** `files` is a run of accepted rewrites, each made to the one before. */
  ghost predicate SoundChain(pp: Preprocessor, effects: set<string>, files: seq<seq<Line>>, scripts: seq<seq<Opcode>>) {
    && |files| == |scripts| + 1
    && forall k :: 0 <= k < |scripts| ==> SoundStep(pp, effects, files[k], files[k + 1], scripts[k])
  }

  lemma {:induction false} TailChain(pp: Preprocessor, effects: set<string>, files: seq<seq<Line>>,
      scripts: seq<seq<Opcode>>)
    requires SoundChain(pp, effects, files, scripts) && scripts != []
    ensures SoundStep(pp, effects, files[0], files[1], scripts[0]) && SoundChain(pp, effects, files[1..], scripts[1..])
  {
    forall k | 0 <= k < |scripts[1..]|
      ensures SoundStep(pp, effects, files[1..][k], files[1..][k + 1], scripts[1..][k])
    {
      assert SoundStep(pp, effects, files[k + 1], files[k + 2], scripts[k + 1]);
    }
  }

  /** Any number of accepted proposals: if the last file parses so does the first, and what the first can violate
      the last can; if the last is safe, the first is. */
  lemma {:induction false} ChainIsSafe<S(!new)>(pp: Preprocessor, m: Meaning<S>, files: seq<seq<Line>>,
      scripts: seq<seq<Opcode>>, s: S, excused: int -> bool)
    requires SoundChain(pp, m.effects, files, scripts) && Sectioned(pp) && Respects(m)
    requires UnitOf(pp, files[|files| - 1]).Some?
    ensures UnitOf(pp, files[0]).Some?
    ensures SafeBut(m, UnitOf(pp, files[|files| - 1]).value, s, excused) ==>
            SafeBut(m, UnitOf(pp, files[0]).value, s, excused)
    decreases |scripts|
  {
    if scripts != [] {
      TailChain(pp, m.effects, files, scripts);
      ChainIsSafe(pp, m, files[1..], scripts[1..], s, excused);
      StepIsSafe(pp, m, files[0], files[1], scripts[0], s);
      SafeStep(m, UnitOf(pp, files[1]).value, UnitOf(pp, files[0]).value, s, excused);
    }
  }

  lemma {:induction false} SafeStep<S(!new)>(m: Meaning<S>, a: Unit, b: Unit, s: S, excused: int -> bool)
    requires forall fuel: nat :: Covers(Run(m, a, s, fuel), Run(m, b, s, fuel))
    ensures SafeBut(m, a, s, excused) ==> SafeBut(m, b, s, excused)
  {
    if SafeBut(m, a, s, excused) {
      forall fuel: nat, v | v in Run(m, b, s, fuel).bad ensures excused(v) {
        assert Covers(Run(m, a, s, fuel), Run(m, b, s, fuel));
      }
    }
  }
}
