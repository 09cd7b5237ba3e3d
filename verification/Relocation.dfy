/** Rebasing an entry of a moved tree against parsing the entry the tree would have had where it now is. */
module Relocation {
  import opened Wrappers
  import opened Paths
  import opened CompileDb

  // ------------------------------------------- the database, as if written there

  /** A path written in the database, with the old root replaced where it is spelled out. */
  function MovedText(v: string, from: Path, to: Path): string {
    if LooksAbsolute(PathOf(v)) && Under(PathOf(v), from) then Render(Rebase(PathOf(v), from, to)) else v
  }

  function MovedToken(t: string, from: Path, to: Path): string {
    if STD_PREFIX <= t then t
    else match JoinedPrefix(t)
      case Some(p) => if PathFlag(p) then p + MovedText(t[|p|..], from, to) else t
      case None => t
  }

  function MovedTokens(tokens: seq<string>, from: Path, to: Path): seq<string> {
    if tokens == [] then []
    else if ValueFlag(tokens[0]) && |tokens| > 1 then
      [tokens[0], if PathFlag(tokens[0]) then MovedText(tokens[1], from, to) else tokens[1]]
      + MovedTokens(tokens[2..], from, to)
    else [MovedToken(tokens[0], from, to)] + MovedTokens(tokens[1..], from, to)
  }

  function MovedDirectory(d: string, from: Path, to: Path): string {
    if Under(PathOf(d), from) then Render(Rebase(PathOf(d), from, to)) else d
  }

  function MovedRaw(raw: Raw, from: Path, to: Path): Raw {
    Raw(match raw.directory case None => None case Some(d) => Some(MovedDirectory(d, from, to)),
        MovedText(raw.file, from, to),
        raw.tokens[..|raw.tokens| - |Arguments(raw)|] + MovedTokens(Arguments(raw), from, to))
  }

  function MovedDirective(d: Directive, from: Path, to: Path): Directive {
    if d.Flagged? && PathFlag(d.flag) then Flagged(d.flag, MovedText(d.value, from, to)) else d
  }

  function MovedDirectives(ds: seq<Directive>, from: Path, to: Path): (r: seq<Directive>)
    ensures |r| == |ds|
  {
    seq(|ds|, k requires 0 <= k < |ds| => MovedDirective(ds[k], from, to))
  }

  // -------------------------------------------------- the text is read as moved

  lemma MovedTextReads(v: string, from: Path, to: Path)
    requires Resolved(to)
    ensures PathOf(MovedText(v, from, to))
         == if LooksAbsolute(PathOf(v)) then Rebase(PathOf(v), from, to) else PathOf(v)
    ensures v != "" ==> MovedText(v, from, to) != ""
    ensures LooksAbsolute(PathOf(MovedText(v, from, to))) == LooksAbsolute(PathOf(v))
  {
    var p := PathOf(v);
    if LooksAbsolute(p) && Under(p, from) {
      RebasedReads(v, from, to);
    }
  }

  lemma RebasedReads(v: string, from: Path, to: Path)
    requires Resolved(to) && Under(PathOf(v), from)
    ensures PathOf(Render(Rebase(PathOf(v), from, to))) == Rebase(PathOf(v), from, to)
    ensures Render(Rebase(PathOf(v), from, to)) != "" && Absolute(Rebase(PathOf(v), from, to))
  {
    var p := PathOf(v);
    ReadIsWellFormed(v);
    var q := Rebase(p, from, to);
    assert q[0] == "/";
    forall k | 1 <= k < |q| ensures Component(q[k]) {
      if k < |to| { PartIsComponent(to, k); } else { PartIsComponent(p, k - |to| + |from|); }
    }
    PathRoundTrip(q);
  }

  lemma MovedTokenReads(t: string, from: Path, to: Path)
    requires Resolved(to)
    ensures Single(MovedToken(t, from, to)) == MovedDirectives(Single(t), from, to)
    ensures !ValueFlag(t) ==> !ValueFlag(MovedToken(t, from, to))
  {
    var joined := JoinedPrefix(t);
    if !(STD_PREFIX <= t) && joined.Some? && PathFlag(joined.value) {
      var p := joined.value;
      MovedTextReads(t[|p|..], from, to);
      JoinedMoved(p, MovedText(t[|p|..], from, to));
    }
  }

  lemma TwoTokens(a: string, b: string, rest: seq<string>)
    requires ValueFlag(a)
    ensures Directives([a, b] + rest) == [Flagged(a, b)] + Directives(rest)
  {
    assert ([a, b] + rest)[2..] == rest;
  }

  lemma OneToken(a: string, rest: seq<string>)
    requires !ValueFlag(a) || rest == []
    ensures Directives([a] + rest) == Single(a) + Directives(rest)
  {
    assert ([a] + rest)[1..] == rest;
  }

  lemma MovedAppend(a: seq<Directive>, b: seq<Directive>, from: Path, to: Path)
    ensures MovedDirectives(a + b, from, to) == MovedDirectives(a, from, to) + MovedDirectives(b, from, to)
  {}

  lemma {:induction false} MovedTokensRead(tokens: seq<string>, from: Path, to: Path)
    requires Resolved(to)
    ensures Directives(MovedTokens(tokens, from, to)) == MovedDirectives(Directives(tokens), from, to)
    ensures |MovedTokens(tokens, from, to)| == |tokens|
    decreases |tokens|
  {
    if tokens != [] {
      var t := tokens[0];
      if ValueFlag(t) && |tokens| > 1 {
        MovedTokensRead(tokens[2..], from, to);
        var moved := if PathFlag(t) then MovedText(tokens[1], from, to) else tokens[1];
        TwoTokens(t, moved, MovedTokens(tokens[2..], from, to));
        MovedAppend([Flagged(t, tokens[1])], Directives(tokens[2..]), from, to);
        assert MovedDirectives([Flagged(t, tokens[1])], from, to) == [Flagged(t, moved)];
      } else {
        MovedTokensRead(tokens[1..], from, to);
        MovedTokenReads(t, from, to);
        OneToken(MovedToken(t, from, to), MovedTokens(tokens[1..], from, to));
        MovedAppend(Single(t), Directives(tokens[1..]), from, to);
      }
    }
  }

  // -------------------------------------------------- one value

  /** Written under the old root as `rest`: either it ends under the old root, and the roots end alike below where it
      climbed to, or it ends outside, and climbed to the same directory from both. */
  predicate ClimbsAlike(from: Path, to: Path, rest: Path) {
    var a, b := Above(from, rest), Above(to, rest);
    if Under(a + Below(rest), from) then a <= from && to == b + from[|a|..] else a == b
  }

  /** What the relocation makes of the value is what the moved database says: an absolute one is spelled out as such; a
      relative one is not in the old root once its directory has moved. */
  predicate MovesRight(directory: Path, v: string, from: Path, to: Path) {
    var p := PathOf(v);
    if !LooksAbsolute(p) then Stays(Locate(Rebase(directory, from, to), v), from, to)
    else if Under(p, from) then ClimbsAlike(from, to, p[|from|..])
    else Stays(Normalise(p), from, to)
  }

  lemma ClimbsIff(from: Path, to: Path, rest: Path)
    requires Resolved(to) && (from == [] ==> !Absolute(rest))
    ensures Rebase(Normalise(from + rest), from, to) == Normalise(to + rest) <==> ClimbsAlike(from, to, rest)
  {
    var a, b, down := Above(from, rest), Above(to, rest), Below(rest);
    NormaliseUpDown(from, rest);
    NormaliseUpDown(to, rest);
    AboveIsShorter(to, rest);
    if !Under(a + down, from) {
      SameHead(a, b, down);
    } else if |a| <= |from| {
      var x, w := from[|a|..], (a + down)[|from|..];
      assert a == (a + down)[..|a|] == from[..|a|];
      assert down == (a + down)[|a|..] == x + w;
      assert b + down == b + x + w;
      SameHead(to, b + x, w);
    } else {
      assert |to + (a + down)[|from|..]| > |b + down|;
    }
  }

  /** One value: what the relocation makes of it is what the moved database says exactly when it moves right. */
  lemma ValueIff(directory: Path, v: string, from: Path, to: Path)
    requires Resolved(to)
    ensures Rebase(Locate(Rebase(directory, from, to), v), from, to)
            == Locate(Rebase(directory, from, to), MovedText(v, from, to))
       <==> MovesRight(directory, v, from, to)
  {
    var p := PathOf(v);
    MovedTextReads(v, from, to);
    if !LooksAbsolute(p) {
      StaysIff(Locate(Rebase(directory, from, to), v), from, to);
    } else if Under(p, from) {
      assert p == from + p[|from|..];
      ClimbsIff(from, to, p[|from|..]);
    } else {
      StaysIff(Normalise(p), from, to);
    }
  }

  // -------------------------------------------------- a whole entry

  predicate NamesPath(d: Directive) { d.Flagged? && PathFlag(d.flag) }

  predicate DirectiveMoves(directory: Path, d: Directive, from: Path, to: Path) {
    NamesPath(d) ==> MovesRight(directory, d.value, from, to)
  }

  predicate AllMove(directory: Path, ds: seq<Directive>, from: Path, to: Path) {
    forall k :: 0 <= k < |ds| ==> DirectiveMoves(directory, ds[k], from, to)
  }

  /** Equal apart from the paths. */
  predicate SameBesides(a: Entry, b: Entry) {
    a.file == b.file && a.directory == b.directory && a.defines == b.defines && a.undefines == b.undefines
    && a.std == b.std
  }

  function RebasePaths(e: Entry, from: Path, to: Path): Entry {
    e.(includeDirs := RebaseAll(e.includeDirs, from, to), forceIncludes := RebaseAll(e.forceIncludes, from, to))
  }

  lemma RebaseAllOne(ps: seq<Path>, p: Path, from: Path, to: Path)
    ensures RebaseAll(ps + [p], from, to) == RebaseAll(ps, from, to) + [Rebase(p, from, to)]
  {}

  lemma OneMoreSame<T>(a: seq<T>, x: T, b: seq<T>, y: T)
    ensures a + [x] == b + [y] <==> a == b && x == y
  {
    if a + [x] == b + [y] {
      assert |a| == |b|;
      assert a == (a + [x])[..|a|] && b == (b + [y])[..|b|] && x == (a + [x])[|a|] && y == (b + [y])[|b|];
    }
  }

  /** One directive more on both sides. */
  lemma AbsorbIff(a: Entry, b: Entry, directory: Path, d: Directive, from: Path, to: Path)
    requires Resolved(to)
    requires SameBesides(RebasePaths(a, from, to), b) && a.directory == Rebase(directory, from, to)
    ensures var a1, b1 := RebasePaths(Absorbed(a, d), from, to), Absorbed(b, MovedDirective(d, from, to));
            SameBesides(a1, b1)
            && (a1 == b1 <==> RebasePaths(a, from, to) == b && DirectiveMoves(directory, d, from, to))
  {
    if NamesPath(d) {
      ValueIff(directory, d.value, from, to);
      var x := Locate(a.directory, d.value);
      var y := Locate(a.directory, MovedText(d.value, from, to));
      RebaseAllOne(a.includeDirs, x, from, to);
      RebaseAllOne(a.forceIncludes, x, from, to);
      OneMoreSame(RebaseAll(a.includeDirs, from, to), Rebase(x, from, to), b.includeDirs, y);
      OneMoreSame(RebaseAll(a.forceIncludes, from, to), Rebase(x, from, to), b.forceIncludes, y);
    }
  }

  lemma {:induction false} BuildIff(e: Entry, directory: Path, ds: seq<Directive>, from: Path, to: Path)
    requires Resolved(to)
    requires e.directory == Rebase(directory, from, to) && e.includeDirs == [] && e.forceIncludes == []
    ensures var a, b := RebasePaths(Build(e, ds), from, to), Build(e, MovedDirectives(ds, from, to));
            SameBesides(a, b) && (a == b <==> AllMove(directory, ds, from, to))
  {
    if ds != [] {
      var n := |ds| - 1;
      var front, last := ds[..n], ds[n];
      BuildIff(e, directory, front, from, to);
      BuildKeepsPlace(e, front);
      assert MovedDirectives(ds, from, to)[..n] == MovedDirectives(front, from, to);
      AbsorbIff(Build(e, front), Build(e, MovedDirectives(front, from, to)), directory, last, from, to);
      assert ds == front + [last];
      assert AllMove(directory, ds, from, to)
        <==> AllMove(directory, front, from, to) && DirectiveMoves(directory, last, from, to);
    }
  }

  /** What parsing the moved database would give. */
  function MovedEntry(raw: Raw, home: Path, target: Path, from: Path, to: Path): Entry {
    var moved := MovedRaw(raw, from, to);
    Parsed(moved, Directory(moved, home), target)
  }

  /** A database that names no directory is taken to be where it is, which a move of the tree does not change. */
  predicate DirectoryMoves(raw: Raw, home: Path, from: Path, to: Path) { raw.directory.Some? || Stays(home, from, to) }

  /** `_relocated` gives the entry of the moved database exactly when its directory and every path in it move right. */
  lemma RelocationIff(raw: Raw, home: Path, target: Path, from: Path, to: Path)
    requires Resolved(to)
    ensures RebasedEntry(raw, home, target, from, to) == MovedEntry(raw, home, target, from, to)
       <==> DirectoryMoves(raw, home, from, to) && AllMove(Directory(raw, home), Directives(Arguments(raw)), from, to)
  {
    var directory, moved := Directory(raw, home), MovedRaw(raw, from, to);
    var ds := Directives(Arguments(raw));
    if raw.directory.Some? && Under(directory, from) { RebasedReads(raw.directory.value, from, to); }
    StaysIff(home, from, to);
    assert DirectoryMoves(raw, home, from, to) <==> Directory(moved, home) == Rebase(directory, from, to);
    MovedTokensRead(Arguments(raw), from, to);
    assert Arguments(moved) == MovedTokens(Arguments(raw), from, to);
    BuildKeepsPlace(Fresh(target, Rebase(directory, from, to)), ds);
    BuildKeepsPlace(Fresh(target, Directory(moved, home)), MovedDirectives(ds, from, to));
    BuildIff(Fresh(target, Rebase(directory, from, to)), directory, ds, from, to);
  }

  /** The entry of the database that `_relocated` moves is the moved database's exactly under that condition, the roots
      being what stands before the tail the two files share; and a directory in the old tree is then the same one in the
      new. */
  lemma RelocatedIff(entry: Entry, raw: Raw, home: Path, target: Path, from: Path, to: Path, tail: Path)
    requires MovedBetweenRoots(entry, raw, target, home) && Resolved(target)
    requires WellFormed(Candidate(raw, home)) && Candidate(raw, home) != target
    requires Candidate(raw, home) == from + tail && target == to + tail
    requires from == [] || to == [] || from[|from| - 1] != to[|to| - 1]
    ensures Resolved(to) && entry.file == target
    ensures entry == MovedEntry(raw, home, target, from, to)
       <==> DirectoryMoves(raw, home, from, to) && AllMove(Directory(raw, home), Directives(Arguments(raw)), from, to)
    ensures forall d :: Directory(raw, home) == from + d && (from == [] ==> !Absolute(d)) ==> entry.directory == to + d
  {
    BetweenTheseRoots(entry, raw, home, target, from, to, tail);
    RootOfTarget(Candidate(raw, home), target, from, to, tail);
    RelocationIff(raw, home, target, from, to);
    forall d | Directory(raw, home) == from + d && (from == [] ==> !Absolute(d)) ensures entry.directory == to + d {
      assert (from + d)[|from|..] == d;
    }
  }

  lemma BetweenTheseRoots(entry: Entry, raw: Raw, home: Path, target: Path, from: Path, to: Path, tail: Path)
    requires MovedBetweenRoots(entry, raw, target, home)
    requires Candidate(raw, home) == from + tail && target == to + tail
    requires from == [] || to == [] || from[|from| - 1] != to[|to| - 1]
    ensures entry == RebasedEntry(raw, home, target, from, to)
    ensures entry.file == target && entry.directory == Rebase(Directory(raw, home), from, to)
  {
    var candidate := Candidate(raw, home);
    var from', to' :| Roots(candidate, target, from', to') && entry == RebasedEntry(raw, home, target, from', to');
    assert candidate[|from|..] == tail == target[|to|..];
    RootsUnique(candidate, target, from, to, from', to');
    BuildKeepsPlace(Fresh(target, Rebase(Directory(raw, home), from, to)), Directives(Arguments(raw)));
  }

  lemma RootOfTarget(candidate: Path, target: Path, from: Path, to: Path, tail: Path)
    requires Resolved(target) && WellFormed(candidate) && candidate != target
    requires candidate == from + tail && target == to + tail
    ensures Resolved(to)
  {
    if to == [] {
      assert target == tail && candidate[|from|] == "/" && from != [];
      PartIsComponent(candidate, |from|);
    }
    forall k | 1 <= k < |to| ensures Component(to[k]) {
      assert target[k] == to[k];
      PartIsComponent(target, k);
    }
    assert to != [] && to[0] == target[0];
  }

  /** A value that the tree carries along, or that is none of its business. */
  predicate Movable(directory: Path, v: string, from: Path) {
    var p := PathOf(v);
    if LooksAbsolute(p) then (if Under(p, from) then NoClimb(p[|from|..], 0) else !Under(Normalise(p), from))
    else if Under(directory, from) then NoClimb(directory[|from|..] + p, 0)
    else !Under(Normalise(directory + p), from)
  }

  lemma MovableMoves(directory: Path, v: string, from: Path, to: Path)
    requires Resolved(to) && Plain(from) && Apart(from, to) && Movable(directory, v, from)
    ensures MovesRight(directory, v, from, to)
  {
    var p := PathOf(v);
    if LooksAbsolute(p) {
      if Under(p, from) {
        StaysBelow(from, p[|from|..]);
        StaysBelow(to, p[|from|..]);
      }
    } else if Under(directory, from) {
      LandsUnder(directory, v, from, to);
      ApartMeansOnce(Locate(Rebase(directory, from, to), v), from, to);
    }
  }

  lemma LandsUnder(directory: Path, v: string, from: Path, to: Path)
    requires Resolved(to) && !LooksAbsolute(PathOf(v)) && Under(directory, from)
    requires NoClimb(directory[|from|..] + PathOf(v), 0)
    ensures to <= Locate(Rebase(directory, from, to), v)
  {
    var rest := directory[|from|..] + PathOf(v);
    assert Rebase(directory, from, to) + PathOf(v) == to + rest;
    StaysBelow(to, rest);
  }

  /** Moving commutes with parsing when neither tree contains the other and the tree carries its paths along. */
  lemma ApartCommutes(raw: Raw, home: Path, target: Path, from: Path, to: Path)
    requires Resolved(to) && Plain(from) && Apart(from, to) && DirectoryMoves(raw, home, from, to)
    requires forall d <- Directives(Arguments(raw)) :: NamesPath(d) ==> Movable(Directory(raw, home), d.value, from)
    ensures RebasedEntry(raw, home, target, from, to) == MovedEntry(raw, home, target, from, to)
  {
    var directory, ds := Directory(raw, home), Directives(Arguments(raw));
    forall k | 0 <= k < |ds| ensures DirectiveMoves(directory, ds[k], from, to) {
      assert ds[k] in ds;
      if NamesPath(ds[k]) { MovableMoves(directory, ds[k].value, from, to); }
    }
    RelocationIff(raw, home, target, from, to);
  }

  /** When the tree was moved to below where it was, every relative path that stays in it comes out wrong: it is
      rebased with its directory, and again by itself. */
  lemma MovedBelowItself(raw: Raw, home: Path, target: Path, from: Path, to: Path, k: nat)
    requires Resolved(to) && from <= to && from != to && from != [] && Under(Directory(raw, home), from)
    requires k < |Directives(Arguments(raw))| && NamesPath(Directives(Arguments(raw))[k])
    requires var p := PathOf(Directives(Arguments(raw))[k].value);
      !LooksAbsolute(p) && NoClimb(Directory(raw, home)[|from|..] + p, 0)
    ensures RebasedEntry(raw, home, target, from, to) != MovedEntry(raw, home, target, from, to)
  {
    var directory, d := Directory(raw, home), Directives(Arguments(raw))[k];
    LandsUnder(directory, d.value, from, to);
    assert !DirectiveMoves(directory, d, from, to);
    RelocationIff(raw, home, target, from, to);
  }

  /** A build directory outside the tree: a relative path into the tree is moved, though it still leads where it did. */
  lemma BuiltElsewhere(raw: Raw, home: Path, target: Path, from: Path, to: Path, k: nat)
    requires Resolved(to) && from != to && !Under(Directory(raw, home), from)
    requires k < |Directives(Arguments(raw))| && NamesPath(Directives(Arguments(raw))[k])
    requires var v := Directives(Arguments(raw))[k].value;
      !LooksAbsolute(PathOf(v)) && Under(Locate(Directory(raw, home), v), from)
    ensures RebasedEntry(raw, home, target, from, to) != MovedEntry(raw, home, target, from, to)
  {
    var directory, d := Directory(raw, home), Directives(Arguments(raw))[k];
    assert !DirectiveMoves(directory, d, from, to);
    RelocationIff(raw, home, target, from, to);
  }

  lemma RebaseJoin(directory: Path, file: Path, from: Path, to: Path, tail: Path)
    requires Under(directory, from) && directory + file == from + tail
    ensures Rebase(directory, from, to) + file == to + tail
  {
    var below := directory[|from|..];
    assert directory == from + below;
    assert directory + file == from + (below + file);
    assert tail == (from + tail)[|from|..] == below + file;
    assert Rebase(directory, from, to) + file == to + (below + file);
  }

  /** The moved database's entry is for the target itself, so that it would have been found directly. */
  lemma MovedEntryIsTheTargets(raw: Raw, home: Path, target: Path, from: Path, to: Path, tail: Path)
    requires Resolved(to) && WellFormed(target) && tail != []
    requires Candidate(raw, home) == from + tail && target == to + tail
    requires LooksAbsolute(PathOf(raw.file)) || (raw.directory.Some? && Under(Directory(raw, home), from))
    ensures Candidate(MovedRaw(raw, from, to), home) == target
  {
    MovedTextReads(raw.file, from, to);
    if LooksAbsolute(PathOf(raw.file)) {
      PartIsComponent(target, |to|);
      assert tail[0] == target[|to|];
      assert Under(from + tail, from);
      assert (from + tail)[|from|..] == tail;
    } else {
      RebasedReads(raw.directory.value, from, to);
      RebaseJoin(Directory(raw, home), PathOf(raw.file), from, to, tail);
    }
  }
}
