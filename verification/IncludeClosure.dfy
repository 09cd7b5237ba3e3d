/** `local_include_closure`: the project headers a source pulls in, by a depth-limited walk with one visited set. */
module IncludeClosure {
  import opened Wrappers

  type Path = string
  type Name = string
  type Text = string

  /** The headers on disk (None: present but unreadable), how a name is looked up, and what a text includes. */
  datatype Tree = Tree(
    files: map<Path, Option<Text>>,
    join: (Path, Name) -> Path,        // directory / name
    parent: Path -> Path,              // the directory a file is in
    names: Text -> seq<Name>)          // the included names a text makes eligible

  /** `for directory in [current.parent, *search]`: the first directory that has the name. */
  function Lookup(t: Tree, dirs: seq<Path>, name: Name): (r: Option<Path>)
    ensures r.Some? ==> r.value in t.files
  {
    if dirs == [] then None
    else if t.join(dirs[0], name) in t.files then Some(t.join(dirs[0], name))
    else Lookup(t, dirs[1..], name)
  }

  /** The header `name` denotes when a file at `current` includes it. */
  function Resolve(t: Tree, search: seq<Path>, current: Path, name: Name): Option<Path> {
    Lookup(t, [t.parent(current)] + search, name)
  }

  /** The directories a name is looked up in: the including file's own first, then those of the search path. */
  function DirectoryAt(t: Tree, search: seq<Path>, current: Path, k: nat): Path
    requires k <= |search|
  {
    if k == 0 then t.parent(current) else search[k - 1]
  }

  /** The header is in the `k`-th of them, and in none before it. */
  ghost predicate FirstIn(t: Tree, search: seq<Path>, current: Path, name: Name, k: nat, h: Path) {
    && k <= |search| && h == t.join(DirectoryAt(t, search, current, k), name) && h in t.files
    && forall i: nat :: i < k ==> t.join(DirectoryAt(t, search, current, i), name) !in t.files
  }

  /** A name denotes the header of that name in the first of them that has one, and nothing if none has. */
  lemma ResolveIff(t: Tree, search: seq<Path>, current: Path, name: Name, h: Path)
    ensures Resolve(t, search, current, name) == Some(h) <==> exists k: nat :: FirstIn(t, search, current, name, k, h)
  {
    var dirs := [t.parent(current)] + search;
    assert forall k: nat :: k <= |search| ==> dirs[k] == DirectoryAt(t, search, current, k);
    LookupIff(t, dirs, name, h);
    if k: nat :| FirstOf(t, dirs, name, k, h) { assert FirstIn(t, search, current, name, k, h); }
    if k: nat :| FirstIn(t, search, current, name, k, h) { assert FirstOf(t, dirs, name, k, h); }
  }

  ghost predicate FirstOf(t: Tree, dirs: seq<Path>, name: Name, k: nat, h: Path) {
    k < |dirs| && h == t.join(dirs[k], name) && h in t.files && forall i: nat :: i < k ==> t.join(dirs[i], name) !in t.files
  }

  lemma {:induction false} LookupIff(t: Tree, dirs: seq<Path>, name: Name, h: Path)
    ensures Lookup(t, dirs, name) == Some(h) <==> exists k: nat :: FirstOf(t, dirs, name, k, h)
    decreases dirs
  {
    if dirs != [] {
      LookupIff(t, dirs[1..], name, h);
      var rest := dirs[1..];
      if t.join(dirs[0], name) in t.files {
        if Lookup(t, dirs, name) == Some(h) { assert FirstOf(t, dirs, name, 0, h); }
      } else {
        if k: nat :| FirstOf(t, rest, name, k, h) {
          var next := k + 1;
          assert forall i: nat :: 0 < i < next ==> dirs[i] == rest[i - 1];
          assert FirstOf(t, dirs, name, next, h);
        }
        if k: nat :| FirstOf(t, dirs, name, k, h) {
          var before: nat := k - 1;
          assert forall i: nat :: i < before ==> rest[i] == dirs[i + 1];
          assert FirstOf(t, rest, name, before, h);
        }
      }
    }
  }

  /** A text at `current` includes the header `h`. */
  ghost predicate Includes(t: Tree, search: seq<Path>, current: Path, body: Text, h: Path) {
    exists n <- t.names(body) :: Resolve(t, search, current, n) == Some(h)
  }

  /** One header includes another: only a readable header includes anything. */
  ghost predicate Edge(t: Tree, search: seq<Path>, g: Path, h: Path) {
    g in t.files && t.files[g].Some? && Includes(t, search, g, t.files[g].value, h)
  }

  /** `h` is reached from the text at `current` through at most `n` includes. */
  ghost predicate ReachedIn(t: Tree, search: seq<Path>, current: Path, body: Text, h: Path, n: nat)
    decreases n
  {
    n > 0 && (Includes(t, search, current, body, h)
      || exists g :: ReachedIn(t, search, current, body, g, n - 1) && Edge(t, search, g, h))
  }

  ghost predicate ReachedFrom(t: Tree, search: seq<Path>, current: Path, body: Text, h: Path) {
    exists n: nat :: ReachedIn(t, search, current, body, h, n)
  }

  ghost predicate NoDuplicates(s: seq<(Path, Text)>) {
    forall i, j :: 0 <= i < j < |s| ==> s[i].0 != s[j].0
  }

  /** The headers seen once `absorb` has gone through these names of a text at `current`, `seen` before. */
  function Walked(t: Tree, search: seq<Path>, current: Path, names: seq<Name>, remaining: nat,
      seen: set<Path>): (r: set<Path>)
    ensures seen <= r
    decreases remaining, |names|
  {
    if remaining == 0 || names == [] then seen
    else
      var target := Resolve(t, search, current, names[0]);
      var seen' := if target.Some? && target.value !in seen then Entered(t, search, target.value, remaining, seen) else seen;
      Walked(t, search, current, names[1..], remaining, seen')
  }

  /** ... and once it has met a new header. */
  function Entered(t: Tree, search: seq<Path>, h: Path, remaining: nat, seen: set<Path>): (r: set<Path>)
    requires h in t.files && remaining > 0
    ensures seen + {h} <= r
    decreases remaining, 0
  {
    if t.files[h].Some? then Walked(t, search, h, t.names(t.files[h].value), remaining - 1, seen + {h}) else seen + {h}
  }

  /** What `absorb` shares between its recursive calls. */
  class Walk {
    const tree: Tree
    const search: seq<Path>
    var seen: set<Path>
    var found: seq<(Path, Text)>

    constructor (t: Tree, search: seq<Path>)
      ensures tree == t && this.search == search && seen == {} && found == []
    {
      tree, this.search := t, search;
      seen, found := {}, [];
    }

    /** `found` is exactly the readable headers seen, each once, with its contents. */
    ghost predicate Valid()
      reads this
    {
      && seen <= tree.files.Keys
      && NoDuplicates(found)
      && (forall e <- found :: e.0 in seen && tree.files[e.0] == Some(e.1))
      && (forall h <- seen :: tree.files[h].Some? ==> (h, tree.files[h].value) in found)
    }

    /** `absorb(current, body, remaining)`. */
    method Absorb(current: Path, body: Text, remaining: nat)
      requires Valid()
      modifies this`seen, this`found
      ensures Valid() && old(found) <= found
      ensures seen == Walked(tree, search, current, tree.names(body), remaining, old(seen))
      decreases remaining, 1
    {
      if remaining == 0 { return; }
      var names := tree.names(body);
      for k := 0 to |names|
        invariant Valid() && old(found) <= found
        invariant Walked(tree, search, current, names[k..], remaining, seen)
               == Walked(tree, search, current, names, remaining, old(seen))
      {
        var target := Resolve(tree, search, current, names[k]);
        assert names[k..][0] == names[k] && names[k..][1..] == names[k + 1..];
        if target.Some? && target.value !in seen { Visit(target.value, remaining); }
      }
    }

    /** A header met for the first time: mark it, keep it if it can be read, and follow its own includes. */
    method Visit(h: Path, remaining: nat)
      requires Valid() && h !in seen && h in tree.files && remaining > 0
      modifies this`seen, this`found
      ensures Valid() && old(found) <= found && seen == Entered(tree, search, h, remaining, old(seen))
      decreases remaining, 0
    {
      Mark(h);
      if tree.files[h].Some? { Absorb(h, tree.files[h].value, remaining - 1); }
    }

    /** `seen.add(...)`, and `found.append(...)` when the header can be read. */
    method Mark(h: Path)
      requires Valid() && h !in seen && h in tree.files
      modifies this`seen, this`found
      ensures Valid() && seen == old(seen) + {h} && old(found) <= found
    {
      seen := seen + {h};
      if tree.files[h].Some? {
        found := found + [(h, tree.files[h].value)];
      }
    }
  }

  // ------------------------------------------------------------ how far it gets

  /** Only headers within `remaining` includes are seen. */
  lemma {:induction false} WalkedReaches(t: Tree, search: seq<Path>, current: Path, body: Text, names: seq<Name>,
      remaining: nat, seen: set<Path>)
    requires forall n <- names :: n in t.names(body)
    ensures forall h <- Walked(t, search, current, names, remaining, seen) - seen ::
      ReachedIn(t, search, current, body, h, remaining)
    decreases remaining, |names|
  {
    if remaining > 0 && names != [] {
      var target, more := Resolve(t, search, current, names[0]), names[1..];
      assert names[0] in names && forall n <- more :: n in names;
      if target.Some? && target.value !in seen {
        var h := target.value;
        var seen' := Entered(t, search, h, remaining, seen);
        assert Includes(t, search, current, body, h);
        EnteredReaches(t, search, current, body, h, remaining, seen);
        WalkedReaches(t, search, current, body, more, remaining, seen');
      } else {
        WalkedReaches(t, search, current, body, more, remaining, seen);
      }
    }
  }

  lemma {:induction false} EnteredReaches(t: Tree, search: seq<Path>, current: Path, body: Text, h: Path, remaining: nat,
      seen: set<Path>)
    requires h in t.files && remaining > 0 && Includes(t, search, current, body, h)
    ensures forall x <- Entered(t, search, h, remaining, seen) - seen :: ReachedIn(t, search, current, body, x, remaining)
    decreases remaining, 0
  {
    assert ReachedIn(t, search, current, body, h, remaining);
    if t.files[h].Some? {
      var header := t.files[h].value;
      WalkedReaches(t, search, h, header, t.names(header), remaining - 1, seen + {h});
      var xs := Walked(t, search, h, t.names(header), remaining - 1, seen + {h}) - (seen + {h});
      ReachedVia(t, search, current, body, h, header, xs, remaining - 1);
      assert Entered(t, search, h, remaining, seen) - seen <= xs + {h};
    }
  }

  /** What is seen now, of what is included by what was seen on the way. */
  ghost predicate Followed(t: Tree, search: seq<Path>, seen: set<Path>, now: set<Path>) {
    forall g, h :: g in now - seen && Edge(t, search, g, h) ==> h in now
  }

  lemma FollowedOn(t: Tree, search: seq<Path>, seen: set<Path>, mid: set<Path>, now: set<Path>)
    requires seen <= mid <= now && Followed(t, search, seen, mid) && Followed(t, search, mid, now)
    ensures Followed(t, search, seen, now)
  {
  }

  /** With a level for every header of the universe not yet seen, nothing is missed. The universe is any set of headers
      that the names lead into and that is closed under inclusion. */
  lemma {:induction false} WalkedMissesNothing(t: Tree, search: seq<Path>, current: Path, names: seq<Name>, remaining: nat,
      seen: set<Path>, universe: set<Path>)
    requires Closed(t, search, universe) && remaining >= |universe - seen|
    requires forall n <- names :: Resolve(t, search, current, n).Some? ==> Resolve(t, search, current, n).value in universe
    ensures var now := Walked(t, search, current, names, remaining, seen);
      && Followed(t, search, seen, now)
      && forall n <- names :: Resolve(t, search, current, n).Some? ==> Resolve(t, search, current, n).value in now
    decreases remaining, |names|
  {
    if remaining == 0 {
      AllSeen(universe, seen);
    } else if names != [] {
      var target, more := Resolve(t, search, current, names[0]), names[1..];
      assert names == [names[0]] + more && names[0] in names && forall n <- more :: n in names;
      if target.Some? && target.value !in seen {
        var h := target.value;
        var seen' := Entered(t, search, h, remaining, seen);
        EnteredMissesNothing(t, search, h, remaining, seen, universe);
        SubsetSize(universe - seen', universe - seen);
        WalkedMissesNothing(t, search, current, more, remaining, seen', universe);
        FollowedOn(t, search, seen, seen', Walked(t, search, current, more, remaining, seen'));
      } else {
        WalkedMissesNothing(t, search, current, more, remaining, seen, universe);
      }
    }
  }

  lemma {:induction false} EnteredMissesNothing(t: Tree, search: seq<Path>, h: Path, remaining: nat, seen: set<Path>,
      universe: set<Path>)
    requires Closed(t, search, universe) && remaining >= |universe - seen| && remaining > 0
    requires h in t.files && h in universe && h !in seen
    ensures Followed(t, search, seen, Entered(t, search, h, remaining, seen))
    decreases remaining, 0
  {
    if t.files[h].Some? {
      var header := t.files[h].value;
      OneFewer(universe, seen, h);
      ClosedNames(t, search, universe, h);
      WalkedMissesNothing(t, search, h, t.names(header), remaining - 1, seen + {h}, universe);
      HeaderFollowed(t, search, h, seen, Entered(t, search, h, remaining, seen));
    }
  }

  lemma ClosedNames(t: Tree, search: seq<Path>, universe: set<Path>, h: Path)
    requires Closed(t, search, universe) && h in universe && h in t.files && t.files[h].Some?
    ensures forall n <- t.names(t.files[h].value) ::
      Resolve(t, search, h, n).Some? ==> Resolve(t, search, h, n).value in universe
  {
    forall n | n in t.names(t.files[h].value) && Resolve(t, search, h, n).Some?
      ensures Resolve(t, search, h, n).value in universe
    {
      assert Includes(t, search, h, t.files[h].value, Resolve(t, search, h, n).value);
      assert Edge(t, search, h, Resolve(t, search, h, n).value);
    }
  }

  /** A header whose names have all been seen has been followed. */
  lemma HeaderFollowed(t: Tree, search: seq<Path>, h: Path, seen: set<Path>, now: set<Path>)
    requires h in t.files && t.files[h].Some? && Followed(t, search, seen + {h}, now)
    requires forall n <- t.names(t.files[h].value) ::
      Resolve(t, search, h, n).Some? ==> Resolve(t, search, h, n).value in now
    ensures Followed(t, search, seen, now)
  {
    forall g, x | g in now - seen && Edge(t, search, g, x) ensures x in now {
      if g != h { assert g in now - (seen + {h}); }
    }
  }

  lemma AllSeen(universe: set<Path>, seen: set<Path>)
    requires |universe - seen| == 0
    ensures universe <= seen
  {
    assert universe - seen == {};
    assert forall h :: h in universe && h !in seen ==> h in universe - seen;
  }

  lemma OneFewer(universe: set<Path>, before: set<Path>, h: Path)
    requires h in universe && h !in before
    ensures |universe - (before + {h})| + 1 == |universe - before|
  {
    assert universe - before == (universe - (before + {h})) + {h};
  }

  /** Every header a header of the set includes is in the set. */
  ghost predicate Closed(t: Tree, search: seq<Path>, universe: set<Path>) {
    forall g, h :: g in universe && Edge(t, search, g, h) ==> h in universe
  }

  lemma {:induction false} SubsetSize(a: set<Path>, b: set<Path>)
    requires a <= b
    ensures |a| <= |b|
    decreases a
  {
    if a != {} {
      var x :| x in a;
      SubsetSize(a - {x}, b - {x});
    }
  }

  /** An include followed by a chain is a chain one longer. */
  lemma {:induction false} StepFirst(t: Tree, search: seq<Path>, current: Path, body: Text, h: Path, header: Text,
      x: Path, n: nat)
    requires Includes(t, search, current, body, h) && h in t.files && t.files[h] == Some(header)
    requires ReachedIn(t, search, h, header, x, n)
    ensures ReachedIn(t, search, current, body, x, n + 1)
    decreases n
  {
    if Includes(t, search, h, header, x) {
      assert ReachedIn(t, search, current, body, h, n);
      assert Edge(t, search, h, x);
    } else {
      var g :| ReachedIn(t, search, h, header, g, n - 1) && Edge(t, search, g, x);
      StepFirst(t, search, current, body, h, header, g, n - 1);
    }
  }

  lemma ReachedVia(t: Tree, search: seq<Path>, current: Path, body: Text, h: Path, header: Text, xs: set<Path>, n: nat)
    requires Includes(t, search, current, body, h) && h in t.files && t.files[h] == Some(header)
    requires forall x <- xs :: ReachedIn(t, search, h, header, x, n)
    ensures forall x <- xs + {h} :: ReachedIn(t, search, current, body, x, n + 1)
  {
    forall x | x in xs
      ensures ReachedIn(t, search, current, body, x, n + 1)
    {
      StepFirst(t, search, current, body, h, header, x, n);
    }
  }

  /** Every header the text leads to. */
  ghost function Reachable(t: Tree, search: seq<Path>, current: Path, body: Text): set<Path> {
    set h | h in t.files && ReachedFrom(t, search, current, body, h)
  }

  lemma ReachableIsClosed(t: Tree, search: seq<Path>, current: Path, body: Text)
    ensures var u := Reachable(t, search, current, body);
      Closed(t, search, u) && forall h :: Includes(t, search, current, body, h) ==> h in u
  {
    var u := Reachable(t, search, current, body);
    forall g, h | g in u && Edge(t, search, g, h)
      ensures h in u
    {
      var n: nat :| ReachedIn(t, search, current, body, g, n);
      assert ReachedIn(t, search, current, body, h, n + 1);
    }
    forall h | Includes(t, search, current, body, h)
      ensures h in u
    {
      assert ReachedIn(t, search, current, body, h, 1);
    }
  }

  lemma {:induction false} ClosedHoldsReached(t: Tree, search: seq<Path>, current: Path, body: Text,
      seen: set<Path>, h: Path, n: nat)
    requires forall x :: Includes(t, search, current, body, x) ==> x in seen
    requires forall g, x :: g in seen && Edge(t, search, g, x) ==> x in seen
    requires ReachedIn(t, search, current, body, h, n)
    ensures h in seen
    decreases n
  {
    if !Includes(t, search, current, body, h) {
      var g :| ReachedIn(t, search, current, body, g, n - 1) && Edge(t, search, g, h);
      ClosedHoldsReached(t, search, current, body, seen, g, n - 1);
    }
  }

  /** The headers `local_include_closure` sees. */
  function Seen(t: Tree, source: Path, text: Text, includeDirs: seq<Path>, depth: nat): set<Path> {
    Walked(t, [t.parent(source)] + includeDirs, source, t.names(text), depth, {})
  }

  /** `local_include_closure`: the readable headers seen, each once, with its contents. */
  method LocalIncludeClosure(t: Tree, source: Path, text: Text, includeDirs: seq<Path>, depth: nat)
    returns (found: seq<(Path, Text)>)
    ensures NoDuplicates(found)
    ensures forall h, body :: (h, body) in found <==>
      h in Seen(t, source, text, includeDirs, depth) && h in t.files && t.files[h] == Some(body)
  {
    var walk := new Walk(t, [t.parent(source)] + includeDirs);
    walk.Absorb(source, text, depth);
    found := walk.found;
  }

  /** Only headers within `depth` includes are found, and every one there is to reach when `depth` is at least their
      number. */
  lemma SeenIsReached(t: Tree, source: Path, text: Text, includeDirs: seq<Path>, depth: nat)
    ensures var search, seen := [t.parent(source)] + includeDirs, Seen(t, source, text, includeDirs, depth);
      && (forall h <- seen :: ReachedIn(t, search, source, text, h, depth))
      && (depth >= |Reachable(t, search, source, text)| ==> Reachable(t, search, source, text) <= seen)
  {
    var search := [t.parent(source)] + includeDirs;
    var universe, seen := Reachable(t, search, source, text), Seen(t, source, text, includeDirs, depth);
    WalkedReaches(t, search, source, text, t.names(text), depth, {});
    if depth >= |universe| {
      assert universe - {} == universe;
      AllReachable(t, search, source, text, depth, universe);
    }
  }

  lemma AllReachable(t: Tree, search: seq<Path>, source: Path, text: Text, depth: nat, universe: set<Path>)
    requires universe == Reachable(t, search, source, text) && depth >= |universe - {}|
    ensures universe <= Walked(t, search, source, t.names(text), depth, {})
  {
    var seen := Walked(t, search, source, t.names(text), depth, {});
    ReachableIsClosed(t, search, source, text);
    forall n | n in t.names(text) && Resolve(t, search, source, n).Some?
      ensures Resolve(t, search, source, n).value in universe
    {
      assert Includes(t, search, source, text, Resolve(t, search, source, n).value);
    }
    WalkedMissesNothing(t, search, source, t.names(text), depth, {}, universe);
    forall h | h in universe ensures h in seen {
      var n: nat :| ReachedIn(t, search, source, text, h, n);
      ClosedHoldsReached(t, search, source, text, seen, h, n);
    }
  }

  /** The trees differ at most in what the file `x` holds. */
  ghost predicate DifferAt(t: Tree, t': Tree, x: Path) {
    t' == t.(files := t'.files) && t'.files.Keys == t.files.Keys &&
      forall h <- t.files :: h != x ==> t'.files[h] == t.files[h]
  }

  lemma {:induction false} LookupSameKeys(t: Tree, t': Tree, dirs: seq<Path>, name: Name, x: Path)
    requires DifferAt(t, t', x)
    ensures Lookup(t', dirs, name) == Lookup(t, dirs, name)
  {
    if dirs != [] { LookupSameKeys(t, t', dirs[1..], name, x); }
  }

  /** What a header holds that is not seen makes no difference to the walk. */
  lemma {:induction false} WalkedIgnores(t: Tree, t': Tree, search: seq<Path>, current: Path, names: seq<Name>,
      remaining: nat, seen: set<Path>, x: Path)
    requires DifferAt(t, t', x) && x !in Walked(t, search, current, names, remaining, seen)
    ensures Walked(t', search, current, names, remaining, seen) == Walked(t, search, current, names, remaining, seen)
    decreases remaining, |names|
  {
    if remaining > 0 && names != [] {
      LookupSameKeys(t, t', [t.parent(current)] + search, names[0], x);
      var target := Resolve(t, search, current, names[0]);
      var seen' := if target.Some? && target.value !in seen then Entered(t, search, target.value, remaining, seen) else seen;
      WalkedIgnores(t, t', search, current, names[1..], remaining, seen', x);
      if target.Some? && target.value !in seen { EnteredIgnores(t, t', search, target.value, remaining, seen, x); }
    }
  }

  lemma {:induction false} EnteredIgnores(t: Tree, t': Tree, search: seq<Path>, h: Path, remaining: nat, seen: set<Path>,
      x: Path)
    requires DifferAt(t, t', x) && h in t.files && remaining > 0 && x !in Entered(t, search, h, remaining, seen)
    ensures Entered(t', search, h, remaining, seen) == Entered(t, search, h, remaining, seen)
    decreases remaining, 0
  {
    if t.files[h].Some? {
      WalkedIgnores(t, t', search, h, t.names(t.files[h].value), remaining - 1, seen + {h}, x);
    }
  }

  // ------------------------------------------------------------ what it misses

  function Link(i: nat): string { seq(i, _ => 'a') }

  /** A text that includes a chain of `depth - 1` headers that ends with `c`, and then `c` itself, which includes `x`. */
  function Detour(depth: nat): Tree {
    Tree(
      map h | h in (set i: nat | 1 <= i < depth :: Link(i)) + {"c", "x"} :: Some(h),
      (dir, name) => name,
      path => "",
      text =>
        if text == "s" then [Link(1), "c"]
        else if text == "c" then ["x"]
        else if text != "" && text == Link(|text|) then [if |text| + 1 < depth then Link(|text| + 1) else "c"]
        else [])
  }

  /** The `i`-th link's one include. */
  function Next(depth: nat, i: nat): string { if i + 1 < depth then Link(i + 1) else "c" }

  ghost predicate LinkAt(t: Tree, depth: nat, i: nat) {
    Link(i) in t.files && t.files[Link(i)] == Some(Link(i)) && t.names(Link(i)) == [Next(depth, i)]
  }

  /** What matters of that tree. */
  ghost predicate Detours(t: Tree, depth: nat) {
    && (forall i: nat {:trigger LinkAt(t, depth, i)} :: 1 <= i < depth ==> LinkAt(t, depth, i))
    && "c" in t.files && t.files["c"] == Some("c") && t.names("c") == ["x"] && "x" in t.files && t.files["x"].Some?
    && t.names("s") == [Link(1), "c"] && forall dir, name :: t.join(dir, name) == name
  }

  lemma DetourDetours(depth: nat)
    requires depth >= 2
    ensures Detours(Detour(depth), depth)
  {
    var t := Detour(depth);
    forall i: nat | 1 <= i < depth ensures LinkAt(t, depth, i) {
      assert |Link(i)| == i && Link(i)[0] == 'a';
    }
  }

  lemma FoundFirst(t: Tree, search: seq<Path>, current: Path, name: Name)
    requires name in t.files && t.join(t.parent(current), name) == name
    ensures Resolve(t, search, current, name) == Some(name)
  {
    assert ([t.parent(current)] + search)[0] == t.parent(current);
  }

  /** One name that is a new header's. */
  lemma {:induction false} WalkedOne(t: Tree, search: seq<Path>, current: Path, n: Name, remaining: nat, seen: set<Path>)
    requires n in t.files && t.join(t.parent(current), n) == n && n !in seen
    ensures Walked(t, search, current, [n], remaining, seen)
         == if remaining == 0 then seen else Entered(t, search, n, remaining, seen)
  {
    FoundFirst(t, search, current, n);
    assert [n][0] == n && [n][1..] == [];
  }

  lemma DifferentLinks(i: nat)
    requires i >= 1
    ensures Link(i) != "c" && Link(i) != "x" && Link(i) != "s" && forall j: nat :: j != i ==> Link(j) != Link(i)
  {
    assert Link(i)[0] == 'a' && |Link(i)| == i;
    forall j: nat | j != i ensures Link(j) != Link(i) { assert |Link(j)| == j; }
  }

  /** Only links before the `i`-th. */
  ghost predicate Before(seen: set<Path>, i: nat) {
    forall h <- seen :: exists j: nat :: 1 <= j < i && h == Link(j)
  }

  lemma BeforeNext(seen: set<Path>, i: nat)
    requires Before(seen, i) && i >= 1
    ensures Before(seen + {Link(i)}, i + 1) && Link(i + 1) !in seen + {Link(i)}
    ensures "c" !in seen + {Link(i)} && "x" !in seen + {Link(i)} && Link(i) != "c"
  {
    DifferentLinks(i + 1);
    forall h | h in seen + {Link(i)} ensures h != "c" && h != "x" && exists j: nat :: 1 <= j < i + 1 && h == Link(j) {
      if h != Link(i) {
        var j: nat :| 1 <= j < i && h == Link(j);
        DifferentLinks(j);
      } else {
        DifferentLinks(i);
      }
    }
  }

  /** From the `i`-th link on, the chain is followed to `c`, and no level is left for what that includes. */
  lemma {:induction false} ChainWalked(t: Tree, depth: nat, search: seq<Path>, i: nat, seen: set<Path>)
    requires Detours(t, depth) && 1 <= i < depth && Before(seen, i) && LinkAt(t, depth, i)
    ensures var now := Entered(t, search, Link(i), depth - i + 1, seen); "c" in now && "x" !in now
    decreases depth - i
  {
    var seen' := seen + {Link(i)};
    BeforeNext(seen, i);
    assert i + 1 < depth ==> LinkAt(t, depth, i + 1);
    if i + 1 < depth {
      WalkedOne(t, search, Link(i), Link(i + 1), depth - i, seen');
      ChainWalked(t, depth, search, i + 1, seen');
    } else {
      LastLink(t, depth, search, i, seen');
    }
  }

  lemma {:induction false} LastLink(t: Tree, depth: nat, search: seq<Path>, i: nat, seen: set<Path>)
    requires Detours(t, depth) && 1 <= i && i + 1 == depth && "c" !in seen && "x" !in seen
    ensures Walked(t, search, Link(i), ["c"], 1, seen) == seen + {"c"}
  {
    WalkedOne(t, search, Link(i), "c", 1, seen);
    WalkedOne(t, search, "c", "x", 0, seen + {"c"});
  }

  /** One visited set for the whole walk: a header first met by a detour, with no level left, is not followed when it is
      met again near the top. For every depth of two or more, a header two includes away is missed. */
  lemma {:induction false} DepthMisses(depth: nat, includeDirs: seq<Path>) returns (t: Tree)
    requires depth >= 2
    ensures "x" in t.files && t.files["x"].Some?
    ensures ReachedIn(t, [t.parent("s")] + includeDirs, "s", "s", "x", 2) && "x" !in Seen(t, "s", "s", includeDirs, depth)
  {
    t := Detour(depth);
    DetourDetours(depth);
    var search := [t.parent("s")] + includeDirs;
    assert LinkAt(t, depth, 1);
    ChainWalked(t, depth, search, 1, {});
    DetourWalked(t, depth, search);
    XIsNear(t, depth, search);
  }

  lemma {:induction false} DetourWalked(t: Tree, depth: nat, search: seq<Path>)
    requires Detours(t, depth) && depth >= 2 && LinkAt(t, depth, 1) && "c" in Entered(t, search, Link(1), depth, {})
    ensures Walked(t, search, "s", t.names("s"), depth, {}) == Entered(t, search, Link(1), depth, {})
  {
    var names, now := [Link(1), "c"], Entered(t, search, Link(1), depth, {});
    FoundFirst(t, search, "s", Link(1));
    FoundFirst(t, search, "s", "c");
    assert names[0] == Link(1) && names[1..] == ["c"] && ["c"][1..] == [];
    assert Walked(t, search, "s", ["c"], depth, now) == now;
  }

  lemma {:induction false} XIsNear(t: Tree, depth: nat, search: seq<Path>)
    requires Detours(t, depth)
    ensures ReachedIn(t, search, "s", "s", "x", 2)
  {
    FoundFirst(t, search, "s", "c");
    FoundFirst(t, search, "c", "x");
    assert Includes(t, search, "s", "s", "c") && ReachedIn(t, search, "s", "s", "c", 1);
    assert Includes(t, search, "c", "c", "x") && Edge(t, search, "c", "x");
  }
}
