/** The cache key: which files it covers, and the byte stream fed to the digest. */
module CacheKey {
  import opened Wrappers
  import opened IncludeClosure

  datatype File = Readable(bytes: string) | Unreadable

  /** What `key_for` is given; `extras` is the sorted list of further files, each with what reading it gives. */
  datatype Inputs = Inputs(
    version: string, checker: string, source: Path, content: File, extras: seq<(Path, File)>,
    config: string, options: string)

  // ------------------------------------------------------- the files covered

  /** A file the checker compiles, and its text if it can be read. */
  datatype Unit = Unit(path: Path, text: Option<Text>)

  const KEY_INCLUDE_DEPTH := 64

  function Search(t: Tree, u: Unit, dirs: seq<Path>): seq<Path> { [t.parent(u.path)] + dirs }

  /** Every header the checker is led to from a unit. */
  ghost function Headers(t: Tree, u: Unit, dirs: seq<Path>): set<Path> {
    if u.text.None? then {} else Reachable(t, Search(t, u, dirs), u.path, u.text.value)
  }

  /** What it reads of a unit but the source itself. */
  ghost function Parts(t: Tree, u: Unit, source: Path, dirs: seq<Path>): set<Path> {
    (if u.text.Some? && u.path != source then {u.path} else {}) + set h <- Headers(t, u, dirs) | t.files[h].Some?
  }

  /** What it reads of all the units but the source itself. */
  ghost function AllParts(t: Tree, units: seq<Unit>, source: Path, dirs: seq<Path>): set<Path> {
    if units == [] then {}
    else AllParts(t, units[..|units| - 1], source, dirs) + Parts(t, units[|units| - 1], source, dirs)
  }

  /** No unit reaches more headers than the key follows, `KEY_INCLUDE_DEPTH`. */
  ghost predicate Shallow(t: Tree, units: seq<Unit>, dirs: seq<Path>) {
    forall u <- units :: |Headers(t, u, dirs)| <= 64
  }

  /** What the key covers of a unit: the readable headers its walk sees. */
  function UnitCovered(t: Tree, u: Unit, source: Path, dirs: seq<Path>): set<Path> {
    if u.text.None? then {}
    else
      (if u.path != source then {u.path} else {})
      + set h <- Seen(t, u.path, u.text.value, dirs, KEY_INCLUDE_DEPTH) | h in t.files && t.files[h].Some?
  }

  function Covered(t: Tree, units: seq<Unit>, source: Path, dirs: seq<Path>): set<Path> {
    if units == [] then {}
    else Covered(t, units[..|units| - 1], source, dirs) + UnitCovered(t, units[|units| - 1], source, dirs)
  }

  /** The extra files of `_cache_key`: `units` is the source, the linked sources and the forced headers. */
  method ExtraFiles(t: Tree, units: seq<Unit>, source: Path, dirs: seq<Path>) returns (extra: set<Path>)
    ensures extra == Covered(t, units, source, dirs)
  {
    extra := {};
    for k := 0 to |units|
      invariant extra == Covered(t, units[..k], source, dirs)
    {
      var more := UnitFiles(t, units[k], source, dirs);
      assert units[..k + 1][..k] == units[..k];
      extra := extra + more;
    }
    assert units[..|units|] == units;
  }

  /** The body of that loop. */
  method UnitFiles(t: Tree, u: Unit, source: Path, dirs: seq<Path>) returns (more: set<Path>)
    ensures more == UnitCovered(t, u, source, dirs)
  {
    if u.text.None? { return {}; }
    var found := LocalIncludeClosure(t, u.path, u.text.value, dirs, KEY_INCLUDE_DEPTH);
    more := (if u.path != source then {u.path} else {}) + set e | e in found :: e.0;
    var seen := Seen(t, u.path, u.text.value, dirs, KEY_INCLUDE_DEPTH);
    forall h | h in seen && h in t.files && t.files[h].Some? ensures h in more {
      assert (h, t.files[h].value) in found && (h, t.files[h].value).0 == h;
    }
    forall e | e in found ensures e.0 in seen && e.0 in t.files && t.files[e.0].Some? {
      assert (e.0, e.1) in found;
    }
  }

  /** Only what is compiled is covered, and all of it where no more headers are reached than the key follows. */
  lemma {:induction false} CoveredIsCompiled(t: Tree, units: seq<Unit>, source: Path, dirs: seq<Path>)
    ensures Covered(t, units, source, dirs) <= AllParts(t, units, source, dirs)
    ensures Shallow(t, units, dirs) ==> Covered(t, units, source, dirs) == AllParts(t, units, source, dirs)
  {
    if units != [] {
      var front, u := units[..|units| - 1], units[|units| - 1];
      assert u in units && forall v <- front :: v in units;
      CoveredIsCompiled(t, front, source, dirs);
      if u.text.Some? { SeenIsReached(t, u.path, u.text.value, dirs, KEY_INCLUDE_DEPTH); }
    }
  }

  /** What a file holds that no walk sees makes no difference to what is covered. */
  lemma {:induction false} CoveredIgnores(t: Tree, t': Tree, units: seq<Unit>, source: Path, dirs: seq<Path>, x: Path)
    requires DifferAt(t, t', x) && x in t.files && t.files[x].Some? && t'.files[x].Some?
    requires forall u <- units :: u.text.Some? ==> x !in Seen(t, u.path, u.text.value, dirs, KEY_INCLUDE_DEPTH)
    ensures Covered(t', units, source, dirs) == Covered(t, units, source, dirs)
  {
    if units != [] {
      var front, u := units[..|units| - 1], units[|units| - 1];
      assert u in units && forall v <- front :: v in units;
      CoveredIgnores(t, t', front, source, dirs, x);
      if u.text.Some? {
        WalkedIgnores(t, t', Search(t, u, dirs), u.path, t.names(u.text.value), KEY_INCLUDE_DEPTH, {}, x);
      }
    }
  }

  /** A source of which a header two includes away is compiled and not covered: the walk met what includes it at its last
      level first. */
  lemma {:induction false} HeaderNotCovered(source: Path, dirs: seq<Path>) returns (t: Tree, u: Unit, h: Path)
    ensures h in Headers(t, u, dirs) && t.files[h].Some? && h !in Covered(t, [u], source, dirs) && h != u.path
    ensures u.text.Some? && h !in Seen(t, u.path, u.text.value, dirs, KEY_INCLUDE_DEPTH)
  {
    t := DepthMisses(KEY_INCLUDE_DEPTH, dirs);
    u, h := Unit("s", Some("s")), "x";
    assert ReachedFrom(t, Search(t, u, dirs), "s", "s", "x");
    assert [u][..0] == [];
  }

  // ------------------------------------------------------- two trees

  /** Names are looked up and read alike in both; the files may differ. */
  ghost predicate SameRules(t: Tree, t': Tree) { t' == t.(files := t'.files) }

  /** The files of `e` are there in both, readable and with the same text. */
  predicate SameFiles(t: Tree, t': Tree, e: set<Path>) {
    forall h <- e :: h in t.files && h in t'.files && t.files[h].Some? && t.files[h] == t'.files[h]
  }

  /** A name found in one tree is found in the other in the same place, if what either finds is in both. */
  lemma {:induction false} LookupAlike(t: Tree, t': Tree, dirs: seq<Path>, name: Name, h: Path)
    requires SameRules(t, t') && Lookup(t, dirs, name) == Some(h) && h in t'.files
    requires Lookup(t', dirs, name).Some? ==> Lookup(t', dirs, name).value in t.files
    ensures Lookup(t', dirs, name) == Some(h)
  {
    if dirs != [] && t.join(dirs[0], name) !in t.files { LookupAlike(t, t', dirs[1..], name, h); }
  }

  /** A text led to the same headers from both trees, all among the files they share, is led to no others. */
  lemma {:induction false} ReachedAlike(t: Tree, t': Tree, search: seq<Path>, current: Path, body: Text, e: set<Path>,
      h: Path, n: nat)
    requires SameRules(t, t') && SameFiles(t, t', e)
    requires Reachable(t, search, current, body) <= e && Reachable(t', search, current, body) <= e
    requires ReachedIn(t, search, current, body, h, n)
    ensures ReachedIn(t', search, current, body, h, n)
    decreases n
  {
    if Includes(t, search, current, body, h) {
      IncludesAlike(t, t', search, current, body, e, current, body, h, 0, n);
    } else {
      var g :| ReachedIn(t, search, current, body, g, n - 1) && Edge(t, search, g, h);
      ReachedAlike(t, t', search, current, body, e, g, n - 1);
      assert g in Reachable(t, search, current, body);
      IncludesAlike(t, t', search, current, body, e, g, t.files[g].value, h, n - 1, n);
      assert Edge(t', search, g, h);
    }
  }

  /** One include, of the text itself or of a header reached from it in both trees. */
  lemma IncludesAlike(t: Tree, t': Tree, search: seq<Path>, current: Path, body: Text, e: set<Path>,
      g: Path, text: Text, h: Path, m: nat, n: nat)
    requires SameRules(t, t') && SameFiles(t, t', e) && m < n
    requires Reachable(t, search, current, body) <= e && Reachable(t', search, current, body) <= e
    requires (g == current && text == body)
          || (ReachedIn(t', search, current, body, g, m) && g in e && t'.files[g] == Some(text))
    requires Includes(t, search, g, text, h) && ReachedIn(t, search, current, body, h, n)
    ensures Includes(t', search, g, text, h)
  {
    var name :| name in t.names(text) && Resolve(t, search, g, name) == Some(h);
    assert h in Reachable(t, search, current, body);
    var found := Resolve(t', search, g, name);
    if found.Some? {
      assert Includes(t', search, g, text, found.value);
      IncludedIsReached(t', search, current, body, g, text, found.value, m);
    }
    LookupAlike(t, t', [t.parent(g)] + search, name, h);
  }

  lemma IncludedIsReached(t: Tree, search: seq<Path>, current: Path, body: Text, g: Path, text: Text, h: Path, m: nat)
    requires Includes(t, search, g, text, h)
    requires (g == current && text == body)
          || (ReachedIn(t, search, current, body, g, m) && g in t.files && t.files[g] == Some(text))
    ensures h in Reachable(t, search, current, body)
  {
    if g == current && text == body {
      assert ReachedIn(t, search, current, body, h, 1);
    } else {
      assert Edge(t, search, g, h);
      assert ReachedIn(t, search, current, body, h, m + 1);
    }
  }

  /** ... so they are the same headers. */
  lemma HeadersAlike(t: Tree, t': Tree, u: Unit, dirs: seq<Path>, e: set<Path>)
    requires SameRules(t, t') && SameFiles(t, t', e) && Headers(t, u, dirs) <= e && Headers(t', u, dirs) <= e
    ensures Headers(t, u, dirs) == Headers(t', u, dirs)
  {
    if u.text.Some? {
      var search, body := Search(t, u, dirs), u.text.value;
      forall h | h in Headers(t, u, dirs) ensures h in Headers(t', u, dirs) {
        var n: nat :| ReachedIn(t, search, u.path, body, h, n);
        ReachedAlike(t, t', search, u.path, body, e, h, n);
      }
      forall h | h in Headers(t', u, dirs) ensures h in Headers(t, u, dirs) {
        var n: nat :| ReachedIn(t', search, u.path, body, h, n);
        ReachedAlike(t', t, search, u.path, body, e, h, n);
      }
    }
  }

  // ------------------------------------------------------- the bytes digested

  /** `_digest_file`. */
  function Fed(path: Path, f: File): string {
    match f case Readable(bytes) => bytes case Unreadable => "<unreadable:" + (path + ">")
  }

  function FedExtras(extras: seq<(Path, File)>): string {
    if extras == [] then ""
    else
      var last := extras[|extras| - 1];
      FedExtras(extras[..|extras| - 1]) + "\0" + ("file:" + last.0) + "\0" + Fed(last.0, last.1)
  }

  function Stream(i: Inputs): string {
    "veripp-cache-v3\0" + (i.version + "\0" + i.checker + "\0") + Fed(i.source, i.content) + FedExtras(i.extras)
    + ("\0config:" + i.config) + ("\0options:" + i.options)
  }

  lemma Regroup(a: string, b: string, c: string, d: string)
    ensures a + (b + "\0" + c + "\0" + d) == a + b + "\0" + c + "\0" + d
  {
  }

  /** `key_for`, up to the digest. */
  method KeyFor(i: Inputs) returns (fed: string)
    ensures fed == Stream(i)
  {
    fed := "veripp-cache-v3\0";
    fed := fed + (i.version + "\0" + i.checker + "\0");
    fed := fed + Fed(i.source, i.content);
    ghost var head := fed;
    for k := 0 to |i.extras|
      invariant fed == head + FedExtras(i.extras[..k])
    {
      assert i.extras[..k + 1][..k] == i.extras[..k];
      Regroup(head, FedExtras(i.extras[..k]), "file:" + i.extras[k].0, Fed(i.extras[k].0, i.extras[k].1));
      fed := fed + "\0" + ("file:" + i.extras[k].0) + "\0";
      fed := fed + Fed(i.extras[k].0, i.extras[k].1);
    }
    assert i.extras[..|i.extras|] == i.extras;
    fed := fed + ("\0config:" + i.config);
    fed := fed + ("\0options:" + i.options);
  }

  // ------------------------------------------------------- read back

  predicate NulFree(s: string) { '\0' !in s }

  predicate NulFreeFile(f: File) { f.Readable? ==> NulFree(f.bytes) }

  /** No NUL in any text, and no file that begins like the mark of an unreadable one. */
  predicate Plain(i: Inputs) {
    && NulFree(i.version) && NulFree(i.checker) && NulFree(i.config) && NulFree(i.options)
    && PlainFile(i.source, i.content)
    && forall k :: 0 <= k < |i.extras| ==> PlainFile(i.extras[k].0, i.extras[k].1)
  }

  predicate PlainFile(path: Path, f: File) {
    NulFree(path) && NulFreeFile(f) && (f.Readable? ==> !("<unreadable:" <= f.bytes))
  }

  /** Equal in everything but where the source is, unless it could not be read. */
  predicate SameInputs(a: Inputs, b: Inputs) {
    a.(source := b.source) == b && (a.content == Unreadable ==> a.source == b.source)
  }

  function ExtraFields(extras: seq<(Path, File)>): (r: seq<string>)
    ensures |r| == 2 * |extras|
  {
    if extras == [] then []
    else ExtraFields(extras[..|extras| - 1])
         + ["file:" + extras[|extras| - 1].0, Fed(extras[|extras| - 1].0, extras[|extras| - 1].1)]
  }

  /** What stands between the NULs. */
  function Fields(i: Inputs): seq<string> {
    ["veripp-cache-v3", i.version, i.checker, Fed(i.source, i.content)] + ExtraFields(i.extras)
    + ["config:" + i.config, "options:" + i.options]
  }

  /** Fields joined by NULs, from the right. */
  function Joined(fields: seq<string>): string {
    if fields == [] then "" else if |fields| == 1 then fields[0]
    else Joined(fields[..|fields| - 1]) + "\0" + fields[|fields| - 1]
  }

  lemma JoinedOne(fields: seq<string>, f: string)
    requires fields != []
    ensures Joined(fields + [f]) == Joined(fields) + "\0" + f
  {
    assert (fields + [f])[..|fields|] == fields;
  }

  lemma {:induction false} JoinedExtras(head: seq<string>, extras: seq<(Path, File)>)
    requires head != []
    ensures Joined(head + ExtraFields(extras)) == Joined(head) + FedExtras(extras)
  {
    if extras == [] {
      assert head + [] == head;
    } else {
      var front, last := extras[..|extras| - 1], extras[|extras| - 1];
      JoinedExtras(head, front);
      var fields := head + ExtraFields(front);
      var name, body := "file:" + last.0, Fed(last.0, last.1);
      JoinedOne(fields, name);
      JoinedOne(fields + [name], body);
      assert head + ExtraFields(extras) == fields + [name] + [body];
      Regroup(Joined(head), FedExtras(front), name, body);
    }
  }

  lemma HeadJoined(i: Inputs)
    ensures Joined(["veripp-cache-v3", i.version, i.checker, Fed(i.source, i.content)])
         == "veripp-cache-v3\0" + (i.version + "\0" + i.checker + "\0") + Fed(i.source, i.content)
  {
    var tag, body := "veripp-cache-v3", Fed(i.source, i.content);
    JoinedOne([tag], i.version);
    JoinedOne([tag, i.version], i.checker);
    JoinedOne([tag, i.version, i.checker], body);
    assert [tag] + [i.version] == [tag, i.version];
    assert [tag, i.version] + [i.checker] == [tag, i.version, i.checker];
    assert [tag, i.version, i.checker] + [body] == [tag, i.version, i.checker, body];
    assert tag + "\0" == "veripp-cache-v3\0";
  }

  lemma StreamIsJoined(i: Inputs)
    ensures Stream(i) == Joined(Fields(i))
  {
    var head := ["veripp-cache-v3", i.version, i.checker, Fed(i.source, i.content)];
    HeadJoined(i);
    JoinedExtras(head, i.extras);
    var fields := head + ExtraFields(i.extras);
    JoinedOne(fields, "config:" + i.config);
    JoinedOne(fields + ["config:" + i.config], "options:" + i.options);
    assert Fields(i) == fields + ["config:" + i.config] + ["options:" + i.options];
    assert "\0config:" + i.config == "\0" + ("config:" + i.config);
    assert "\0options:" + i.options == "\0" + ("options:" + i.options);
  }

  lemma LastNul(x: string, s: string)
    requires NulFree(s)
    ensures (x + "\0" + s)[|x|] == '\0' && forall k :: |x| < k <= |x| + |s| ==> (x + "\0" + s)[k] != '\0'
  {
    forall k | |x| < k <= |x| + |s| ensures (x + "\0" + s)[k] != '\0' {
      assert (x + "\0" + s)[k] == s[k - |x| - 1];
    }
  }

  /** The last field of a text is what follows its last NUL. */
  lemma LastField(x: string, s: string, y: string, t: string)
    requires NulFree(s) && NulFree(t) && x + "\0" + s == y + "\0" + t
    ensures x == y && s == t
  {
    var whole := x + "\0" + s;
    LastNul(x, s);
    LastNul(y, t);
    assert x == whole[..|x|] && y == whole[..|y|];
    assert s == whole[|x| + 1..] && t == whole[|y| + 1..];
  }

  lemma {:induction false} JoinedInjective(a: seq<string>, b: seq<string>)
    requires a != [] && b != [] && Joined(a) == Joined(b)
    requires (forall f <- a :: NulFree(f)) && forall f <- b :: NulFree(f)
    ensures a == b
    decreases |a|
  {
    var m, n := |a| - 1, |b| - 1;
    assert a[0] in a && b[0] in b;
    if m > 0 { HasNul(a); }
    if n > 0 { HasNul(b); }
    if m > 0 && n > 0 {
      assert a[m] in a && b[n] in b;
      LastField(Joined(a[..m]), a[m], Joined(b[..n]), b[n]);
      JoinedInjective(a[..m], b[..n]);
      assert a == a[..m] + [a[m]] && b == b[..n] + [b[n]];
    }
  }

  lemma HasNul(fields: seq<string>)
    requires |fields| > 1
    ensures !NulFree(Joined(fields))
  {
    var front := Joined(fields[..|fields| - 1]);
    assert Joined(fields)[|front|] == '\0';
  }

  lemma FedPlain(path: Path, f: File)
    requires PlainFile(path, f)
    ensures NulFree(Fed(path, f))
  {
  }

  lemma {:induction false} ExtraFieldsPlain(extras: seq<(Path, File)>)
    requires forall k :: 0 <= k < |extras| ==> PlainFile(extras[k].0, extras[k].1)
    ensures forall f <- ExtraFields(extras) :: NulFree(f)
  {
    if extras != [] {
      ExtraFieldsPlain(extras[..|extras| - 1]);
      FedPlain(extras[|extras| - 1].0, extras[|extras| - 1].1);
    }
  }

  lemma FieldsPlain(i: Inputs)
    requires Plain(i)
    ensures forall f <- Fields(i) :: NulFree(f)
  {
    ExtraFieldsPlain(i.extras);
    FedPlain(i.source, i.content);
  }

  lemma Prefixed(p: string, a: string, b: string)
    requires p + a == p + b
    ensures a == b
  {
    assert a == (p + a)[|p|..] && b == (p + b)[|p|..];
  }

  lemma FedInjective(p: Path, f: File, q: Path, g: File)
    requires PlainFile(p, f) && PlainFile(q, g) && Fed(p, f) == Fed(q, g)
    ensures f == g && (f == Unreadable ==> p == q)
  {
    assert "<unreadable:" <= Fed(p, Unreadable) && "<unreadable:" <= Fed(q, Unreadable);
    if f == Unreadable && g == Unreadable {
      Prefixed("<unreadable:", p + ">", q + ">");
      assert p == (p + ">")[..|p|] && q == (q + ">")[..|q|];
    }
  }

  lemma {:induction false} ExtrasInjective(a: seq<(Path, File)>, b: seq<(Path, File)>)
    requires forall k :: 0 <= k < |a| ==> PlainFile(a[k].0, a[k].1)
    requires forall k :: 0 <= k < |b| ==> PlainFile(b[k].0, b[k].1)
    requires ExtraFields(a) == ExtraFields(b)
    ensures a == b
  {
    if a != [] {
      var n := |a| - 1;
      assert ExtraFields(a)[..2 * n] == ExtraFields(a[..n]) && ExtraFields(b)[..2 * n] == ExtraFields(b[..n]);
      ExtrasInjective(a[..n], b[..n]);
      assert ExtraFields(a)[2 * n] == "file:" + a[n].0 && ExtraFields(b)[2 * n] == "file:" + b[n].0;
      Prefixed("file:", a[n].0, b[n].0);
      assert ExtraFields(a)[2 * n + 1] == Fed(a[n].0, a[n].1) && ExtraFields(b)[2 * n + 1] == Fed(b[n].0, b[n].1);
      FedInjective(a[n].0, a[n].1, b[n].0, b[n].1);
      assert a == a[..n] + [a[n]] && b == b[..n] + [b[n]];
    }
  }

  /** On plain inputs the bytes digested are the same exactly when the inputs are. */
  lemma StreamIff(a: Inputs, b: Inputs)
    requires Plain(a) && Plain(b)
    ensures Stream(a) == Stream(b) <==> SameInputs(a, b)
  {
    if Stream(a) == Stream(b) {
      StreamIsJoined(a);
      StreamIsJoined(b);
      FieldsPlain(a);
      FieldsPlain(b);
      JoinedInjective(Fields(a), Fields(b));
      SameFields(a, b);
    }
  }

  lemma SameFields(a: Inputs, b: Inputs)
    requires Plain(a) && Plain(b) && Fields(a) == Fields(b)
    ensures SameInputs(a, b)
  {
    var fa, fb, n := Fields(a), Fields(b), |Fields(a)|;
    assert fa[4..n - 2] == ExtraFields(a.extras) && fb[4..n - 2] == ExtraFields(b.extras);
    ExtrasInjective(a.extras, b.extras);
    assert fa[1] == a.version && fb[1] == b.version && fa[2] == a.checker && fb[2] == b.checker;
    assert fa[n - 2] == "config:" + a.config && fb[n - 2] == "config:" + b.config;
    Prefixed("config:", a.config, b.config);
    assert fa[n - 1] == "options:" + a.options && fb[n - 1] == "options:" + b.options;
    Prefixed("options:", a.options, b.options);
    assert fa[3] == Fed(a.source, a.content) && fb[3] == Fed(b.source, b.content);
    FedInjective(a.source, a.content, b.source, b.content);
  }

  /** With NULs allowed the stream is ambiguous: whatever follows a spelled-out file mark may be a file. */
  lemma NulsCollide(i: Inputs, x: string, path: Path, y: string)
    requires i.extras == [] && i.content == Readable(x + "\0" + ("file:" + path) + "\0" + y)
    ensures var j := i.(content := Readable(x), extras := [(path, Readable(y))]); Stream(i) == Stream(j) && i != j
  {
    var j := i.(content := Readable(x), extras := [(path, Readable(y))]);
    assert j.extras[..0] == [];
    assert FedExtras(j.extras) == "" + "\0" + ("file:" + path) + "\0" + y;
    Regroup(x, "", "file:" + path, y);
    assert Fed(j.source, j.content) + FedExtras(j.extras) == Fed(i.source, i.content) + FedExtras(i.extras);
    Carried("veripp-cache-v3\0" + (i.version + "\0" + i.checker + "\0"), Fed(i.source, i.content),
            FedExtras(i.extras), Fed(j.source, j.content), FedExtras(j.extras));
  }

  lemma Carried(h: string, a: string, b: string, c: string, d: string)
    requires a + b == c + d
    ensures h + a + b == h + c + d
  {
    assert h + a + b == h + (a + b) && h + c + d == h + (c + d);
  }
}
