/** Paths as `pathlib` sees them, a sequence of parts with "/" first when absolute, and what moving a
    directory tree does to them. */
module Paths {
  type Path = seq<string>

  predicate Absolute(p: Path) { p != [] && p[0] == "/" }

  /** A component between slashes; `.` and empty ones are dropped when a path is read. */
  predicate Component(c: string) { c != "" && c != "." && '/' !in c }

  predicate WellFormed(p: Path) {
    var rest := if Absolute(p) then p[1..] else p;
    forall k :: 0 <= k < |rest| ==> Component(rest[k])
  }

  lemma PartIsComponent(p: Path, i: nat)
    requires WellFormed(p) && i < |p| && (i > 0 || !Absolute(p))
    ensures Component(p[i])
  {
    if Absolute(p) { assert p[1..][i - 1] == p[i]; }
  }

  /** The components of `s`, `c` being what is already read of the first. */
  function Components(s: string, c: string): seq<string>
    decreases |s|
  {
    var whole := if c == "" || c == "." then [] else [c];
    if s == "" then whole
    else if s[0] == '/' then whole + Components(s[1..], "")
    else Components(s[1..], c + [s[0]])
  }

  /** `Path(s)`. */
  function PathOf(s: string): Path {
    if s != "" && s[0] == '/' then ["/"] + Components(s[1..], "") else Components(s, "")
  }

  function Slashed(cs: seq<string>): string {
    if cs == [] then "" else if |cs| == 1 then cs[0] else cs[0] + "/" + Slashed(cs[1..])
  }

  /** `str(p)`. */
  function Render(p: Path): string {
    if p == [] then "." else if Absolute(p) then "/" + Slashed(p[1..]) else Slashed(p)
  }

  lemma {:induction false} ComponentsRead(s: string, c: string)
    requires '/' !in c
    ensures forall k :: 0 <= k < |Components(s, c)| ==> Component(Components(s, c)[k])
    decreases |s|
  {
    if s != "" && s[0] == '/' {
      ComponentsRead(s[1..], "");
    } else if s != "" {
      ComponentsRead(s[1..], c + [s[0]]);
    }
  }

  lemma ReadIsWellFormed(s: string)
    ensures WellFormed(PathOf(s))
  {
    if s != "" && s[0] == '/' {
      ComponentsRead(s[1..], "");
      assert PathOf(s)[1..] == Components(s[1..], "");
    } else {
      ComponentsRead(s, "");
      assert !Component("/");
    }
  }

  lemma {:induction false} ReadComponent(c: string, k: nat, rest: string)
    requires k <= |c| && '/' !in c
    ensures Components(c + rest, "") == Components(c[k..] + rest, c[..k])
  {
    if k > 0 {
      ReadComponent(c, k - 1, rest);
      var here := c[k - 1..] + rest;
      assert here[0] == c[k - 1] && here[1..] == c[k..] + rest && c[..k] == c[..k - 1] + [c[k - 1]];
    } else {
      assert c[0..] == c;
    }
  }

  lemma {:induction false} ReadSlashed(cs: seq<string>)
    requires forall k :: 0 <= k < |cs| ==> Component(cs[k])
    ensures Components(Slashed(cs), "") == cs
  {
    if |cs| == 1 {
      ReadComponent(cs[0], |cs[0]|, "");
      assert cs[0] + "" == cs[0] && cs[0][|cs[0]|..] + "" == "" && cs[0][..|cs[0]|] == cs[0];
    } else if |cs| > 1 {
      var c, rest := cs[0], "/" + Slashed(cs[1..]);
      ReadComponent(c, |c|, rest);
      assert c[|c|..] + rest == rest && c[..|c|] == c && rest[1..] == Slashed(cs[1..]);
      assert c + "/" + Slashed(cs[1..]) == c + rest;
      ReadSlashed(cs[1..]);
    }
  }

  /** Printing a path and reading it back. */
  lemma PathRoundTrip(p: Path)
    requires WellFormed(p)
    ensures PathOf(Render(p)) == p && Render(p) != ""
  {
    if p == [] {
      assert Components(".", "") == Components("", ".");
    } else if Absolute(p) {
      ReadSlashed(p[1..]);
      assert Render(p)[1..] == Slashed(p[1..]);
      assert p == ["/"] + p[1..];
    } else {
      ReadSlashed(p);
      assert Component(p[0]);
      assert Slashed(p)[0] == p[0][0];
    }
  }

  // ---------------------------------------------------------- normalising

  /** The component loop of `os.path.normpath`. */
  function Collapse(abs: bool, cs: seq<string>, done: seq<string>): seq<string>
    decreases |cs|
  {
    if cs == [] then done
    else if cs[0] != ".." || (!abs && done == []) || (done != [] && done[|done| - 1] == "..")
    then Collapse(abs, cs[1..], done + [cs[0]])
    else Collapse(abs, cs[1..], if done != [] then done[..|done| - 1] else done)
  }

  /** `normalise`. */
  function Normalise(p: Path): Path {
    if Absolute(p) then ["/"] + Collapse(true, p[1..], []) else Collapse(false, p, [])
  }

  /** A path as `resolve` gives it: absolute, without `..`. */
  predicate Resolved(to: Path) { Plain(to) && WellFormed(to) && Absolute(to) }

  /** Read from `depth` directories down, `cs` never climbs above where it started. */
  predicate NoClimb(cs: seq<string>, depth: nat) {
    if cs == [] then true
    else if cs[0] == ".." then depth > 0 && NoClimb(cs[1..], depth - 1)
    else NoClimb(cs[1..], depth + 1)
  }

  /** No `..` anywhere. */
  predicate Plain(p: Path) { ".." !in p }

  /** How many leading parts are `..`. */
  function Ups(p: Path): (n: nat)
    ensures n <= |p| && forall k :: 0 <= k < n ==> p[k] == ".."
  {
    if p == [] || p[0] != ".." then 0 else 1 + Ups(p[1..])
  }

  /** What a path comes to on its own: so many levels up, then down. */
  function Net(rest: Path): Path { Collapse(false, rest, []) }

  /** The directory it climbs to from `root`, ... */
  function Above(root: Path, rest: Path): Path { Normalise(root + Net(rest)[..Ups(Net(rest))]) }

  /** ... and the way down from there. */
  function Below(rest: Path): Path { Net(rest)[Ups(Net(rest))..] }

  lemma {:induction false} CollapseSplit(abs: bool, a: seq<string>, b: seq<string>, done: seq<string>)
    ensures Collapse(abs, a + b, done) == Collapse(abs, b, Collapse(abs, a, done))
    decreases |a|
  {
    if a == [] {
      assert a + b == b;
    } else {
      assert (a + b)[1..] == a[1..] + b;
      var keeps := a[0] != ".." || (!abs && done == []) || (done != [] && done[|done| - 1] == "..");
      CollapseSplit(abs, a[1..], b, if keeps then done + [a[0]] else if done != [] then done[..|done| - 1] else done);
    }
  }

  /** One part more, read where the parts so far came to. */
  lemma CollapseLast(abs: bool, d: seq<string>, y: string, done: seq<string>)
    ensures Collapse(abs, d + [y], done) == Collapse(abs, [y], Collapse(abs, d, done))
    ensures y != ".." ==> Collapse(abs, d + [y], done) == Collapse(abs, d, done) + [y]
  {
    CollapseSplit(abs, d, [y], done);
  }

  /** Tidied on its own first, or where it stands: it comes to the same. */
  lemma {:induction false} CollapseNet(abs: bool, rest: seq<string>, d: seq<string>, done: seq<string>)
    ensures Collapse(abs, Collapse(false, rest, d), done) == Collapse(abs, rest, Collapse(abs, d, done))
    decreases |rest|
  {
    if rest != [] {
      var r := rest[0];
      if r != ".." || d == [] || d[|d| - 1] == ".." {
        CollapseLast(abs, d, r, done);
        CollapseNet(abs, rest[1..], d + [r], done);
      } else {
        var front, y := d[..|d| - 1], d[|d| - 1];
        assert d == front + [y];
        CollapseLast(abs, front, y, done);
        CollapseNet(abs, rest[1..], front, done);
      }
      CollapseStep(abs, rest, Collapse(abs, d, done));
    }
  }

  lemma CollapseStep(abs: bool, rest: seq<string>, done: seq<string>)
    requires rest != []
    ensures Collapse(abs, rest, done) == Collapse(abs, rest[1..], Collapse(abs, [rest[0]], done))
  {
    assert rest == [rest[0]] + rest[1..];
    CollapseSplit(abs, [rest[0]], rest[1..], done);
  }

  lemma {:induction false} CollapseDown(abs: bool, cs: seq<string>, done: seq<string>)
    requires Plain(cs)
    ensures Collapse(abs, cs, done) == done + cs
    decreases |cs|
  {
    if cs != [] {
      CollapseDown(abs, cs[1..], done + [cs[0]]);
      assert done + [cs[0]] + cs[1..] == done + cs;
    }
  }

  lemma {:induction false} CollapseUp(cs: seq<string>, done: seq<string>)
    requires Plain(done) && forall k :: 0 <= k < |cs| ==> cs[k] == ".."
    ensures Collapse(true, cs, done) <= done
    decreases |cs|
  {
    if cs != [] {
      var shorter := if done != [] then done[..|done| - 1] else done;
      assert forall c <- shorter :: c in done;
      assert done != [] ==> done[|done| - 1] in done;
      CollapseUp(cs[1..], shorter);
    }
  }

  /** Whatever climbs, climbs first. */
  predicate UpsFirst(p: Path) { Plain(p[Ups(p)..]) }

  lemma UpsOneMore(d: seq<string>, r: string)
    requires UpsFirst(d) && (r != ".." || d == [] || d[|d| - 1] == "..")
    ensures UpsFirst(d + [r])
  {
    if r == ".." && d != [] { AllUps(d); }
    UpsAppend(d, r);
  }

  lemma AllUps(d: seq<string>)
    requires UpsFirst(d) && d != [] && d[|d| - 1] == ".."
    ensures Ups(d) == |d|
  {
  }

  lemma {:induction false} UpsAppend(d: seq<string>, r: string)
    ensures Ups(d + [r]) == if Ups(d) == |d| && r == ".." then |d| + 1 else Ups(d)
    ensures Ups(d) < |d| ==> (d + [r])[Ups(d)..] == d[Ups(d)..] + [r]
  {
    if d != [] && d[0] == ".." {
      UpsAppend(d[1..], r);
      assert (d + [r])[1..] == d[1..] + [r];
    }
  }

  lemma {:induction false} UpsFront(d: seq<string>)
    requires UpsFirst(d) && d != [] && d[|d| - 1] != ".."
    ensures UpsFirst(d[..|d| - 1])
  {
    var front := d[..|d| - 1];
    assert d == front + [d[|d| - 1]];
    UpsAppend(front, d[|d| - 1]);
    if Ups(front) < |front| {
      forall c | c in front[Ups(front)..] ensures c != ".." { assert c in d[Ups(d)..]; }
    }
  }

  lemma {:induction false} NetUpsFirst(rest: seq<string>, d: seq<string>)
    requires UpsFirst(d)
    ensures UpsFirst(Collapse(false, rest, d))
    decreases |rest|
  {
    if rest != [] {
      if rest[0] != ".." || d == [] || d[|d| - 1] == ".." {
        UpsOneMore(d, rest[0]);
        NetUpsFirst(rest[1..], d + [rest[0]]);
      } else {
        UpsFront(d);
        NetUpsFirst(rest[1..], d[..|d| - 1]);
      }
    }
  }

  lemma CollapseUpDown(abs: bool, base: seq<string>, rest: seq<string>)
    ensures Plain(Below(rest))
    ensures Collapse(abs, base + rest, []) == Collapse(abs, base + Net(rest)[..Ups(Net(rest))], []) + Below(rest)
  {
    var net, start := Net(rest), Collapse(abs, base, []);
    var ups := net[..Ups(net)];
    NetUpsFirst(rest, []);
    CollapseSplit(abs, base, rest, []);
    CollapseSplit(abs, base, ups, []);
    CollapseNet(abs, rest, [], start);
    assert net == ups + Below(rest);
    CollapseSplit(abs, ups, Below(rest), start);
    CollapseDown(abs, Below(rest), Collapse(abs, ups, start));
  }

  /** A path below a root is so much of the root, then the way down. */
  lemma NormaliseUpDown(root: Path, rest: Path)
    requires root == [] ==> !Absolute(rest)
    ensures Normalise(root + rest) == Above(root, rest) + Below(rest)
  {
    var ups := Net(rest)[..Ups(Net(rest))];
    if Absolute(root) {
      assert root == ["/"] + root[1..];
      assert (root + rest)[1..] == root[1..] + rest && (root + ups)[1..] == root[1..] + ups;
      CollapseUpDown(true, root[1..], rest);
    } else {
      assert !Absolute(root + ups) by { if root == [] && ups != [] { assert ups[0] == ".."; } }
      assert !Absolute(root + rest) by { if root == [] { assert root + rest == rest; } }
      CollapseUpDown(false, root, rest);
    }
  }

  lemma AboveIsShorter(to: Path, rest: Path)
    requires Resolved(to)
    ensures |Above(to, rest)| <= |to|
  {
    var cs, ups := to[1..], Net(rest)[..Ups(Net(rest))];
    assert to == ["/"] + cs && (to + ups)[1..] == cs + ups;
    assert Plain(cs) by { assert forall c :: c in cs ==> c in to; }
    CollapseSplit(true, cs, ups, []);
    CollapseDown(true, cs, []);
    assert [] + cs == cs;
    CollapseUp(ups, cs);
  }

  lemma {:induction false} CollapsesPlain(cs: seq<string>, done: seq<string>)
    requires Plain(done) && NoClimb(cs, |done|)
    ensures Plain(Collapse(false, cs, done))
    decreases |cs|
  {
    if cs != [] { CollapsesPlain(cs[1..], if cs[0] == ".." then done[..|done| - 1] else done + [cs[0]]); }
  }

  lemma {:induction false} NormalisedPlain(p: Path)
    requires Plain(p)
    ensures Normalise(p) == p
  {
    if Absolute(p) {
      assert forall c :: c in p[1..] ==> c in p;
      CollapseDown(true, p[1..], []);
    } else {
      CollapseDown(false, p, []);
      assert [] + p == p;
    }
  }

  /** What never climbs out ends below any root it is written under. */
  lemma StaysBelow(root: Path, rest: Path)
    requires Plain(root) && NoClimb(rest, 0) && (root == [] ==> !Absolute(rest))
    ensures Above(root, rest) == root && Normalise(root + rest) == root + Below(rest)
  {
    CollapsesPlain(rest, []);
    assert Ups(Net(rest)) == 0 by { if Net(rest) != [] { assert Net(rest)[0] in Net(rest); } }
    assert root + Net(rest)[..0] == root;
    NormalisedPlain(root);
    NormaliseUpDown(root, rest);
  }

  // ------------------------------------------------------------- moving

  /** `p.relative_to(root)` does not raise. */
  predicate Under(p: Path, root: Path) { root <= p && (root == [] ==> !Absolute(p)) }

  /** `rebase`. */
  function Rebase(p: Path, from: Path, to: Path): Path {
    if Under(p, from) then to + p[|from|..] else p
  }

  /** Neither tree contains the other. */
  predicate Apart(a: Path, b: Path) { !(a <= b) && !(b <= a) }

  /** A rebase leaves the path where it is. */
  predicate Stays(p: Path, from: Path, to: Path) { from == to || !Under(p, from) }

  lemma StaysIff(p: Path, from: Path, to: Path)
    ensures Rebase(p, from, to) == p <==> Stays(p, from, to)
  {
    if Under(p, from) {
      assert p == from + p[|from|..];
      SameHead(from, to, p[|from|..]);
    }
  }

  lemma SameHead<T>(a: seq<T>, b: seq<T>, c: seq<T>)
    ensures a + c == b + c <==> a == b
  {
    if a + c == b + c {
      assert |a| == |b| && a == (a + c)[..|a|] && b == (b + c)[..|b|];
    }
  }

  lemma PrefixesCompare(a: Path, b: Path, p: Path)
    requires a <= p && b <= p
    ensures !Apart(a, b)
  {
    if |a| <= |b| { assert a == p[..|a|] == b[..|a|]; } else { assert b == p[..|b|] == a[..|b|]; }
  }

  lemma ApartMeansOnce(p: Path, from: Path, to: Path)
    requires Apart(from, to) && to <= p
    ensures !Under(p, from)
  {
    if from <= p { PrefixesCompare(from, to, p); }
  }

  // ------------------------------------------------------- the common tail

  /** The last `n` parts agree. */
  predicate TailsAgree(a: Path, b: Path, n: nat) {
    n <= |a| && n <= |b| && a[|a| - n..] == b[|b| - n..]
  }

  lemma TailGrows(a: Path, b: Path, n: nat)
    requires TailsAgree(a, b, n)
    ensures TailsAgree(a, b, n + 1) <==> n < |a| && n < |b| && a[|a| - 1 - n] == b[|b| - 1 - n]
    ensures forall m: nat :: m > n && TailsAgree(a, b, m) ==> TailsAgree(a, b, n + 1)
  {
    if n < |a| && n < |b| {
      assert a[|a| - (n + 1)..] == [a[|a| - 1 - n]] + a[|a| - n..];
      assert b[|b| - (n + 1)..] == [b[|b| - 1 - n]] + b[|b| - n..];
    }
    forall m: nat | m > n && TailsAgree(a, b, m) ensures TailsAgree(a, b, n + 1) {
      assert a[|a| - (n + 1)..] == a[|a| - m..][m - n - 1..];
      assert b[|b| - (n + 1)..] == b[|b| - m..][m - n - 1..];
    }
  }

  /** The longest common tail, at least `n`. */
  function TailFrom(a: Path, b: Path, n: nat): (r: nat)
    requires TailsAgree(a, b, n)
    ensures TailsAgree(a, b, r) && forall m: nat :: TailsAgree(a, b, m) ==> m <= r
    decreases |a| - n
  {
    TailGrows(a, b, n);
    if n < |a| && n < |b| && a[|a| - 1 - n] == b[|b| - 1 - n] then TailFrom(a, b, n + 1) else n
  }

  function TailLength(a: Path, b: Path): nat { TailFrom(a, b, 0) }

  /** `_shared_tail`. */
  method SharedTail(a: Path, b: Path) returns (n: nat)
    ensures n == TailLength(a, b)
    ensures TailsAgree(a, b, n) && forall m: nat :: TailsAgree(a, b, m) ==> m <= n
  {
    n := 0;
    while n < |a| && n < |b| && a[|a| - 1 - n] == b[|b| - 1 - n]
      invariant TailsAgree(a, b, n) && TailFrom(a, b, n) == TailLength(a, b)
    {
      TailGrows(a, b, n);
      n := n + 1;
    }
    TailGrows(a, b, n);
  }
}
