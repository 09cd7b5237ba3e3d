/** Entries of a compilation database: parsing one, matching one against a file of a moved tree, and rebasing it. */
module CompileDb {
  import opened Wrappers
  import opened Paths

  /** A database entry; `tokens` is its `arguments`, or its `command` as the shell splits it. */
  datatype Raw = Raw(directory: Option<string>, file: string, tokens: seq<string>)

  datatype Entry = Entry(file: Path, directory: Path, includeDirs: seq<Path>, defines: seq<string>,
                         undefines: seq<string>, forceIncludes: seq<Path>, std: Option<string>)

  class CompileEntry {
    var file: Path
    var directory: Path
    var includeDirs: seq<Path>
    var defines: seq<string>
    var undefines: seq<string>
    var forceIncludes: seq<Path>
    var std: Option<string>

    constructor (file: Path, directory: Path)
      ensures View() == Fresh(file, directory)
    {
      this.file, this.directory := file, directory;
      includeDirs, defines, undefines, forceIncludes, std := [], [], [], [], None;
    }

    function View(): Entry
      reads this
    {
      Entry(file, directory, includeDirs, defines, undefines, forceIncludes, std)
    }

    /** `_absorb`. */
    method Absorb(flag: string, value: string, directory: Path)
      requires directory == this.directory
      modifies this
      ensures View() == Absorbed(old(View()), Flagged(flag, value))
    {
      if flag == "-I" || flag == "-isystem" || flag == "-iquote" {
        includeDirs := includeDirs + [Locate(directory, value)];
      } else if flag == "-D" {
        defines := defines + [value];
      } else if flag == "-U" {
        undefines := undefines + [value];
      } else if flag == "-include" {
        forceIncludes := forceIncludes + [Locate(directory, value)];
      }
    }
  }

  function Fresh(file: Path, directory: Path): Entry { Entry(file, directory, [], [], [], [], None) }

  /** `looks_absolute`: absolute here, or on the platform that wrote the database. */
  predicate LooksAbsolute(p: Path) {
    p != [] && (p[0] == "/" || (p[0] != "" && p[0][0] == '\\') || (|p[0]| > 1 && p[0][1] == ':'))
  }

  /** As the text of the path shows it: it begins with a slash or a backslash, or has a drive's colon behind its first
      character. */
  lemma LooksAbsoluteIff(p: Path)
    requires WellFormed(p)
    ensures LooksAbsolute(p) <==> var t := Render(p); t != "" && (t[0] in {'/', '\\'} || (|t| > 1 && t[1] == ':'))
  {
    if p != [] && !Absolute(p) {
      PartIsComponent(p, 0);
      assert Slashed(p) == if |p| == 1 then p[0] else p[0] + "/" + Slashed(p[1..]);
    }
  }

  function Locate(directory: Path, value: string): Path {
    var p := PathOf(value);
    if LooksAbsolute(p) then Normalise(p) else Normalise(directory + p)
  }

  function Directory(raw: Raw, home: Path): Path {
    match raw.directory case None => home case Some(d) => PathOf(d)
  }

  /** `_entry_path`. */
  function Candidate(raw: Raw, home: Path): Path {
    var p := PathOf(raw.file);
    if LooksAbsolute(p) then p else Directory(raw, home) + p
  }

  // ------------------------------------------------------------ flags

  /** What a command line asks for. */
  datatype Directive = Flagged(flag: string, value: string) | Std(standard: string)

  predicate ValueFlag(t: string) { PathFlag(t) || t == "-D" || t == "-U" }

  predicate PathFlag(t: string) { t == "-I" || t == "-isystem" || t == "-iquote" || t == "-include" }

  const STD_PREFIX := "-std="

  predicate Joins(prefix: string, t: string) { prefix <= t && |t| > |prefix| }

  /** The first joined prefix of `t`. */
  function JoinedPrefix(t: string): (r: Option<string>)
    ensures r.Some? ==> Joins(r.value, t)
  {
    if Joins("-I", t) then Some("-I")
    else if Joins("-D", t) then Some("-D")
    else if Joins("-U", t) then Some("-U")
    else if Joins("-isystem", t) then Some("-isystem")
    else if Joins("-iquote", t) then Some("-iquote")
    else None
  }

  /** What an argument that takes no other asks for. */
  function Single(t: string): seq<Directive> {
    if STD_PREFIX <= t then [Std(t[|STD_PREFIX|..])]
    else match JoinedPrefix(t)
      case Some(p) => [Flagged(p, t[|p|..])]
      case None => []
  }

  function Directives(tokens: seq<string>): seq<Directive> {
    if tokens == [] then []
    else if ValueFlag(tokens[0]) && |tokens| > 1 then [Flagged(tokens[0], tokens[1])] + Directives(tokens[2..])
    else Single(tokens[0]) + Directives(tokens[1..])
  }

  function Absorbed(e: Entry, d: Directive): Entry {
    match d
    case Std(s) => e.(std := Some(s))
    case Flagged(flag, value) =>
      if flag == "-I" || flag == "-isystem" || flag == "-iquote" then
        e.(includeDirs := e.includeDirs + [Locate(e.directory, value)])
      else if flag == "-D" then e.(defines := e.defines + [value])
      else if flag == "-U" then e.(undefines := e.undefines + [value])
      else if flag == "-include" then e.(forceIncludes := e.forceIncludes + [Locate(e.directory, value)])
      else e
  }

  function Build(e: Entry, ds: seq<Directive>): Entry {
    if ds == [] then e else Absorbed(Build(e, ds[..|ds| - 1]), ds[|ds| - 1])
  }

  /** The arguments after the compiler's own name. */
  function Arguments(raw: Raw): seq<string> { if raw.tokens == [] then [] else raw.tokens[1..] }

  function Parsed(raw: Raw, directory: Path, source: Path): Entry {
    Build(Fresh(source, directory), Directives(Arguments(raw)))
  }

  lemma {:induction false} BuildKeepsPlace(e: Entry, ds: seq<Directive>)
    ensures Build(e, ds).directory == e.directory && Build(e, ds).file == e.file
  {
    if ds != [] { BuildKeepsPlace(e, ds[..|ds| - 1]); }
  }

  lemma {:induction false} BuildAppend(e: Entry, a: seq<Directive>, b: seq<Directive>)
    ensures Build(e, a + b) == Build(Build(e, a), b)
  {
    if b == [] {
      assert a + b == a;
    } else {
      assert (a + b)[..|a + b| - 1] == a + b[..|b| - 1];
      BuildAppend(e, a, b[..|b| - 1]);
    }
  }

  // ------------------------------------------------------------ what an entry says

  /** The values given to these flags, in order. */
  function ValuesOf(ds: seq<Directive>, flags: set<string>): seq<string> {
    if ds == [] then []
    else ValuesOf(ds[..|ds| - 1], flags)
         + if ds[|ds| - 1].Flagged? && ds[|ds| - 1].flag in flags then [ds[|ds| - 1].value] else []
  }

  /** The last standard asked for. */
  function LastStandard(ds: seq<Directive>): Option<string> {
    if ds == [] then None
    else if ds[|ds| - 1].Std? then Some(ds[|ds| - 1].standard) else LastStandard(ds[..|ds| - 1])
  }

  function AllLocated(directory: Path, values: seq<string>): (r: seq<Path>)
    ensures |r| == |values|
  {
    seq(|values|, k requires 0 <= k < |values| => Locate(directory, values[k]))
  }

  lemma LocatedMore(directory: Path, values: seq<string>, v: string)
    ensures AllLocated(directory, values + [v]) == AllLocated(directory, values) + [Locate(directory, v)]
    ensures AllLocated(directory, values + []) == AllLocated(directory, values) + []
  {
    assert values + [] == values;
  }

  /** An entry says of each flag what was given to it, in order, and the last standard asked for. */
  lemma {:induction false} BuildSays(file: Path, directory: Path, ds: seq<Directive>)
    ensures Build(Fresh(file, directory), ds) ==
      Entry(file, directory, AllLocated(directory, ValuesOf(ds, {"-I", "-isystem", "-iquote"})), ValuesOf(ds, {"-D"}),
            ValuesOf(ds, {"-U"}), AllLocated(directory, ValuesOf(ds, {"-include"})), LastStandard(ds))
  {
    if ds != [] {
      var front, last := ds[..|ds| - 1], ds[|ds| - 1];
      BuildSays(file, directory, front);
      if last.Flagged? {
        LocatedMore(directory, ValuesOf(front, {"-I", "-isystem", "-iquote"}), last.value);
        LocatedMore(directory, ValuesOf(front, {"-include"}), last.value);
      }
    }
  }

  /** A flag that stands by itself takes the argument behind it. */
  lemma FlagRead(flag: string, value: string, rest: seq<string>)
    requires flag in {"-I", "-isystem", "-iquote", "-include", "-D", "-U"}
    ensures Directives([flag, value] + rest) == [Flagged(flag, value)] + Directives(rest)
  {
    assert ([flag, value] + rest)[2..] == rest;
  }

  /** One that is joined to its value is that. */
  lemma JoinedRead(flag: string, value: string, rest: seq<string>)
    requires flag in {"-I", "-isystem", "-iquote", "-D", "-U"} && value != ""
    ensures Directives([flag + value] + rest) == [Flagged(flag, value)] + Directives(rest)
  {
    JoinedMoved(flag, value);
    assert ([flag + value] + rest)[1..] == rest;
  }

  lemma StandardRead(standard: string, rest: seq<string>)
    ensures Directives(["-std=" + standard] + rest) == [Std(standard)] + Directives(rest)
  {
    var t := "-std=" + standard;
    assert ([t] + rest)[1..] == rest && t[1] == 's' && t[5..] == standard && STD_PREFIX <= t;
    assert !ValueFlag(t);
  }

  /** Any other argument asks for nothing. */
  lemma OtherRead(t: string, rest: seq<string>)
    requires t != "-include" && !("-I" <= t) && !("-D" <= t) && !("-U" <= t)
    requires !("-isystem" <= t) && !("-iquote" <= t) && !("-std=" <= t)
    ensures Directives([t] + rest) == Directives(rest)
  {
    assert ([t] + rest)[1..] == rest;
  }

  lemma JoinedMoved(p: string, v: string)
    requires p == "-I" || p == "-D" || p == "-U" || p == "-isystem" || p == "-iquote"
    requires v != ""
    ensures !ValueFlag(p + v) && !(STD_PREFIX <= p + v) && JoinedPrefix(p + v) == Some(p)
    ensures (p + v)[|p|..] == v
  {
    var t := p + v;
    assert p <= t;
    assert t[1] == p[1];
    if p == "-isystem" || p == "-iquote" { assert t[2] == p[2]; }
    assert !Joins("-I", t) || p == "-I";
    assert !Joins("-D", t) || p == "-D";
    assert !Joins("-U", t) || p == "-U";
    if p == "-iquote" { assert !("-isystem" <= t) by { assert t[2] == 'q' && "-isystem"[2] == 's'; } }
  }

  // ------------------------------------------------------------ the code

  /** What the arguments from `i` on ask for. */
  function Rest(tokens: seq<string>, i: nat): seq<Directive> {
    if i <= |tokens| then Directives(tokens[i..]) else []
  }

  method TakeOne(tokens: seq<string>, at: nat, entry: CompileEntry) returns (i: nat, ghost taken: seq<Directive>)
    requires at < |tokens|
    modifies entry
    ensures at < i <= |tokens| && Rest(tokens, at) == taken + Rest(tokens, i)
    ensures entry.View() == Build(old(entry.View()), taken)
  {
    var token := tokens[at];
    assert tokens[at..][1..] == tokens[at + 1..];
    i := at + 1;
    taken := [];
    if ValueFlag(token) && at + 1 < |tokens| {
      assert tokens[at..][2..] == tokens[at + 2..];
      taken := [Flagged(token, tokens[at + 1])];
      entry.Absorb(token, tokens[at + 1], entry.directory);
      i := at + 2;
    } else if STD_PREFIX <= token {
      taken := [Std(token[|STD_PREFIX|..])];
      entry.std := Some(token[|STD_PREFIX|..]);
    } else {
      var matched := JoinedPrefix(token);
      if matched.Some? {
        taken := [Flagged(matched.value, token[|matched.value|..])];
        entry.Absorb(matched.value, token[|matched.value|..], entry.directory);
      }
    }
  }

  /** The body of the argument loop: what is left builds on it to the same end. */
  method Take(tokens: seq<string>, at: nat, entry: CompileEntry) returns (i: nat)
    requires at < |tokens|
    modifies entry
    ensures at < i <= |tokens|
    ensures Build(entry.View(), Rest(tokens, i)) == Build(old(entry.View()), Rest(tokens, at))
  {
    ghost var before := entry.View();
    ghost var taken;
    i, taken := TakeOne(tokens, at, entry);
    BuildAppend(before, taken, Rest(tokens, i));
  }

  /** `_parse`. */
  method Parse(raw: Raw, directory: Path, source: Path) returns (entry: CompileEntry)
    ensures fresh(entry) && entry.View() == Parsed(raw, directory, source)
  {
    entry := new CompileEntry(source, directory);
    assert Rest(raw.tokens, 1) == Directives(Arguments(raw));
    var i := 1;
    while i < |raw.tokens|
      invariant 1 <= i && fresh(entry) && Build(entry.View(), Rest(raw.tokens, i)) == Parsed(raw, directory, source)
    {
      i := Take(raw.tokens, i, entry);
    }
    assert Rest(raw.tokens, i) == [];
  }

  /** How much of its tail each candidate shares with the target. */
  function Scores(raws: seq<Raw>, target: Path, home: Path): (r: seq<nat>)
    ensures |r| == |raws|
  {
    seq(|raws|, k requires 0 <= k < |raws| => TailLength(Candidate(raws[k], home), target))
  }

  /** Entry `k` scores more than every other. */
  ghost predicate StrictBest(scores: seq<nat>, k: nat) {
    && k < |scores| && scores[k] > 0
    && forall j: nat :: j < |scores| && j != k ==> scores[j] < scores[k]
  }

  /** Which of the first `k` entries score exactly `n`. */
  function Sharing(scores: seq<nat>, k: nat, n: nat): (r: seq<nat>)
    requires k <= |scores|
  {
    if k == 0 then [] else Sharing(scores, k - 1, n) + if scores[k - 1] == n then [k - 1] else []
  }

  ghost predicate AtMost(scores: seq<nat>, k: nat, n: nat) {
    forall j: nat :: j < k && j < |scores| ==> scores[j] <= n
  }

  lemma {:induction false} SharingIs(scores: seq<nat>, k: nat, n: nat)
    requires k <= |scores|
    ensures forall j: nat :: j < k && scores[j] == n ==> j in Sharing(scores, k, n)
    ensures forall i :: 0 <= i < |Sharing(scores, k, n)| ==>
              Sharing(scores, k, n)[i] < k && scores[Sharing(scores, k, n)[i]] == n
    ensures forall i, j :: 0 <= i < j < |Sharing(scores, k, n)| ==> Sharing(scores, k, n)[i] < Sharing(scores, k, n)[j]
  {
    if k > 0 {
      SharingIs(scores, k - 1, n);
      var before := Sharing(scores, k - 1, n);
      assert forall j: nat :: j < k - 1 && scores[j] == n ==> j in before;
    }
  }

  lemma {:induction false} NoneShares(scores: seq<nat>, k: nat, n: nat, m: nat)
    requires k <= |scores| && AtMost(scores, k, n) && n < m
    ensures Sharing(scores, k, m) == []
  {
    if k > 0 {
      assert scores[k - 1] <= n;
      NoneShares(scores, k - 1, n, m);
    }
  }

  lemma OneMore(scores: seq<nat>, k: nat, n: nat)
    requires k < |scores| && AtMost(scores, k, n)
    ensures AtMost(scores, k + 1, if scores[k] > n then scores[k] else n)
    ensures scores[k] > n ==> Sharing(scores, k + 1, scores[k]) == [k]
    ensures scores[k] == n ==> Sharing(scores, k + 1, n) == Sharing(scores, k, n) + [k]
    ensures scores[k] < n ==> Sharing(scores, k + 1, n) == Sharing(scores, k, n)
  {
    if scores[k] > n { NoneShares(scores, k, n, scores[k]); }
  }

  /** The best score, and who has it. */
  method Leaders(raws: seq<Raw>, target: Path, home: Path) returns (n: nat, best: seq<nat>)
    ensures AtMost(Scores(raws, target, home), |raws|, n)
    ensures best == (if n > 0 then Sharing(Scores(raws, target, home), |raws|, n) else []) && (n > 0 ==> best != [])
  {
    ghost var scores := Scores(raws, target, home);
    n, best := 0, [];
    for k := 0 to |raws|
      invariant AtMost(scores, k, n)
      invariant best == (if n > 0 then Sharing(scores, k, n) else []) && (n > 0 ==> best != [])
    {
      var m := SharedTail(Candidate(raws[k], home), target);
      assert m == scores[k];
      OneMore(scores, k, n);
      if m > n {
        n, best := m, [k];
      } else if m == n && m > 0 {
        best := best + [k];
      }
    }
  }

  /** The best is strict exactly when one entry alone has that score. */
  lemma StrictBestIff(scores: seq<nat>, n: nat, k: nat)
    requires AtMost(scores, |scores|, n) && n > 0 && Sharing(scores, |scores|, n) != []
    ensures StrictBest(scores, k) <==> Sharing(scores, |scores|, n) == [k]
  {
    var best := Sharing(scores, |scores|, n);
    SharingIs(scores, |scores|, n);
    assert scores[best[0]] == n;
    if |best| > 1 { assert scores[best[1]] == n && best[0] < best[1]; }
  }

  function RebaseAll(ps: seq<Path>, from: Path, to: Path): (r: seq<Path>)
    ensures |r| == |ps|
  {
    seq(|ps|, k requires 0 <= k < |ps| => Rebase(ps[k], from, to))
  }

  /** The chosen entry moved from one root to the other. */
  function RebasedEntry(raw: Raw, home: Path, target: Path, from: Path, to: Path): Entry {
    var e := Parsed(raw, Rebase(Directory(raw, home), from, to), target);
    e.(includeDirs := RebaseAll(e.includeDirs, from, to), forceIncludes := RebaseAll(e.forceIncludes, from, to))
  }

  /** `from` and `to` are what stands before the longest tail the two paths share. */
  predicate Roots(candidate: Path, target: Path, from: Path, to: Path) {
    && from <= candidate && to <= target && candidate[|from|..] == target[|to|..]
    && (from == [] || to == [] || from[|from| - 1] != to[|to| - 1])
  }

  /** The entry is the raw one moved from the one root to the other. */
  ghost predicate MovedBetweenRoots(entry: Entry, raw: Raw, target: Path, home: Path) {
    exists from, to :: Roots(Candidate(raw, home), target, from, to) && entry == RebasedEntry(raw, home, target, from, to)
  }

  /** There is one way to cut two paths so. */
  lemma RootsUnique(candidate: Path, target: Path, from: Path, to: Path, from': Path, to': Path)
    requires Roots(candidate, target, from, to) && Roots(candidate, target, from', to')
    ensures from == from' && to == to'
  {
    if |from| < |from'| { RootsNoLonger(candidate, target, from, to, from', to'); }
    if |from'| < |from| { RootsNoLonger(candidate, target, from', to', from, to); }
    assert |candidate[|from|..]| == |target[|to|..]| && |candidate[|from'|..]| == |target[|to'|..]|;
    assert from == candidate[..|from|] && from' == candidate[..|from'|] && to == target[..|to|] && to' == target[..|to'|];
  }

  lemma RootsNoLonger(candidate: Path, target: Path, from: Path, to: Path, from': Path, to': Path)
    requires Roots(candidate, target, from, to) && Roots(candidate, target, from', to')
    ensures |from| >= |from'|
  {
    var n := |candidate| - |from|;
    assert |target| - |to| == n && |candidate[|from'|..]| == |target[|to'|..]|;
    assert forall k :: |from| <= k < |candidate| ==> candidate[k] == candidate[|from|..][k - |from|];
    assert forall k :: |to| <= k < |target| ==> target[k] == target[|to|..][k - |to|];
    LastOf(candidate, from');
    LastOf(target, to');
  }

  lemma LastOf(whole: Path, part: Path)
    requires part <= whole
    ensures part != [] ==> part[|part| - 1] == whole[|part| - 1]
  {}

  lemma LongestTailRoots(candidate: Path, target: Path, n: nat)
    requires TailsAgree(candidate, target, n) && forall m: nat :: TailsAgree(candidate, target, m) ==> m <= n
    ensures Roots(candidate, target, candidate[..|candidate| - n], target[..|target| - n])
  {
    var from, to := candidate[..|candidate| - n], target[..|target| - n];
    assert candidate[|from|..] == target[|to|..] by { assert |from| == |candidate| - n && |to| == |target| - n; }
    TailGrows(candidate, target, n);
    LastOf(candidate, from);
    LastOf(target, to);
    assert !TailsAgree(candidate, target, n + 1);
  }

  method ParseRebased(raw: Raw, target: Path, home: Path, n: nat) returns (entry: CompileEntry)
    requires TailsAgree(Candidate(raw, home), target, n)
    requires forall m: nat :: TailsAgree(Candidate(raw, home), target, m) ==> m <= n
    ensures fresh(entry) && MovedBetweenRoots(entry.View(), raw, target, home)
  {
    var candidate := Candidate(raw, home);
    var oldRoot, newRoot := candidate[..|candidate| - n], target[..|target| - n];
    entry := Parse(raw, Rebase(Directory(raw, home), oldRoot, newRoot), target);
    entry.includeDirs := RebaseAll(entry.includeDirs, oldRoot, newRoot);
    entry.forceIncludes := RebaseAll(entry.forceIncludes, oldRoot, newRoot);
    LongestTailRoots(candidate, target, n);
  }

  /** `_relocated`. `Ambiguous` is its `CompDBError`, `Unmatched` its `None`. */
  datatype Answer = Unmatched | Ambiguous | Matched(k: nat)

  method Relocated(raws: seq<Raw>, target: Path, home: Path) returns (answer: Answer, entry: CompileEntry?)
    ensures answer.Matched? <==> exists k: nat :: StrictBest(Scores(raws, target, home), k)
    ensures answer.Matched? ==> StrictBest(Scores(raws, target, home), answer.k)
    ensures answer.Matched? ==>
              entry != null && fresh(entry) && MovedBetweenRoots(entry.View(), raws[answer.k], target, home)
    ensures answer.Unmatched? <==> AtMost(Scores(raws, target, home), |raws|, 0)
  {
    ghost var scores := Scores(raws, target, home);
    var n, best := Leaders(raws, target, home);
    if n == 0 { return Unmatched, null; }
    StrictBestIff(scores, n, best[0]);
    SharingIs(scores, |raws|, n);
    assert scores[best[0]] == n;
    if |best| > 1 {
      forall k: nat ensures !StrictBest(scores, k) { StrictBestIff(scores, n, k); }
      return Ambiguous, null;
    }
    entry := ParseRebased(raws[best[0]], target, home, n);
    answer := Matched(best[0]);
  }

  ghost predicate FirstSame(raws: seq<Raw>, k: int, home: Path, same: Path -> bool) {
    && 0 <= k < |raws| && same(Candidate(raws[k], home))
    && forall j :: 0 <= j < k ==> !same(Candidate(raws[j], home))
  }

  /** `entry_for`, `same` saying which candidates resolve to the target itself. `Ambiguous` and
      `Unmatched` both raise. */
  method EntryFor(raws: seq<Raw>, target: Path, home: Path, same: Path -> bool)
    returns (answer: Answer, entry: CompileEntry?)
    ensures answer.Matched? ==> answer.k < |raws| && entry != null
    ensures forall k :: FirstSame(raws, k, home, same) ==>
              answer == Matched(k) && entry != null && entry.View() == Parsed(raws[k], Directory(raws[k], home), target)
    ensures (forall k :: !FirstSame(raws, k, home, same)) && answer.Matched? ==>
              StrictBest(Scores(raws, target, home), answer.k) && entry != null
              && MovedBetweenRoots(entry.View(), raws[answer.k], target, home)
  {
    for k := 0 to |raws|
      invariant forall j :: 0 <= j < k ==> !same(Candidate(raws[j], home))
    {
      if same(Candidate(raws[k], home)) {
        assert FirstSame(raws, k, home, same);
        entry := Parse(raws[k], Directory(raws[k], home), target);
        return Matched(k), entry;
      }
    }
    answer, entry := Relocated(raws, target, home);
  }
}
