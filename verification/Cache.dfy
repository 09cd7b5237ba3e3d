/** The verdict cache, and `scan` runs over a project that changes between them. */
module Cache {
  import opened Wrappers
  import opened IncludeClosure
  import opened CacheKey
  import AgentLoop
  import opened ScanPasses

  const CACHE_VERSION := 3

  /** What of a report is stored, in the order `_cache_payload` lists it. */
  datatype Payload = Payload(candidates: nat, triaged: bool, retried: nat, settled: nat, results: seq<View>)

  /** A file in the cache directory. */
  datatype Stored = Entry(version: nat, payload: Payload) | Garbage

  class Directory {
    var files: map<string, Stored>

    /** `Cache.get`. */
    method Get(key: string) returns (r: Option<Payload>)
      ensures r == Found(files, key)
    {
      if key !in files { return None; }
      match files[key]
      case Garbage => return None;
      case Entry(version, payload) =>
        if version != CACHE_VERSION { return None; }
        return Some(payload);
    }

    /** `Cache.put`; `written` is that the directory took it. */
    method Put(key: string, payload: Payload, written: bool)
      modifies this
      ensures files == if written then old(files)[key := Entry(CACHE_VERSION, payload)] else old(files)
    {
      if written { files := files[key := Entry(CACHE_VERSION, payload)]; }
    }
  }

  function Found(files: map<string, Stored>, key: string): Option<Payload> {
    if key in files && files[key].Entry? && files[key].version == CACHE_VERSION then Some(files[key].payload) else None
  }

  /** `_cache_payload` and `_report_from_cache`: what a report is rebuilt from is what of it was stored. */
  method PayloadOf(report: ScanReport) returns (r: Payload)
    requires report.Valid()
    ensures r == Payload(report.candidates, report.triaged, report.retried, report.settled, report.views)
  {
    var vs := report.Say();
    r := Payload(report.candidates, report.triaged, report.retried, report.settled, vs);
  }

  method ReportFromCache(payload: Payload) returns (report: ScanReport)
    ensures fresh(report) && report.Valid() && report.views == payload.results
    ensures payload == Payload(report.candidates, report.triaged, report.retried, report.settled, report.views)
  {
    report := new ScanReport(payload.candidates);
    report.triaged, report.retried, report.settled := payload.triaged, payload.retried, payload.settled;
    for k := 0 to |payload.results|
      invariant report.Valid() && fresh(report) && fresh(report.results) && report.views == payload.results[..k]
      invariant report.candidates == payload.candidates && report.triaged == payload.triaged
      invariant report.retried == payload.retried && report.settled == payload.settled
    {
      var r := new FunctionResult(payload.results[k]);
      report.Append(r);
      assert payload.results[..k + 1] == payload.results[..k] + [payload.results[k]];
    }
    assert payload.results[..|payload.results|] == payload.results;
  }

  /** A counterexample that triage would look at, as far as the payload tells. */
  predicate Plainly(v: View) { v.verdict == Checked(AgentLoop.Counterexample) && !v.artifact }

  predicate Open(v: View) {
    v.verdict == Checked(AgentLoop.Timeout) || v.verdict == Checked(AgentLoop.UnwindLimit)
    || v.verdict == Checked(AgentLoop.Unknown)
  }

  /** `_cache_serves`. */
  predicate Serves(payload: Payload, llm: bool, retryBudget: int) {
    && !(llm && !payload.triaged && exists v <- payload.results :: Plainly(v))
    && !(retryBudget > 0 && payload.retried == 0 && exists v <- payload.results :: Open(v))
  }

  /** A stored report is good for the question asked: where a model is to look at counterexamples, it was triaged or has
      none that is no artifact; where there is a budget for retries, some were made or nothing in it is open. */
  predicate Suits(answer: Payload, llm: bool, retryBudget: int) {
    && (llm && !answer.triaged ==>
          forall v <- answer.results :: v.verdict == Checked(AgentLoop.Counterexample) ==> v.artifact)
    && (retryBudget > 0 && answer.retried == 0 ==>
          forall v <- answer.results ::
            v.verdict !in {Checked(AgentLoop.Timeout), Checked(AgentLoop.UnwindLimit), Checked(AgentLoop.Unknown)})
  }

  lemma ServesIff(payload: Payload, llm: bool, retryBudget: int)
    ensures Serves(payload, llm, retryBudget) <==> Suits(payload, llm, retryBudget)
  {
  }

  // ------------------------------------------------------------ a run, and the key it looks under

  /** What is asked of the checker; `units` are the linked sources and the headers forced into every unit. */
  datatype Settings = Settings(units: seq<Path>, dirs: seq<Path>, checker: AgentLoop.Config, rest: string)

  /** One `scan`, with the files, the checker and the model as they then are; `names` are the source's functions, or
      those `--only` names. */
  datatype Command = Command(
    tree: Tree, source: Path, settings: Settings, options: string, version: string, checker: string,
    project: Project, names: seq<string>, escalations: nat,
    only: bool, noCache: bool, llm: bool, retryBudget: int, written: bool)

  /** The hash, the JSON of the settings, and `sorted`. */
  datatype Hashing = Hashing(digest: string -> string, dump: Settings -> string, sorted: set<Path> -> seq<Path>)

  /** No two texts and no two settings are told as one, and sorting keeps the paths. */
  ghost predicate Exact(h: Hashing) {
    && (forall s, t :: h.digest(s) == h.digest(t) ==> s == t)
    && (forall s, t :: h.dump(s) == h.dump(t) ==> s == t)
    && (forall paths :: (set p <- h.sorted(paths)) == paths)
  }

  function FileAt(t: Tree, path: Path): File {
    if path in t.files && t.files[path].Some? then Readable(t.files[path].value) else Unreadable
  }

  function UnitAt(t: Tree, path: Path): Unit { Unit(path, if path in t.files then t.files[path] else None) }

  /** The source, what is linked and what is forced in. */
  function Units(c: Command): (r: seq<Unit>)
    ensures |r| == |c.settings.units| + 1
  {
    [UnitAt(c.tree, c.source)]
    + seq(|c.settings.units|, k requires 0 <= k < |c.settings.units| => UnitAt(c.tree, c.settings.units[k]))
  }

  function FilesAt(t: Tree, paths: seq<Path>): (r: seq<(Path, File)>)
    ensures |r| == |paths|
  {
    seq(|paths|, k requires 0 <= k < |paths| => (paths[k], FileAt(t, paths[k])))
  }

  function InputsOf(c: Command, h: Hashing, extra: set<Path>): Inputs {
    Inputs(c.version, c.checker, c.source, FileAt(c.tree, c.source), FilesAt(c.tree, h.sorted(extra)),
           h.dump(c.settings), c.options)
  }

  /** `extra` is what `ExtraFiles` finds for this run. */
  predicate Extra(c: Command, extra: set<Path>) { extra == Covered(c.tree, Units(c), c.source, c.settings.dirs) }

  /** These bytes are what this run digests. */
  ghost predicate Digests(c: Command, h: Hashing, bytes: string) {
    exists extra :: Extra(c, extra) && bytes == Stream(InputsOf(c, h, extra))
  }

  /** `_cache_key`. */
  method KeyOf(c: Command, h: Hashing) returns (key: string, ghost bytes: string)
    ensures key == h.digest(bytes) && Digests(c, h, bytes)
  {
    var extra := ExtraFiles(c.tree, Units(c), c.source, c.settings.dirs);
    var fed := KeyFor(InputsOf(c, h, extra));
    bytes := fed;
    key := h.digest(fed);
  }

  // ------------------------------------------------------------ sessions

  /** A real scan of the whole file, whose report the cache was given. */
  predicate Kept(c: Command) { !c.only && !c.noCache }

  /** A payload that may be a real scan's by this run: what the scan comes to, with every result's claim holding. */
  ghost predicate ScanOf(c: Command, payload: Payload) {
    && payload.candidates == |c.names| && Named(payload.results, c.names)
    && AllClaim(c.project, c.settings.checker, payload.results)
    && payload.settled <= payload.retried <= |c.names| && payload.triaged == (c.llm && c.names != [])
    && (c.retryBudget <= 0 ==> payload.retried == 0)
    && (c.names != [] ==>
          ScanComes(c.project, c.names, c.settings.checker, c.escalations, c.retryBudget, c.llm, payload.results,
                    payload.retried, payload.settled))
  }

  /** What a scan stores answers the same question again exactly when it left nothing open untried. */
  lemma ServesItsOwnQuestionIff(c: Command, payload: Payload)
    requires ScanOf(c, payload)
    ensures Serves(payload, c.llm, c.retryBudget)
       <==> c.retryBudget <= 0 || payload.retried > 0 || forall v <- payload.results :: !Open(v)
  {
    if c.names == [] { assert forall v <- payload.results :: !Plainly(v); }
  }

  /** An earlier run that digested these bytes, and scanned. */
  ghost predicate Source(h: Hashing, r: Command, bytes: string, payload: Payload) {
    Kept(r) && Digests(r, h, bytes) && ScanOf(r, payload)
  }

  /** The entry under this key is the report of one of these runs, on bytes with that key. */
  ghost predicate Genuine(h: Hashing, runs: seq<Command>, key: string, payload: Payload) {
    exists r, bytes :: r in runs && h.digest(bytes) == key && Source(h, r, bytes, payload)
  }

  ghost predicate AllGenuine(h: Hashing, runs: seq<Command>, files: map<string, Stored>) {
    forall key <- files :: files[key].Entry? && files[key].version == CACHE_VERSION ==>
      Genuine(h, runs, key, files[key].payload)
  }

  /** What a run answered: its own scan's report, or one stored for the very bytes it digests. */
  ghost predicate Rightly(h: Hashing, runs: seq<Command>, c: Command, answer: Payload) {
    || ScanOf(c, answer)
    || (Kept(c) && Suits(answer, c.llm, c.retryBudget)
        && exists r, bytes :: r in runs && Digests(c, h, bytes) && Source(h, r, bytes, answer))
  }

  lemma GenuineGrows(h: Hashing, runs: seq<Command>, c: Command, files: map<string, Stored>)
    requires AllGenuine(h, runs, files)
    ensures AllGenuine(h, runs + [c], files)
  {
    forall key | key in files && files[key].Entry? && files[key].version == CACHE_VERSION
      ensures Genuine(h, runs + [c], key, files[key].payload)
    {
      var r, bytes :| r in runs && h.digest(bytes) == key && Source(h, r, bytes, files[key].payload);
      assert r in runs + [c];
    }
  }

  lemma PutGenuine(h: Hashing, runs: seq<Command>, files: map<string, Stored>, key: string, payload: Payload)
    requires AllGenuine(h, runs, files) && Genuine(h, runs, key, payload)
    ensures AllGenuine(h, runs, files[key := Entry(CACHE_VERSION, payload)])
  {
    var after := files[key := Entry(CACHE_VERSION, payload)];
    forall k | k in after && after[k].Entry? && after[k].version == CACHE_VERSION
      ensures Genuine(h, runs, k, after[k].payload)
    {
      if k != key { assert after[k] == files[k]; }
    }
  }

  /** A real scan. */
  method RealScan(c: Command) returns (report: ScanReport, payload: Payload)
    requires Lawful(c.project)
    ensures fresh(report) && report.Valid() && ScanOf(c, payload)
    ensures payload == Payload(report.candidates, report.triaged, report.retried, report.settled, report.views)
  {
    report := Scan(c.project, c.names, c.settings.checker, c.escalations, c.retryBudget, c.llm);
    payload := PayloadOf(report);
  }

  /** The scan, and what of it the cache is given. */
  method Rescan(dir: Directory, h: Hashing, c: Command, ghost runs: seq<Command>, key: string, ghost bytes: string)
    returns (report: ScanReport, ghost answer: Payload)
    requires Lawful(c.project) && c in runs && AllGenuine(h, runs, dir.files)
    requires Kept(c) && Digests(c, h, bytes) && key == h.digest(bytes)
    modifies dir
    ensures fresh(report) && report.Valid() && ScanOf(c, answer) && AllGenuine(h, runs, dir.files)
    ensures answer == Payload(report.candidates, report.triaged, report.retried, report.settled, report.views)
    ensures dir.files == if c.written then old(dir.files)[key := Entry(CACHE_VERSION, answer)] else old(dir.files)
  {
    var payload;
    report, payload := RealScan(c);
    answer := payload;
    assert Source(h, c, bytes, payload);
    PutGenuine(h, runs, dir.files, key, payload);
    dir.Put(key, payload, c.written);
  }

  /** An entry of this version under the key of the bytes digested is the answer if it suits; otherwise a scan is, and the
      cache is given that. */
  ghost predicate Answered(h: Hashing, c: Command, files: map<string, Stored>, answer: Payload,
                           files': map<string, Stored>) {
    exists bytes :: Digests(c, h, bytes) && AnsweredFor(c, h.digest(bytes), files, answer, files')
  }

  ghost predicate AnsweredFor(c: Command, key: string, files: map<string, Stored>, answer: Payload,
      files': map<string, Stored>) {
    if key in files && files[key].Entry? && files[key].version == CACHE_VERSION
      && Suits(files[key].payload, c.llm, c.retryBudget)
    then answer == files[key].payload && files' == files
    else ScanOf(c, answer) && files' == if c.written then files[key := Entry(CACHE_VERSION, answer)] else files
  }

  /** `_scan`: the report comes from the cache or from a real scan, which then feeds the cache. */
  method Scanned(dir: Directory, h: Hashing, c: Command, ghost runs: seq<Command>)
    returns (report: ScanReport, ghost answer: Payload)
    requires Exact(h) && Lawful(c.project) && AllGenuine(h, runs, dir.files)
    modifies dir
    ensures fresh(report) && report.Valid()
    ensures answer == Payload(report.candidates, report.triaged, report.retried, report.settled, report.views)
    ensures Rightly(h, runs, c, answer) && AllGenuine(h, runs + [c], dir.files)
    ensures if c.only || c.noCache then ScanOf(c, answer) && dir.files == old(dir.files)
            else Answered(h, c, old(dir.files), answer, dir.files)
  {
    if c.only || c.noCache {
      GenuineGrows(h, runs, c, dir.files);
      var payload;
      report, payload := RealScan(c);
      answer := payload;
    } else {
      report, answer := Keyed(dir, h, c, runs);
    }
  }

  /** Under its key: the entry, or a scan. */
  method Keyed(dir: Directory, h: Hashing, c: Command, ghost runs: seq<Command>)
    returns (report: ScanReport, ghost answer: Payload)
    requires Kept(c) && Lawful(c.project) && AllGenuine(h, runs, dir.files) && Exact(h)
    modifies dir
    ensures fresh(report) && report.Valid()
    ensures answer == Payload(report.candidates, report.triaged, report.retried, report.settled, report.views)
    ensures Rightly(h, runs, c, answer) && AllGenuine(h, runs + [c], dir.files)
    ensures Answered(h, c, old(dir.files), answer, dir.files)
  {
    ghost var files := dir.files;
    GenuineGrows(h, runs, c, files);
    var key, bytes := KeyOf(c, h);
    var cached := dir.Get(key);
    if cached.Some? { ServesIff(cached.value, c.llm, c.retryBudget); }
    if cached.Some? && Serves(cached.value, c.llm, c.retryBudget) {
      ServedRightly(h, runs, c, files, key, bytes);
      report := ReportFromCache(cached.value);
      answer := cached.value;
    } else {
      report, answer := Rescan(dir, h, c, runs + [c], key, bytes);
    }
    assert AnsweredFor(c, key, files, answer, dir.files);
  }

  lemma ServedRightly(h: Hashing, runs: seq<Command>, c: Command, files: map<string, Stored>, key: string, bytes: string)
    requires AllGenuine(h, runs, files) && Exact(h) && Kept(c) && Digests(c, h, bytes) && key == h.digest(bytes)
    requires key in files && files[key].Entry? && files[key].version == CACHE_VERSION
    requires Suits(files[key].payload, c.llm, c.retryBudget)
    ensures Rightly(h, runs, c, files[key].payload)
  {
    assert Genuine(h, runs, key, files[key].payload);
  }

  lemma OneMoreRun(past: seq<Command>, commands: seq<Command>, k: nat)
    requires k < |commands|
    ensures past + commands[..k] + [commands[k]] == past + commands[..k + 1]
  {
    assert commands[..k + 1] == commands[..k] + [commands[k]];
  }

  /** The `i`-th run's answer, given the runs before it. */
  ghost predicate AnsweredAt(h: Hashing, past: seq<Command>, commands: seq<Command>, answers: seq<Payload>, i: nat)
    requires i < |answers| <= |commands|
  {
    Rightly(h, past + commands[..i], commands[i], answers[i])
  }

  /** Runs one after the other, the files edited in between at will. */
  method Session(dir: Directory, h: Hashing, ghost past: seq<Command>, commands: seq<Command>)
    returns (answers: seq<Payload>)
    requires Exact(h) && AllGenuine(h, past, dir.files) && forall c <- commands :: Lawful(c.project)
    modifies dir
    ensures |answers| == |commands|
    ensures forall k {:trigger AnsweredAt(h, past, commands, answers, k)} ::
              0 <= k < |commands| ==> AnsweredAt(h, past, commands, answers, k)
    ensures AllGenuine(h, past + commands, dir.files)
  {
    answers := [];
    assert past + commands[..0] == past;
    for k := 0 to |commands|
      invariant |answers| == k && AllGenuine(h, past + commands[..k], dir.files)
      invariant forall i {:trigger AnsweredAt(h, past, commands, answers, i)} ::
                  0 <= i < k ==> AnsweredAt(h, past, commands, answers, i)
    {
      var report, _ := Scanned(dir, h, commands[k], past + commands[..k]);
      var answer := PayloadOf(report);
      OneMoreAnswer(h, past, commands, answers, answer);
      answers := answers + [answer];
      OneMoreRun(past, commands, k);
    }
    assert commands[..|commands|] == commands;
  }

  lemma OneMoreAnswer(h: Hashing, past: seq<Command>, commands: seq<Command>, answers: seq<Payload>, answer: Payload)
    requires |answers| < |commands|
    requires forall i {:trigger AnsweredAt(h, past, commands, answers, i)} ::
               0 <= i < |answers| ==> AnsweredAt(h, past, commands, answers, i)
    requires Rightly(h, past + commands[..|answers|], commands[|answers|], answer)
    ensures forall i {:trigger AnsweredAt(h, past, commands, answers + [answer], i)} ::
              0 <= i <= |answers| ==> AnsweredAt(h, past, commands, answers + [answer], i)
  {
    forall i | 0 <= i <= |answers| ensures AnsweredAt(h, past, commands, answers + [answer], i) {
      assert i < |answers| ==> AnsweredAt(h, past, commands, answers, i);
    }
  }

  // ------------------------------------------------------------ what a served report is about

  /** Everything this run may digest is plain text. */
  ghost predicate PlainInputs(c: Command, h: Hashing) {
    forall extra :: Extra(c, extra) ==> CacheKey.Plain(InputsOf(c, h, extra))
  }

  /** The key follows every header the checker is led to, and each can be read. */
  ghost predicate Followed(c: Command) {
    && Shallow(c.tree, Units(c), c.settings.dirs)
    && forall u <- Units(c), h <- Headers(c.tree, u, c.settings.dirs) :: c.tree.files[h].Some?
  }

  /** What the checker compiles is the same in both runs: every unit, and every header it is led to from there. */
  ghost predicate SameCode(r: Command, c: Command) {
    && Units(r) == Units(c)
    && forall u <- Units(c) ::
         && Headers(r.tree, u, c.settings.dirs) == Headers(c.tree, u, c.settings.dirs)
         && forall h <- Headers(c.tree, u, c.settings.dirs) :: r.tree.files[h] == c.tree.files[h]
  }

  lemma {:induction false} PartsHold(t: Tree, units: seq<Unit>, source: Path, dirs: seq<Path>, k: nat)
    requires k < |units|
    ensures Parts(t, units[k], source, dirs) <= AllParts(t, units, source, dirs)
  {
    if k < |units| - 1 { PartsHold(t, units[..|units| - 1], source, dirs, k); }
  }

  /** What is among the parts is a file of the tree, and can be read. */
  lemma {:induction false} PartsReadable(t: Tree, units: seq<Unit>, source: Path, dirs: seq<Path>)
    requires forall u <- units :: u == UnitAt(t, u.path)
    ensures forall p <- AllParts(t, units, source, dirs) :: p in t.files && t.files[p].Some?
  {
    if units != [] {
      var n := |units| - 1;
      assert forall u <- units[..n] :: u in units;
      PartsReadable(t, units[..n], source, dirs);
      assert units[n] in units;
    }
  }

  lemma SameExtras(h: Hashing, t: Tree, t': Tree, e: set<Path>, e': set<Path>)
    requires Exact(h) && FilesAt(t, h.sorted(e)) == FilesAt(t', h.sorted(e'))
    ensures e == e' && forall p <- e :: FileAt(t, p) == FileAt(t', p)
  {
    var s, s' := h.sorted(e), h.sorted(e');
    forall k | 0 <= k < |s| ensures s[k] == s'[k] && FileAt(t, s[k]) == FileAt(t', s[k]) {
      assert FilesAt(t, s)[k] == FilesAt(t', s')[k];
    }
    assert s == s';
    assert e == (set p <- s) && e' == (set p <- s');
  }

  /** Equal bytes, plainly read, are equal inputs of equal files. */
  lemma SameBytes(h: Hashing, r: Command, c: Command, bytes: string) returns (extra: set<Path>)
    requires Exact(h) && PlainInputs(r, h) && PlainInputs(c, h) && Digests(r, h, bytes) && Digests(c, h, bytes)
    ensures Extra(r, extra) && Extra(c, extra)
    ensures r.version == c.version && r.checker == c.checker && r.settings == c.settings && r.options == c.options
    ensures FileAt(r.tree, r.source) == FileAt(c.tree, c.source)
    ensures forall p <- extra :: FileAt(r.tree, p) == FileAt(c.tree, p)
  {
    extra :| Extra(r, extra) && bytes == Stream(InputsOf(r, h, extra));
    var other :| Extra(c, other) && bytes == Stream(InputsOf(c, h, other));
    StreamIff(InputsOf(r, h, extra), InputsOf(c, h, other));
    SameExtras(h, r.tree, c.tree, extra, other);
  }

  lemma UnitsHold(c: Command)
    ensures forall k :: 0 <= k < |c.settings.units| ==> Units(c)[k + 1] == UnitAt(c.tree, c.settings.units[k])
    ensures forall u <- Units(c) :: u == UnitAt(c.tree, u.path)
  {
  }

  /** A file that is a part where it can be read is the same in both. */
  lemma SamePart(t: Tree, t': Tree, p: Path, extra: set<Path>)
    requires SameFiles(t, t', extra) && (UnitAt(t, p).text.Some? || UnitAt(t', p).text.Some? ==> p in extra)
    ensures UnitAt(t, p) == UnitAt(t', p)
  {
  }

  lemma OwnPart(t: Tree, u: Unit, source: Path, dirs: seq<Path>)
    requires u.text.Some? && u.path != source
    ensures u.path in Parts(t, u, source, dirs)
  {
  }

  lemma UnitIsPart(c: Command, extra: set<Path>, k: nat)
    requires k < |c.settings.units| && extra == AllParts(c.tree, Units(c), c.source, c.settings.dirs)
    requires c.settings.units[k] != c.source
    ensures UnitAt(c.tree, c.settings.units[k]).text.Some? ==> c.settings.units[k] in extra
  {
    PartsHold(c.tree, Units(c), c.source, c.settings.dirs, k + 1);
    var u := UnitAt(c.tree, c.settings.units[k]);
    assert Units(c)[k + 1] == u;
    if u.text.Some? { OwnPart(c.tree, u, c.source, c.settings.dirs); }
  }

  lemma SameUnitAt(r: Command, c: Command, extra: set<Path>, k: nat)
    requires r.settings == c.settings && r.source == c.source && k < |c.settings.units| && c.settings.units[k] != c.source
    requires extra == AllParts(r.tree, Units(r), r.source, r.settings.dirs)
    requires extra == AllParts(c.tree, Units(c), c.source, c.settings.dirs)
    requires SameFiles(r.tree, c.tree, extra)
    ensures UnitAt(r.tree, c.settings.units[k]) == UnitAt(c.tree, c.settings.units[k])
  {
    UnitIsPart(r, extra, k);
    UnitIsPart(c, extra, k);
    SamePart(r.tree, c.tree, c.settings.units[k], extra);
  }

  lemma SameUnits(r: Command, c: Command, extra: set<Path>)
    requires r.settings == c.settings && r.source == c.source
    requires extra == AllParts(r.tree, Units(r), r.source, r.settings.dirs)
    requires extra == AllParts(c.tree, Units(c), c.source, c.settings.dirs)
    requires SameFiles(r.tree, c.tree, extra) && FileAt(r.tree, r.source) == FileAt(c.tree, c.source)
    ensures Units(r) == Units(c)
  {
    forall k | 0 <= k < |c.settings.units|
      ensures UnitAt(r.tree, c.settings.units[k]) == UnitAt(c.tree, c.settings.units[k])
    {
      if c.settings.units[k] != c.source { SameUnitAt(r, c, extra, k); }
    }
  }

  lemma ExtraIsCompiled(c: Command, extra: set<Path>)
    requires Extra(c, extra)
    ensures extra <= AllParts(c.tree, Units(c), c.source, c.settings.dirs)
    ensures Shallow(c.tree, Units(c), c.settings.dirs) ==> extra == AllParts(c.tree, Units(c), c.source, c.settings.dirs)
  {
    CoveredIsCompiled(c.tree, Units(c), c.source, c.settings.dirs);
  }

  lemma HeadersHeld(c: Command, extra: set<Path>, k: nat)
    requires k < |Units(c)| && Followed(c) && Extra(c, extra)
    ensures Headers(c.tree, Units(c)[k], c.settings.dirs) <= extra
  {
    PartsHold(c.tree, Units(c), c.source, c.settings.dirs, k);
    ExtraIsCompiled(c, extra);
    assert Units(c)[k] in Units(c);
  }

  /** Runs on one source that digest the same bytes compile the same code. */
  lemma SameKeySameCode(h: Hashing, r: Command, c: Command, bytes: string)
    requires Exact(h) && PlainInputs(r, h) && PlainInputs(c, h) && Digests(r, h, bytes) && Digests(c, h, bytes)
    requires r.source == c.source && SameRules(r.tree, c.tree) && Followed(r) && Followed(c)
    ensures SameCode(r, c)
  {
    var extra := SameBytes(h, r, c, bytes);
    ExtraIsCompiled(r, extra);
    ExtraIsCompiled(c, extra);
    UnitsHold(r);
    UnitsHold(c);
    PartsReadable(r.tree, Units(r), r.source, r.settings.dirs);
    PartsReadable(c.tree, Units(c), c.source, c.settings.dirs);
    assert SameFiles(r.tree, c.tree, extra);
    SameUnits(r, c, extra);
    forall u | u in Units(c)
      ensures Headers(r.tree, u, c.settings.dirs) == Headers(c.tree, u, c.settings.dirs) <= extra
    {
      var k :| 0 <= k < |Units(c)| && Units(c)[k] == u;
      HeadersHeld(r, extra, k);
      HeadersHeld(c, extra, k);
      HeadersAlike(r.tree, c.tree, u, c.settings.dirs, extra);
    }
  }

  /** An answer from the cache is the report of an earlier real scan of the whole file, every claim in it holding of
      that scan, asked of the same checker with the same settings, and good for the question asked now; and if the
      source is where it was, of the same code. A run that names functions, or wants no cache, always scans. */
  lemma ServedMeans(h: Hashing, runs: seq<Command>, c: Command, answer: Payload) returns (r: Command)
    requires Exact(h) && Rightly(h, runs, c, answer) && !ScanOf(c, answer)
    requires PlainInputs(c, h) && forall r <- runs :: PlainInputs(r, h)
    ensures r in runs && !r.only && !r.noCache && !c.only && !c.noCache
    ensures ScanOf(r, answer) && Suits(answer, c.llm, c.retryBudget)
    ensures r.version == c.version && r.checker == c.checker && r.settings == c.settings && r.options == c.options
    ensures FileAt(r.tree, r.source) == FileAt(c.tree, c.source)
    ensures r.source == c.source && SameRules(r.tree, c.tree) && Followed(r) && Followed(c) ==> SameCode(r, c)
  {
    var bytes;
    r, bytes :| r in runs && Digests(c, h, bytes) && Source(h, r, bytes, answer);
    var _ := SameBytes(h, r, c, bytes);
    if r.source == c.source && SameRules(r.tree, c.tree) && Followed(r) && Followed(c) { SameKeySameCode(h, r, c, bytes); }
  }

  /** A PROVED that is served is supported by what the scan that was stored ran. */
  lemma ServedProof(h: Hashing, runs: seq<Command>, c: Command, answer: Payload, k: nat) returns (r: Command)
    requires Exact(h) && Rightly(h, runs, c, answer) && PlainInputs(c, h) && forall r <- runs :: PlainInputs(r, h)
    requires k < |answer.results| && answer.results[k].verdict == Checked(AgentLoop.Outcome.Verified)
    ensures r in runs + [c] && r.settings == c.settings && r.checker == c.checker
    ensures Supported(r.project, c.settings.checker, answer.results[k].name, [])
  {
    r := c;
    if !ScanOf(c, answer) { r := ServedMeans(h, runs, c, answer); }
    ProvedMeans(r.project, r.settings.checker, answer.results, k);
  }

  // ------------------------------------------------------------ headers the key misses

  /** The run once the file `x` holds something else. */
  function Edited(c: Command, x: Path, body: Text): Command { c.(tree := c.tree.(files := c.tree.files[x := Some(body)])) }

  /** A header that no walk sees can change and the key stay: `CacheKey.HeaderNotCovered` shows one that is compiled. */
  lemma UnseenSharesAKey(h: Hashing, c: Command, x: Path, body: Text, bytes: string)
    requires x in c.tree.files && c.tree.files[x].Some? && x != c.source && x !in c.settings.units
    requires forall u <- Units(c) ::
      u.text.Some? ==> x !in Seen(c.tree, u.path, u.text.value, c.settings.dirs, CacheKey.KEY_INCLUDE_DEPTH)
    requires Digests(c, h, bytes) && Exact(h)
    ensures Digests(Edited(c, x, body), h, bytes)
  {
    var d, extra := Edited(c, x, body), Covered(c.tree, Units(c), c.source, c.settings.dirs);
    SameUnitsEdited(c, x, body);
    CoveredIgnores(c.tree, d.tree, Units(c), c.source, c.settings.dirs, x);
    UnseenUncovered(c.tree, Units(c), c.source, c.settings.dirs, x);
    SameInputsEdited(h, c, x, body, extra);
  }

  lemma SameUnitsEdited(c: Command, x: Path, body: Text)
    requires x in c.tree.files && x != c.source && x !in c.settings.units
    ensures Units(Edited(c, x, body)) == Units(c) && forall u <- Units(c) :: u.path != x
  {
  }

  lemma SameInputsEdited(h: Hashing, c: Command, x: Path, body: Text, extra: set<Path>)
    requires x in c.tree.files && x != c.source && x !in extra && Exact(h)
    ensures InputsOf(Edited(c, x, body), h, extra) == InputsOf(c, h, extra)
  {
    var d, s := Edited(c, x, body), h.sorted(extra);
    forall k | 0 <= k < |s| ensures FilesAt(d.tree, s)[k] == FilesAt(c.tree, s)[k] {
      assert s[k] in (set p <- s) && (set p <- s) == extra;
    }
  }

  lemma {:induction false} UnseenUncovered(t: Tree, units: seq<Unit>, source: Path, dirs: seq<Path>, x: Path)
    requires forall u <- units :: u.path != x
    requires forall u <- units :: u.text.Some? ==> x !in Seen(t, u.path, u.text.value, dirs, CacheKey.KEY_INCLUDE_DEPTH)
    ensures x !in Covered(t, units, source, dirs)
  {
    if units != [] {
      assert units[|units| - 1] in units && forall v <- units[..|units| - 1] :: v in units;
      UnseenUncovered(t, units[..|units| - 1], source, dirs, x);
    }
  }

  // ------------------------------------------------------------ twins

  lemma {:induction false} OnlyHeader(t: Tree, search: seq<Path>, current: Path, body: Text, h: Path, x: Path, n: nat)
    requires forall y :: Includes(t, search, current, body, y) ==> y == h
    requires h in t.files && (t.files[h].Some? ==> t.names(t.files[h].value) == [])
    requires ReachedIn(t, search, current, body, x, n)
    ensures x == h
    decreases n
  {
    if !Includes(t, search, current, body, x) {
      var g :| ReachedIn(t, search, current, body, g, n - 1) && Edge(t, search, g, x);
      OnlyHeader(t, search, current, body, h, g, n - 1);
    }
  }

  /** A unit that includes one name, found at a header that includes none. */
  lemma OneHeader(t: Tree, u: Unit, dirs: seq<Path>, name: Name, h: Path)
    requires u.text.Some? && t.names(u.text.value) == [name] && Resolve(t, Search(t, u, dirs), u.path, name) == Some(h)
    requires h in t.files && t.files[h].Some? && t.names(t.files[h].value) == []
    ensures Headers(t, u, dirs) == {h}
  {
    var search, body := Search(t, u, dirs), u.text.value;
    assert Includes(t, search, u.path, body, h) by { assert name in t.names(body); }
    assert ReachedIn(t, search, u.path, body, h, 1);
    forall x | x in Headers(t, u, dirs) ensures x == h {
      var n: nat :| ReachedIn(t, search, u.path, body, x, n);
      OnlyHeader(t, search, u.path, body, h, x, n);
    }
  }

  lemma PartsOf(t: Tree, u: Unit, source: Path, dirs: seq<Path>, h: Path)
    requires u.text.Some? && Headers(t, u, dirs) == {h} && h in t.files && t.files[h].Some?
    ensures Parts(t, u, source, dirs) == if u.path != source then {u.path, h} else {h}
  {
  }

  lemma ThreeUnits(t: Tree, x: Unit, y: Unit, z: Unit, source: Path, dirs: seq<Path>)
    ensures AllParts(t, [x, y, z], source, dirs)
         == Parts(t, x, source, dirs) + Parts(t, y, source, dirs) + Parts(t, z, source, dirs)
  {
    assert [x, y, z][..2] == [x, y] && [x, y][..1] == [x] && [x][..0] == [];
    assert AllParts(t, [], source, dirs) == {} && AllParts(t, [x], source, dirs) == Parts(t, x, source, dirs);
    assert AllParts(t, [x, y], source, dirs) == Parts(t, x, source, dirs) + Parts(t, y, source, dirs);
  }

  /** The unit at `u` can be read, and includes one header, which includes none. */
  ghost predicate Includer(t: Tree, u: Path, dirs: seq<Path>, name: Name, h: Path) {
    && UnitAt(t, u).text.Some? && t.names(UnitAt(t, u).text.value) == [name]
    && Resolve(t, [t.parent(u)] + dirs, u, name) == Some(h)
    && t.files[h].Some? && t.names(t.files[h].value) == []
  }

  /** Two sources with one text that includes a name, found in one header from `a` and in another from `b`; each of the
      headers also belongs to a linked unit of its own. */
  datatype Twins = Twins(a: Path, b: Path, y: Path, z: Path, ha: Path, hb: Path, name: Name)

  ghost predicate AreTwins(t: Tree, dirs: seq<Path>, w: Twins) {
    && Includer(t, w.a, dirs, w.name, w.ha) && Includer(t, w.b, dirs, w.name, w.hb)
    && Includer(t, w.y, dirs, w.name, w.ha) && Includer(t, w.z, dirs, w.name, w.hb)
    && UnitAt(t, w.a).text == UnitAt(t, w.b).text && t.files[w.ha] != t.files[w.hb]
    && w.y !in {w.a, w.b} && w.z !in {w.a, w.b}
  }

  lemma IncluderParts(t: Tree, u: Path, source: Path, dirs: seq<Path>, name: Name, h: Path)
    requires Includer(t, u, dirs, name, h)
    ensures Headers(t, UnitAt(t, u), dirs) == {h}
    ensures Parts(t, UnitAt(t, u), source, dirs) == if u != source then {u, h} else {h}
  {
    OneHeader(t, UnitAt(t, u), dirs, name, h);
    PartsOf(t, UnitAt(t, u), source, dirs, h);
  }

  /** Three units that include one header each: the first is the source. */
  lemma ThreeIncluders(t: Tree, dirs: seq<Path>, w: Twins, source: Path, h: Path)
    requires AreTwins(t, dirs, w) && source in {w.a, w.b} && Includer(t, source, dirs, w.name, h) && h in {w.ha, w.hb}
    ensures var x, y, z := UnitAt(t, source), UnitAt(t, w.y), UnitAt(t, w.z);
      && AllParts(t, [x, y, z], source, dirs) == {w.y, w.z, w.ha, w.hb}
      && Headers(t, x, dirs) == {h} && Headers(t, y, dirs) == {w.ha} && Headers(t, z, dirs) == {w.hb}
  {
    IncluderParts(t, source, source, dirs, w.name, h);
    IncluderParts(t, w.y, source, dirs, w.name, w.ha);
    IncluderParts(t, w.z, source, dirs, w.name, w.hb);
    ThreeUnits(t, UnitAt(t, source), UnitAt(t, w.y), UnitAt(t, w.z), source, dirs);
  }

  lemma ThreeFollowed(c: Command, x: Unit, y: Unit, z: Unit, hx: Path, hy: Path, hz: Path)
    requires Units(c) == [x, y, z]
    requires Headers(c.tree, x, c.settings.dirs) == {hx} && Headers(c.tree, y, c.settings.dirs) == {hy}
    requires Headers(c.tree, z, c.settings.dirs) == {hz}
    requires forall h <- {hx, hy, hz} :: h in c.tree.files && c.tree.files[h].Some?
    ensures Followed(c)
  {
    forall u | u in Units(c) ensures u == x || u == y || u == z {}
  }

  /** One of the twins, with the two units linked. */
  lemma TwinExtra(c: Command, w: Twins, h: Path)
    requires AreTwins(c.tree, c.settings.dirs, w) && c.settings.units == [w.y, w.z] && c.source in {w.a, w.b}
    requires Includer(c.tree, c.source, c.settings.dirs, w.name, h) && h in {w.ha, w.hb}
    ensures Followed(c) && Extra(c, {w.y, w.z, w.ha, w.hb}) &&
      Headers(c.tree, UnitAt(c.tree, c.source), c.settings.dirs) == {h}
  {
    var t := c.tree;
    assert Units(c) == [UnitAt(t, c.source), UnitAt(t, w.y), UnitAt(t, w.z)];
    ThreeIncluders(t, c.settings.dirs, w, c.source, h);
    ThreeFollowed(c, UnitAt(t, c.source), UnitAt(t, w.y), UnitAt(t, w.z), h, w.ha, w.hb);
    CoveredIsCompiled(t, Units(c), c.source, c.settings.dirs);
  }

  /** Where the source is, is no part of the key: twins digest the same bytes and are compiled with different headers,
      so either is answered with the other's report. */
  lemma TwinsShareAKey(h: Hashing, c: Command, w: Twins) returns (bytes: string)
    requires AreTwins(c.tree, c.settings.dirs, w) && c.settings.units == [w.y, w.z] && c.source == w.a
    ensures Digests(c, h, bytes) && Digests(c.(source := w.b), h, bytes) && Followed(c) && Followed(c.(source := w.b))
    ensures Headers(c.tree, UnitAt(c.tree, w.a), c.settings.dirs) == {w.ha}
    ensures Headers(c.tree, UnitAt(c.tree, w.b), c.settings.dirs) == {w.hb}
    ensures c.tree.files[w.ha] != c.tree.files[w.hb]
  {
    var d, extra := c.(source := w.b), {w.y, w.z, w.ha, w.hb};
    TwinExtra(c, w, w.ha);
    TwinExtra(d, w, w.hb);
    bytes := Stream(InputsOf(c, h, extra));
    assert FileAt(c.tree, w.a) == FileAt(c.tree, w.b);
    assert bytes == Stream(InputsOf(d, h, extra));
  }

  lemma LookupFirst(t: Tree, dirs: seq<Path>, name: Name)
    requires dirs != [] && t.join(dirs[0], name) in t.files
    ensures Lookup(t, dirs, name) == Some(t.join(dirs[0], name))
  {
  }

  lemma LookupNext(t: Tree, dirs: seq<Path>, name: Name)
    requires dirs != [] && t.join(dirs[0], name) !in t.files
    ensures Lookup(t, dirs, name) == Lookup(t, dirs[1..], name)
  {
  }

  /** There are such twins: paths as single letters, `h` next to `a`, `i` on the include path. */
  lemma TwinsExist() returns (t: Tree, w: Twins)
    ensures AreTwins(t, ["i"], w)
  {
    w := Twins("a", "b", "y", "z", "h", "g", "n");
    t := Tree(
      map["a" := Some("n"), "b" := Some("n"), "y" := Some("n"), "z" := Some("n"), "h" := Some(""), "g" := Some("x")],
      (dir, name) => if dir == "d" then "h" else if dir == "i" then "g" else "-",
      path => if path in {"a", "y"} then "d" else "e",
      text => if text == "n" then ["n"] else []);
    var near, far := ["d"] + (["d"] + ["i"]), ["e"] + (["e"] + ["i"]);
    LookupFirst(t, near, "n");
    assert far[1..][1..] == ["i"];
    LookupNext(t, far, "n");
    LookupNext(t, far[1..], "n");
    LookupFirst(t, ["i"], "n");
  }
}
