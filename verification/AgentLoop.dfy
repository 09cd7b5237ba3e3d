/** `verify_with_agent`: attempt, triage, escalate, under a hard budget, against any checker, model, clock and diff. */
module AgentLoop {
  import opened Wrappers
  import opened Tokens
  import opened Language
  import opened Gate
  import opened GateAccepts
  import opened GateSoundness
  import opened Erasure

  datatype Outcome = Verified | Counterexample | UnwindLimit | ParseError | Timeout | ToolError | Unknown

  /** The checks a run makes (`checks`, opaque) and the strategy it makes them with. */
  datatype Config = Config(
    checks: int, unwind: nat, kInduction: bool, incremental: bool, multiProperty: bool, termination: bool, probe: bool)

  datatype Property = Property(id: int, isProbe: bool)

  /** A file is its lines; two paths with the same text are the same file here. */
  type File = seq<Line>
  type Precondition = string

  datatype VerifyResult = VerifyResult(outcome: Outcome, config: Config, properties: seq<Property>, file: File)

  datatype Answer = Answer(outcome: Outcome, properties: seq<Property>)
  datatype Kind = RealBug | HarnessIssue | MissingAssumption
  datatype Diagnosis = Diagnosis(kind: Kind, proposed: Option<Precondition>)
  datatype Harness = Harness(file: File, assumptions: seq<string>)

  /** Everything outside the loop. The n-th checker run and the n-th model call may answer anything;
      None is an exception raised there. */
  datatype World = World(
    run: (nat, File, Config) -> Option<Answer>,
    late: nat -> bool,
    classify: nat -> Option<Kind>,
    explains: nat -> bool,
    proposePrecondition: nat -> Option<Option<Precondition>>,
    proposeInvariants: (nat, File) -> Option<Option<File>>,
    proposeFix: (nat, File) -> Option<Option<File>>,
    hasParameters: bool,
    artifact: (Property, File) -> bool,
    generate: seq<Precondition> -> Option<Harness>,
    hasTarget: bool,
    mightLoop: bool,
    readable: File -> bool,
    hasMarker: File -> bool,
    probeVariant: File -> Option<File>,
    diff: (File, File) -> seq<Opcode>)

  /** All that is asked of the world: the diff is an edit script. */
  ghost predicate DiffsAreScripts(w: World) {
    forall b, a :: ValidScript(w.diff(b, a), b, a, 0, 0)
  }

  /** There is no model: `NullLLM` calls everything a real bug and proposes nothing. */
  ghost predicate Silent(w: World) {
    && (forall n :: w.classify(n) == Some(RealBug) && w.proposePrecondition(n) == Some(None))
    && forall n, f :: w.proposeInvariants(n, f) == Some(None) && w.proposeFix(n, f) == Some(None)
  }

  datatype Budget = Budget(maxAttempts: nat, maxPreconditionRounds: nat)

  datatype Reachability = Reachable | Vacuous | Unconfirmed

  datatype AgentReport = AgentReport(
    final: VerifyResult,
    attempts: seq<VerifyResult>,
    assumptions: seq<string>,
    harness: Option<File>,
    llmInvariants: seq<Line>,
    acceptedPreconditions: seq<Precondition>,
    reachability: Option<Reachability>,
    terminates: Option<bool>)
  {
    predicate IsVacuous() { reachability == Some(Vacuous) }
    predicate IsUnconfirmed() {
      final.outcome == Outcome.Verified && reachability != Some(Reachable) && !IsVacuous()
    }
    predicate IsVerified() { final.outcome == Outcome.Verified && reachability == Some(Reachable) }
  }

  // --------------------------------------------------------------- evidence

  /** `mechanical_artifact`: decided on the first property. */
  predicate MechanicalArtifact(w: World, r: VerifyResult, f: File) {
    r.properties != [] && w.artifact(r.properties[0], f)
  }

  /** `real_failures`: the properties not explained by the harness, in their order. */
  function RealFailures(w: World, ps: seq<Property>, f: File): (r: seq<Property>)
    ensures forall p :: p in r <==> p in ps && !w.artifact(p, f)
    ensures r == [] || FirstReal(w, ps, f, r[0])
  {
    if ps == [] then []
    else
      var rest := RealFailures(w, ps[1..], f);
      assert forall p :: FirstReal(w, ps[1..], f, p) && w.artifact(ps[0], f) ==> FirstReal(w, ps, f, p) by {
        forall p | FirstReal(w, ps[1..], f, p) && w.artifact(ps[0], f) ensures FirstReal(w, ps, f, p) {
          OneMoreArtifact(w, ps, f, p);
        }
      }
      (if w.artifact(ps[0], f) then [] else [ps[0]]) + rest
  }

  /** The first of the properties that is no artifact. */
  ghost predicate FirstReal(w: World, ps: seq<Property>, f: File, p: Property) {
    exists k :: 0 <= k < |ps| && ps[k] == p && !w.artifact(p, f) && forall i :: 0 <= i < k ==> w.artifact(ps[i], f)
  }

  lemma OneMoreArtifact(w: World, ps: seq<Property>, f: File, p: Property)
    requires ps != [] && FirstReal(w, ps[1..], f, p) && w.artifact(ps[0], f)
    ensures FirstReal(w, ps, f, p)
  {
    var k :| 0 <= k < |ps[1..]| && ps[1..][k] == p && forall i :: 0 <= i < k ==> w.artifact(ps[1..][i], f);
    assert ps[k + 1] == p && forall i :: 1 <= i < k + 1 ==> ps[i] == ps[1..][i - 1];
  }

  /** The file the probe is run on. */
  function ProbeTarget(w: World, f: File): Option<File> {
    if !w.readable(f) then None else if w.hasMarker(f) then Some(f) else w.probeVariant(f)
  }

  predicate Reached(ps: seq<Property>) {
    exists p <- ps :: p.isProbe
  }

  /** What `probe_reachability` asks when `f` was verified under `c`; `every` is that it asks about every property. */
  function ProbeConfig(c: Config, every: bool): Config {
    c.(probe := true, multiProperty := c.multiProperty || every)
  }

  /** The first probe run failed, but not the probe's own assertion. */
  predicate FailsElsewhere(a: Answer) { a.outcome == Counterexample && forall p <- a.properties :: !p.isProbe }

  /** The last probe run of `f`, verified under `c`, when `runs` have been made; and how many there are then. */
  function LastProbe(w: World, f: File, c: Config, runs: nat): (Option<Answer>, nat) {
    var target := if w.hasMarker(f) then Some(f) else w.probeVariant(f);
    if !w.readable(f) || target == None then (None, runs)
    else
      var first := w.run(runs, target.value, c.(probe := true));
      if first.Some? && FailsElsewhere(first.value)
      then (w.run(runs + 1, target.value, c.(probe := true, multiProperty := true)), runs + 2)
      else (first, runs + 1)
  }

  /** What that run shows: it failed the probe's own assertion, or verified, or neither. */
  ghost predicate ProbeShows(w: World, f: File, c: Config, runs: nat, r: Reachability) {
    var last := LastProbe(w, f, c, runs).0;
    && (r == Reachable <==>
          last.Some? && last.value.outcome == Counterexample && exists p <- last.value.properties :: p.isProbe)
    && (r == Vacuous <==> last.Some? && last.value.outcome == Outcome.Verified)
  }

  // `runs` is how many checker runs have been made; evidence is about those.

  /** Some probe run of `f`, otherwise under `c`, failed the probe's own assertion. */
  ghost predicate ProbeReached(w: World, f: File, c: Config, runs: nat) {
    exists n: nat, every :: n < runs && ProbeTarget(w, f).Some? &&
      var a := w.run(n, ProbeTarget(w, f).value, ProbeConfig(c, every));
      a.Some? && a.value.outcome == Counterexample && Reached(a.value.properties)
  }

  /** Some such run verified: nothing reached its end. */
  ghost predicate ProbeVerified(w: World, f: File, c: Config, runs: nat) {
    exists n: nat, every :: n < runs && ProbeTarget(w, f).Some? &&
      var a := w.run(n, ProbeTarget(w, f).value, ProbeConfig(c, every));
      a.Some? && a.value.outcome == Outcome.Verified
  }

  /** Some run of the file under `c` verified it. */
  ghost predicate RanClean(w: World, f: File, c: Config, runs: nat) {
    exists n: nat :: n < runs && w.run(n, f, c).Some? && w.run(n, f, c).value.outcome == Outcome.Verified
  }

  /** Some run of the file under `c`, asked for every property, failed on the harness's own alone. */
  ghost predicate FailedOnlyArtifacts(w: World, f: File, c: Config, runs: nat) {
    exists n: nat :: n < runs &&
      var a := w.run(n, f, c.(multiProperty := true));
      a.Some? && a.value.outcome == Counterexample && forall p <- a.value.properties :: w.artifact(p, f)
  }

  /** Some run of the file under `c` failed on (at least) the properties reported. */
  ghost predicate RanFailing(w: World, f: File, c: Config, ps: seq<Property>, runs: nat) {
    exists n: nat :: n < runs &&
      var a := w.run(n, f, c);
      a.Some? && a.value.outcome == Counterexample && forall p <- ps :: p in a.value.properties
  }

  /** Nothing but the harness's own failed, and the probe was reached, under one configuration that asks no less
      than was asked for. */
  ghost predicate Evidence(w: World, f: File, base: Config, runs: nat) {
    exists c: Config :: AsksNoLess(c, base)
      && (RanClean(w, f, c, runs) || FailedOnlyArtifacts(w, f, c, runs)) && ProbeReached(w, f, c, runs)
  }

  /** `c` asks at least the question `base` asked: the same checks, at a bound no narrower. */
  predicate AsksNoLess(c: Config, base: Config) {
    && c.checks == base.checks && c.unwind >= base.unwind && (base.multiProperty ==> c.multiProperty)
    && c.termination == base.termination && c.probe == base.probe
  }

  /** An attempt on record: it asked no less than was asked for, and failed only where a run failed. */
  ghost predicate Recorded(w: World, base: Config, a: VerifyResult, runs: nat) {
    && AsksNoLess(a.config, base) && (a.outcome == Counterexample ==> RanFailing(w, a.file, a.config, a.properties, runs))
    && CleanVerdict(w, a)
  }

  /** The checker names no violated property when it says there is none. */
  ghost predicate CleanVerdicts(w: World) {
    forall n, f, c ::
      var a := w.run(n, f, c);
      a.Some? && a.value.outcome == Outcome.Verified ==> a.value.properties == []
  }

  ghost predicate CleanVerdict(w: World, a: VerifyResult) {
    CleanVerdicts(w) && a.outcome == Outcome.Verified ==> a.properties == []
  }

  /** The file a run under `pres` starts from: what the caller gave, or the harness generated under them. */
  function StartFile(w: World, given: File, pres: seq<Precondition>): Option<File> {
    if pres == [] then Some(given)
    else if w.generate(pres).Some? then Some(w.generate(pres).value.file) else None
  }

  /** The k-th file of a chain is a rewrite of the one before that the gate accepted. */
  ghost predicate AcceptedStep(w: World, chain: seq<File>, k: nat)
    requires 0 < k < |chain|
  {
    Accepts(chain[k - 1], chain[k], w.diff(chain[k - 1], chain[k]))
  }

  /** `chain` leads from that file to `f` by proposals the gate accepted. */
  ghost predicate Lineage(w: World, given: File, pres: seq<Precondition>, chain: seq<File>, f: File) {
    && chain != [] && StartFile(w, given, pres) == Some(chain[0]) && chain[|chain| - 1] == f
    && forall k :: 0 < k < |chain| ==> AcceptedStep(w, chain, k)
  }

  /** Under accepted preconditions, the assumptions are the ones the generator listed for exactly them. */
  ghost predicate FromGenerator(w: World, pres: seq<Precondition>, assumptions: seq<string>) {
    pres != [] ==> w.generate(pres).Some? && assumptions == w.generate(pres).value.assumptions
  }

  /** What a report that says "verified" is entitled to. */
  ghost predicate Substantiated(w: World, given: File, base: Config, r: AgentReport, runs: nat) {
    && (exists chain :: Lineage(w, given, r.acceptedPreconditions, chain, r.final.file))
    && Evidence(w, r.final.file, base, runs)
    && FromGenerator(w, r.acceptedPreconditions, r.assumptions)
  }

  /** The file comes from the one given, regenerated under some preconditions and rewritten as the gate allows. */
  ghost predicate Traced(w: World, given: File, f: File) {
    exists pres, chain :: Lineage(w, given, pres, chain, f)
  }

  lemma LineageStep(w: World, given: File, pres: seq<Precondition>, chain: seq<File>, f: File, after: File)
    requires Lineage(w, given, pres, chain, f) && Accepts(f, after, w.diff(f, after))
    ensures Lineage(w, given, pres, chain + [after], after)
  {
    var longer := chain + [after];
    forall k | 0 < k < |longer|
      ensures AcceptedStep(w, longer, k)
    {
      if k < |chain| {
        assert AcceptedStep(w, chain, k);
      }
    }
  }

  /** Some checker run could not be made at all. */
  ghost predicate CheckerRaised(w: World, runs: nat) {
    exists n: nat, f, c :: n < runs && w.run(n, f, c) == None
  }

  // ------------------------------------------------------------ the oracles

  /** `run`: one checker run of `f` under `c`. */
  method Run(w: World, f: File, c: Config, runs: nat) returns (r: Option<VerifyResult>)
    ensures r.None? <==> w.run(runs, f, c) == None
    ensures r.Some? ==> r.value == Record(w.run(runs, f, c).value, c, f)
    ensures r.Some? ==> r.value.config == c && r.value.file == f && CleanVerdict(w, r.value)
    ensures r.Some? && r.value.outcome == Outcome.Verified ==> RanClean(w, f, c, runs + 1)
    ensures r.Some? && r.value.outcome == Counterexample ==> RanFailing(w, f, c, r.value.properties, runs + 1)
    ensures r.Some? && r.value.outcome == Counterexample && c.multiProperty && RealFailures(w, r.value.properties, f) == []
      ==> FailedOnlyArtifacts(w, f, c, runs + 1)
  {
    var a := w.run(runs, f, c);
    if a == None { return None; }
    if RealFailures(w, a.value.properties, f) == [] {
      assert forall p <- a.value.properties :: w.artifact(p, f) by {
        assert forall p :: p in RealFailures(w, a.value.properties, f) <==> p in a.value.properties && !w.artifact(p, f);
      }
    }
    assert c.multiProperty ==> c == c.(multiProperty := true);
    return Some(VerifyResult(a.value.outcome, c, a.value.properties, f));
  }

  lemma FewerFailures(w: World, f: File, c: Config, ps: seq<Property>, qs: seq<Property>, runs: nat)
    requires RanFailing(w, f, c, ps, runs) && forall q <- qs :: q in ps
    ensures RanFailing(w, f, c, qs, runs)
  {
  }

  /** The model cannot be had, for one of the calls that are made from the `llm`-th on. */
  predicate ModelFails(w: World, llm: nat) {
    || w.classify(llm) == None || !w.explains(llm + 1)
    || (w.classify(llm) != Some(RealBug) && w.hasParameters && w.proposePrecondition(llm + 2) == None)
  }

  /** The diagnosis of a failure of these properties: an artifact is the harness's issue; otherwise the kind and the
      proposal are the model's, and a real bug where the model fails. */
  ghost predicate Diagnosed(w: World, f: File, ps: seq<Property>, llm: nat, d: Diagnosis) {
    var artifact := ps != [] && w.artifact(ps[0], f);
    && (artifact ==> d == Diagnosis(HarnessIssue, None))
    && (!artifact ==> (d.kind == RealBug <==> ModelFails(w, llm) || w.classify(llm) == Some(RealBug)))
    && (!artifact && d.kind != RealBug ==> w.classify(llm) == Some(d.kind))
    && (!artifact && d.kind != RealBug && w.hasParameters ==> w.proposePrecondition(llm + 2) == Some(d.proposed))
    && (d.kind == RealBug || !w.hasParameters ==> d.proposed == None)
  }

  /** `triage_counterexample`: at most three model calls, none of them for a mechanical artifact. */
  method Triage(w: World, f: File, r: VerifyResult, llm: nat) returns (d: Diagnosis, llm': nat)
    ensures llm <= llm' <= llm + 3 && Diagnosed(w, f, r.properties, llm, d)
    ensures MechanicalArtifact(w, r, f) ==> llm' == llm
    ensures d.proposed.Some? ==> !Silent(w)
  {
    if MechanicalArtifact(w, r, f) { return Diagnosis(HarnessIssue, None), llm; }
    llm' := llm + 1;
    var kind := w.classify(llm);
    if kind == None { return Diagnosis(RealBug, None), llm'; }
    llm' := llm' + 1;
    if !w.explains(llm + 1) { return Diagnosis(RealBug, None), llm'; }
    if kind.value == RealBug || !w.hasParameters { return Diagnosis(kind.value, None), llm'; }
    llm' := llm' + 1;
    var proposed := w.proposePrecondition(llm + 2);
    if proposed == None { return Diagnosis(RealBug, None), llm'; }
    return Diagnosis(kind.value, proposed.value), llm';
  }

  /** `probe_reachability`: can the harness that just verified run at all? */
  method ProbeReachability(w: World, f: File, config: Config, runs: nat) returns (r: Reachability, runs': nat)
    ensures runs' == LastProbe(w, f, config, runs).1 <= runs + 2 && ProbeShows(w, f, config, runs, r)
    ensures r == Reachable ==> ProbeReached(w, f, config, runs')
    ensures r == Vacuous ==> ProbeVerified(w, f, config, runs')
  {
    runs' := runs;
    var target := ProbeTarget(w, f);
    if target == None { return Unconfirmed, runs'; }
    var probeConfig := config.(probe := true);
    assert probeConfig == ProbeConfig(config, false);
    var a := w.run(runs', target.value, probeConfig);
    runs' := runs' + 1;
    if a == None { return Unconfirmed, runs'; }
    if a.value.outcome == Counterexample && !Reached(a.value.properties) {
      probeConfig := probeConfig.(multiProperty := true);
      assert probeConfig == ProbeConfig(config, true);
      a := w.run(runs', target.value, probeConfig);
      runs' := runs' + 1;
      if a == None { return Unconfirmed, runs'; }
    }
    if a.value.outcome == Outcome.Verified { return Vacuous, runs'; }
    if a.value.outcome == Counterexample && Reached(a.value.properties) { return Reachable, runs'; }
    return Unconfirmed, runs';
  }

  /** Some run of the file under `c` that also asked for termination answered so. */
  ghost predicate TerminationAnswered(w: World, f: File, c: Config, yes: bool, runs: nat) {
    exists n: nat :: n < runs &&
      var a := w.run(n, f, c.(termination := true));
      a.Some? && (yes <==> a.value.outcome == Outcome.Verified)
  }

  /** What the run that also asks for termination says; None if it could not be made. */
  predicate TerminationSaid(w: World, f: File, c: Config, runs: nat, r: Option<bool>) {
    var a := w.run(runs, f, c.(termination := true));
    (r.None? <==> a.None?) && (r == Some(true) <==> a.Some? && a.value.outcome == Outcome.Verified)
  }

  /** `_check_termination`. */
  method CheckTermination(w: World, f: File, config: Config, runs: nat) returns (r: Option<bool>)
    ensures r.Some? ==> TerminationAnswered(w, f, config, r.value, runs + 1)
    ensures TerminationSaid(w, f, config, runs, r)
  {
    var a := w.run(runs, f, config.(termination := true));
    return if a == None then None else Some(a.value.outcome == Outcome.Verified);
  }

  /** What one counterexample came to: the result and diagnosis to act on, and the run that looked past an artifact. */
  datatype Round = Round(result: VerifyResult, diagnosis: Diagnosis, extra: seq<VerifyResult>, onlyArtifacts: bool)

  /** What a round says of `f`, after the runs it made. */
  ghost predicate RoundHolds(w: World, f: File, base: Config, r: Round, runs: nat) {
    && r.result.file == f && Recorded(w, base, r.result, runs) && (r.diagnosis.proposed.Some? ==> !Silent(w))
    && (forall a <- r.extra :: a.file == f && Recorded(w, base, a, runs))
    && (if r.onlyArtifacts
        then r.extra != [] && r.result.outcome == Outcome.Verified && r.result.properties == []
             && FailedOnlyArtifacts(w, f, base, runs)
        else r.result.outcome == Counterexample)
  }

  /** A run, as it is recorded. */
  function Record(a: Answer, c: Config, f: File): VerifyResult { VerifyResult(a.outcome, c, a.properties, f) }

  /** What the run for every property makes of a failure taken for the harness's issue: nothing, if it fails at nothing;
      otherwise what it failed on beside artifacts, triaged in its turn, or the proof that is left without them. */
  ghost predicate JudgedAgain(w: World, first: VerifyResult, d: Diagnosis, wider: VerifyResult, r: Round) {
    && r.extra == [wider]
    && if wider.outcome != Counterexample then r.result == first && r.diagnosis == d && !r.onlyArtifacts
       else if forall p <- wider.properties :: w.artifact(p, first.file) then
         r.onlyArtifacts && r.result == wider.(outcome := Outcome.Verified, properties := [])
       else
         && !r.onlyArtifacts && r.result == wider.(properties := r.result.properties)
         && (forall p :: p in r.result.properties <==> p in wider.properties && !w.artifact(p, first.file))
         && r.result.properties != [] && FirstReal(w, wider.properties, first.file, r.result.properties[0])
         && exists llm :: Diagnosed(w, first.file, r.result.properties, llm, r.diagnosis)
  }

  /** What a counterexample comes to: a second look is taken once, at what is taken for the harness's issue. */
  ghost predicate Judged(w: World, first: VerifyResult, looked: bool, runs: nat, llm: nat, r: Round) {
    exists d :: Diagnosed(w, first.file, first.properties, llm, d) &&
      if d.kind != HarnessIssue || looked then r == Round(first, d, [], false)
      else SecondRun(w, first, runs).Some? && JudgedAgain(w, first, d, SecondRun(w, first, runs).value, r)
  }

  /** The run that asks for every property. */
  function SecondRun(w: World, first: VerifyResult, runs: nat): Option<VerifyResult> {
    var every := first.config.(multiProperty := true);
    match w.run(runs, first.file, every)
    case None => None
    case Some(a) => Some(Record(a, every, first.file))
  }

  /** That run was due, and could not be made. */
  ghost predicate NoSecondRun(w: World, first: VerifyResult, looked: bool, runs: nat, llm: nat) {
    && SecondRun(w, first, runs) == None && !looked
    && exists d :: Diagnosed(w, first.file, first.properties, llm, d) && d.kind == HarnessIssue
  }

  /** The triage of one counterexample, with the one second look at every property behind a harness artifact. */
  method TriageRound(w: World, f: File, first: VerifyResult, looked: bool, runs: nat, llm: nat)
    returns (r: Option<Round>, llm': nat)
    requires first.outcome == Counterexample && first.file == f && RanFailing(w, f, first.config, first.properties, runs)
    ensures if r.None? then NoSecondRun(w, first, looked, runs, llm) else Judged(w, first, looked, runs, llm, r.value)
    ensures llm <= llm' <= llm + 3 + (if looked || r.None? || r.value.extra == [] then 0 else 3)
    ensures r.Some? ==> (r.value.extra == [] || (!looked && |r.value.extra| == 1))
    ensures r.Some? ==> RoundHolds(w, f, first.config, r.value, runs + |r.value.extra|)
  {
    var diagnosis;
    diagnosis, llm' := Triage(w, f, first, llm);
    if diagnosis.kind != HarnessIssue || looked { return Some(Round(first, diagnosis, [], false)), llm'; }
    r, llm' := SecondLook(w, f, first, diagnosis, runs, llm');
  }

  /** The run for every property, and what it shows. */
  method SecondLook(w: World, f: File, first: VerifyResult, diagnosis: Diagnosis, runs: nat, llm: nat)
    returns (r: Option<Round>, llm': nat)
    requires first.outcome == Counterexample && first.file == f && RanFailing(w, f, first.config, first.properties, runs)
    requires diagnosis.proposed.Some? ==> !Silent(w)
    ensures r.None? ==> SecondRun(w, first, runs) == None && llm' == llm
    ensures llm <= llm' <= llm + 3
    ensures r.Some? ==> |r.value.extra| == 1 && RoundHolds(w, f, first.config, r.value, runs + 1)
    ensures r.Some? ==>
      SecondRun(w, first, runs).Some? && JudgedAgain(w, first, diagnosis, SecondRun(w, first, runs).value, r.value)
  {
    var answer := LookWider(w, f, first.config, runs);
    if answer == None { return None, llm; }
    var round;
    round, llm' := Consider(w, f, first, diagnosis, answer.value, runs, llm);
    r := Some(round);
  }

  /** What that run shows. */
  method Consider(w: World, f: File, first: VerifyResult, diagnosis: Diagnosis, wider: VerifyResult, ghost runs: nat,
                  llm: nat)
    returns (r: Round, llm': nat)
    requires first.outcome == Counterexample && first.file == f && RanFailing(w, f, first.config, first.properties, runs)
    requires diagnosis.proposed.Some? ==> !Silent(w)
    requires wider.file == f && Recorded(w, first.config, wider, runs + 1)
    requires wider.outcome == Counterexample ==> RanFailing(w, f, wider.config, wider.properties, runs + 1)
    requires wider.outcome == Counterexample && RealFailures(w, wider.properties, f) == []
      ==> FailedOnlyArtifacts(w, f, first.config, runs + 1)
    ensures llm <= llm' <= llm + 3 && r.extra == [wider] && RoundHolds(w, f, first.config, r, runs + 1)
    ensures JudgedAgain(w, first, diagnosis, wider, r)
  {
    if wider.outcome != Counterexample {
      StandsAsItWas(w, f, first, diagnosis, wider, runs);
      r, llm' := Round(first, diagnosis, [wider], false), llm;
    } else {
      var genuine := RealFailures(w, wider.properties, f);
      if genuine == [] {
        NothingElseFailed(w, f, first, diagnosis, wider, runs + 1);
        r, llm' := Round(wider.(outcome := Outcome.Verified, properties := []), diagnosis, [wider], true), llm;
      } else {
        r, llm' := LookAtReal(w, f, first, diagnosis, wider, genuine, runs + 1, llm);
      }
    }
  }

  lemma StandsAsItWas(w: World, f: File, first: VerifyResult, diagnosis: Diagnosis, wider: VerifyResult, runs: nat)
    requires first.outcome == Counterexample && first.file == f && RanFailing(w, f, first.config, first.properties, runs)
    requires wider.outcome != Counterexample && wider.file == f && Recorded(w, first.config, wider, runs + 1)
    requires diagnosis.proposed.Some? ==> !Silent(w)
    ensures var r := Round(first, diagnosis, [wider], false);
      RoundHolds(w, f, first.config, r, runs + 1) && JudgedAgain(w, first, diagnosis, wider, r)
  {
    StillFailing(w, f, first.config, first.properties, runs);
    Looked(w, f, first.config, Round(first, diagnosis, [wider], false), wider, runs + 1);
  }

  lemma NothingElseFailed(w: World, f: File, first: VerifyResult, diagnosis: Diagnosis, wider: VerifyResult, runs: nat)
    requires wider.outcome == Counterexample && wider.file == first.file == f && Recorded(w, first.config, wider, runs)
    requires FailedOnlyArtifacts(w, f, first.config, runs) && RealFailures(w, wider.properties, f) == []
    requires diagnosis.proposed.Some? ==> !Silent(w)
    ensures var r := Round(wider.(outcome := Outcome.Verified, properties := []), diagnosis, [wider], true);
      RoundHolds(w, f, first.config, r, runs) && JudgedAgain(w, first, diagnosis, wider, r)
  {
    var clean := wider.(outcome := Outcome.Verified, properties := []);
    Looked(w, f, first.config, Round(clean, diagnosis, [wider], true), wider, runs);
    forall p | p in wider.properties ensures w.artifact(p, f) {
      assert p in RealFailures(w, wider.properties, f) <==> p in wider.properties && !w.artifact(p, f);
    }
  }

  /** What failed beside artifacts is triaged in its turn. */
  method LookAtReal(w: World, f: File, first: VerifyResult, diagnosis: Diagnosis, wider: VerifyResult,
      genuine: seq<Property>, ghost runs: nat, llm: nat) returns (r: Round, llm': nat)
    requires first.file == f && wider.outcome == Counterexample && wider.file == f
    requires Recorded(w, first.config, wider, runs) && RanFailing(w, f, wider.config, wider.properties, runs)
    requires genuine == RealFailures(w, wider.properties, f) && genuine != []
    ensures llm <= llm' <= llm + 3 && r.extra == [wider] && RoundHolds(w, f, first.config, r, runs)
    ensures JudgedAgain(w, first, diagnosis, wider, r)
  {
    FewerFailures(w, f, wider.config, wider.properties, genuine, runs);
    var result, second := wider.(properties := genuine), diagnosis;
    second, llm' := Triage(w, f, result, llm);
    Looked(w, f, first.config, Round(result, second, [wider], false), wider, runs);
    r := Round(result, second, [wider], false);
  }

  lemma StillFailing(w: World, f: File, c: Config, ps: seq<Property>, runs: nat)
    requires RanFailing(w, f, c, ps, runs)
    ensures RanFailing(w, f, c, ps, runs + 1)
  {
  }

  /** A run of the file for every property. */
  method LookWider(w: World, f: File, c: Config, runs: nat) returns (r: Option<VerifyResult>)
    ensures var a := w.run(runs, f, c.(multiProperty := true));
            if r.None? then a.None? else a.Some? && r.value == Record(a.value, c.(multiProperty := true), f)
    ensures r.Some? ==> r.value.file == f && Recorded(w, c, r.value, runs + 1)
    ensures r.Some? && r.value.outcome == Counterexample ==> RanFailing(w, f, r.value.config, r.value.properties, runs + 1)
    ensures r.Some? && r.value.outcome == Counterexample && RealFailures(w, r.value.properties, f) == []
      ==> FailedOnlyArtifacts(w, f, c, runs + 1)
  {
    r := Run(w, f, c.(multiProperty := true), runs);
    assert c.(multiProperty := true).(multiProperty := true) == c.(multiProperty := true);
  }

  /** A round with one run of its own. */
  lemma Looked(w: World, f: File, base: Config, r: Round, wider: VerifyResult, runs: nat)
    requires r.extra == [wider] && wider.file == f && Recorded(w, base, wider, runs)
    requires r.result.file == f && Recorded(w, base, r.result, runs) && (r.diagnosis.proposed.Some? ==> !Silent(w))
    requires if r.onlyArtifacts
      then r.result.outcome == Outcome.Verified && r.result.properties == [] && FailedOnlyArtifacts(w, f, base, runs)
      else r.result.outcome == Counterexample
    ensures RoundHolds(w, f, base, r, runs)
  {
  }

  /** How a turn that met a counterexample ends. */
  datatype Turn =
    | Raised
    | OnlyArtifacts(wider: VerifyResult)
    | Report(failing: VerifyResult)
    | Regenerate(candidate: seq<Precondition>, harness: Harness)

  /** A precondition was proposed, and a harness can be generated with it. */
  predicate Proposes(w: World, budget: Budget, preconditions: seq<Precondition>, d: Diagnosis) {
    && d.kind != RealBug && d.proposed.Some? && d.proposed.value != "" && w.hasTarget
    && |preconditions| < budget.maxPreconditionRounds && w.generate(preconditions + [d.proposed.value]).Some?
  }

  /** The turn a round leads to. */
  ghost predicate Leads(w: World, budget: Budget, preconditions: seq<Precondition>, r: Round, t: Turn) {
    if r.onlyArtifacts then t == OnlyArtifacts(r.result)
    else if Proposes(w, budget, preconditions, r.diagnosis) then
      var candidate := preconditions + [r.diagnosis.proposed.value];
      t == Regenerate(candidate, w.generate(candidate).value)
    else t == Report(r.result)
  }

  /** What a turn rests on, after the runs it made. */
  ghost predicate TurnHolds(w: World, first: VerifyResult, runs: nat, preconditions: seq<Precondition>, budget: Budget,
      t: Turn, more: seq<VerifyResult>) {
    match t
    case Raised => more == [] && w.run(runs, first.file, first.config.(multiProperty := true)) == None
    case OnlyArtifacts(wider) =>
      more != [] && wider.file == first.file && AsksNoLess(wider.config, first.config) &&
      wider.outcome == Outcome.Verified && wider.properties == [] &&
      FailedOnlyArtifacts(w, first.file, first.config, runs + |more|)
    case Report(failing) =>
      failing.file == first.file && failing.outcome == Counterexample && Recorded(w, first.config, failing, runs + |more|)
    case Regenerate(candidate, harness) =>
      |candidate| == |preconditions| + 1 <= budget.maxPreconditionRounds &&
        w.generate(candidate) == Some(harness) && !Silent(w)
  }

  ghost predicate LedBy(w: World, budget: Budget, preconditions: seq<Precondition>, first: VerifyResult, looked: bool,
      runs: nat, llm: nat, t: Turn, more: seq<VerifyResult>) {
    if t.Raised? then more == [] && NoSecondRun(w, first, looked, runs, llm)
    else exists r :: Judged(w, first, looked, runs, llm, r) && Leads(w, budget, preconditions, r, t) && more == r.extra
  }

  /** The counterexample branch: triage, then a harness regenerated under one more precondition, or a report. */
  method CounterexampleTurn(w: World, first: VerifyResult, looked: bool, runs: nat, llm: nat,
      preconditions: seq<Precondition>, budget: Budget) returns (t: Turn, more: seq<VerifyResult>, llm': nat)
    requires first.outcome == Counterexample && RanFailing(w, first.file, first.config, first.properties, runs)
    ensures LedBy(w, budget, preconditions, first, looked, runs, llm, t, more)
    ensures more == [] || (!looked && |more| == 1)
    ensures forall a <- more :: a.file == first.file && Recorded(w, first.config, a, runs + |more|)
    ensures llm <= llm' <= llm + 3 + (if more == [] then 0 else 3)
    ensures TurnHolds(w, first, runs, preconditions, budget, t, more)
  {
    var round;
    round, llm' := TriageRound(w, first.file, first, looked, runs, llm);
    if round == None { return Raised, [], llm'; }
    var Round(result, diagnosis, extra, onlyArtifacts) := round.value;
    if onlyArtifacts { return OnlyArtifacts(result), extra, llm'; }
    if diagnosis.kind != RealBug && diagnosis.proposed.Some? && diagnosis.proposed.value != ""
      && w.hasTarget && |preconditions| < budget.maxPreconditionRounds {
      var candidate := preconditions + [diagnosis.proposed.value];
      var regenerated := w.generate(candidate);
      if regenerated != None { return Regenerate(candidate, regenerated.value), extra, llm'; }
    }
    return Report(result), extra, llm';
  }

  /** `propose_invariants` and the gate: a rewrite of the file to verify next, or None. */
  method ProposedRewrite(w: World, ghost given: File, ghost pres: seq<Precondition>, ghost chain: seq<File>,
      source: File, llm: nat) returns (r: Option<File>)
    requires DiffsAreScripts(w) && Lineage(w, given, pres, chain, source)
    ensures r.Some? ==> Lineage(w, given, pres, chain + [r.value], r.value) && !Silent(w)
    ensures forall after :: r == Some(after) <==>
              w.proposeInvariants(llm, source) == Some(Some(after)) && w.readable(source) && w.readable(after)
              && Accepts(source, after, w.diff(source, after))
  {
    var proposal := w.proposeInvariants(llm, source);
    if proposal == None || proposal.value == None { return None; }
    var after := proposal.value.value;
    if !w.readable(source) || !w.readable(after) { return None; }
    var refusal := NotJustAssertions(source, after, w.diff(source, after));
    if refusal != None { return None; }
    LineageStep(w, given, pres, chain, source, after);
    return Some(after);
  }

  // --------------------------------------------------------------- the loop

  /** `_UNWIND_ESCALATIONS`: widen, widen, then escape boundedness. */
  function EscalateUnwind(i: nat, c: Config): Config
    requires i < 3
  {
    if i < 2 then c.(unwind := c.unwind * 4) else c.(kInduction := true)
  }

  /** `_TIMEOUT_ESCALATIONS`. */
  function EscalateTimeout(c: Config): Config {
    c.(incremental := true, kInduction := false)
  }

  /** `_added_assertions`: the inserted lines that read as assertions. */
  function AddedAssertions(after: File, ops: seq<Opcode>): seq<Line> {
    if ops == [] then []
    else
      var op := ops[0];
      (if op.tag == Insert && op.j1 <= op.j2 <= |after| then Assertions(after[op.j1..op.j2]) else [])
      + AddedAssertions(after, ops[1..])
  }

  function Assertions(lines: seq<Line>): seq<Line> {
    if lines == [] then []
    else (if MatchAssertion(Collapse(lines[0])).Some? then [lines[0]] else []) + Assertions(lines[1..])
  }

  /** The assertions shown of an accepted rewrite are the lines it adds that are no remarks. */
  lemma AddedAre(before: File, after: File, ops: seq<Opcode>, line: Line)
    requires ValidScript(ops, before, after, 0, 0) && Accepts(before, after, ops)
    ensures line in AddedAssertions(after, ops) <==>
      !Remark(line) && exists op <- ops, j: nat :: Adding(op, j) && j < |after| && after[j] == line
  {
    ScriptInRange(ops, before, after, 0, 0);
    forall op | op in ops ensures Fitting(after, op) {
      assert OpFine(op, after, ScrubAll(before), ScrubAll(after));
      forall j: nat | Adding(op, j) ensures j < |after| && ReadsAsAdded(after[j]) {
        UnrefusedReads(after, ScrubAll(after), j);
      }
    }
    AddedByOps(after, ops, line);
  }

  lemma {:induction false} UnrefusedReads(after: File, scrubbed: seq<seq<Cell>>, j: nat)
    requires j < |after| == |scrubbed| && RefuseInsertion(after, scrubbed, j) == None
    ensures ReadsAsAdded(after[j])
  {
  }

  /** A remark, or what the pattern for assertions matches. */
  predicate ReadsAsAdded(line: Line) { Remark(line) <==> MatchAssertion(Collapse(line)) == None }

  ghost predicate Fitting(after: File, op: Opcode) {
    op.tag == Insert ==> op.j1 <= op.j2 <= |after| && forall j: nat :: Adding(op, j) ==> ReadsAsAdded(after[j])
  }

  lemma {:induction false} AddedByOps(after: File, ops: seq<Opcode>, line: Line)
    requires forall op <- ops :: Fitting(after, op)
    ensures line in AddedAssertions(after, ops) <==>
      !Remark(line) && exists op <- ops, j: nat :: Adding(op, j) && j < |after| && after[j] == line
    decreases ops
  {
    if ops != [] {
      var op, more := ops[0], ops[1..];
      assert ops == [op] + more;
      assert Fitting(after, op) && forall o <- more :: o in ops;
      AddedByOps(after, more, line);
      if op.tag == Insert { AddedByOne(after, op, line); }
    }
  }

  lemma {:induction false} AddedByOne(after: File, op: Opcode, line: Line)
    requires op.tag == Insert && Fitting(after, op)
    ensures line in Assertions(after[op.j1..op.j2]) <==> !Remark(line) && exists j: nat :: Adding(op, j) && after[j] == line
  {
    forall l | l in after[op.j1..op.j2] ensures ReadsAsAdded(l) {
      AddedIn(after, op, l);
    }
    AssertionsAre(after[op.j1..op.j2], line);
    AddedIn(after, op, line);
  }

  lemma {:induction false} AddedIn(after: File, op: Opcode, line: Line)
    requires op.tag == Insert && op.j1 <= op.j2 <= |after|
    ensures line in after[op.j1..op.j2] <==> exists j: nat :: Adding(op, j) && after[j] == line
  {
    var lines := after[op.j1..op.j2];
    if line in lines {
      var k :| 0 <= k < |lines| && lines[k] == line;
      assert Adding(op, op.j1 + k);
    }
    if j: nat :| Adding(op, j) && after[j] == line { assert lines[j - op.j1] == line; }
  }

  lemma {:induction false} AssertionsAre(lines: seq<Line>, line: Line)
    requires forall l <- lines :: ReadsAsAdded(l)
    ensures line in Assertions(lines) <==> line in lines && !Remark(line)
    decreases lines
  {
    if lines != [] {
      AssertionsAre(lines[1..], line);
      assert lines == [lines[0]] + lines[1..];
    }
  }

  /** The variables the loop updates. */
  datatype State = State(
    source: File, config: Config, preconditions: seq<Precondition>, attempts: seq<VerifyResult>,
    unwindIdx: nat, timeoutIdx: nat, looked: bool, runs: nat, llm: nat,
    assumptions: seq<string>, harness: Option<File>, llmInvariants: seq<Line>)

  /** What every turn of the loop keeps: where the file under test comes from, and what has been spent. */
  ghost predicate Inv(w: World, given: File, base: Config, budget: Budget, chain: seq<File>, iterations: nat,
      s: State) {
    && Lineage(w, given, s.preconditions, chain, s.source)
    && FromGenerator(w, s.preconditions, s.assumptions)
    && AsksNoLess(s.config, base) && s.unwindIdx <= 3 && s.timeoutIdx <= 1
    && (s.attempts != [] ==>
          Recorded(w, base, s.attempts[|s.attempts| - 1], s.runs) && Traced(w, given, s.attempts[|s.attempts| - 1].file))
    && (Silent(w) ==> Untouched(given, s))
    && |s.preconditions| <= budget.maxPreconditionRounds
    && iterations <= budget.maxAttempts && s.runs == |s.attempts| == iterations + (if s.looked then 1 else 0)
    && s.llm <= 3 * iterations + (if s.looked then 3 else 0)
  }

  /** Nothing has been proposed: every attempt was at the file given, under no precondition. */
  predicate Untouched(given: File, s: State) {
    s.source == given && s.preconditions == [] && s.llmInvariants == [] && forall a <- s.attempts :: a.file == given
  }

  /** The word on termination is the checker's, about the file and a question no lesser than was asked. */
  ghost predicate Terminates(w: World, base: Config, r: AgentReport, runs: nat) {
    r.terminates.Some? &&
      exists c :: AsksNoLess(c, base) && TerminationAnswered(w, r.final.file, c, r.terminates.value, runs)
  }

  /** What holds of every report after so many runs, whatever the world answered. */
  ghost predicate Sound(w: World, given: File, base: Config, budget: Budget, r: AgentReport, runs: nat) {
    // "verified" and "counterexample" rest on runs that were made of the very file reported
    && (r.IsVerified() ==> Substantiated(w, given, base, r, runs))
    && (r.final.outcome == Counterexample ==>
          RanFailing(w, r.final.file, r.final.config, r.final.properties, runs) && r.acceptedPreconditions == [])
    && AsksNoLess(r.final.config, base) && CleanVerdict(w, r.final) && Traced(w, given, r.final.file)
    && (r.terminates.Some? ==> r.IsVerified() && w.mightLoop && Terminates(w, base, r, runs))
    // without a model the report is about the file given, under no precondition
    && (Silent(w) ==> r.final.file == given && r.acceptedPreconditions == [] && r.llmInvariants == [])
    // and the budget holds
    && 0 < |r.attempts| <= budget.maxAttempts + 2
    && |r.acceptedPreconditions| <= budget.maxPreconditionRounds && runs <= budget.maxAttempts + 4
  }

  /** How a turn ends: go round again, stop with a report, or an exception that escapes. */
  datatype Step = Again | Stop(report: AgentReport) | Raise

  /** The turn ends as its run has it. */
  ghost predicate Told(w: World, budget: Budget, s: State, result: VerifyResult, step: Step, s': State) {
    match step
    case Again => Onward(w, budget, s, result, s')
    case Stop(report) => Ends(w, budget, s, result, Some(report))
    case Raise => Ends(w, budget, s, result, None)
  }

  /** A report on `final` in the loop's current context. */
  function Draft(s: State, final: VerifyResult): AgentReport {
    AgentReport(final, s.attempts, s.assumptions, s.harness, s.llmInvariants, s.preconditions, None, None)
  }

  /** `_inconclusive`: the last attempt stands. */
  function Inconclusive(s: State): AgentReport
    requires s.attempts != []
  {
    Draft(s, s.attempts[|s.attempts| - 1]).(acceptedPreconditions := [])
  }

  // ------------------------------------------------------------ the turns, one after the other

  /** The state once a run is made. */
  function Ran(s: State, result: VerifyResult): State { s.(runs := s.runs + 1, attempts := s.attempts + [result]) }

  /** The report of no violation in `final`: what the probe shows, and whether it terminates if that is asked. */
  ghost predicate ProofReported(w: World, s: State, final: VerifyResult, ask: bool, r: AgentReport) {
    && r == AgentReport(final, s.attempts, s.assumptions, s.harness, s.llmInvariants, s.preconditions,
                        r.reachability, r.terminates)
    && r.reachability.Some? && ProbeShows(w, s.source, s.config, s.runs, r.reachability.value)
    && if r.reachability == Some(Reachable) && ask
       then TerminationSaid(w, s.source, s.config, LastProbe(w, s.source, s.config, s.runs).1, r.terminates)
       else r.terminates == None
  }

  /** A report that stands on a result which is no proof: under no precondition. */
  predicate Stands(s: State, final: VerifyResult, r: Option<AgentReport>) {
    r == Some(AgentReport(final, s.attempts, s.assumptions, s.harness, s.llmInvariants, [], None, None))
  }

  /** A timeout changes the strategy, once. */
  predicate ChangesStrategy(s: State, s': State) {
    s.timeoutIdx == 0 && s' == s.(config := s.config.(incremental := true, kInduction := false), timeoutIdx := 1)
  }

  /** A bound that was too small is widened twice, then given up. */
  predicate ClimbsLadder(s: State, s': State) {
    && s.unwindIdx < 3
    && s' == s.(unwindIdx := s.unwindIdx + 1,
                config := if s.unwindIdx < 2 then s.config.(unwind := s.config.unwind * 4)
                          else s.config.(kInduction := true))
  }

  /** The file the model would have verified instead of this one, if the gate lets it. */
  ghost predicate Proposed(w: World, s: State, after: File) {
    && w.proposeInvariants(s.llm, s.source) == Some(Some(after)) && w.readable(s.source) && w.readable(after)
    && Accepts(s.source, after, w.diff(s.source, after))
  }

  /** The ladder is climbed, and such a file is verified next. */
  ghost predicate Rewrites(w: World, s: State, s': State) {
    && s.unwindIdx >= 3 && Proposed(w, s, s'.source)
    && s' == s.(llm := s.llm + 1, source := s'.source, harness := Some(s'.source), config := s.config.(kInduction := true),
                llmInvariants := s.llmInvariants + AddedAssertions(s'.source, w.diff(s.source, s'.source)))
  }

  /** The harness is generated anew, under the precondition proposed. */
  ghost predicate Regenerates(w: World, budget: Budget, s: State, round: Round, s': State) {
    && !round.onlyArtifacts && Proposes(w, budget, s.preconditions, round.diagnosis)
    && var pres := s.preconditions + [round.diagnosis.proposed.value];
       var h := w.generate(pres).value;
       s' == s.(preconditions := pres, source := h.file, assumptions := h.assumptions, harness := Some(h.file),
                unwindIdx := 0, runs := s'.runs, attempts := s.attempts + round.extra,
                looked := s.looked || round.extra != [], llm := s'.llm)
       && s'.runs == s.runs + |round.extra|
  }

  /** The run a turn made, and the loop goes on from `s'`. */
  ghost predicate Onward(w: World, budget: Budget, s: State, result: VerifyResult, s': State) {
    match result.outcome
    case Timeout => ChangesStrategy(s, s')
    case UnwindLimit | Unknown => ClimbsLadder(s, s') || Rewrites(w, s, s')
    case Counterexample => exists round ::
      Judged(w, result, s.looked, s.runs, s.llm, round) && Regenerates(w, budget, s, round, s')
    case Verified | ToolError | ParseError => false
  }

  /** What a counterexample is reported as, when no harness is generated for it. */
  ghost predicate ReportsFailure(w: World, budget: Budget, s: State, result: VerifyResult, r: Option<AgentReport>) {
    || (NoSecondRun(w, result, s.looked, s.runs, s.llm) && r == None)
    || exists round :: Judged(w, result, s.looked, s.runs, s.llm, round) && RoundReported(w, budget, s, round, r)
  }

  /** The proof that is left without the artifacts, or the failure. */
  ghost predicate RoundReported(w: World, budget: Budget, s: State, round: Round, r: Option<AgentReport>) {
    var s' := s.(runs := s.runs + |round.extra|, attempts := s.attempts + round.extra);
    if round.onlyArtifacts
    then r.Some? && ProofReported(w, s'.(attempts := s'.attempts + [round.result]), round.result, false, r.value)
    else !Proposes(w, budget, s.preconditions, round.diagnosis) && Stands(s', round.result, r)
  }

  /** ... or the loop ends with `r`, None being an exception. */
  ghost predicate Ends(w: World, budget: Budget, s: State, result: VerifyResult, r: Option<AgentReport>) {
    match result.outcome
    case Verified => r.Some? && ProofReported(w, s, result, w.mightLoop, r.value)
    case Counterexample => ReportsFailure(w, budget, s, result, r)
    case Timeout => s.timeoutIdx > 0 && Stands(s, result, r)
    case UnwindLimit | Unknown => s.unwindIdx >= 3 && (forall after :: !Proposed(w, s, after)) && Stands(s, result, r)
    case ToolError | ParseError => Stands(s, result, r)
  }

  /** No attempt is left, or no time. */
  predicate Spent(w: World, budget: Budget, s: State) {
    |s.attempts| >= budget.maxAttempts || w.late(|s.attempts|)
  }

  /** The run a turn begins with: of the file under test, under the current configuration. */
  predicate Gives(w: World, s: State, result: VerifyResult) {
    var a := w.run(s.runs, s.source, s.config);
    a.Some? && result == Record(a.value, s.config, s.source)
  }

  /** A turn after which the loop goes round again. */
  ghost predicate GoesOn(w: World, budget: Budget, s: State, s': State) {
    !Spent(w, budget, s) && exists result :: Gives(w, s, result) && Onward(w, budget, Ran(s, result), result, s')
  }

  /** The last turn. */
  ghost predicate Concludes(w: World, budget: Budget, s: State, r: Option<AgentReport>) {
    if Spent(w, budget, s) then if s.attempts == [] then r == None else Stands(s, s.attempts[|s.attempts| - 1], r)
    else if w.run(s.runs, s.source, s.config) == None then r == None
    else exists result :: Gives(w, s, result) && Ends(w, budget, Ran(s, result), result, r)
  }

  function Started(given: File, base: Config, assumptions: seq<string>, harness: Option<File>): State {
    State(given, base, [], [], 0, 0, false, 0, 0, assumptions, harness, [])
  }

  ghost predicate TurnAt(w: World, budget: Budget, states: seq<State>, k: nat)
    requires k + 1 < |states|
  {
    GoesOn(w, budget, states[k], states[k + 1])
  }

  /** The turns that led to `s`. */
  ghost predicate Turns(w: World, budget: Budget, start: State, states: seq<State>, s: State) {
    && states != [] && states[0] == start && states[|states| - 1] == s
    && forall k: nat {:trigger TurnAt(w, budget, states, k)} :: k + 1 < |states| ==> TurnAt(w, budget, states, k)
  }

  /** The answer is what the turns come to, from the file, the configuration and the assumptions given. */
  ghost predicate Comes(w: World, budget: Budget, start: State, r: Option<AgentReport>) {
    exists states, s :: Turns(w, budget, start, states, s) && Concludes(w, budget, s, r)
  }

  /** A report of no violation: the probe decides whether it says "verified", and termination is asked only then. */
  method ProbedReport(w: World, ghost given: File, ghost base: Config, ghost chain: seq<File>, s: State,
      result: VerifyResult, askTermination: bool) returns (r: AgentReport, runs: nat)
    requires AsksNoLess(s.config, base) && result.file == s.source
    requires Lineage(w, given, s.preconditions, chain, s.source) && FromGenerator(w, s.preconditions, s.assumptions)
    requires RanClean(w, s.source, s.config, s.runs) || FailedOnlyArtifacts(w, s.source, s.config, s.runs)
    requires askTermination ==> w.mightLoop
    requires result.outcome == Outcome.Verified
    ensures r == Draft(s, result).(reachability := r.reachability, terminates := r.terminates)
    ensures ProofReported(w, s, result, askTermination, r)
    ensures r.terminates.Some? ==> r.IsVerified() && w.mightLoop && Terminates(w, base, r, runs)
    ensures (r.IsVerified() ==> Substantiated(w, given, base, r, runs)) && s.runs <= runs <= s.runs + 3
  {
    var reachability;
    reachability, runs := ProbeReachability(w, s.source, s.config, s.runs);
    var terminates := None;
    if reachability == Reachable && askTermination {
      terminates := CheckTermination(w, s.source, s.config, runs);
      runs := runs + 1;
    }
    r := Draft(s, result).(reachability := Some(reachability), terminates := terminates);
  }

  /** A turn on a run that found a counterexample. */
  method OnCounterexample(w: World, ghost given: File, ghost base: Config, budget: Budget, ghost chain: seq<File>,
      ghost iterations: nat, s: State, result: VerifyResult)
    returns (step: Step, s': State, ghost chain': seq<File>)
    requires Inv(w, given, base, budget, chain, iterations, s) && s.attempts != []
    requires result.outcome == Counterexample && result.file == s.source && result.config == s.config
    requires RanFailing(w, s.source, s.config, result.properties, s.runs)
    requires s.llm + 3 <= 3 * iterations + (if s.looked then 3 else 0)
    ensures s'.llm <= 3 * iterations + 3 && |s'.attempts| >= |s.attempts|
    ensures step == Again ==> Inv(w, given, base, budget, chain', iterations, s')
    ensures step.Stop? ==> Sound(w, given, base, budget, step.report, s'.runs)
    ensures step == Raise ==> CheckerRaised(w, s'.runs)
    ensures Told(w, budget, s, result, step, s')
  {
    var turn, looked := LookInto(w, given, base, budget, chain, iterations, s, result);
    step, s', chain' := Act(w, given, base, budget, chain, iterations, looked, turn);
    ActedTold(w, budget, s, result, turn, looked, step, s');
  }

  /** The state after the triage, with the runs and model calls it made. */
  ghost predicate LookedInto(s: State, more: seq<VerifyResult>, s': State) {
    s' == s.(looked := s.looked || more != [], runs := s.runs + |more|, attempts := s.attempts + more, llm := s'.llm)
  }

  lemma SecondLookKeeps(w: World, given: File, base: Config, budget: Budget, chain: seq<File>, iterations: nat, s: State,
      s': State, more: seq<VerifyResult>)
    requires Inv(w, given, base, budget, chain, iterations, s) && (more == [] || (!s.looked && |more| == 1))
    requires forall a <- more :: a.file == s.source && Recorded(w, s.config, a, s.runs + |more|)
    requires s' == s.(looked := s.looked || more != [], runs := s.runs + |more|, attempts := s.attempts + more,
      llm := s'.llm)
    requires s'.llm <= 3 * iterations + (if s'.looked then 3 else 0)
    ensures Inv(w, given, base, budget, chain, iterations, s')
  {
    if more != [] { assert more[0] in more && s'.attempts[|s'.attempts| - 1] == more[0]; }
  }

  /** The triage, and what it costs. */
  method LookInto(w: World, ghost given: File, ghost base: Config, budget: Budget, ghost chain: seq<File>,
      ghost iterations: nat, s: State, result: VerifyResult) returns (turn: Turn, s': State)
    requires Inv(w, given, base, budget, chain, iterations, s) && s.attempts != []
    requires result.outcome == Counterexample && result.file == s.source && result.config == s.config
    requires RanFailing(w, s.source, s.config, result.properties, s.runs)
    requires s.llm + 3 <= 3 * iterations + (if s.looked then 3 else 0)
    ensures Inv(w, given, base, budget, chain, iterations, s') && |s'.attempts| >= |s.attempts|
    ensures Actionable(w, budget, s', turn)
    ensures exists more :: LookedInto(s, more, s') &&
              LedBy(w, budget, s.preconditions, result, s.looked, s.runs, s.llm, turn, more)
  {
    var more, llm;
    turn, more, llm := CounterexampleTurn(w, result, s.looked, s.runs, s.llm, s.preconditions, budget);
    s' := s.(looked := s.looked || more != [], runs := s.runs + |more|, attempts := s.attempts + more, llm := llm);
    SecondLookKeeps(w, given, base, budget, chain, iterations, s, s', more);
    assert LookedInto(s, more, s');
    LookedActionable(w, budget, s, result, turn, more, s');
  }

  lemma LookedActionable(w: World, budget: Budget, s: State, result: VerifyResult, turn: Turn, more: seq<VerifyResult>,
      s': State)
    requires result.file == s.source && result.config == s.config && LookedInto(s, more, s')
    requires TurnHolds(w, result, s.runs, s.preconditions, budget, turn, more)
    ensures Actionable(w, budget, s', turn)
  {
  }

  /** What acting on a turn comes to. */
  ghost predicate Acted(w: World, s: State, turn: Turn, step: Step, s': State) {
    match turn
    case Raised => step == Raise
    case OnlyArtifacts(clean) =>
      step.Stop? && ProofReported(w, s.(attempts := s.attempts + [clean]), clean, false, step.report)
    case Report(failing) => step.Stop? && Stands(s, failing, Some(step.report))
    case Regenerate(candidate, h) =>
      step == Again && s' == s.(preconditions := candidate, source := h.file, assumptions := h.assumptions,
                                harness := Some(h.file), unwindIdx := 0)
  }

  lemma ActedTold(w: World, budget: Budget, s: State, result: VerifyResult, turn: Turn, looked: State, step: Step, s': State)
    requires result.outcome == Counterexample && Acted(w, looked, turn, step, s')
    requires exists more :: LookedInto(s, more, looked) &&
               LedBy(w, budget, s.preconditions, result, s.looked, s.runs, s.llm, turn, more)
    ensures Told(w, budget, s, result, step, s')
  {
    var more :| LookedInto(s, more, looked) &&
      LedBy(w, budget, s.preconditions, result, s.looked, s.runs, s.llm, turn, more);
    if !turn.Raised? {
      var round :| Judged(w, result, s.looked, s.runs, s.llm, round) && Leads(w, budget, s.preconditions, round, turn)
        && more == round.extra;
      if turn.Regenerate? {
        assert Regenerates(w, budget, s, round, s');
      } else {
        ActedReports(w, budget, s, result, round, turn, looked, step, s');
      }
    }
  }

  lemma ActedReports(w: World, budget: Budget, s: State, result: VerifyResult, round: Round, turn: Turn, looked: State,
      step: Step, s': State)
    requires !turn.Raised? && !turn.Regenerate? && Acted(w, looked, turn, step, s')
    requires looked == s.(looked := s.looked || round.extra != [], runs := s.runs + |round.extra|,
                          attempts := s.attempts + round.extra, llm := looked.llm)
    requires Judged(w, result, s.looked, s.runs, s.llm, round) && Leads(w, budget, s.preconditions, round, turn)
    ensures step.Stop? && ReportsFailure(w, budget, s, result, Some(step.report))
  {
    var told := s.(runs := s.runs + |round.extra|, attempts := s.attempts + round.extra);
    assert turn.OnlyArtifacts? ==>
      ProofReported(w, told.(attempts := told.attempts + [round.result]), round.result, false, step.report);
  }

  /** What a turn rests on when it is acted on. */
  ghost predicate Actionable(w: World, budget: Budget, s: State, turn: Turn) {
    match turn
    case Raised => CheckerRaised(w, s.runs + 1)
    case OnlyArtifacts(wider) =>
      s.looked && wider.file == s.source && AsksNoLess(wider.config, s.config) &&
      wider.outcome == Outcome.Verified && wider.properties == [] && FailedOnlyArtifacts(w, s.source, s.config, s.runs)
    case Report(failing) =>
      failing.file == s.source && failing.outcome == Counterexample && Recorded(w, s.config, failing, s.runs)
    case Regenerate(candidate, harness) =>
      0 < |candidate| <= budget.maxPreconditionRounds && w.generate(candidate) == Some(harness) && !Silent(w)
  }

  /** What the counterexample branch does with the triage's answer. */
  method Act(w: World, ghost given: File, ghost base: Config, budget: Budget, ghost chain: seq<File>,
      ghost iterations: nat, s: State, turn: Turn)
    returns (step: Step, s': State, ghost chain': seq<File>)
    requires Inv(w, given, base, budget, chain, iterations, s) && s.attempts != []
    requires Actionable(w, budget, s, turn)
    ensures s'.llm == s.llm && |s'.attempts| >= |s.attempts| && Acted(w, s, turn, step, s')
    ensures step == Again ==> Inv(w, given, base, budget, chain', iterations, s')
    ensures step.Stop? ==> Sound(w, given, base, budget, step.report, s'.runs)
    ensures step == Raise ==> CheckerRaised(w, s'.runs)
  {
    chain', s' := chain, s;
    match turn
    case Raised =>
      s' := s.(runs := s.runs + 1);
      step := Raise;
    case OnlyArtifacts(wider) =>
      s' := s.(attempts := s.attempts + [wider]);
      var report, runs := ProbedReport(w, given, base, chain, s', wider, false);
      ProbedIsSound(w, given, base, budget, s', report, runs);
      s' := s'.(runs := runs);
      step := Stop(report);
    case Report(failing) =>
      FailingIsSound(w, given, base, budget, chain, iterations, s, failing);
      step := Stop(Draft(s, failing).(acceptedPreconditions := []));
    case Regenerate(candidate, regenerated) =>
      s' := s.(preconditions := candidate, source := regenerated.file, assumptions := regenerated.assumptions,
        harness := Some(regenerated.file), unwindIdx := 0);
      chain' := [regenerated.file];
      step := Again;
  }

  lemma InconclusiveIsSound(w: World, given: File, base: Config, budget: Budget, chain: seq<File>, iterations: nat,
      s: State)
    requires Inv(w, given, base, budget, chain, iterations, s) && s.attempts != []
    ensures Sound(w, given, base, budget, Inconclusive(s), s.runs)
  {
  }

  lemma ProbedIsSound(w: World, given: File, base: Config, budget: Budget, s: State, r: AgentReport, runs: nat)
    requires r == Draft(s, r.final).(reachability := r.reachability, terminates := r.terminates)
    requires r.final.outcome == Outcome.Verified && CleanVerdict(w, r.final) && AsksNoLess(r.final.config, base)
    requires r.terminates.Some? ==> r.IsVerified() && w.mightLoop && Terminates(w, base, r, runs)
    requires (r.IsVerified() ==> Substantiated(w, given, base, r, runs)) && runs <= budget.maxAttempts + 4 &&
      Traced(w, given, r.final.file)
    requires Silent(w) ==> Untouched(given, s) && r.final.file == given
    requires 0 < |s.attempts| <= budget.maxAttempts + 2 && |s.preconditions| <= budget.maxPreconditionRounds
    ensures Sound(w, given, base, budget, r, runs)
  {
  }

  lemma FailingIsSound(w: World, given: File, base: Config, budget: Budget, chain: seq<File>, iterations: nat, s: State,
      failing: VerifyResult)
    requires Inv(w, given, base, budget, chain, iterations, s) && s.attempts != []
    requires failing.file == s.source && failing.outcome == Counterexample && Recorded(w, s.config, failing, s.runs)
    ensures Sound(w, given, base, budget, Draft(s, failing).(acceptedPreconditions := []), s.runs)
  {
  }

  /** A turn on a timeout: one change of strategy. */
  method OnTimeout(ghost w: World, ghost given: File, ghost base: Config, ghost budget: Budget, ghost chain: seq<File>,
      ghost iterations: nat, s: State, ghost result: VerifyResult) returns (step: Step, s': State)
    requires Inv(w, given, base, budget, chain, iterations, s) && s.attempts != []
    requires result == s.attempts[|s.attempts| - 1] && result.outcome == Timeout
    ensures s'.attempts == s.attempts && s'.llm == s.llm && step != Raise
    ensures step == Again ==> Inv(w, given, base, budget, chain, iterations, s')
    ensures step.Stop? ==> Sound(w, given, base, budget, step.report, s'.runs)
    ensures Told(w, budget, s, result, step, s')
  {
    if s.timeoutIdx >= 1 {
      InconclusiveIsSound(w, given, base, budget, chain, iterations, s);
      return Stop(Inconclusive(s)), s;
    }
    return Again, s.(config := EscalateTimeout(s.config), timeoutIdx := s.timeoutIdx + 1);
  }

  lemma EscalationKeeps(w: World, given: File, base: Config, budget: Budget, chain: seq<File>, iterations: nat, s: State,
      s': State)
    requires Inv(w, given, base, budget, chain, iterations, s) && s.unwindIdx < 3
    requires s' == s.(config := EscalateUnwind(s.unwindIdx, s.config), unwindIdx := s.unwindIdx + 1)
    ensures Inv(w, given, base, budget, chain, iterations, s')
  {
  }

  /** The ladder is climbed: the model's invariants, behind the gate. */
  method OnLadderClimbed(w: World, ghost given: File, ghost base: Config, ghost budget: Budget, ghost chain: seq<File>,
      ghost iterations: nat, s: State, ghost result: VerifyResult)
    returns (step: Step, s': State, ghost chain': seq<File>)
    requires DiffsAreScripts(w) && Inv(w, given, base, budget, chain, iterations, s) && s.attempts != []
    requires result == s.attempts[|s.attempts| - 1] && result.outcome in {UnwindLimit, Unknown} && s.unwindIdx >= 3
    requires s.llm + 1 <= 3 * iterations + (if s.looked then 3 else 0)
    ensures s'.attempts == s.attempts && s'.llm <= s.llm + 1 && step != Raise
    ensures step == Again ==> Inv(w, given, base, budget, chain', iterations, s')
    ensures step.Stop? ==> Sound(w, given, base, budget, step.report, s'.runs)
    ensures Told(w, budget, s, result, step, s')
  {
    var proposal := ProposedRewrite(w, given, s.preconditions, chain, s.source, s.llm);
    if proposal == None {
      s' := s.(llm := s.llm + 1);
      NothingProposed(w, given, base, budget, chain, iterations, s, result, s');
      return Stop(Inconclusive(s')), s', chain;
    }
    s' := Adopt(w, given, base, budget, chain, iterations, s, proposal.value);
    return Again, s', chain + [proposal.value];
  }

  /** A turn on a run that did not settle: the ladder, then the model's invariants behind the gate. */
  method OnLimit(w: World, ghost given: File, ghost base: Config, ghost budget: Budget, ghost chain: seq<File>,
      ghost iterations: nat, s: State, ghost result: VerifyResult)
    returns (step: Step, s': State, ghost chain': seq<File>)
    requires DiffsAreScripts(w) && Inv(w, given, base, budget, chain, iterations, s) && s.attempts != []
    requires result == s.attempts[|s.attempts| - 1] && result.outcome in {UnwindLimit, Unknown}
    requires s.llm + 1 <= 3 * iterations + (if s.looked then 3 else 0)
    ensures s'.attempts == s.attempts && s'.llm <= s.llm + 1 && step != Raise
    ensures step == Again ==> Inv(w, given, base, budget, chain', iterations, s')
    ensures step.Stop? ==> Sound(w, given, base, budget, step.report, s'.runs)
    ensures Told(w, budget, s, result, step, s')
  {
    if s.unwindIdx < 3 {
      s' := s.(config := EscalateUnwind(s.unwindIdx, s.config), unwindIdx := s.unwindIdx + 1);
      EscalationKeeps(w, given, base, budget, chain, iterations, s, s');
      return Again, s', chain;
    }
    step, s', chain' := OnLadderClimbed(w, given, base, budget, chain, iterations, s, result);
  }

  lemma NothingProposed(w: World, given: File, base: Config, budget: Budget, chain: seq<File>, iterations: nat, s: State,
      result: VerifyResult, s': State)
    requires Inv(w, given, base, budget, chain, iterations, s) && s.attempts != []
    requires result == s.attempts[|s.attempts| - 1] && result.outcome in {UnwindLimit, Unknown} && s.unwindIdx >= 3
    requires (forall after :: !Proposed(w, s, after)) && s' == s.(llm := s.llm + 1)
    ensures Sound(w, given, base, budget, Inconclusive(s'), s'.runs)
    ensures Told(w, budget, s, result, Stop(Inconclusive(s')), s')
  {
    InconclusiveIsSound(w, given, base, budget, chain, iterations, s);
  }

  /** The proposed file is the one to verify next. */
  method Adopt(w: World, ghost given: File, ghost base: Config, ghost budget: Budget, ghost chain: seq<File>,
      ghost iterations: nat, s: State, after: File) returns (s': State)
    requires Inv(w, given, base, budget, chain, iterations, s) && !Silent(w) && s.unwindIdx >= 3
    requires Lineage(w, given, s.preconditions, chain + [after], after) && Proposed(w, s, after)
    requires s.llm + 1 <= 3 * iterations + (if s.looked then 3 else 0)
    ensures Inv(w, given, base, budget, chain + [after], iterations, s') && s'.attempts == s.attempts && Rewrites(w, s, s')
  {
    s' := s.(
      llm := s.llm + 1, llmInvariants := s.llmInvariants + AddedAssertions(after, w.diff(s.source, after)),
      source := after, harness := Some(after), config := s.config.(kInduction := true));
    RewriteKeeps(w, given, base, budget, chain, iterations, s, s', after);
  }

  lemma RewriteKeeps(w: World, given: File, base: Config, budget: Budget, chain: seq<File>, iterations: nat, s: State,
      s': State, after: File)
    requires Inv(w, given, base, budget, chain, iterations, s) && !Silent(w)
    requires Lineage(w, given, s.preconditions, chain + [after], after)
    requires s' == s.(llm := s.llm + 1, llmInvariants := s'.llmInvariants, source := after, harness := s'.harness,
                      config := s.config.(kInduction := true))
    requires s'.llm <= 3 * iterations + (if s.looked then 3 else 0)
    ensures Inv(w, given, base, budget, chain + [after], iterations, s')
  {
  }

  /** The run a turn begins with. */
  method Attempt(w: World, ghost given: File, ghost base: Config, ghost budget: Budget, ghost chain: seq<File>,
      ghost iterations: nat, s: State) returns (r: Option<VerifyResult>, s': State)
    requires Inv(w, given, base, budget, chain, iterations, s) && |s.attempts| < budget.maxAttempts
    ensures if r.None? then w.run(s.runs, s.source, s.config) == None else Gives(w, s, r.value) && s' == Ran(s, r.value)
    ensures r.None? ==> CheckerRaised(w, s.runs + 1) && s' == s.(runs := s.runs + 1)
    ensures r.Some? ==>
      && s' == s.(runs := s.runs + 1, attempts := s.attempts + [r.value])
      && Inv(w, given, base, budget, chain, iterations + 1, s') && Answered(w, s', r.value)
  {
    r := Run(w, s.source, s.config, s.runs);
    s' := s.(runs := s.runs + 1);
    if r.Some? { s' := s'.(attempts := s.attempts + [r.value]); }
  }

  /** What a run of the file under test, under the current configuration, gave. */
  ghost predicate Answered(w: World, s: State, r: VerifyResult) {
    && r.file == s.source && r.config == s.config && CleanVerdict(w, r)
    && (r.outcome == Outcome.Verified ==> RanClean(w, s.source, s.config, s.runs))
    && (r.outcome == Counterexample ==> RanFailing(w, s.source, s.config, r.properties, s.runs))
  }

  /** A turn on a run that verified. */
  method OnVerified(w: World, ghost given: File, ghost base: Config, ghost budget: Budget, ghost chain: seq<File>,
      ghost iterations: nat, s: State, result: VerifyResult) returns (step: Step, s': State)
    requires Inv(w, given, base, budget, chain, iterations, s) && s.attempts != []
    requires result == s.attempts[|s.attempts| - 1] && result.outcome == Outcome.Verified && Answered(w, s, result)
    ensures step.Stop? && Sound(w, given, base, budget, step.report, s'.runs) && s' == s.(runs := s'.runs)
    ensures Told(w, budget, s, result, step, s')
  {
    var report, runs := ProbedReport(w, given, base, chain, s, result, w.mightLoop);
    ProbedIsSound(w, given, base, budget, s, report, runs);
    step, s' := Stop(report), s.(runs := runs);
  }

  /** A turn on a broken invocation, or on a file the frontend refused: escalating fixes neither, and a fix of the file
      is handed to the user, never to the solver. */
  method OnRefusal(w: World, ghost given: File, ghost base: Config, ghost budget: Budget, ghost chain: seq<File>,
      ghost iterations: nat, s: State, result: VerifyResult) returns (step: Step, s': State)
    requires Inv(w, given, base, budget, chain, iterations, s) && s.attempts != []
    requires result == s.attempts[|s.attempts| - 1] && result.outcome in {ToolError, ParseError}
    ensures step.Stop? && Sound(w, given, base, budget, step.report, s'.runs)
    ensures Told(w, budget, s, result, step, s')
    ensures s' == s.(llm := if result.outcome == ParseError then s.llm + 1 else s.llm)
  {
    InconclusiveIsSound(w, given, base, budget, chain, iterations, s);
    step, s' := Stop(Inconclusive(s)), s;
    if result.outcome == ParseError {
      var _ := w.proposeFix(s.llm, s.source);
      s' := s.(llm := s.llm + 1);
    }
  }

  /** A turn on a run that neither verified nor failed. */
  method OnUnsettled(w: World, ghost given: File, ghost base: Config, ghost budget: Budget, ghost chain: seq<File>,
      ghost iterations: nat, s: State, result: VerifyResult)
    returns (step: Step, s': State, ghost chain': seq<File>)
    requires DiffsAreScripts(w) && Inv(w, given, base, budget, chain, iterations, s) && s.attempts != []
    requires result == s.attempts[|s.attempts| - 1] && result.outcome != Outcome.Verified && result.outcome != Counterexample
    requires s.llm + 1 <= 3 * iterations + (if s.looked then 3 else 0)
    ensures s'.llm <= s.llm + 1 && s'.attempts == s.attempts && step != Raise
    ensures step == Again ==> Inv(w, given, base, budget, chain', iterations, s')
    ensures step.Stop? ==> Sound(w, given, base, budget, step.report, s'.runs)
    ensures Told(w, budget, s, result, step, s')
  {
    chain' := chain;
    match result.outcome
    case Timeout => step, s' := OnTimeout(w, given, base, budget, chain, iterations, s, result);
    case UnwindLimit | Unknown => step, s', chain' := OnLimit(w, given, base, budget, chain, iterations, s, result);
    case ToolError | ParseError => step, s' := OnRefusal(w, given, base, budget, chain, iterations, s, result);
  }

  /** What a turn does with its run. */
  method OnResult(w: World, ghost given: File, ghost base: Config, budget: Budget, ghost chain: seq<File>,
      ghost iterations: nat, s: State, result: VerifyResult)
    returns (step: Step, s': State, ghost chain': seq<File>)
    requires DiffsAreScripts(w) && Inv(w, given, base, budget, chain, iterations, s) && s.attempts != []
    requires result == s.attempts[|s.attempts| - 1] && Answered(w, s, result)
    requires s.llm + 3 <= 3 * iterations + (if s.looked then 3 else 0)
    ensures s'.llm <= 3 * iterations + 3 && |s'.attempts| >= |s.attempts|
    ensures step == Again ==> Inv(w, given, base, budget, chain', iterations, s')
    ensures step.Stop? ==> Sound(w, given, base, budget, step.report, s'.runs)
    ensures step == Raise ==> CheckerRaised(w, s'.runs)
    ensures Told(w, budget, s, result, step, s')
  {
    s', chain' := s, chain;
    match result.outcome
    case Verified => step, s' := OnVerified(w, given, base, budget, chain, iterations, s, result);
    case Counterexample => step, s', chain' := OnCounterexample(w, given, base, budget, chain, iterations, s, result);
    case _ => step, s', chain' := OnUnsettled(w, given, base, budget, chain, iterations, s, result);
  }

  /** One turn of the loop, past the budget check. */
  method Iterate(w: World, ghost given: File, ghost base: Config, budget: Budget, ghost chain: seq<File>,
      ghost iterations: nat, s: State)
    returns (step: Step, s': State, ghost chain': seq<File>)
    requires DiffsAreScripts(w) && Inv(w, given, base, budget, chain, iterations, s)
    requires !Spent(w, budget, s)
    ensures s'.llm <= 3 * (iterations + 1) + 3
    ensures TurnEnds(w, budget, s, step, s')
    ensures step == Again ==> |s'.attempts| > |s.attempts| && Inv(w, given, base, budget, chain', iterations + 1, s')
    ensures step.Stop? ==> Sound(w, given, base, budget, step.report, s'.runs)
    ensures step == Raise ==> CheckerRaised(w, s'.runs)
  {
    var answer;
    answer, s' := Attempt(w, given, base, budget, chain, iterations, s);
    if answer == None {
      step, chain' := Raise, chain;
    } else {
      ghost var ran := s';
      step, s', chain' := OnResult(w, given, base, budget, chain, iterations + 1, s', answer.value);
      TurnTold(w, budget, s, ran, answer.value, step, s');
    }
  }

  /** The turn that begins with `s` ends so. */
  ghost predicate TurnEnds(w: World, budget: Budget, s: State, step: Step, s': State) {
    match step
    case Again => GoesOn(w, budget, s, s')
    case Stop(report) => Concludes(w, budget, s, Some(report))
    case Raise => Concludes(w, budget, s, None)
  }

  lemma TurnTold(w: World, budget: Budget, s: State, ran: State, result: VerifyResult, step: Step, s': State)
    requires !Spent(w, budget, s) && ran == Ran(s, result) && Told(w, budget, ran, result, step, s')
    requires Gives(w, s, result)
    ensures TurnEnds(w, budget, s, step, s')
  {
  }

  lemma OneTurnMore(w: World, budget: Budget, start: State, states: seq<State>, s: State, s': State)
    requires Turns(w, budget, start, states, s) && GoesOn(w, budget, s, s')
    ensures Turns(w, budget, start, states + [s'], s')
  {
    var more := states + [s'];
    forall k: nat | k + 1 < |more| ensures TurnAt(w, budget, more, k) {
      if k + 1 < |states| { assert TurnAt(w, budget, states, k); }
    }
  }

  /** `verify_with_agent`. None is an exception that escapes: a checker that could not be started,
      or a budget spent before the first attempt. */
  method VerifyWithAgent(w: World, given: File, base: Config, budget: Budget, assumptions: seq<string>,
      harness: Option<File>) returns (r: Option<AgentReport>, llm: nat, runs: nat)
    requires DiffsAreScripts(w)
    ensures r.None? ==> budget.maxAttempts == 0 || w.late(0) || CheckerRaised(w, runs)
    ensures r.Some? ==> Sound(w, given, base, budget, r.value, runs)
    ensures llm <= 3 * budget.maxAttempts + 3
    ensures Comes(w, budget, Started(given, base, assumptions, harness), r)
  {
    var s := State(given, base, [], [], 0, 0, false, 0, 0, assumptions, harness, []);
    ghost var iterations: nat, chain, states := 0, [given], [s];
    while true
      invariant Inv(w, given, base, budget, chain, iterations, s)
      invariant Turns(w, budget, Started(given, base, assumptions, harness), states, s)
      decreases budget.maxAttempts - |s.attempts|
    {
      if |s.attempts| >= budget.maxAttempts || w.late(|s.attempts|) {
        return if s.attempts == [] then None else Some(Inconclusive(s)), s.llm, s.runs;
      }
      var step;
      ghost var was := s;
      step, s, chain := Iterate(w, given, base, budget, chain, iterations, s);
      iterations := iterations + 1;
      if step != Again { return if step == Raise then None else Some(step.report), s.llm, s.runs; }
      OneTurnMore(w, budget, Started(given, base, assumptions, harness), states, was, s);
      states := states + [s];
    }
  }

  // ------------------------------------------------------- which answer is due

  /** The last probe run failed the probe's own assertion. */
  ghost predicate ProbeFails(w: World, f: File, c: Config, runs: nat) {
    var last := LastProbe(w, f, c, runs).0;
    last.Some? && last.value.outcome == Counterexample && exists p <- last.value.properties :: p.isProbe
  }

  lemma FirstTurn(w: World, budget: Budget, start: State, r: Option<AgentReport>)
    requires Comes(w, budget, start, r)
    ensures Concludes(w, budget, start, r) || exists s :: GoesOn(w, budget, start, s)
  {
    var states, s :| Turns(w, budget, start, states, s) && Concludes(w, budget, s, r);
    if |states| > 1 { assert TurnAt(w, budget, states, 0); }
  }

  /** With an attempt and time left, a first run that verifies, that fails on what the model takes for a real bug, or
      that could not be settled by any other is what is reported: of the file given, under no precondition. The first is
      "verified" exactly if its probe's last run failed the probe's own assertion. */
  lemma FirstRunSettles(w: World, given: File, base: Config, budget: Budget, assumptions: seq<string>,
      harness: Option<File>, r: Option<AgentReport>, a: Answer)
    requires Comes(w, budget, Started(given, base, assumptions, harness), r)
    requires budget.maxAttempts > 0 && !w.late(0) && w.run(0, given, base) == Some(a)
    requires a.outcome in {Outcome.Verified, ToolError, ParseError}
          || (a.outcome == Counterexample && !(a.properties != [] && w.artifact(a.properties[0], given))
              && (w.classify(0) in {None, Some(RealBug)} || !w.explains(1)))
    ensures r.Some? && r.value.final == VerifyResult(a.outcome, base, a.properties, given)
    ensures r.value.attempts == [r.value.final] && r.value.acceptedPreconditions == []
    ensures r.value.IsVerified() <==> a.outcome == Outcome.Verified && ProbeFails(w, given, base, 1)
    ensures r.value.reachability.Some? <==> a.outcome == Outcome.Verified
  {
    var start := Started(given, base, assumptions, harness);
    FirstTurn(w, budget, start, r);
    assert forall result :: Gives(w, start, result) ==> result == Record(a, base, given);
    if a.outcome == Counterexample {
      RealBugStands(w, budget, Ran(start, Record(a, base, given)), Record(a, base, given), r);
    }
  }

  /** A failure taken for a real bug ends the loop, as it is. */
  lemma RealBugStands(w: World, budget: Budget, s: State, result: VerifyResult, r: Option<AgentReport>)
    requires !(result.properties != [] && w.artifact(result.properties[0], result.file))
    requires w.classify(s.llm) in {None, Some(RealBug)} || !w.explains(s.llm + 1)
    ensures ReportsFailure(w, budget, s, result, r) ==> Stands(s, result, r)
    ensures forall round, s' :: Judged(w, result, s.looked, s.runs, s.llm, round) ==> !Regenerates(w, budget, s, round, s')
  {
    forall round | Judged(w, result, s.looked, s.runs, s.llm, round)
      ensures round.result == result && round.extra == [] && !round.onlyArtifacts && round.diagnosis.kind == RealBug
    {
    }
    assert s.(runs := s.runs + 0, attempts := s.attempts + []) == s;
  }

  /** A report says "verified" exactly if the last turn's run found no violation, or only the harness's own on looking
      again, and the probe that follows was reached. */
  lemma ProvedIff(w: World, budget: Budget, s: State, r: AgentReport, result: VerifyResult)
    requires Concludes(w, budget, s, Some(r)) && !Spent(w, budget, s) && Gives(w, s, result)
    ensures r.IsVerified() <==>
      || (result.outcome == Outcome.Verified && ProbeFails(w, s.source, s.config, s.runs + 1))
      || (result.outcome == Counterexample && OnlyArtifactsLeft(w, result, s.looked, s.runs + 1, s.llm)
          && ProbeFails(w, s.source, s.config, s.runs + 2))
  {
    if result.outcome == Counterexample { ArtifactsIff(w, budget, Ran(s, result), result, r); }
  }

  /** With no attempt or no time left nothing is verified. */
  lemma SpentProvesNothing(w: World, budget: Budget, s: State, r: AgentReport)
    requires Concludes(w, budget, s, Some(r)) && Spent(w, budget, s)
    ensures !r.IsVerified() && r.final == s.attempts[|s.attempts| - 1]
  {
  }

  /** The failure is an artifact, or taken for the harness's issue; and looking again, once, finds artifacts alone. */
  ghost predicate OnlyArtifactsLeft(w: World, result: VerifyResult, looked: bool, runs: nat, llm: nat) {
    && !looked && (exists d :: Diagnosed(w, result.file, result.properties, llm, d) && d.kind == HarnessIssue)
    && var a := w.run(runs, result.file, result.config.(multiProperty := true));
       a.Some? && a.value.outcome == Counterexample && forall p <- a.value.properties :: w.artifact(p, result.file)
  }

  lemma DiagnosedOnce(w: World, f: File, ps: seq<Property>, llm: nat, d: Diagnosis, e: Diagnosis)
    requires Diagnosed(w, f, ps, llm, d) && Diagnosed(w, f, ps, llm, e)
    ensures d.kind == e.kind
  {
  }

  lemma ArtifactsIff(w: World, budget: Budget, s: State, result: VerifyResult, r: AgentReport)
    requires ReportsFailure(w, budget, s, result, Some(r))
    requires result.outcome == Counterexample && result.file == s.source && result.config == s.config
    ensures r.IsVerified() <==>
      OnlyArtifactsLeft(w, result, s.looked, s.runs, s.llm) && ProbeFails(w, s.source, s.config, s.runs + 1)
  {
    var round :| Judged(w, result, s.looked, s.runs, s.llm, round) && RoundReported(w, budget, s, round, Some(r));
    OnlyArtifactsIff(w, result, s.looked, s.runs, s.llm, round);
    ReportedIff(w, budget, s, round, r);
  }

  lemma ReportedIff(w: World, budget: Budget, s: State, round: Round, r: AgentReport)
    requires RoundReported(w, budget, s, round, Some(r))
    requires round.onlyArtifacts ==> round.result.outcome == Outcome.Verified
    ensures r.IsVerified() <==> round.onlyArtifacts && ProbeFails(w, s.source, s.config, s.runs + |round.extra|)
  {
  }

  lemma OnlyArtifactsIff(w: World, result: VerifyResult, looked: bool, runs: nat, llm: nat, round: Round)
    requires Judged(w, result, looked, runs, llm, round)
    ensures round.onlyArtifacts <==> OnlyArtifactsLeft(w, result, looked, runs, llm)
    ensures round.onlyArtifacts ==> |round.extra| == 1 && round.result.outcome == Outcome.Verified
  {
    var d :| Diagnosed(w, result.file, result.properties, llm, d) &&
      if d.kind != HarnessIssue || looked then round == Round(result, d, [], false)
      else SecondRun(w, result, runs).Some? && JudgedAgain(w, result, d, SecondRun(w, result, runs).value, round);
    forall e | Diagnosed(w, result.file, result.properties, llm, e) ensures e.kind == d.kind {
      DiagnosedOnce(w, result.file, result.properties, llm, d, e);
    }
  }

  // ------------------------------------------------------- what it amounts to

  /** Every proposal in the chain is well-behaved: where the gate cannot see, in what it leaves of the lines kept, and in
      its conditions (see `Erasure`). */
  ghost predicate ProposalsBehave(w: World, pp: Preprocessor, effects: set<string>, chain: seq<File>) {
    forall k :: 0 < k < |chain| ==>
      WellBehaved(pp, effects, Views(chain[k - 1]), Views(chain[k]), Flags(w.diff(chain[k - 1], chain[k])))
  }

  /** Asked no less than `base`, the checker is right about `f`: where it verifies nothing is violated, and where it
      lists the failures of every property those are all there are. */
  ghost predicate RightAbout<S(!new)>(w: World, pp: Preprocessor, m: Meaning<S>, s: S, f: File, base: Config) {
    UnitOf(pp, f).Some? && forall n, c: Config | AsksNoLess(c, base) && w.run(n, f, c).Some? ::
      var a := w.run(n, f, c).value;
      && (a.outcome == Outcome.Verified ==> SafeBut(m, UnitOf(pp, f).value, s, v => false))
      && (a.outcome == Counterexample && c.multiProperty ==>
            SafeBut(m, UnitOf(pp, f).value, s, v => exists p <- a.properties :: p.id == v))
  }

  /** What a report of "verified" leaves open: failures of the harness's own, and only if no run was clean. */
  ghost function Excused(w: World, f: File, base: Config, runs: nat): int -> bool {
    v =>
      && (forall c :: AsksNoLess(c, base) ==> !RanClean(w, f, c, runs))
      && exists p: Property :: p.id == v && w.artifact(p, f)
  }

  lemma SafeButMore<S(!new)>(m: Meaning<S>, u: Unit, s: S, few: int -> bool, more: int -> bool)
    requires SafeBut(m, u, s, few) && forall v :: few(v) ==> more(v)
    ensures SafeBut(m, u, s, more)
  {
  }

  /** The evidence a report rests on, read by a checker that is right. */
  lemma EvidenceMeans<S(!new)>(w: World, pp: Preprocessor, m: Meaning<S>, s: S, f: File, base: Config, runs: nat)
    requires Evidence(w, f, base, runs) && RightAbout(w, pp, m, s, f, base)
    ensures SafeBut(m, UnitOf(pp, f).value, s, Excused(w, f, base, runs))
  {
    if c :| AsksNoLess(c, base) && RanClean(w, f, c, runs) {
      CleanMeans(w, pp, m, s, f, base, c, runs);
    } else {
      var c :| AsksNoLess(c, base) && FailedOnlyArtifacts(w, f, c, runs);
      ArtifactsMean(w, pp, m, s, f, base, c, runs);
    }
  }

  lemma CleanMeans<S(!new)>(w: World, pp: Preprocessor, m: Meaning<S>, s: S, f: File, base: Config, c: Config,
      runs: nat)
    requires AsksNoLess(c, base) && RanClean(w, f, c, runs) && RightAbout(w, pp, m, s, f, base)
    ensures SafeBut(m, UnitOf(pp, f).value, s, Excused(w, f, base, runs))
  {
    var n: nat :| n < runs && w.run(n, f, c).Some? && w.run(n, f, c).value.outcome == Outcome.Verified;
    SafeButMore(m, UnitOf(pp, f).value, s, v => false, Excused(w, f, base, runs));
  }

  lemma ArtifactsMean<S(!new)>(w: World, pp: Preprocessor, m: Meaning<S>, s: S, f: File, base: Config, c: Config,
      runs: nat)
    requires AsksNoLess(c, base) && FailedOnlyArtifacts(w, f, c, runs) && RightAbout(w, pp, m, s, f, base)
    requires forall d :: AsksNoLess(d, base) ==> !RanClean(w, f, d, runs)
    ensures SafeBut(m, UnitOf(pp, f).value, s, Excused(w, f, base, runs))
  {
    var every := c.(multiProperty := true);
    var n: nat :| n < runs && w.run(n, f, every).Some? && w.run(n, f, every).value.outcome == Counterexample
      && forall p <- w.run(n, f, every).value.properties :: w.artifact(p, f);
    assert AsksNoLess(every, base);
    var ps := w.run(n, f, every).value.properties;
    SafeButMore(m, UnitOf(pp, f).value, s, v => exists p <- ps :: p.id == v, Excused(w, f, base, runs));
  }

  /** Proposals that behave carry a result about the last file back to the first. */
  lemma LineageIsSafe<S(!new)>(w: World, pp: Preprocessor, m: Meaning<S>, s: S, given: File, pres: seq<Precondition>,
      chain: seq<File>, f: File, excused: int -> bool)
    requires DiffsAreScripts(w) && Lineage(w, given, pres, chain, f) && ProposalsBehave(w, pp, m.effects, chain)
    requires Sectioned(pp) && Respects(m) && UnitOf(pp, f).Some?
    requires SafeBut(m, UnitOf(pp, f).value, s, excused)
    ensures UnitOf(pp, chain[0]).Some? && SafeBut(m, UnitOf(pp, chain[0]).value, s, excused)
  {
    var scripts := seq(|chain| - 1, k requires 0 <= k < |chain| - 1 => w.diff(chain[k], chain[k + 1]));
    forall k | 0 <= k < |scripts|
      ensures SoundStep(pp, m.effects, chain[k], chain[k + 1], scripts[k])
    {
      assert AcceptedStep(w, chain, k + 1);
      assert ValidScript(w.diff(chain[k], chain[k + 1]), chain[k], chain[k + 1], 0, 0);
    }
    ChainIsSafe(pp, m, chain, scripts, s, excused);
  }

  /** With a checker that is right about the file it saw, "verified" is about the harness generated under exactly the
      listed preconditions, however many proposals were accepted on the way: it can violate nothing, or, where the
      failures were the harness's own, nothing else. */
  lemma VerifiedCoversHarness<S(!new)>(w: World, pp: Preprocessor, m: Meaning<S>, s: S, given: File, base: Config,
      budget: Budget, r: AgentReport, runs: nat)
    requires DiffsAreScripts(w) && Sectioned(pp) && Respects(m)
    requires Sound(w, given, base, budget, r, runs) && r.IsVerified() && RightAbout(w, pp, m, s, r.final.file, base)
    ensures exists chain :: Lineage(w, given, r.acceptedPreconditions, chain, r.final.file)
    ensures forall chain |
        Lineage(w, given, r.acceptedPreconditions, chain, r.final.file) && ProposalsBehave(w, pp, m.effects, chain) ::
      var harness := StartFile(w, given, r.acceptedPreconditions).value;
      UnitOf(pp, harness).Some? && SafeBut(m, UnitOf(pp, harness).value, s, Excused(w, r.final.file, base, runs))
  {
    EvidenceMeans(w, pp, m, s, r.final.file, base, runs);
    forall chain | Lineage(w, given, r.acceptedPreconditions, chain, r.final.file) &&
      ProposalsBehave(w, pp, m.effects, chain)
      ensures StartFile(w, given, r.acceptedPreconditions) == Some(chain[0])
      ensures UnitOf(pp, chain[0]).Some? && SafeBut(m, UnitOf(pp, chain[0]).value, s, Excused(w, r.final.file, base, runs))
    {
      LineageIsSafe(w, pp, m, s, given, r.acceptedPreconditions, chain, r.final.file, Excused(w, r.final.file, base, runs));
    }
  }
}
