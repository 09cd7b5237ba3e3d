/** `scan`: one attempt at every function, then the retry and triage passes over the results, in place. */
module ScanPasses {
  import opened Wrappers
  import opened AgentLoop

  /** An outcome of a function: the checker's, or one that only the scan gives. */
  datatype Verdict = Checked(outcome: Outcome) | Refused | Vacuity | Unsettled | Preconditioned

  datatype Generated = Refusal | Unwritten | Ready(harness: Harness)

  /** What a result says; `shown` is the property its detail, place, weakness and access are derived from. */
  datatype View = View(
    name: string, verdict: Verdict, artifact: bool, shown: Option<Property>, terminates: Option<bool>,
    preconditions: seq<Precondition>, assumptions: seq<string>, duration: nat,
    triageKind: Option<Kind>, triageError: bool)

  /** Everything outside the scan, function by function; each pass meets a checker and a model of its own. */
  datatype Project = Project(
    generate: string -> Generated,
    first: string -> World,
    retry: string -> World,
    triage: string -> World,
    duration: string -> nat,
    hasLoop: string -> bool,
    diagnosis: string -> Option<Option<Kind>>,  // of the triage pass; the inner None is a model error
    remaining: nat -> int,                      // the retry budget's clock, at the n-th candidate
    byDuration: seq<(nat, nat)> -> seq<nat>)    // the first of each pair, ordered by the second

  /** Asked of the world: edit scripts, no model in the retries, and a sort that lists every candidate once. */
  ghost predicate Lawful(p: Project) {
    && (forall name: string :: DiffsAreScripts(p.retry(name)) && Silent(p.retry(name)) && DiffsAreScripts(p.triage(name)))
    && (forall pairs :: Increasing(pairs) ==> Sorts(pairs, p.byDuration(pairs)))
  }

  /** Each position once. */
  ghost predicate Increasing(pairs: seq<(nat, nat)>) { forall i, j :: 0 <= i < j < |pairs| ==> pairs[i].0 < pairs[j].0 }

  /** The positions of the pairs, each once, ordered by what stands beside them. */
  ghost predicate Sorts(pairs: seq<(nat, nat)>, order: seq<nat>) {
    && (forall k <- order :: exists q <- pairs :: q.0 == k)
    && (forall q <- pairs :: q.0 in order)
    && (forall i, j :: 0 <= i < j < |order| ==> order[i] != order[j])
    && forall i, j, q, r :: 0 <= i < j < |order| && q in pairs && r in pairs && q.0 == order[i] && r.0 == order[j] ==>
         q.1 <= r.1
  }

  /** A result is worth a second attempt: its harness was written, and time, a bound or the solver gave out. */
  predicate Candidate(p: Project, v: View) {
    p.generate(v.name).Ready? && v.verdict in {Checked(Timeout), Checked(UnwindLimit), Checked(Unknown)}
  }

  /** Exactly the results worth that, each once. */
  ghost predicate ListsCandidates(p: Project, vs: seq<View>, order: seq<nat>) {
    && (forall k <- order :: k < |vs| && Candidate(p, vs[k]))
    && (forall i, j :: 0 <= i < j < |order| ==> order[i] != order[j])
    && (forall k: nat :: k < |vs| && Candidate(p, vs[k]) ==> k in order)
  }

  ghost predicate CheapestFirst(vs: seq<View>, order: seq<nat>) {
    forall i, j :: 0 <= i < j < |order| && order[i] < |vs| && order[j] < |vs| ==>
      vs[order[i]].duration <= vs[order[j]].duration
  }

  /** `harness_paths` has the function. */
  predicate Harnessed(p: Project, name: string) { p.generate(name).Ready? }

  predicate Retryable(p: Project, v: View) {
    && Harnessed(p, v.name)
    && (v.verdict == Checked(Timeout) || v.verdict == Checked(UnwindLimit) || v.verdict == Checked(Unknown))
  }

  predicate Triageable(p: Project, v: View) {
    Harnessed(p, v.name) && v.verdict == Checked(Counterexample) && !v.artifact
  }

  /** A result that says no more than this. */
  function Bare(name: string, verdict: Verdict): View { View(name, verdict, false, None, None, [], [], 0, None, false) }

  class FunctionResult {
    var name: string
    var verdict: Verdict
    var artifact: bool
    var shown: Option<Property>
    var terminates: Option<bool>
    var preconditions: seq<Precondition>
    var assumptions: seq<string>
    var duration: nat
    var triageKind: Option<Kind>
    var triageError: bool

    constructor (v: View)
      ensures Now() == v
    {
      name, verdict, artifact, shown, terminates := v.name, v.verdict, v.artifact, v.shown, v.terminates;
      preconditions, assumptions, duration := v.preconditions, v.assumptions, v.duration;
      triageKind, triageError := v.triageKind, v.triageError;
    }

    function Now(): View
      reads this
    {
      View(name, verdict, artifact, shown, terminates, preconditions, assumptions, duration, triageKind, triageError)
    }
  }

  // ------------------------------------------------------------ what a result may claim

  /** Some run and probe back "verified" of this harness under these preconditions. */
  ghost predicate Backed(w: World, given: File, base: Config, pres: seq<Precondition>) {
    exists r: AgentReport, runs: nat :: r.acceptedPreconditions == pres && Substantiated(w, given, base, r, runs)
  }

  /** Runs that were made, however many, are evidence for this file. */
  ghost predicate Evidenced(w: World, f: File, base: Config) { exists runs: nat :: Evidence(w, f, base, runs) }

  /** Without a precondition, the evidence is about the function's own harness as it was generated; only triage, with its
      model, verifies a harness under preconditions, and it may have rewritten that. */
  ghost predicate Supported(p: Project, config: Config, name: string, pres: seq<Precondition>) {
    && Harnessed(p, name)
    && var file := p.generate(name).harness.file;
       if pres == [] then Evidenced(p.first(name), file, config) || Evidenced(p.retry(name), file, config)
       else Backed(p.triage(name), file, config, pres)
  }

  /** No checker names a violated property where it says there is none. */
  ghost predicate AllClean(p: Project) {
    forall name: string :: CleanVerdicts(p.first(name)) && CleanVerdicts(p.retry(name))
  }

  /** Some run of `f` failed, and its first property is the one shown. */
  ghost predicate ShownFails(w: World, f: File, shown: Option<Property>) {
    exists c, ps, runs: nat :: RanFailing(w, f, c, ps, runs) && shown == if ps == [] then None else Some(ps[0])
  }

  /** What is shown failed in the function's own harness, at its first attempt or in its retry. */
  ghost predicate Fails(p: Project, name: string, shown: Option<Property>) {
    && Harnessed(p, name)
    && var file := p.generate(name).harness.file;
       ShownFails(p.first(name), file, shown) || ShownFails(p.retry(name), file, shown)
  }

  predicate Safe(v: View) { v.verdict == Checked(Outcome.Verified) || v.verdict == Preconditioned }

  /** PROVED rests on a reachable proof under no precondition, PRECONDITIONED on one under exactly those shown,
      COUNTEREXAMPLE on a run that failed. */
  ghost predicate Claim(p: Project, config: Config, v: View) {
    && (Safe(v) ==> Supported(p, config, v.name, v.preconditions))
    && (v.verdict == Preconditioned <==> v.preconditions != [])
    && (v.verdict == Checked(Counterexample) ==> Fails(p, v.name, v.shown))
    && (v.terminates.Some? ==> Safe(v))
    && (v.artifact ==> v.verdict != Refused)
    && (AllClean(p) && Safe(v) ==> !v.artifact)
  }

  /** Evidence for a question is evidence for any lesser one. */
  lemma Weakened(w: World, given: File, seed: Config, base: Config, r: AgentReport, runs: nat)
    requires Substantiated(w, given, seed, r, runs) && AsksNoLess(seed, base)
    ensures Backed(w, given, base, r.acceptedPreconditions) && Evidenced(w, r.final.file, base)
  {
    var c: Config :| AsksNoLess(c, seed) &&
      (RanClean(w, r.final.file, c, runs) || FailedOnlyArtifacts(w, r.final.file, c, runs))
      && ProbeReached(w, r.final.file, c, runs);
    assert AsksNoLess(c, base);
    assert Evidence(w, r.final.file, base, runs);
    assert Substantiated(w, given, base, r, runs);
  }

  // ------------------------------------------------------------ the first attempt

  /** The configuration with its bound widened so often. */
  function Widened(config: Config, k: nat): Config { config.(unwind := config.unwind * Power4(k)) }

  /** At its `k`-th widening the bound is what ran out. */
  predicate RanOut(w: World, file: File, config: Config, k: nat) {
    var a := w.run(k, file, Widened(config, k));
    a.Some? && a.value.outcome == UnwindLimit
  }

  /** The bound is widened for the last time before the `n`-th run: there it holds, or may be widened no more. */
  ghost predicate LastRun(w: World, file: File, config: Config, escalations: nat, n: nat) {
    && n <= escalations && (n == escalations || !RanOut(w, file, config, n))
    && forall k: nat :: k < n ==> RanOut(w, file, config, k)
  }

  lemma LastRunOnce(w: World, file: File, config: Config, escalations: nat, m: nat, n: nat)
    requires LastRun(w, file, config, escalations, m) && LastRun(w, file, config, escalations, n)
    ensures m == n
  {
  }

  lemma WidenedMore(config: Config, k: nat)
    ensures Widened(config, k + 1) == Widened(config, k).(unwind := Widened(config, k).unwind * 4)
  {
    var u, q := config.unwind, Power4(k);
    assert u * (4 * q) == u * q * 4;
  }

  /** The runs of one attempt: the base config, then the bound widened while it is what ran out. */
  method RunWidening(w: World, file: File, config: Config, escalations: nat)
    returns (r: Option<VerifyResult>, widened: Config, runs: nat)
    ensures runs > 0 && LastRun(w, file, config, escalations, runs - 1) && widened == Widened(config, runs - 1)
    ensures var a := w.run(runs - 1, file, widened);
            if r.None? then a.None? else a.Some? && r.value == Record(a.value, widened, file)
    ensures AsksNoLess(widened, config)
    ensures r.Some? ==> r.value.file == file && CleanVerdict(w, r.value)
    ensures r.Some? && r.value.outcome == Outcome.Verified ==> RanClean(w, file, widened, runs)
    ensures r.Some? && r.value.outcome == Counterexample ==> RanFailing(w, file, widened, r.value.properties, runs)
  {
    widened := config;
    r := Run(w, file, widened, 0);
    runs := 1;
    var attempt := 0;
    while r.Some? && r.value.outcome == UnwindLimit && attempt < escalations
      invariant AsksNoLess(widened, config)
      invariant attempt <= escalations && runs == attempt + 1 && widened == Widened(config, attempt)
      invariant forall k: nat :: k < attempt ==> RanOut(w, file, config, k)
      invariant var a := w.run(attempt, file, widened);
                if r.None? then a.None? else a.Some? && r.value == Record(a.value, widened, file)
      invariant r.Some? ==> r.value.file == file && CleanVerdict(w, r.value)
      invariant r.Some? && r.value.outcome == Outcome.Verified ==> RanClean(w, file, widened, runs)
      invariant r.Some? && r.value.outcome == Counterexample ==> RanFailing(w, file, widened, r.value.properties, runs)
      decreases escalations - attempt
    {
      assert RanOut(w, file, config, attempt);
      WidenedMore(config, attempt);
      widened := widened.(unwind := widened.unwind * 4);
      r := Run(w, file, widened, runs);
      runs, attempt := runs + 1, attempt + 1;
    }
  }

  function FirstProperty(r: VerifyResult): Option<Property> {
    if r.properties == [] then None else Some(r.properties[0])
  }

  /** What an attempt comes to whose last run is the `n`-th, made under `c`: the outcome of that run, but a proof is
      probed, and asked whether it terminates if it has a loop. None is an exception. */
  ghost predicate RunComesTo(w: World, file: File, c: Config, n: nat, hasLoop: bool, answer: Option<VerifyResult>,
      verdict: Verdict, terminates: Option<bool>) {
    match w.run(n, file, c)
    case None => answer == None
    case Some(a) =>
      if a.outcome == Outcome.Verified then
        ProofComesTo(w, file, c, n + 1, hasLoop, Record(a, c, file), answer, verdict, terminates)
      else answer == Some(Record(a, c, file)) && verdict == Checked(a.outcome) && terminates == None
  }

  /** The same of a proof, after so many runs. */
  ghost predicate ProofComesTo(w: World, file: File, c: Config, runs: nat, hasLoop: bool, proof: VerifyResult,
      answer: Option<VerifyResult>, verdict: Verdict, terminates: Option<bool>) {
    exists reachability :: ProbeShows(w, file, c, runs, reachability) &&
      match reachability
      case Vacuous => answer == Some(proof) && verdict == Vacuity && terminates == None
      case Unconfirmed => answer == Some(proof) && verdict == Unsettled && terminates == None
      case Reachable =>
        var asked := w.run(LastProbe(w, file, c, runs).1, file, c.(termination := true));
        if hasLoop && asked == None then answer == None
        else
          && answer == Some(proof) && verdict == Checked(Outcome.Verified)
          && terminates == if hasLoop then Some(asked.value.outcome == Outcome.Verified) else None
  }

  /** The runs, the probe of a proof and the question whether it terminates. None is an exception raised there. */
  method Check(w: World, file: File, config: Config, escalations: nat, hasLoop: bool)
    returns (answer: Option<VerifyResult>, verdict: Verdict, terminates: Option<bool>)
    ensures verdict == Checked(Outcome.Verified) ==> Evidenced(w, file, config)
    ensures exists n: nat :: LastRun(w, file, config, escalations, n) &&
              RunComesTo(w, file, Widened(config, n), n, hasLoop, answer, verdict, terminates)
    ensures verdict != Preconditioned && verdict != Refused
    ensures terminates.Some? ==> verdict == Checked(Outcome.Verified)
    ensures answer.Some? && verdict == Checked(Outcome.Verified) ==>
              answer.value.outcome == Outcome.Verified && CleanVerdict(w, answer.value)
    ensures answer.Some? && verdict == Checked(Counterexample) ==> ShownFails(w, file, FirstProperty(answer.value))
  {
    var widened, runs;
    answer, widened, runs := RunWidening(w, file, config, escalations);
    terminates := None;
    if answer == None { return None, Checked(ToolError), None; }
    verdict := Checked(answer.value.outcome);
    if answer.value.outcome == Outcome.Verified {
      var reachability, runs' := ProbeReachability(w, file, widened, runs);
      if reachability != Reachable {
        return answer, if reachability == Vacuous then Vacuity else Unsettled, None;
      }
      assert Evidence(w, file, config, runs');
      if hasLoop {
        terminates := CheckTermination(w, file, widened, runs');
        if terminates == None { return None, Checked(ToolError), None; }
      }
    }
  }

  /** The result due to a function at its first attempt. */
  ghost predicate Attempted(p: Project, config: Config, escalations: nat, v: View) {
    match p.generate(v.name)
    case Refusal => v == Bare(v.name, Refused)
    case Unwritten => v == Bare(v.name, Checked(ToolError))
    case Ready(h) =>
      exists n: nat, answer, verdict, terminates :: LastRun(p.first(v.name), h.file, config, escalations, n) &&
        RunComesTo(p.first(v.name), h.file, Widened(config, n), n, p.hasLoop(v.name), answer, verdict, terminates) &&
        Reports(p, h, v, answer, verdict, terminates)
  }

  predicate Reports(p: Project, h: Harness, v: View, answer: Option<VerifyResult>, verdict: Verdict,
                    terminates: Option<bool>) {
    if answer == None then v == Bare(v.name, Checked(ToolError))
    else
      var ps := answer.value.properties;
      v == View(v.name, verdict, ps != [] && p.first(v.name).artifact(ps[0], h.file), if ps == [] then None else Some(ps[0]),
                terminates, [], h.assumptions, p.duration(v.name), None, false)
  }

  /** What `attempt` returns, with the exceptions it and `one` turn into a tool error. */
  method AttemptView(p: Project, name: string, config: Config, escalations: nat) returns (v: View)
    ensures v.name == name && Claim(p, config, v) && v.preconditions == [] && Attempted(p, config, escalations, v)
  {
    if p.generate(name).Refusal? { return Bare(name, Refused); }
    v := Bare(name, Checked(ToolError));
    if !p.generate(name).Ready? { return; }
    var harness := p.generate(name).harness;
    var answer, verdict, terminates := Check(p.first(name), harness.file, config, escalations, p.hasLoop(name));
    if answer == None {
      assert Reports(p, harness, v, answer, verdict, terminates);
      return;
    }
    v := View(name, verdict, MechanicalArtifact(p.first(name), answer.value, harness.file), FirstProperty(answer.value),
              terminates, [], harness.assumptions, p.duration(name), None, false);
    assert Reports(p, harness, v, answer, verdict, terminates);
  }

  /** A proof is reported as what its probe's last run shows, and as PROVED where that reached the call, unless the run
      asking whether a loop terminates could not be made. */
  lemma ProofIsReported(p: Project, config: Config, escalations: nat, v: View, n: nat, a: Answer)
    requires Attempted(p, config, escalations, v) && Harnessed(p, v.name)
    requires var file := p.generate(v.name).harness.file;
      && LastRun(p.first(v.name), file, config, escalations, n)
      && p.first(v.name).run(n, file, Widened(config, n)) == Some(a) && a.outcome == Outcome.Verified
    ensures var probe := LastProbe(p.first(v.name), p.generate(v.name).harness.file, Widened(config, n), n + 1).0;
      && (v.verdict == Vacuity <==> probe.Some? && probe.value.outcome == Outcome.Verified)
      && (v.verdict == Unsettled ==>
            !ProbeFails(p.first(v.name), p.generate(v.name).harness.file, Widened(config, n), n + 1))
      && (v.verdict !in {Vacuity, Unsettled} ==>
            ProbeFails(p.first(v.name), p.generate(v.name).harness.file, Widened(config, n), n + 1))
    ensures var last := LastProbe(p.first(v.name), p.generate(v.name).harness.file, Widened(config, n), n + 1).1;
      var asked := p.first(v.name).run(last, p.generate(v.name).harness.file, Widened(config, n).(termination := true));
      v.verdict !in {Vacuity, Unsettled} ==>
        if p.hasLoop(v.name) && asked == None then v.verdict == Checked(ToolError)
        else
          && v.verdict == Checked(Outcome.Verified)
          && v.terminates == if p.hasLoop(v.name) then Some(asked.value.outcome == Outcome.Verified) else None
  {
    var w, file := p.first(v.name), p.generate(v.name).harness.file;
    forall m: nat | LastRun(w, file, config, escalations, m) ensures m == n {
      LastRunOnce(w, file, config, escalations, m, n);
    }
  }

  /** So what a function's last run found is what is reported of it. */
  lemma FoundIsReported(p: Project, config: Config, escalations: nat, v: View, n: nat, a: Answer)
    requires Attempted(p, config, escalations, v) && Harnessed(p, v.name)
    requires var file := p.generate(v.name).harness.file;
      && LastRun(p.first(v.name), file, config, escalations, n)
      && p.first(v.name).run(n, file, Widened(config, n)) == Some(a) && a.outcome != Outcome.Verified
    ensures v.verdict == Checked(a.outcome) && v.shown == if a.properties == [] then None else Some(a.properties[0])
  {
    var w, file := p.first(v.name), p.generate(v.name).harness.file;
    forall m: nat | LastRun(w, file, config, escalations, m) ensures m == n {
      LastRunOnce(w, file, config, escalations, m, n);
    }
  }

  // ------------------------------------------------------------ the passes

  const AGENT_BUDGET: Budget := Budget(6, 2)

  /** What a report of an agent without a model says is about the file given, under no precondition. */
  ghost predicate AsGiven(w: World, given: File, base: Config, r: AgentReport) {
    && r.acceptedPreconditions == [] && (r.IsVerified() ==> Evidenced(w, given, base))
    && (r.final.outcome == Counterexample ==> ShownFails(w, given, FirstProperty(r.final)))
  }

  /** `verify_with_agent`, as both passes call it. None is an exception they catch. */
  method RunAgent(w: World, given: File, seed: Config, assumptions: seq<string>, base: Config)
    returns (r: Option<AgentReport>, runs: nat)
    requires DiffsAreScripts(w) && AsksNoLess(seed, base)
    ensures Comes(w, Budget(6, 2), Started(given, seed, assumptions, Some(given)), r)
    ensures r.Some? ==> Sound(w, given, seed, AGENT_BUDGET, r.value, runs)
    ensures r.Some? && r.value.IsVerified() ==> Backed(w, given, base, r.value.acceptedPreconditions)
    ensures r.Some? && Silent(w) ==> AsGiven(w, given, base, r.value)
  {
    var llm;
    r, llm, runs := VerifyWithAgent(w, given, seed, AGENT_BUDGET, assumptions, Some(given));
    if r.Some? && r.value.IsVerified() { Weakened(w, given, seed, base, r.value, runs); }
    if r.Some? && r.value.final.outcome == Counterexample {
      assert ShownFails(w, r.value.final.file, FirstProperty(r.value.final));
    }
  }

  /** Whether a retry settled its function. */
  predicate Settles(a: AgentReport) {
    (a.final.outcome == Outcome.Verified && a.IsVerified()) || a.final.outcome == Counterexample
  }

  /** What a retry that settled leaves of a result. */
  function Retried(p: Project, v: View, a: AgentReport): View
    requires Harnessed(p, v.name)
  {
    var conditional := a.final.outcome == Outcome.Verified && a.acceptedPreconditions != [];
    v.(verdict := if conditional then Preconditioned else Checked(a.final.outcome),
       preconditions := if conditional then a.acceptedPreconditions else v.preconditions,
       artifact := MechanicalArtifact(p.retry(v.name), a.final, p.generate(v.name).harness.file),
       terminates := a.terminates, shown := FirstProperty(a.final))
  }

  /** What triage leaves of a counterexample. */
  function Triaged(v: View, a: AgentReport, said: Option<Option<Kind>>): View {
    var labelled := match said
      case None => v
      case Some(None) => v.(triageError := true)
      case Some(Some(kind)) => v.(triageKind := Some(kind));
    if a.final.outcome == Outcome.Verified && a.acceptedPreconditions != [] && a.IsVerified()
    then labelled.(verdict := Preconditioned, preconditions := a.acceptedPreconditions) else labelled
  }

  /** The config a retry is seeded with, past the bounds the first attempt tried. */
  function Seed(v: View, config: Config, escalations: nat): Config {
    if v.verdict == Checked(Timeout) then config.(incremental := true, kInduction := false)
    else config.(unwind := config.unwind * Power4(escalations + 1))
  }

  function Power4(n: nat): (r: nat)
    ensures r >= 1
  {
    if n == 0 then 1 else 4 * Power4(n - 1)
  }

  lemma Power4Is(n: nat)
    ensures Power4(0) == 1 && Power4(1) == 4 && Power4(n + 1) == 4 * Power4(n)
  {
  }

  lemma SeedAsksNoLess(v: View, config: Config, escalations: nat)
    ensures AsksNoLess(Seed(v, config, escalations), config)
  {
    assert config.unwind * Power4(escalations + 1) >= config.unwind * 1;
  }

  /** The budget can afford a retry of this result. */
  predicate Affordable(v: View, remaining: int) {
    remaining >= (if v.verdict == Checked(Timeout) then 4 else 2) * v.duration
  }

  /** How the agent may answer for a result, seeded past the bounds that were tried. */
  ghost predicate RetryAnswer(p: Project, config: Config, escalations: nat, was: View, answer: Option<AgentReport>) {
    Harnessed(p, was.name) &&
      var file := p.generate(was.name).harness.file;
      var seed := if was.verdict == Checked(Timeout) then config.(incremental := true, kInduction := false)
                  else config.(unwind := config.unwind * Power4(escalations + 1));
      && Comes(p.retry(was.name), Budget(6, 2), Started(file, seed, was.assumptions, Some(file)), answer)
      && (answer.Some? ==> exists runs :: Sound(p.retry(was.name), file, seed, Budget(6, 2), answer.value, runs))
  }

  /** The turn of one candidate with this much of the budget left: tried if that can afford it, settled if the agent's
      answer is a counterexample or is verified, and then what that says. */
  ghost predicate RetryTurned(p: Project, config: Config, escalations: nat, was: View, remaining: int, now: View,
      tried: bool, settled: bool) {
    && (tried <==> remaining >= (if was.verdict == Checked(Timeout) then 4 else 2) * was.duration)
    && if !tried then now == was && !settled
       else RetriedSo(p, config, escalations, was, now, settled)
  }

  ghost predicate RetriedSo(p: Project, config: Config, escalations: nat, was: View, now: View, settled: bool) {
    exists answer :: RetryAnswer(p, config, escalations, was, answer) && RetrySettles(p, was, answer, now, settled)
  }

  predicate RetrySettles(p: Project, was: View, answer: Option<AgentReport>, now: View, settled: bool)
    requires Harnessed(p, was.name)
  {
    && (settled <==> answer.Some? && (answer.value.final.outcome == Counterexample || answer.value.IsVerified()))
    && if !settled then now == was
       else
         var f, ps := answer.value.final, answer.value.final.properties;
         now == was.(verdict := Checked(f.outcome), shown := if ps == [] then None else Some(ps[0]),
                     artifact := ps != [] && p.retry(was.name).artifact(ps[0], p.generate(was.name).harness.file),
                     terminates := answer.value.terminates)
  }

  /** How the agent may answer for a counterexample, with the model. */
  ghost predicate TriageAnswer(p: Project, config: Config, was: View, answer: Option<AgentReport>) {
    Harnessed(p, was.name) &&
      var file := p.generate(was.name).harness.file;
      && Comes(p.triage(was.name), Budget(6, 2), Started(file, config, was.assumptions, Some(file)), answer)
      && (answer.Some? ==> exists runs :: Sound(p.triage(was.name), file, config, Budget(6, 2), answer.value, runs))
  }

  /** The turn of one result in triage: a counterexample that is no artifact is labelled as the model says, and is
      conditional if its agent's report is verified under preconditions. */
  ghost predicate TriageTurned(p: Project, config: Config, was: View, now: View) {
    if !(Harnessed(p, was.name) && was.verdict == Checked(Counterexample) && !was.artifact) then now == was
    else exists answer :: TriageAnswer(p, config, was, answer) &&
           if answer == None then now == was.(triageError := true)
           else Relabelled(p.diagnosis(was.name), was, answer.value, now)
  }

  predicate Relabelled(said: Option<Option<Kind>>, was: View, a: AgentReport, now: View) {
    var conditional := a.IsVerified() && a.acceptedPreconditions != [];
    && now == was.(triageError := now.triageError, triageKind := now.triageKind,
                   verdict := if conditional then Preconditioned else was.verdict,
                   preconditions := if conditional then a.acceptedPreconditions else was.preconditions)
    && now.triageError == (was.triageError || said == Some(None))
    && now.triageKind == if said.Some? && said.value.Some? then said.value else was.triageKind
  }

  /** What a settled retry says is backed by it. */
  lemma RetriedClaims(p: Project, config: Config, v: View, a: AgentReport)
    requires Retryable(p, v) && Claim(p, config, v) && Settles(a)
    requires (a.terminates.Some? ==> a.IsVerified()) && CleanVerdict(p.retry(v.name), a.final)
    requires AsGiven(p.retry(v.name), p.generate(v.name).harness.file, config, a)
    ensures Claim(p, config, Retried(p, v, a))
  {
  }

  /** A retry settles a function by a proof or by a counterexample, never under a precondition. */
  lemma RetryIsUnconditional(p: Project, config: Config, escalations: nat, was: View, remaining: int, now: View, tried: bool,
      settled: bool)
    requires RetryTurned(p, config, escalations, was, remaining, now, tried, settled)
    ensures now.name == was.name && now.preconditions == was.preconditions
    ensures if settled then now.verdict in {Checked(Outcome.Verified), Checked(Counterexample)} else now == was
  {
  }

  predicate Unconditional(vs: seq<View>) { forall v <- vs :: v.verdict != Preconditioned }

  /** The fields a settled retry writes. */
  method Apply(p: Project, r: FunctionResult, agent: AgentReport)
    requires Harnessed(p, r.name)
    modifies r
    ensures r.Now() == Retried(p, old(r.Now()), agent)
  {
    r.verdict := Checked(agent.final.outcome);
    if agent.final.outcome == Outcome.Verified && agent.acceptedPreconditions != [] {
      r.verdict := Preconditioned;
      r.preconditions := agent.acceptedPreconditions;
    }
    r.artifact := MechanicalArtifact(p.retry(r.name), agent.final, p.generate(r.name).harness.file);
    r.terminates := agent.terminates;
    r.shown := FirstProperty(agent.final);
  }

  /** One candidate of `_retry_pass`. */
  method RetryOne(p: Project, r: FunctionResult, config: Config, escalations: nat, remaining: int)
    returns (tried: bool, settled: bool)
    requires Lawful(p) && Retryable(p, r.Now()) && Claim(p, config, r.Now())
    modifies r
    ensures Claim(p, config, r.Now()) && r.name == old(r.name) && (settled ==> tried)
    ensures RetryTurned(p, config, escalations, old(r.Now()), remaining, r.Now(), tried, settled)
  {
    tried, settled := Affordable(r.Now(), remaining), false;
    if tried { settled := Retry(p, r, config, escalations); }
  }

  /** The agent's run for it. */
  method Retry(p: Project, r: FunctionResult, config: Config, escalations: nat) returns (settled: bool)
    requires Lawful(p) && Retryable(p, r.Now()) && Claim(p, config, r.Now())
    modifies r
    ensures Claim(p, config, r.Now()) && r.name == old(r.name)
    ensures RetriedSo(p, config, escalations, old(r.Now()), r.Now(), settled)
  {
    ghost var was := r.Now();
    SeedAsksNoLess(was, config, escalations);
    var w, given := p.retry(r.name), p.generate(r.name).harness.file;
    var answer, runs := RunAgent(w, given, Seed(r.Now(), config, escalations), r.assumptions, config);
    assert RetryAnswer(p, config, escalations, was, answer);
    settled := false;
    if answer != None {
      var final := answer.value.final;
      settled := final.outcome == Outcome.Verified || final.outcome == Counterexample;
      if final.outcome == Outcome.Verified && !answer.value.IsVerified() { settled := false; }
      SettledSo(p, was, answer.value, settled);
      if settled {
        RetriedClaims(p, config, was, answer.value);
        Apply(p, r, answer.value);
      }
    }
    assert RetrySettles(p, was, answer, r.Now(), settled);
  }

  lemma SettledSo(p: Project, was: View, a: AgentReport, settled: bool)
    requires Retryable(p, was) && (settled <==> Settles(a)) && a.acceptedPreconditions == []
    ensures RetrySettles(p, was, Some(a), if settled then Retried(p, was, a) else was, settled)
  {
  }

  lemma TriagedClaims(p: Project, config: Config, v: View, a: AgentReport, said: Option<Option<Kind>>)
    requires Triageable(p, v) && Claim(p, config, v)
    requires a.IsVerified() ==> Backed(p.triage(v.name), p.generate(v.name).harness.file, config, a.acceptedPreconditions)
    ensures Claim(p, config, Triaged(v, a, said))
  {
  }

  /** One candidate of `_triage_pass`. */
  method TriageOne(p: Project, r: FunctionResult, config: Config)
    requires Lawful(p) && Triageable(p, r.Now()) && Claim(p, config, r.Now())
    modifies r
    ensures TriageTurned(p, config, old(r.Now()), r.Now()) && Claim(p, config, r.Now())
  {
    ghost var was := r.Now();
    var answer, runs := RunAgent(p.triage(r.name), p.generate(r.name).harness.file, config, r.assumptions, config);
    assert TriageAnswer(p, config, was, answer);
    if answer == None {
      r.triageError := true;
      UntriagedTurns(p, config, was);
    } else {
      TriagedClaims(p, config, was, answer.value, p.diagnosis(r.name));
      TriagedTurns(p, config, was, answer.value);
      Label(r, answer.value, p.diagnosis(r.name));
    }
  }

  lemma UntriagedTurns(p: Project, config: Config, v: View)
    requires Triageable(p, v) && TriageAnswer(p, config, v, None)
    ensures TriageTurned(p, config, v, v.(triageError := true))
  {
  }

  lemma TriagedTurns(p: Project, config: Config, v: View, a: AgentReport)
    requires Triageable(p, v) && TriageAnswer(p, config, v, Some(a))
    ensures TriageTurned(p, config, v, Triaged(v, a, p.diagnosis(v.name)))
  {
    TriagedRelabels(v, a, p.diagnosis(v.name));
  }

  lemma TriagedRelabels(v: View, a: AgentReport, said: Option<Option<Kind>>)
    requires v.verdict == Checked(Counterexample)
    ensures Relabelled(said, v, a, Triaged(v, a, said))
  {
  }

  /** The fields triage writes. */
  method Label(r: FunctionResult, agent: AgentReport, said: Option<Option<Kind>>)
    modifies r
    ensures r.Now() == Triaged(old(r.Now()), agent, said)
  {
    match said {
      case None =>
      case Some(None) => r.triageError := true;
      case Some(Some(kind)) => r.triageKind := Some(kind);
    }
    if agent.final.outcome == Outcome.Verified && agent.acceptedPreconditions != [] && agent.IsVerified() {
      r.verdict := Preconditioned;
      r.preconditions := agent.acceptedPreconditions;
    }
  }

  // ------------------------------------------------------------ the report

  class ScanReport {
    var results: seq<FunctionResult>
    var candidates: nat
    var triaged: bool
    var retried: nat
    var settled: nat
    ghost var views: seq<View>

    /** Separate objects, and `views` is what they say. */
    ghost predicate Valid()
      reads this, results
    {
      && |views| == |results|
      && (forall k :: 0 <= k < |results| ==> results[k].Now() == views[k])
      && (forall i, j :: 0 <= i < j < |results| ==> results[i] != results[j])
    }

    constructor (candidates: nat)
      ensures Valid() && results == [] && views == []
      ensures this.candidates == candidates && !triaged && retried == 0 && settled == 0
    {
      results, views, triaged, retried, settled := [], [], false, 0, 0;
      this.candidates := candidates;
    }

    /** `report.results.append(result)`. */
    method Append(r: FunctionResult)
      requires Valid() && r !in results
      modifies this`results, this`views
      ensures Valid() && results == old(results) + [r] && views == old(views) + [r.Now()]
    {
      results, views := results + [r], views + [r.Now()];
    }

    method Count(tries: nat, settles: nat)
      requires Valid()
      modifies this`retried, this`settled
      ensures Valid() && retried == tries && settled == settles
    {
      retried, settled := tries, settles;
    }

    /** What every result says, for the sort. */
    method Say() returns (vs: seq<View>)
      requires Valid()
      ensures vs == views
    {
      vs := [];
      for k := 0 to |results|
        invariant vs == views[..k]
      {
        vs := vs + [results[k].Now()];
      }
    }
  }

  ghost predicate ClaimsAt(p: Project, config: Config, vs: seq<View>, k: nat)
    requires k < |vs|
  {
    Claim(p, config, vs[k])
  }

  ghost predicate AllClaim(p: Project, config: Config, vs: seq<View>) {
    forall k: nat {:trigger ClaimsAt(p, config, vs, k)} :: k < |vs| ==> ClaimsAt(p, config, vs, k)
  }

  lemma ClaimAt(p: Project, config: Config, vs: seq<View>, k: nat)
    requires AllClaim(p, config, vs) && k < |vs|
    ensures Claim(p, config, vs[k])
  {
    assert ClaimsAt(p, config, vs, k);
  }

  /** A PROVED in the report is a reachable proof of that function's own harness, as generated, under no precondition. */
  lemma ProvedMeans(p: Project, config: Config, vs: seq<View>, k: nat)
    requires AllClaim(p, config, vs) && k < |vs| && vs[k].verdict == Checked(Outcome.Verified)
    ensures vs[k].preconditions == [] && Harnessed(p, vs[k].name)
    ensures var file := p.generate(vs[k].name).harness.file;
      Evidenced(p.first(vs[k].name), file, config) || Evidenced(p.retry(vs[k].name), file, config)
  {
    ClaimAt(p, config, vs, k);
  }

  lemma ClaimUpdate(p: Project, config: Config, vs: seq<View>, k: nat, v: View)
    requires AllClaim(p, config, vs) && k < |vs| && Claim(p, config, v)
    ensures AllClaim(p, config, vs[k := v])
  {
    var next := vs[k := v];
    forall i: nat | i < |vs| ensures ClaimsAt(p, config, next, i) {
      if i != k { assert ClaimsAt(p, config, vs, i); }
    }
  }

  // ------------------------------------------------------------ what a whole pass comes to

  function Trues(bs: seq<bool>): nat {
    if bs == [] then 0 else Trues(bs[..|bs| - 1]) + if bs[|bs| - 1] then 1 else 0
  }

  ghost predicate TurnTaken(p: Project, config: Config, escalations: nat, was: seq<View>, now: seq<View>, order: seq<nat>,
      tried: seq<bool>, settled: seq<bool>, n: nat)
    requires n < |tried| == |settled| <= |order| && |was| == |now|
  {
    && order[n] < |was|
    && RetryTurned(p, config, escalations, was[order[n]], p.remaining(n), now[order[n]], tried[n], settled[n])
  }

  /** So many candidates have had their turn, with more than five seconds left at each, and nothing else is changed. */
  ghost predicate TurnsTaken(p: Project, config: Config, escalations: nat, was: seq<View>, now: seq<View>, order: seq<nat>,
      tried: seq<bool>, settled: seq<bool>) {
    && |was| == |now| && |tried| == |settled| <= |order|
    && (forall n: nat {:trigger TurnTaken(p, config, escalations, was, now, order, tried, settled, n)} ::
          n < |tried| ==> TurnTaken(p, config, escalations, was, now, order, tried, settled, n))
    && (forall n: nat :: n < |tried| ==> p.remaining(n) > 5)
    && forall k: nat :: k < |was| && k !in order[..|tried|] ==> now[k] == was[k]
  }

  /** What a retry pass comes to: the candidates in turn, until less than that is left. */
  ghost predicate RetryPassed(p: Project, config: Config, escalations: nat, was: seq<View>, now: seq<View>, retried: nat,
      settles: nat) {
    exists order, tried, settled {:trigger TurnsTaken(p, config, escalations, was, now, order, tried, settled)} ::
      ListsCandidates(p, was, order) && CheapestFirst(was, order)
      && TurnsTaken(p, config, escalations, was, now, order, tried, settled)
      && (|tried| < |order| ==> p.remaining(|tried|) <= 5) && retried == Trues(tried) && settles == Trues(settled)
  }

  lemma TruesMore(bs: seq<bool>, b: bool)
    ensures Trues(bs + [b]) == Trues(bs) + if b then 1 else 0
  {
    assert (bs + [b])[..|bs|] == bs;
  }

  lemma {:induction false} TurnTakenOne(p: Project, config: Config, escalations: nat, was: seq<View>, now: seq<View>,
      order: seq<nat>, tried: seq<bool>, settled: seq<bool>, v: View, t: bool, s: bool)
    requires TurnsTaken(p, config, escalations, was, now, order, tried, settled) && |tried| < |order|
    requires ListsCandidates(p, was, order) && order[|tried|] < |was| && p.remaining(|tried|) > 5
    requires RetryTurned(p, config, escalations, now[order[|tried|]], p.remaining(|tried|), v, t, s)
    ensures TurnsTaken(p, config, escalations, was, now[order[|tried|] := v], order, tried + [t], settled + [s])
  {
    var n, next := |tried|, now[order[|tried|] := v];
    assert order[..n + 1] == order[..n] + [order[n]];
    assert order[n] !in order[..n];
    forall i: nat | i < n + 1
      ensures TurnTaken(p, config, escalations, was, next, order, tried + [t], settled + [s], i)
    {
      if i < n {
        assert TurnTaken(p, config, escalations, was, now, order, tried, settled, i);
        assert order[i] in order[..n];
        TurnStays(p, config, escalations, was, now, order, tried, settled, i, order[n], v, t, s);
      }
    }
  }

  lemma {:induction false} TurnStays(p: Project, config: Config, escalations: nat, was: seq<View>, now: seq<View>,
      order: seq<nat>, tried: seq<bool>, settled: seq<bool>, i: nat, k: nat, v: View, t: bool, s: bool)
    requires i < |tried| == |settled| < |order| && |was| == |now| && k < |was| && order[i] != k
    requires TurnTaken(p, config, escalations, was, now, order, tried, settled, i)
    ensures TurnTaken(p, config, escalations, was, now[k := v], order, tried + [t], settled + [s], i)
  {
  }

  ghost predicate TurnsCounted(p: Project, config: Config, escalations: nat, was: seq<View>, now: seq<View>, order: seq<nat>,
      tried: seq<bool>, settled: seq<bool>, tries: nat, settles: nat) {
    && TurnsTaken(p, config, escalations, was, now, order, tried, settled)
    && tries == Trues(tried) && settles == Trues(settled)
  }

  lemma {:induction false} TurnCounted(p: Project, config: Config, escalations: nat, was: seq<View>, now: seq<View>,
      order: seq<nat>, tried: seq<bool>, settled: seq<bool>, tries: nat, settles: nat, v: View, t: bool, s: bool)
    requires TurnsCounted(p, config, escalations, was, now, order, tried, settled, tries, settles) && |tried| < |order|
    requires ListsCandidates(p, was, order) && order[|tried|] < |was| && p.remaining(|tried|) > 5
    requires RetryTurned(p, config, escalations, now[order[|tried|]], p.remaining(|tried|), v, t, s)
    ensures TurnsCounted(p, config, escalations, was, now[order[|tried|] := v], order, tried + [t], settled + [s],
                         tries + (if t then 1 else 0), settles + if s then 1 else 0)
  {
    TurnTakenOne(p, config, escalations, was, now, order, tried, settled, v, t, s);
    TruesMore(tried, t);
    TruesMore(settled, s);
  }

  lemma NotYet(p: Project, config: Config, escalations: nat, was: seq<View>, now: seq<View>, order: seq<nat>,
      tried: seq<bool>, settled: seq<bool>)
    requires TurnsTaken(p, config, escalations, was, now, order, tried, settled) && |tried| < |order|
    requires ListsCandidates(p, was, order)
    ensures order[|tried|] < |was| && now[order[|tried|]] == was[order[|tried|]] && Retryable(p, was[order[|tried|]])
  {
    assert order[|tried|] in order && order[|tried|] !in order[..|tried|];
  }

  ghost predicate SoFar(p: Project, config: Config, escalations: nat, was: seq<View>, now: seq<View>, order: seq<nat>,
                        n: nat, tries: nat, settles: nat) {
    exists tried, settled :: |tried| == n &&
      TurnsCounted(p, config, escalations, was, now, order, tried, settled, tries, settles)
  }

  lemma NoneSoFar(p: Project, config: Config, escalations: nat, was: seq<View>, order: seq<nat>)
    ensures SoFar(p, config, escalations, was, was, order, 0, 0, 0)
  {
    assert TurnsCounted(p, config, escalations, was, was, order, [], [], 0, 0);
  }

  /** The next candidate is as it was. */
  lemma NextIs(p: Project, config: Config, escalations: nat, was: seq<View>, now: seq<View>, order: seq<nat>, n: nat,
      tries: nat, settles: nat)
    requires SoFar(p, config, escalations, was, now, order, n, tries, settles)
    requires ListsCandidates(p, was, order) && n < |order|
    ensures order[n] < |was| == |now| && Retryable(p, now[order[n]])
  {
    var tried, settled :| |tried| == n &&
      TurnsCounted(p, config, escalations, was, now, order, tried, settled, tries, settles);
    NotYet(p, config, escalations, was, now, order, tried, settled);
  }

  lemma NextSoFar(p: Project, config: Config, escalations: nat, was: seq<View>, now: seq<View>, order: seq<nat>, n: nat,
      tries: nat, settles: nat, v: View, t: bool, s: bool, next: seq<View>, tries': nat, settles': nat)
    requires SoFar(p, config, escalations, was, now, order, n, tries, settles) && ListsCandidates(p, was, order)
    requires n < |order| && order[n] < |was| == |now| && p.remaining(n) > 5 && next == now[order[n] := v]
    requires RetryTurned(p, config, escalations, now[order[n]], p.remaining(n), v, t, s)
    requires tries' == tries + (if t then 1 else 0) && settles' == settles + if s then 1 else 0
    ensures SoFar(p, config, escalations, was, next, order, n + 1, tries', settles')
  {
    var tried, settled :| |tried| == n &&
      TurnsCounted(p, config, escalations, was, now, order, tried, settled, tries, settles);
    TurnCounted(p, config, escalations, was, now, order, tried, settled, tries, settles, v, t, s);
    assert |tried + [t]| == n + 1;
  }

  lemma AfterRetry(p: Project, config: Config, escalations: nat, was: seq<View>, now: seq<View>, order: seq<nat>,
      tried: seq<bool>, settled: seq<bool>)
    requires TurnsTaken(p, config, escalations, was, now, order, tried, settled)
    ensures SameNames(was, now) && (Unconditional(was) ==> Unconditional(now))
  {
    forall k: nat | k < |was|
      ensures now[k].name == was[k].name && (now[k].verdict == Preconditioned ==> was[k].verdict == Preconditioned)
    {
      AfterTurns(p, config, escalations, was, now, order, tried, settled, k);
    }
    if Unconditional(was) {
      forall v | v in now ensures v.verdict != Preconditioned {
        var k: nat :| k < |now| && now[k] == v;
        assert was[k] in was;
      }
    }
  }

  lemma AfterTurns(p: Project, config: Config, escalations: nat, was: seq<View>, now: seq<View>, order: seq<nat>,
      tried: seq<bool>, settled: seq<bool>, k: nat)
    requires TurnsTaken(p, config, escalations, was, now, order, tried, settled) && k < |was|
    ensures now[k].name == was[k].name && (now[k].verdict == Preconditioned ==> was[k].verdict == Preconditioned)
  {
    if k in order[..|tried|] {
      var n: nat :| n < |tried| && order[n] == k;
      assert TurnTaken(p, config, escalations, was, now, order, tried, settled, n);
      RetryIsUnconditional(p, config, escalations, was[k], p.remaining(n), now[k], tried[n], settled[n]);
    }
  }

  lemma AllSoFar(p: Project, config: Config, escalations: nat, was: seq<View>, now: seq<View>, order: seq<nat>, n: nat,
      tries: nat, settles: nat)
    requires SoFar(p, config, escalations, was, now, order, n, tries, settles) && ListsCandidates(p, was, order)
    requires CheapestFirst(was, order) && (n < |order| ==> p.remaining(n) <= 5)
    ensures RetryPassed(p, config, escalations, was, now, tries, settles)
    ensures SameNames(was, now) && (Unconditional(was) ==> Unconditional(now))
  {
    var tried, settled :| |tried| == n &&
      TurnsCounted(p, config, escalations, was, now, order, tried, settled, tries, settles);
    AfterRetry(p, config, escalations, was, now, order, tried, settled);
  }

  /** A candidate's turn, seen from all the results. */
  method RetryTurn(p: Project, report: ScanReport, i: nat, config: Config, escalations: nat, remaining: int)
    returns (tried: bool, settled: bool, ghost v: View)
    requires Lawful(p) && report.Valid() && i < |report.views|
    requires Retryable(p, report.views[i]) && Claim(p, config, report.views[i])
    modifies report`views, report.results[i]
    ensures report.Valid() && report.views == old(report.views)[i := v] && Claim(p, config, v)
    ensures RetryTurned(p, config, escalations, old(report.views[i]), remaining, v, tried, settled) && (settled ==> tried)
  {
    tried, settled := RetryOne(p, report.results[i], config, escalations, remaining);
    v := report.results[i].Now();
    report.views := report.views[i := v];
  }

  /** The turn of the `n`-th candidate. */
  method RetryNext(p: Project, report: ScanReport, order: seq<nat>, n: nat, config: Config, escalations: nat,
      ghost was: seq<View>, tries: nat, settles: nat) returns (tries': nat, settles': nat)
    requires Lawful(p) && report.Valid() && ListsCandidates(p, was, order) && n < |order| && p.remaining(n) > 5
    requires AllClaim(p, config, report.views)
    requires SoFar(p, config, escalations, was, report.views, order, n, tries, settles)
    modifies report`views, report.results
    ensures report.Valid() && AllClaim(p, config, report.views)
    ensures SoFar(p, config, escalations, was, report.views, order, n + 1, tries', settles')
    ensures tries <= tries' <= tries + 1 && settles <= settles' <= settles + tries' - tries
  {
    ghost var now := report.views;
    NextIs(p, config, escalations, was, now, order, n, tries, settles);
    ClaimAt(p, config, now, order[n]);
    var tried, settled, v := RetryTurn(p, report, order[n], config, escalations, p.remaining(n));
    ClaimUpdate(p, config, now, order[n], v);
    tries' := if tried then tries + 1 else tries;
    settles' := if settled then settles + 1 else settles;
    NextSoFar(p, config, escalations, was, now, order, n, tries, settles, v, tried, settled, report.views, tries', settles');
  }

  /** The candidates in turn, while the budget lasts. */
  method RetryLoop(p: Project, report: ScanReport, order: seq<nat>, config: Config, escalations: nat,
      ghost was: seq<View>) returns (tries: nat, settles: nat)
    requires Lawful(p) && report.Valid() && ListsCandidates(p, was, order) && report.views == was
    requires AllClaim(p, config, was) && CheapestFirst(was, order)
    modifies report`views, report.results
    ensures report.Valid() && AllClaim(p, config, report.views)
    ensures settles <= tries <= |order| && RetryPassed(p, config, escalations, was, report.views, tries, settles)
    ensures SameNames(was, report.views) && (Unconditional(was) ==> Unconditional(report.views))
  {
    tries, settles := 0, 0;
    NoneSoFar(p, config, escalations, was, order);
    for n := 0 to |order|
      invariant report.Valid() && report.results == old(report.results) && AllClaim(p, config, report.views)
      invariant settles <= tries <= n && SoFar(p, config, escalations, was, report.views, order, n, tries, settles)
    {
      if p.remaining(n) <= 5 {
        AllSoFar(p, config, escalations, was, report.views, order, n, tries, settles);
        return;
      }
      tries, settles := RetryNext(p, report, order, n, config, escalations, was, tries, settles);
    }
    AllSoFar(p, config, escalations, was, report.views, order, |order|, tries, settles);
  }

  /** The results worth a second attempt, the cheapest first. */
  method Candidates(p: Project, report: ScanReport) returns (order: seq<nat>)
    requires Lawful(p) && report.Valid()
    ensures ListsCandidates(p, report.views, order) && CheapestFirst(report.views, order)
  {
    var vs := report.Say();
    var pairs: seq<(nat, nat)> := [];
    for k := 0 to |vs|
      invariant PairsUpto(p, vs, k, pairs)
    {
      if Retryable(p, vs[k]) { pairs := pairs + [(k, vs[k].duration)]; }
    }
    order := p.byDuration(pairs);
    SortedCandidates(p, vs, pairs, order);
  }

  /** The candidates among the first `n` results, with their durations. */
  ghost predicate PairsUpto(p: Project, vs: seq<View>, n: nat, pairs: seq<(nat, nat)>) {
    && (forall q <- pairs :: q.0 < n && q.0 < |vs| && Candidate(p, vs[q.0]) && q.1 == vs[q.0].duration)
    && (forall k: nat :: k < n && k < |vs| && Candidate(p, vs[k]) ==> (k, vs[k].duration) in pairs)
    && Increasing(pairs)
  }

  lemma SortedCandidates(p: Project, vs: seq<View>, pairs: seq<(nat, nat)>, order: seq<nat>)
    requires PairsUpto(p, vs, |vs|, pairs) && Sorts(pairs, order)
    ensures ListsCandidates(p, vs, order) && CheapestFirst(vs, order)
  {
    forall k: nat | k < |vs| && Candidate(p, vs[k]) ensures k in order {
      assert (k, vs[k].duration) in pairs && (k, vs[k].duration).0 == k;
    }
    forall i, j | 0 <= i < j < |order| && order[i] < |vs| && order[j] < |vs|
      ensures vs[order[i]].duration <= vs[order[j]].duration
    {
      assert order[i] in order && order[j] in order;
      var q :| q in pairs && q.0 == order[i];
      var r :| r in pairs && r.0 == order[j];
    }
  }

  /** `_retry_pass`. */
  method RetryPass(p: Project, report: ScanReport, config: Config, escalations: nat)
    requires Lawful(p) && report.Valid() && AllClaim(p, config, report.views)
    modifies report`views, report`retried, report`settled, report.results
    ensures report.Valid() && AllClaim(p, config, report.views)
    ensures report.settled <= report.retried <= |report.results|
    ensures SameNames(old(report.views), report.views)
    ensures Unconditional(old(report.views)) ==> Unconditional(report.views)
    ensures RetryPassed(p, config, escalations, old(report.views), report.views, report.retried, report.settled)
  {
    ghost var was := report.views;
    var order := Candidates(p, report);
    CandidatesFit(p, was, order);
    var tries, settles := RetryLoop(p, report, order, config, escalations, was);
    report.Count(tries, settles);
  }

  lemma CandidatesFit(p: Project, was: seq<View>, order: seq<nat>)
    requires ListsCandidates(p, was, order)
    ensures |order| <= |was|
  {
    OrderFits(order, |was|);
  }

  lemma {:induction false} OrderFits(order: seq<nat>, n: nat)
    requires (forall k <- order :: k < n) && forall i, j :: 0 <= i < j < |order| ==> order[i] != order[j]
    ensures |order| <= n
  {
    var seen := set k | k in order;
    Below(seen, n);
    SizeOf(order, seen);
  }

  lemma {:induction false} SizeOf(order: seq<nat>, s: set<nat>)
    requires (forall i, j :: 0 <= i < j < |order| ==> order[i] != order[j]) && s == set k | k in order
    ensures |order| == |s|
  {
    if order != [] {
      var rest, first := order[1..], order[0];
      var others := set k | k in rest;
      SizeOf(rest, others);
      assert first !in others;
      assert s == others + {first};
    }
  }

  lemma {:induction false} Below(s: set<nat>, n: nat)
    requires forall k <- s :: k < n
    ensures |s| <= n
  {
    if n > 0 {
      Below(s - {n - 1}, n - 1);
      assert s <= (s - {n - 1}) + {n - 1};
      assert |s| <= |s - {n - 1}| + 1;
    } else {
      assert s == {};
    }
  }

  /** What a triage pass comes to for the first `n` results. */
  ghost predicate TriagePassed(p: Project, config: Config, was: seq<View>, now: seq<View>, n: nat) {
    n <= |was| == |now| && forall k :: 0 <= k < n ==> TriageTurned(p, config, was[k], now[k])
  }

  lemma TriagedOne(p: Project, config: Config, n: nat, was: seq<View>, now: seq<View>, v: View)
    requires n < |was| == |now| && was[n..] == now[n..] && TriagePassed(p, config, was, now, n)
    requires TriageTurned(p, config, now[n], v)
    ensures var next := now[n := v]; was[n + 1..] == next[n + 1..] && TriagePassed(p, config, was, next, n + 1)
  {
    assert was[n] == was[n..][0] && now[n] == now[n..][0];
    assert was[n + 1..] == was[n..][1..] && now[n := v][n + 1..] == now[n..][1..];
  }

  /** A result's turn, seen from all of them. */
  method TriageTurn(p: Project, report: ScanReport, i: nat, config: Config) returns (ghost v: View)
    requires Lawful(p) && report.Valid() && i < |report.views| && Claim(p, config, report.views[i])
    modifies report`views, report.results[i]
    ensures report.Valid() && report.views == old(report.views)[i := v] && Claim(p, config, v)
    ensures TriageTurned(p, config, old(report.views[i]), v)
  {
    if Triageable(p, report.results[i].Now()) { TriageOne(p, report.results[i], config); }
    v := report.results[i].Now();
    report.views := report.views[i := v];
  }

  /** `_triage_pass`; touching one candidate leaves the others, so they may be chosen on the way. */
  method TriagePass(p: Project, report: ScanReport, config: Config)
    requires Lawful(p) && report.Valid() && AllClaim(p, config, report.views)
    modifies report`views, report.results
    ensures report.Valid() && AllClaim(p, config, report.views)
    ensures TriagePassed(p, config, old(report.views), report.views, |report.views|)
    ensures SameNames(old(report.views), report.views)
  {
    ghost var was := report.views;
    for n := 0 to |report.results|
      invariant report.Valid() && report.results == old(report.results)
      invariant AllClaim(p, config, report.views)
      invariant was[n..] == report.views[n..] && TriagePassed(p, config, was, report.views, n)
    {
      ghost var now := report.views;
      ClaimAt(p, config, now, n);
      ghost var v := TriageTurn(p, report, n, config);
      ClaimUpdate(p, config, now, n, v);
      TriagedOne(p, config, n, was, now, v);
    }
    TriagedNames(p, config, was, report.views);
  }

  predicate SameNames(was: seq<View>, now: seq<View>) {
    |was| == |now| && forall k :: 0 <= k < |was| ==> now[k].name == was[k].name
  }

  predicate Named(vs: seq<View>, names: seq<string>) {
    |vs| == |names| && forall k :: 0 <= k < |names| ==> vs[k].name == names[k]
  }

  /** Triage leaves every result with its function. */
  lemma TriagedNames(p: Project, config: Config, was: seq<View>, now: seq<View>)
    requires TriagePassed(p, config, was, now, |was|)
    ensures SameNames(was, now)
  {
    forall k | 0 <= k < |was| ensures now[k].name == was[k].name {
      TriagedName(p, config, was[k], now[k]);
    }
  }

  lemma TriagedName(p: Project, config: Config, was: View, now: View)
    requires TriageTurned(p, config, was, now)
    ensures now.name == was.name
  {
  }

  lemma AllClaimFrom(p: Project, config: Config, vs: seq<View>)
    requires forall v <- vs :: Claim(p, config, v)
    ensures AllClaim(p, config, vs)
  {
    forall k: nat | k < |vs| ensures ClaimsAt(p, config, vs, k) { assert vs[k] in vs; }
  }

  /** One function's attempt, appended; `claim` is the claim, or less. */
  method AttemptNext(p: Project, report: ScanReport, name: string, config: Config, escalations: nat,
      ghost claim: View -> bool) returns (r: FunctionResult, ghost v: View)
    requires report.Valid()
    requires forall v :: Claim(p, config, v) && v.preconditions == [] && Attempted(p, config, escalations, v) ==> claim(v)
    modifies report`results, report`views
    ensures report.Valid() && fresh(r) && report.results == old(report.results) + [r]
    ensures report.views == old(report.views) + [v] && v.name == name && claim(v)
  {
    var said := AttemptView(p, name, config, escalations);
    v := said;
    r := new FunctionResult(said);
    report.Append(r);
  }

  method Attempts(p: Project, report: ScanReport, names: seq<string>, config: Config, escalations: nat,
      ghost claim: View -> bool)
    requires report.Valid() && report.results == [] && report.views == []
    requires forall v :: Claim(p, config, v) && v.preconditions == [] && Attempted(p, config, escalations, v) ==> claim(v)
    modifies report`results, report`views
    ensures report.Valid() && fresh(report.results)
    ensures (forall v <- report.views :: claim(v)) && Named(report.views, names)
  {
    for k := 0 to |names|
      invariant report.Valid() && fresh(report.results)
      invariant (forall v <- report.views :: claim(v)) && Named(report.views, names[..k])
    {
      ghost var was := report.views;
      var _, v := AttemptNext(p, report, names[k], config, escalations, claim);
      NamedOneMore(was, v, names, k);
    }
    assert names[..|names|] == names;
  }

  /** The mechanical pass. The worker threads finish in any order, and the results are then sorted by name;
      `names` is sorted. */
  method FirstPass(p: Project, report: ScanReport, names: seq<string>, config: Config, escalations: nat)
    requires report.Valid() && report.results == [] && report.views == []
    modifies report`results, report`views
    ensures report.Valid() && fresh(report.results)
    ensures AllClaim(p, config, report.views) && Named(report.views, names) && Unconditional(report.views)
    ensures forall v <- report.views :: Attempted(p, config, escalations, v)
  {
    ghost var claim := v => Claim(p, config, v) && v.preconditions == [] && Attempted(p, config, escalations, v);
    Attempts(p, report, names, config, escalations, claim);
    assert forall v <- report.views :: claim(v);
    AllClaimFrom(p, config, report.views);
  }

  lemma NamedOneMore(was: seq<View>, v: View, names: seq<string>, k: nat)
    requires k < |names| && Named(was, names[..k]) && v.name == names[k]
    ensures Named(was + [v], names[..k + 1])
  {
  }

  ghost predicate RetriedIfAny(p: Project, config: Config, escalations: nat, budget: int, was: seq<View>, now: seq<View>,
      retried: nat, settled: nat) {
    if budget > 0 then RetryPassed(p, config, escalations, was, now, retried, settled)
    else now == was && retried == settled == 0
  }

  ghost predicate TriagedIfAny(p: Project, config: Config, llm: bool, was: seq<View>, now: seq<View>) {
    if llm then TriagePassed(p, config, was, now, |now|) else now == was
  }

  /** What a scan comes to: the result due to every function at its first attempt, then what the retry pass makes of those
      if there is a budget for it, then what triage makes of these if there is a model. */
  ghost predicate ScanComes(p: Project, names: seq<string>, config: Config, escalations: nat, budget: int, llm: bool,
      vs: seq<View>, retried: nat, settled: nat) {
    exists first, mid ::
      Named(first, names) && (forall v <- first :: Attempted(p, config, escalations, v))
      && RetriedIfAny(p, config, escalations, budget, first, mid, retried, settled) && TriagedIfAny(p, config, llm, mid, vs)
  }

  /** The retry pass, if there is a budget for it. */
  method MaybeRetry(p: Project, report: ScanReport, names: seq<string>, config: Config, escalations: nat, budget: int)
    requires Lawful(p) && report.Valid() && AllClaim(p, config, report.views) && Named(report.views, names)
    requires report.retried == report.settled == 0
    modifies report`views, report`retried, report`settled, report.results
    ensures report.Valid() && AllClaim(p, config, report.views) && Named(report.views, names)
    ensures report.settled <= report.retried <= |names| && (budget <= 0 ==> report.retried == 0)
    ensures Unconditional(old(report.views)) ==> Unconditional(report.views)
    ensures RetriedIfAny(p, config, escalations, budget, old(report.views), report.views, report.retried, report.settled)
  {
    if budget > 0 { RetryPass(p, report, config, escalations); }
  }

  /** The triage pass, if there is a model for it. */
  method MaybeTriage(p: Project, report: ScanReport, names: seq<string>, config: Config, llm: bool)
    requires Lawful(p) && report.Valid() && AllClaim(p, config, report.views) && Named(report.views, names)
    requires !report.triaged
    modifies report`views, report`triaged, report.results
    ensures report.Valid() && AllClaim(p, config, report.views) && Named(report.views, names)
    ensures report.triaged == llm && TriagedIfAny(p, config, llm, old(report.views), report.views)
  {
    if llm {
      TriagePass(p, report, config);
      report.triaged := true;
    }
  }

  /** The passes, one after the other. */
  method Passes(p: Project, report: ScanReport, names: seq<string>, config: Config, escalations: nat, retryBudget: int,
      llm: bool)
    requires Lawful(p) && report.Valid() && report.results == [] && report.views == []
    requires report.retried == report.settled == 0 && !report.triaged
    modifies report`results, report`views, report`retried, report`settled, report`triaged
    ensures report.Valid() && Named(report.views, names) && AllClaim(p, config, report.views)
    ensures report.settled <= report.retried <= |names| && report.triaged == llm
    ensures (retryBudget <= 0 ==> report.retried == 0) && (!llm ==> Unconditional(report.views))
    ensures ScanComes(p, names, config, escalations, retryBudget, llm, report.views, report.retried, report.settled)
  {
    FirstPass(p, report, names, config, escalations);
    ghost var first := report.views;
    MaybeRetry(p, report, names, config, escalations, retryBudget);
    ghost var mid := report.views;
    MaybeTriage(p, report, names, config, llm);
    TheyCome(p, names, config, escalations, retryBudget, llm, first, mid, report.views, report.retried, report.settled);
  }

  lemma TheyCome(p: Project, names: seq<string>, config: Config, escalations: nat, budget: int, llm: bool,
      first: seq<View>, mid: seq<View>, vs: seq<View>, retried: nat, settled: nat)
    requires Named(first, names) && forall v <- first :: Attempted(p, config, escalations, v)
    requires RetriedIfAny(p, config, escalations, budget, first, mid, retried, settled)
    requires TriagedIfAny(p, config, llm, mid, vs)
    ensures ScanComes(p, names, config, escalations, budget, llm, vs, retried, settled)
  {
  }

  /** `scan`: every function in turn, then the passes. */
  method Scan(p: Project, names: seq<string>, config: Config, escalations: nat, retryBudget: int, llm: bool)
    returns (report: ScanReport)
    requires Lawful(p)
    ensures fresh(report) && report.Valid() && report.candidates == |names| && Named(report.views, names)
    ensures AllClaim(p, config, report.views)
    ensures report.settled <= report.retried <= |names| && report.triaged == (llm && names != [])
    ensures retryBudget <= 0 ==> report.retried == 0
    ensures !llm ==> Unconditional(report.views)
    ensures names != [] ==>
      ScanComes(p, names, config, escalations, retryBudget, llm, report.views, report.retried, report.settled)
  {
    report := new ScanReport(|names|);
    if names == [] { return; }
    Passes(p, report, names, config, escalations, retryBudget, llm);
  }

  /** Without retries and without a model, every function's result is the one due at its first attempt. */
  lemma FirstAttemptsStand(p: Project, names: seq<string>, config: Config, escalations: nat, budget: int, vs: seq<View>,
      retried: nat, settled: nat, k: nat)
    requires ScanComes(p, names, config, escalations, budget, false, vs, retried, settled) && budget <= 0 && k < |names|
    ensures |vs| == |names| && vs[k].name == names[k] && Attempted(p, config, escalations, vs[k])
  {
    assert vs[k] in vs;
  }

  // ------------------------------------------------------------ the buckets

  datatype Bucket = Proved | Counterexamples | Artifacts | Conditional | RefusedBucket | Inconclusive

  /** The lists of a report a result is in. */
  function Buckets(v: View): set<Bucket> {
    (if v.verdict == Checked(Outcome.Verified) then {Proved} else {})
    + (if v.verdict == Checked(Counterexample) && !v.artifact then {Counterexamples} else {})
    + (if v.artifact then {Artifacts} else {})
    + (if v.verdict == Preconditioned then {Conditional} else {})
    + (if v.verdict == Refused then {RefusedBucket} else {})
    + (if v.verdict != Checked(Outcome.Verified) && v.verdict != Checked(Counterexample) && v.verdict != Refused
          && v.verdict != Preconditioned then {Inconclusive} else {})
  }

  /** Every result is in a bucket; in two at once only an artifact is, whose other bucket is the one its
      outcome names; and, with a checker that names no property where it finds none, that is the inconclusive one. */
  lemma BucketsCover(p: Project, config: Config, v: View)
    requires Claim(p, config, v)
    ensures Buckets(v) != {}
    ensures forall a, b :: a in Buckets(v) && b in Buckets(v) && a != b ==> v.artifact && Artifacts in {a, b}
    ensures AllClean(p) ==>
              forall a, b :: a in Buckets(v) && b in Buckets(v) && a != b ==> {a, b} == {Artifacts, Inconclusive}
  {
  }

  /** Exactly: one bucket unless a failure shown as an artifact stands beside an outcome that is no counterexample. */
  lemma OneBucketIff(v: View)
    ensures (exists b :: Buckets(v) == {b}) <==> !(v.artifact && v.verdict != Checked(Counterexample))
  {
    var all := Buckets(v);
    if v.artifact && v.verdict != Checked(Counterexample) {
      assert Artifacts in all;
      assert exists b :: b in all && b != Artifacts by {
        if v.verdict == Checked(Outcome.Verified) { assert Proved in all; }
        else if v.verdict == Preconditioned { assert Conditional in all; }
        else if v.verdict == Refused { assert RefusedBucket in all; }
        else { assert Inconclusive in all; }
      }
    } else {
      var b := if v.artifact then Artifacts else if v.verdict == Checked(Outcome.Verified) then Proved
               else if v.verdict == Checked(Counterexample) then Counterexamples
               else if v.verdict == Preconditioned then Conditional
               else if v.verdict == Refused then RefusedBucket else Inconclusive;
      assert all == {b};
    }
  }
}
