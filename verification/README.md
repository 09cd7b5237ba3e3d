# veripp, modelled and proved

veripp drives an untrusted model checker over generated C harnesses: it builds a harness for a function, runs
the checker, widens bounds, asks a language model for preconditions and loop assertions, and reports "verified"
only where a run and a reachability probe back it. This project models the algorithms that verdict rests on and
proves what they are for. The checker, the language model, the clock, the diff and the file system answer
anything, unless a theorem says what it asks of them (a checker that is right, a hash that keeps texts apart).

| Part | Modules |
|---|---|
| Assertion-only rewrites | `Tokens`, `Spelling`, `Language`, `Gate`, `GateSoundness`, `GateAccepts`, `Rewrites`, `Erasure`; `LineReadings`, `SmallPrograms`, `GateMisses` |
| The agent loop | `AgentLoop` |
| The object builder | `Target`, `ObjectBuilder`, `BuilderSoundness`, `BuilderTheorems`, `BuilderObjects`, `BuilderVacuity`, `VacuousNests` |
| Include closure | `IncludeClosure` |
| The lexical layer | `Scrub`, `Brackets`, `Splitting`, `Typedefs` |
| Relocated compilation databases | `Paths`, `CompileDb`, `Relocation` |
| Scan passes and the verdict cache | `ScanPasses`, `CacheKey`, `Cache` |
| Trace parsing, in-place conversion | `TraceParser`, `Utf16` |

The parts compose. `AgentLoop.VerifiedCoversHarness` reads a verified report through `Erasure.ChainIsSafe`; the passes
of `ScanPasses` call `AgentLoop.VerifyWithAgent`, so that PROVED in a report is the loop's own evidence;
`CacheKey.ExtraFiles` calls `IncludeClosure.LocalIncludeClosure`, and `Cache.Scanned` calls `ScanPasses.Scan`,
`CacheKey.ExtraFiles` and `CacheKey.KeyFor` over files that change between runs, so that a served PROVED is that
evidence too (`Cache.ServedProof`). `Spelling` ties the lines of tokens the gate is modelled on to the characters `Scrub`
is about.

Each operation is pinned from both sides: what an answer rests on, and which answer is due. The gate refuses no good
assertion (`GateAccepts.PureAssertionsPass`), the loop reports a proof that was reached and a bug that was found
(`AgentLoop.FirstRunSettles`, `AgentLoop.ProvedIff`), a scan reports what the last run showed
(`ScanPasses.FoundIsReported`, `ScanPasses.ProofIsReported`), and the builder leaves every object it should
(`BuilderObjects.ExploredIff`).

## What the code does not promise

Where a property the documentation or the shape of the code suggests is false, the code is kept, an input shows it,
and the exact condition is proved.

- The gate's promise, that an accepted rewrite is the original with assertions added that change no state, fails in
  three ways, each shown by accepted rewrites that are safe while the original fails. First, a condition can act where
  the pattern for side effects finds nothing: it takes only an ASCII word before a parenthesis for a call, so
  `assert((reset)());`, `assert((fn_t){reset}());`, `assert(reset<int>());`, a call of a name that begins with another
  letter, and a macro or keyword that stands for an effect (`throw`, `new`, `and_eq`) all pass
  (`GateMisses.HiddenCallMissed`, `CompoundLiteralMissed`, `TemplateCallMissed`, `ForeignNameMissed`, `EffectNameMissed`).
  Every condition that passes the gate and may write is missed so (`GateMisses.UnseenIsMissed`). Second, the gate can be
  wrong about where a line stands: an inserted line comment that lands inside a block comment can close it and act, when
  a later line opens one and closes it again (`NestedCommentMissed`); and what it takes for the end of a statement above
  may be skipped by a conditional directive, be the last line of a macro, be the rest of a line comment that a backslash
  continues, or stand above an `#include` that pulls in code, so that the assertion becomes what an `if` guards
  (`BelowConditionalMissed`, `BelowMacroMissed`, `BelowCommentMissed`, `BelowIncludeMissed`). Third, an inserted line can
  change what a kept line below it starts in, where `scrub` blanks both readings alike (`LostLineMissed`, in which the
  other two conditions hold). The promise holds exactly when an accepted rewrite is `WellBehaved`
  (`Erasure.AcceptedIsPreservedIff`): the inserted lines that the gate cannot see rightly (they start in a comment or a
  literal, or the look upwards meets a directive that may skip or pull in code, or a line that `scrub` misreads or that
  goes on with a directive) are nothing or a well-placed assertion; kept lines that start otherwise than they did, and
  that `scrub` misreads, read as they did; and no inserted condition holds a brace, a name that stands for an effect, or
  a parenthesis behind a word that is no ASCII name, a `)`, a `]` or a `>`. That a condition then reads and cannot write
  is as far as its tokens tell: a cast `(T)(x)` and a comparison `a > (b)` are counted as calls, and an overloaded
  operator or a user-defined literal is taken to read.
- The builder's own assumptions can contradict each other: a table of structs is nulled and its count forced to 0
  while a mask invariant asks for a power of two (`VacuousNests.MaskedTableIsVacuous`). And an index array is recognised
  by its name alone: if it points to structs or to anything, the assumption about its elements names an array that was
  never declared. There is nothing to check exactly when some struct of the nest has a count of structs, or a field
  kept within one by growth checks and cursor bounds, that is a mask or bounds an index array that needs room, or has an
  index array that is not there (`VacuousNests.VacuousIff`).
- `scrub` misreads a block comment right after `*`, and one whose first character is `/`; it reads every character as
  the C standard does exactly when no comment opens so (`Scrub.SameReadingIff`). It changes its own output exactly when
  something that is not blank follows an opening quote (`Scrub.ScrubbedTwiceIff`).
- `split_top_level` counts angle brackets and `_split_args` does not (`Splitting.SplittersAgreeIff`).
- Relocating an entry gives what the database would say had the tree been built where it now is, except in these
  cases, and in no other (`Relocation.RelocationIff`): a relative include path is rebased with its directory and again
  by itself when it ends under the old root, as every one does that stays in a tree moved to below where it was
  (`Relocation.MovedBelowItself`); a relative path from a build directory outside the tree is moved though it still leads
  where it did (`Relocation.BuiltElsewhere`); an absolute path that climbs out of the old root comes to another place;
  and a database that names no directory, standing in the old tree, has its directory moved.
- Normalising a type twice can change it, exactly when the table of spellings gives one that the project makes an alias
  (`Typedefs.NormalisedTwiceIff`).
- The cache key does not cover where the source is, so two copies of a source that are compiled with different headers
  can share a key, and either is answered with the other's report (`Cache.TwinsShareAKey`); runs on one source that share
  a key compile the same code (`Cache.SameKeySameCode`). A NUL in a file makes the digested stream ambiguous
  (`CacheKey.NulsCollide`). And the key is said to follow headers at any depth, but the walk marks a header where it first
  meets it: met at the last of its 64 levels by a detour, it is not followed when it is met again near the top, and a
  header it includes is compiled and not covered (`IncludeClosure.DepthMisses`, for every depth;
  `CacheKey.HeaderNotCovered`), so that it can change and the key stay (`Cache.UnseenSharesAKey`). No header is missed
  where the depth is at least the number of headers (`IncludeClosure.SeenIsReached`). A stored scan that left something open without a retry is not served again to the run that
  asked for it (`Cache.ServesItsOwnQuestionIff`).
- Converting in place overtakes its input from the fourth three-byte unit on (`Utf16.FourWideUnitsCorrupt`); it never
  does exactly when no proper prefix has three more three-byte than one-byte units (`Utf16.NeverOvertakesIff`).

## Model

| member | source | states |
|---|---|---|
| `Gate.CheckInserted` | src/veripp/agent.py:429-434 | The first inserted line that is refused is found, or none is, and lines that are more than comment are counted. |
| `Gate.CheckOpcodes` | src/veripp/agent.py:417-434 | Passes exactly when every kept stretch scrubs alike in both files and no inserted line is refused. |
| `Gate.NotJustAssertions` | src/veripp/agent.py:392-437 | Refuses for edited lines exactly when a stretch is replaced or deleted, for a raw string exactly when one was there, for a redefined assertion or a changed reading only where there is one, and answers None exactly when `Accepts` holds; `GateAccepts.AcceptedIff` says of which rewrites it does. |
| `GateAccepts.UnrefusedIff` | src/veripp/agent.py:442-488 | A line is let in if and only if it is joined to no other line and is a remark, or is one assertion without a word of assuming that shows in the scrubbed text and has nothing but blank lines and directives between it and a `;`, `{` or `}`. |
| `GateAccepts.AcceptedIff` | src/veripp/agent.py:392-488 | Where every inserted line is seen rightly, a rewrite is accepted if and only if it only inserts, holds no raw string and no redefined assertion, leaves what was there scrubbing alike, and adds remarks and at least one assertion below the end of a statement of the compiled text. |
| `GateAccepts.PureAssertionsPass` | src/veripp/agent.py:392-488 | No good rewrite is refused: remarks and assertions that cannot write, in the sense of `GateSoundness.HarmlessIff`, below the end of a statement, pass. |
| `GateSoundness.ScriptAgrees` | src/veripp/agent.py:417-428 | An accepted edit script aligns the two files line by line, kept lines being the same and scrubbing to the same cells wherever each starts. |
| `GateSoundness.SameCellsSamePieces` | src/veripp/agent.py:420-428 | A line with the same blanks from two modes outside literals compiles alike from both. |
| `GateSoundness.AboveIsReady` | src/veripp/agent.py:472-487 | If the nearest scrubbed line above that is no directive ends in `;`, `{` or `}`, and every line on the way is read rightly and no directive there may skip or pull in code, the compiled program before the line ends where a statement may begin. |
| `GateSoundness.ReadsCollapsed` | src/veripp/agent.py:454-457 | A clean prefix of the literal-collapsed line is, literals folded, what a compiler reads of the line. |
| `GateSoundness.AcceptedFromCodeIsHarmless` | src/veripp/agent.py:442-471 | An unrefused line read from code is nothing or one assertion, in which no assignment, no `;` and no call by name is spotted. |
| `GateSoundness.HarmlessIff` | src/veripp/agent.py:348-354 | What is shaped as the gate wants is an assertion that cannot write if and only if its condition holds no call past the pattern (behind a word that is no ASCII name, a `)`, a `]` or a `>`), no brace and no name that stands for an effect, purity being defined without the gate's pattern. |
| `GateAccepts.SpottedIff` | src/veripp/agent.py:352-354 | A word before a parenthesis is taken for a call if and only if it begins with an ASCII letter or `_`; a keyword always is, `sizeof` never. |
| `Spelling.LineRead` | src/veripp/cppsig.py:270-310 | Of the characters of a line, its tokens spelled in any way with a blank between any two, `scrub` makes what the gate model reads of the tokens, and the lexer of the C standard what its compiler reads of them: each comes out shown or blank as said, and the line ends in the mode said. |
| `Spelling.ScrubbedIs` | src/veripp/agent.py:417-419 | So the scrubbed lines the gate works on are, for every file, the lines of `scrub` of its text. |
| `Rewrites.ParseErases` | src/veripp/agent.py:392-407 | If a translation unit (functions, declarations with brace groups, `if`, `while`, `for`, `do`, `switch`, labels, braces within parentheses) with well-placed assertions inserted parses, so does the unit without them, and it is the first with those assertions erased. |
| `Language.EraseRun` | src/veripp/agent.py:395-400 | Every run of a unit with added assertions, calls of its own functions included, ends as the same run of the unit without them and reports every violation that one reports. Conditions and statements may do anything; all that is asked is that an assertion whose condition cannot write leaves the state alone. |
| `Language.EraseExec` | src/veripp/agent.py:395-400 | The same for one statement. |
| `Erasure.AcceptedIsPreservedIff` | src/veripp/agent.py:392-488 | An accepted rewrite is the file with well-placed assertions added that cannot write, every kept line reading as it did, the directives the same and the program without the insertions the same, if and only if it is well-behaved: the inserted lines the gate cannot see rightly behave, the kept lines that now start otherwise and are misread stay, and no inserted condition hides a call, braces or an effect. |
| `Erasure.StepIsSafe` | src/veripp/agent.py:395-400 | For an accepted, well-behaved rewrite of any file that parses as a translation unit, the original parses, and every run of the rewrite is the same run of the original with no violation of the original's lost. |
| `Erasure.ChainIsSafe` | src/veripp/agent.py:640-690 | Over any chain of such proposals, from any file: what the last file cannot violate, the first cannot. |
| `GateMisses.UnseenIsMissed` | src/veripp/agent.py:348-354 | Every condition that passes the gate, reads as one whole assertion and may write makes an accepted insertion that is safe while the original fails. |
| `GateMisses.HiddenCallMissed` | src/veripp/agent.py:352-354 | An accepted insertion of `assert((f)());`, for any `f`, that is safe while the original fails. |
| `GateMisses.CompoundLiteralMissed` | src/veripp/agent.py:352-354 | An accepted insertion of `assert((t){f}());`, which calls through a compound literal, that is safe while the original fails. |
| `GateMisses.TemplateCallMissed` | src/veripp/agent.py:352-354 | An accepted insertion of `assert(f<t>());`, which calls a template, that is safe while the original fails. |
| `GateMisses.ForeignNameMissed` | src/veripp/agent.py:352-354 | An accepted insertion of a call of any name that does not begin with an ASCII letter or `_`, that is safe while the original fails. |
| `GateMisses.EffectNameMissed` | src/veripp/agent.py:350-354 | An accepted insertion of an assertion of one word that stands for an effect, that is safe while the original fails. |
| `GateMisses.NestedCommentMissed` | src/veripp/agent.py:451-452 | An accepted line comment that lands in a block comment, closes it and acts; safe while the original fails. |
| `GateMisses.LostLineMissed` | src/veripp/agent.py:417-428 | An accepted line that uncovers a continued line comment, so that the kept line below is lost; safe while the original fails, though the inserted line behaves and its condition only reads. |
| `GateMisses.BelowConditionalMissed` | src/veripp/agent.py:475-483 | An accepted assertion below a skipped section becomes the body of an `if` above it; safe while the original fails. |
| `GateMisses.BelowMacroMissed` | src/veripp/agent.py:475-483 | An accepted assertion below the last line of a macro becomes the body of an `if` above that; safe while the original fails. |
| `GateMisses.BelowCommentMissed` | src/veripp/agent.py:472-483 | An accepted assertion below a line that a continued line comment takes in becomes the body of an `if` above; safe while the original fails. |
| `GateMisses.BelowIncludeMissed` | src/veripp/agent.py:475-483 | An accepted assertion below an `#include` that pulls in an `if` becomes its body; safe while the original fails. |
| `GateMisses.MissedIsUnsound` | src/veripp/agent.py:392-407 | No accepted rewrite that is safe while its original fails is well-behaved. |
| `AgentLoop.RealFailures` | src/veripp/triage.py:269-282 | Exactly the properties that are not mechanical artifacts. |
| `AgentLoop.Triage` | src/veripp/triage.py:546-588 | Which label and which precondition, by what the model answers to each call; at most three calls, none for a mechanical artifact, and no precondition with a real bug or without a model. |
| `AgentLoop.ProbeReachability` | src/veripp/agent.py:712-774 | REACHABLE if and only if the last probe run failed the probe's own assertion, VACUOUS if and only if it verified, the last being the second where the first failed on something else; at most two runs. |
| `AgentLoop.TriageRound` | src/veripp/agent.py:552-590 | Exactly when a run is looked past, once per run, with what the run asking for every property then gives; no failure is reported if and only if that one failed only artifacts. |
| `AgentLoop.CounterexampleTurn` | src/veripp/agent.py:552-625 | A harness is regenerated exactly under the one precondition proposed, within the rounds allowed; otherwise the report is of the round, the failure one that a run failed. |
| `AgentLoop.ProposedRewrite` | src/veripp/agent.py:645-677 | A file replaces the one under test only if the gate accepts it, which extends the lineage by one accepted step. |
| `AgentLoop.ProbedReport` | src/veripp/agent.py:531-550 | The report of a proof: what the probe shows, and termination asked exactly of a reached one, under the configuration that verified it; "verified" only with a reachable probe of the same file. |
| `AgentLoop.OnCounterexample` | src/veripp/agent.py:552-625 | The turn goes on with the regenerated harness or ends with the round's report as due, keeping the loop's invariant, or raises because a checker run could not be made. |
| `AgentLoop.OnTimeout` | src/veripp/agent.py:633-638 | The first timeout makes the strategy incremental and keeps everything else; after that the last attempt stands. |
| `AgentLoop.OnLimit` | src/veripp/agent.py:640-705 | The ladder, then a gated proposal; the invariant is kept. |
| `AgentLoop.Iterate` | src/veripp/agent.py:528-705 | Every turn is the one due of the state and the answers, records an attempt, keeps the invariant, and spends at most three model calls, six for the one that looks past an artifact. |
| `AgentLoop.VerifyWithAgent` | src/veripp/agent.py:491-705 | For every world: the report is the one due at the end of a sequence of turns, each due; it is about a file reached from a generated harness by accepted rewrites; "verified" from that of exactly the listed preconditions, one configuration that asks no less having verified it, or failed only artifacts, and reached its probe; a counterexample failed in a run of that file; without a model, the file is the one given, under no precondition; all by runs that were made, at most max+4 of them; at most max+2 attempts, max rounds of preconditions, 3·max+3 model calls. |
| `AgentLoop.FirstRunSettles` | src/veripp/agent.py:528-590 | With an attempt and time left, a first run that verifies, fails on what is taken for a real bug, or cannot be settled is the report's, with its properties, of the file given and under no precondition; it says "verified" if and only if that run verified and its probe's last run failed the probe's own assertion. |
| `AgentLoop.ProvedIff` | src/veripp/agent.py:531-590 | A loop that ends says "verified" if and only if its last run found no violation, or only the harness's own on looking past an artifact, and the probe of that file was reached. |
| `AgentLoop.AddedAre` | src/veripp/agent.py:380-389 | The assertions shown of an accepted rewrite are exactly the lines it adds that are no remarks. |
| `AgentLoop.VerifiedCoversHarness` | src/veripp/agent.py:97-110 | From a sound "verified" report alone, and a checker right about the file it saw: the file descends from the harness of the listed preconditions, and if its proposals are well-behaved, that harness, any harness, violates nothing, or, where only artifacts failed, nothing but artifacts. |
| `ObjectBuilder.FillFields` | src/veripp/harness.py:2915-3055 | Emits the fields in order, then the callbacks, then every constraint, on every struct graph, cyclic ones included; it terminates. What that builds is `BuilderObjects.BuiltAtTheCall`. |
| `BuilderSoundness.EmitStructStable` | src/veripp/harness.py:2915-3055 | For structs with distinct field names, no statement of the whole nest writes what an earlier one assumed of or established. |
| `BuilderSoundness.EmitStructWithin` | src/veripp/harness.py:2915-3280 | A fill touches only its own object, or storage declared for a pointer inside it. |
| `BuilderObjects.StructInBounds` | src/veripp/harness.py:3130-3280 | No execution of the program writes past the end of what it declares, the NUL of a terminated string and the fills of arrays included. |
| `Target.FinalState` | src/veripp/harness.py:3004-3055 | In a program nothing of which is overwritten, everything assumed holds in the state at the end. |
| `Target.RunsIff` | src/veripp/harness.py:3004-3055 | A stable program has an execution if and only if what its writes leave meets all its assumptions, and that is the state it ends in. |
| `BuilderTheorems.AssumptionsHoldAtTheCall` | src/veripp/harness.py:3004-3128 | At the call every emitted assumption holds, and every counted pointer in the nest is null with count 0 or has a count within the extent of its array. |
| `BuilderObjects.BuiltAtTheCall` | src/veripp/harness.py:2915-3280 | In every execution, at the call: a scalar holds a free choice, a callback a stub; a counted pointer storage of the bound with a count within it, or null with count 0; a string free characters with a 0 behind them, within its storage; another pointer null at the depth bound, one free value, bytes, or an object built in turn; and every constraint holds. |
| `BuilderObjects.ExploredIff` | src/veripp/harness.py:2763-3280 | And nothing else is ruled out: for what the solver may choose there is an execution if and only if the object meets the lengths, masks, growth checks, cursors and index bounds of every struct of the nest. |
| `BuilderVacuity.VacuousProgramIff` | src/veripp/harness.py:2915-3055 | Where every assumed array is declared, no nonnegative values meet the program's assumptions if and only if one it forces to 0 is assumed a power of two or to bound elements that need room. |
| `VacuousNests.SameInstance` | src/veripp/harness.py:3004-3280 | In a nest, one place holds one struct. |
| `VacuousNests.ContradictoryIff` | src/veripp/harness.py:2763-2912 | The program contradicts itself if and only if a struct of the nest does: chains of growth checks and cursor bounds from a mask or an index bound down to a count of structs. |
| `VacuousNests.VacuousIff` | src/veripp/harness.py:2763-3128 | With a positive array bound, the builder leaves nothing to check if and only if some struct of the nest does so, or has an index array that is never declared. |
| `VacuousNests.NeverVacuousByItself` | src/veripp/harness.py:3004-3128 | With no counted table of structs, and index arrays of scalars, characters or pointers, the object can always be built. |
| `VacuousNests.MaskedTableIsVacuous` | src/veripp/harness.py:3108-3128 | A counted table of structs whose count the library masks with makes every harness vacuous. |
| `IncludeClosure.Walk.Absorb` | src/veripp/harness.py:594-623 | Sees exactly what the walk over the names of a text sees (`Walked`), keeping the readable headers once each. |
| `IncludeClosure.WalkedReaches` | src/veripp/harness.py:594-623 | That walk sees only headers within the levels that remain. |
| `IncludeClosure.WalkedMissesNothing` | src/veripp/harness.py:594-623 | And misses none when a level is left for each header not yet seen. |
| `IncludeClosure.LocalIncludeClosure` | src/veripp/harness.py:576-625 | The readable headers the walk sees, each once, with its contents. |
| `IncludeClosure.ResolveIff` | src/veripp/harness.py:600-612 | A name is the header of that name in the first directory that has one, the including file's own, then the source's and the named ones in order, and none if none has. |
| `IncludeClosure.SeenIsReached` | src/veripp/harness.py:582-589 | Only headers within the depth, and every reachable one when the depth is at least their number, despite the shared visited set. |
| `IncludeClosure.DepthMisses` | src/veripp/harness.py:591-621 | For every depth of two or more, a tree in which a header two includes away is not found. |
| `Scrub.ScrubText` | src/veripp/cppsig.py:270-310 | The in-place scan computes what a per-character lexer computes, on every text. |
| `Scrub.LineComment` | src/veripp/cppsig.py:283-286 | Blanks to the line's end and leaves the lexer in code. |
| `Scrub.BlockComment` | src/veripp/cppsig.py:287-294 | Blanks to the first `*` `/` whose slash is at or after the opener, its own star included. |
| `Scrub.Literal` | src/veripp/cppsig.py:295-308 | Keeps the opening quote, blanks the rest and the closing quote, escapes skipped. |
| `Scrub.OffsetsKept` | src/veripp/cppsig.py:271-276 | Same length, each character kept or blanked, and exactly the same line breaks. |
| `Scrub.LineSpan` | src/veripp/cppsig.py:283-286 | A line comment, wherever it opens in code, comes out as blanks up to its line's end, and code goes on there. |
| `Scrub.BlockSpan` | src/veripp/cppsig.py:287-294 | A block comment comes out as blanks, line breaks kept, up to and with its first end, and code goes on behind it. |
| `Scrub.LiteralSpan` | src/veripp/cppsig.py:295-308 | A literal comes out as its opening quote and blanks, up to and with the first such quote behind an even number of backslashes, and code goes on behind it. |
| `Scrub.SameReadingIff` | src/veripp/cppsig.py:287-297 | Every character is code, comment or literal to `scrub` as to sections 6.4.9, 6.4.5 and 6.4.4.4 of ISO/IEC 9899:2011 if and only if no block comment opens after `*` or with `/` first. |
| `Scrub.BlanksAsTheStandard` | src/veripp/cppsig.py:270-310 | There it blanks exactly what the standard's lexer blanks. |
| `Scrub.NoTightOpenerIsLoose` | src/veripp/cppsig.py:270-310 | A text without the two three-character runs is such a text. |
| `Scrub.CommentAfterStar` | src/veripp/cppsig.py:287-294 | A text where the first condition fails. |
| `Scrub.CommentOpeningWithSlash` | src/veripp/cppsig.py:287-294 | A text where the second condition fails. |
| `Scrub.ScrubbedTwiceIff` | src/veripp/cppsig.py:295-308 | Scrubbing again changes nothing if and only if only blanks follow an opening quote in the scrubbed text. |
| `Brackets.MatchBracket` | src/veripp/cppsig.py:313-325 | The first place the scan stands at depth zero on the closer of the opener in the table of pairs, or none exists. |
| `Brackets.MatchingOpen` | src/veripp/cppsig.py:1056-1065 | The last place the scan back stands at depth zero on an opener, or none exists. |
| `Brackets.MatchedPrefixes` | src/veripp/cppsig.py:313-325 | Every proper prefix of a matched segment has positive depth. |
| `Brackets.MatchingIsMutual` | src/veripp/cppsig.py:1056-1065 | The forward match of `i` is `j` if and only if the backward match of `j` is `i`. |
| `Brackets.UnbalancedIff` | src/veripp/cppsig.py:325 | The error is raised if and only if every longer prefix has positive depth. |
| `Brackets.InnerPairsNest` | src/veripp/cppsig.py:313-325 | An opener inside a matched pair has its match inside it. |
| `Splitting.SplitTopLevel` | src/veripp/cppsig.py:328-342 | Returns the pieces, blank ones dropped and the others stripped. |
| `Splitting.SplitArgs` | src/veripp/triage.py:615-628 | The spans' texts are the pieces without angle brackets, none for blank text. |
| `Splitting.CountsPairs` | src/veripp/cppsig.py:328-342 | Counted are exactly the brackets of the pairs `match_bracket` matches, angle brackets on one side only. |
| `Splitting.StripIs` | src/veripp/cppsig.py:328-342 | A piece is stripped of blanks at both ends and of all of them. |
| `Splitting.PiecesUnique` | src/veripp/cppsig.py:328-342 | The pieces before stripping are the only way to cut the text exactly at its separators at depth zero so that joining gives the text back. |
| `Splitting.SplittersAgreeIff` | src/veripp/triage.py:615-628 | Both splitters give the same arguments if and only if counting angle brackets moves no comma to or from depth zero. |
| `Splitting.SplittersAgreeWithoutAngles` | src/veripp/triage.py:615-628 | In particular on every text without angle brackets. |
| `Typedefs.ChaseAlias` | src/veripp/cppsig.py:153-157 | Terminates on every alias graph at the chain's end. |
| `Typedefs.CollectScalarTypedefs` | src/veripp/cppsig.py:152-160 | Keeps exactly the aliases whose chain ends at a scalar other than themselves. |
| `Typedefs.EndIsItsOwnEnd` | src/veripp/cppsig.py:153-157 | From where a chain stops, the chain stops there again, on cycles too. |
| `Typedefs.ResolvedIsFinal` | src/veripp/cppsig.py:152-160 | A name some alias resolves to is never a resolved alias. |
| `Typedefs.LookupIsIdempotent` | src/veripp/cppsig.py:52-58 | One lookup reaches the end of the chain; a second changes nothing. |
| `Typedefs.NormalisedTwiceIff` | src/veripp/cppsig.py:52-59 | Normalising a type twice, suffix and table of spellings included, changes nothing if and only if the table does not give a bare type a spelling that is an alias. |
| `Paths.PathRoundTrip` | src/veripp/compdb.py:109-114 | A path printed and read back is the same path. |
| `Paths.SharedTail` | src/veripp/compdb.py:117-123 | The largest number of trailing parts on which two paths agree. |
| `Paths.NormaliseUpDown` | src/veripp/compdb.py:54-65 | A path below any root is normalised to the directory it climbs to from there, and then its way down, which depends on the path alone. |
| `Paths.StaysIff` | src/veripp/compdb.py:166-171 | A rebase keeps a path if and only if the roots are the same or it is not under the old one. |
| `CompileDb.Take` | src/veripp/compdb.py:212-229 | A turn of the argument loop: what is left builds on its result to the same entry. |
| `CompileDb.Parse` | src/veripp/compdb.py:200-230 | The entry built from the directives of the argument list. |
| `CompileDb.BuildSays` | src/veripp/compdb.py:200-230 | The entry holds of each flag exactly the values given to it, in order, include paths placed in the directory, and the last standard asked for. |
| `CompileDb.FlagRead` | src/veripp/compdb.py:212-221 | A flag that stands by itself takes the argument behind it, whatever that is. |
| `CompileDb.JoinedRead` | src/veripp/compdb.py:222-229 | A flag joined to its value takes that. |
| `CompileDb.Leaders` | src/veripp/compdb.py:140-149 | The best tail length and exactly the entries that have it. |
| `CompileDb.StrictBestIff` | src/veripp/compdb.py:151-160 | One entry is strictly best if and only if it alone has the best score. |
| `CompileDb.Relocated` | src/veripp/compdb.py:126-176 | Answers if and only if one entry's common tail is longer than every other's, and then with that entry moved between the two roots that remain of the two files without their longest common tail; None exactly when no tail is shared. |
| `CompileDb.EntryFor` | src/veripp/compdb.py:179-197 | The first entry that resolves to the target, unmoved; otherwise the entry with the longest common tail, moved between those roots. |
| `Relocation.MovedTokensRead` | src/veripp/compdb.py:212-229 | The argument list with the old root replaced by the new reads as the moved directives. |
| `Relocation.ValueIff` | src/veripp/compdb.py:166-175 | One value, any value: what relocation makes of it is what the moved database says if and only if a relative one does not end under the old root once its directory has moved, an absolute one outside the root does not end under it, and one inside ends inside both roots or outside both alike. |
| `Relocation.RelocationIff` | src/veripp/compdb.py:162-176 | The relocated entry is the entry of the moved database if and only if that holds of every path in it and of its directory. |
| `Relocation.RelocatedIff` | src/veripp/compdb.py:162-176 | What is answered, the two files being `from` and `to` with their longest common tail behind, is the moved database's entry if and only if the directory and every path in it move right; a directory below `from` is then the same one below `to`. |
| `Relocation.ApartCommutes` | src/veripp/compdb.py:126-176 | So where neither root contains the other and every path stays in the tree or out of it. |
| `Relocation.MovedBelowItself` | src/veripp/compdb.py:173-175 | Never so when the tree moved below its old root and the entry has a relative include path that stays in it. |
| `Relocation.BuiltElsewhere` | src/veripp/compdb.py:173-175 | Never so when the directory is outside the tree and a relative include path leads into it. |
| `Relocation.MovedEntryIsTheTargets` | src/veripp/compdb.py:162-164 | The moved entry's own file is the target. |
| `ScanPasses.RunWidening` | src/veripp/scan.py:599-609 | Ends at the first run that is no unwind limit, or after the escalations allowed, the bound four times wider each time, with what that run answered; "verified" is about the harness with the checks asked for. |
| `ScanPasses.Check` | src/veripp/scan.py:599-645 | The verdict due: that of the last run, but for a proof what the last probe run shows and, of a loop, whether termination was proved; verified only with a run and a reachable probe. |
| `ScanPasses.AttemptView` | src/veripp/scan.py:572-666 | The result due of a function: refused, a tool error, or what the check of its harness comes to, with the first property; what it claims is backed, exceptions included. |
| `ScanPasses.FoundIsReported` | src/veripp/scan.py:599-645 | Whatever the last run of the widening found, other than a proof, is the verdict, with its first property shown. |
| `ScanPasses.ProofIsReported` | src/veripp/scan.py:610-645 | A proof is reported vacuous if and only if its last probe run verified, and settled, as PROVED where there is no loop, if and only if that run failed the probe's own assertion. |
| `ScanPasses.RetryOne` | src/veripp/scan.py:761-825 | A retry is made where the time that remains affords it, and settles exactly what the report of the loop on its own harness and the seeded configuration settles, as that report says; the claim is kept. |
| `ScanPasses.RetryIsUnconditional` | src/veripp/scan.py:747-750 | No model taking part, a retry settles by a proof or a counterexample, never under a precondition, and otherwise changes nothing. |
| `ScanPasses.RetryPass` | src/veripp/scan.py:726-825 | The candidates, cheapest first, are each retried as due and all else stays; the counters count the tries and the settled; every claim still holds, names stay. |
| `ScanPasses.TriageOne` | src/veripp/scan.py:849-880 | The label is the diagnosis made; a counterexample becomes PRECONDITIONED exactly when a sound report on its own harness is verified under preconditions, with a reachable proof under them. |
| `ScanPasses.TriagePass` | src/veripp/scan.py:828-880 | Every plain counterexample is triaged so, and only they change. |
| `ScanPasses.Scan` | src/veripp/scan.py:518-666 | Whatever checker and model answer, every result is the first attempt due, retried and triaged as due if asked for, and its claim holds at the end: PROVED without preconditions and with a reachable proof of the function's harness as generated, PRECONDITIONED under exactly those shown and only where triage ran, COUNTEREXAMPLE with a run of that harness that failed on what is shown. |
| `ScanPasses.FirstAttemptsStand` | src/veripp/scan.py:518-570 | Without a retry budget and without a model, every result of a scan is the one due at the first attempt, in order. |
| `ScanPasses.ProvedMeans` | src/veripp/scan.py:158-160 | A PROVED in the report is a run and a reached probe of that function's own harness, as generated, at the first attempt or in the retry. |
| `CacheKey.ExtraFiles` | src/veripp/cli.py:977-994 | Covers exactly the units and the readable headers their walks see. |
| `CacheKey.CoveredIsCompiled` | src/veripp/cli.py:962-976 | Only what the checker reads of the units is covered, and all of it when no unit is led to more headers than the key follows. |
| `CacheKey.HeaderNotCovered` | src/veripp/cli.py:962-965 | A source of which a header two includes away is compiled and not covered. |
| `CacheKey.HeadersAlike` | src/veripp/harness.py:590-622 | A unit led in two trees to headers that both have, alike, is led to the same ones in both: no header that shadows another can go unnoticed. |
| `CacheKey.KeyFor` | src/veripp/cache.py:139-169 | The bytes fed to the digest, step by step. |
| `CacheKey.StreamIff` | src/veripp/cache.py:139-169 | On inputs without NULs and without files that look like an unreadable one, the bytes are equal if and only if the inputs are, the place of a readable source apart. |
| `CacheKey.NulsCollide` | src/veripp/cache.py:157-159 | With a NUL in a file, different inputs give the same bytes. |
| `Cache.PayloadOf` | src/veripp/cli.py:1021-1030 | What is stored of a report. |
| `Cache.ReportFromCache` | src/veripp/cli.py:1008-1018 | The report rebuilt stores as the payload it came from. |
| `Cache.Scanned` | src/veripp/cli.py:1546-1565 | An entry of this version under the digest of the very bytes of the files as they now are answers if it suits the question; otherwise a real scan of its own does, every claim in it holding, and is stored; `--only` and `--no-cache` scan and store nothing. |
| `Cache.Session` | src/veripp/cli.py:1546-1565 | Over any sequence of edits and runs, every answer is so, and every entry stays the report of a real full scan. |
| `Cache.SameKeySameCode` | src/veripp/cache.py:16-25 | Runs on one source with one key compile the same text of every unit and of every header it is led to. |
| `Cache.ServedMeans` | src/veripp/cli.py:1546-1565 | An answer from the cache is the report of an earlier real full scan by the same checker with the same settings, every claim in it holding of that scan, triaged and retried as far as the question asks, and, the source being where it was, of the same code. |
| `Cache.ServedProof` | src/veripp/cache.py:7-8 | A PROVED that is answered, served or not, is supported by a run and a reached probe of a scan with these settings. |
| `Cache.TwinsShareAKey` | src/veripp/cache.py:153 | Two copies of a source led to different headers digest the same bytes. |
| `Cache.UnseenSharesAKey` | src/veripp/cli.py:970-975 | A header no walk sees can change and the digested bytes stay. |
| `TraceParser.PrintedShape` | src/veripp/esbmc.py:397 | A printed assignment line is read back as its two sides, whatever the value holds. |
| `TraceParser.ShapeIff` | src/veripp/esbmc.py:397 | A line is an assignment if and only if it is indented by two blanks or more and has a `=` behind the first character of its text. |
| `TraceParser.SkippedIff` | src/veripp/esbmc.py:399 | Passed over are exactly blank lines and those of five dashes or more between blanks. |
| `TraceParser.EndsIff` | src/veripp/esbmc.py:609 | A state ends at exactly the lines that begin, behind their blanks, with `Violated property`. |
| `TraceParser.ParseAssignments` | src/veripp/esbmc.py:595-627 | The loop computes the state after all lines, stopping at the violated property. |
| `TraceParser.RecoveredIff` | src/veripp/esbmc.py:598-602 | Lines grouped by the assignment they were printed for are grouped so again if and only if at every line the open braces, or failing that the line's look, tell rightly whether the value goes on. |
| `TraceParser.PrintedGivenBackIff` | src/veripp/esbmc.py:595-627 | Parsing a printed list of left sides and values gives those left sides and values back if and only if, in the printed text, that is so. |
| `TraceParser.OneLinersGivenBack` | src/veripp/esbmc.py:618-626 | In particular values of one line come back unchanged. |
| `TraceParser.BalancedGivenBack` | src/veripp/esbmc.py:598-602 | And values that keep their braces open until their last line, even where further lines hold `=`. |
| `Utf16.CountUtf8Bytes` | benchmarks/repro/tinyusb_utf16.c:26-35 | The length of the encoding. |
| `Utf16.ConvertInPlace` | benchmarks/repro/tinyusb_utf16.c:38-56 | The loop over one buffer, access past its end found. |
| `Utf16.PrintUtf16` | benchmarks/repro/tinyusb_utf16.c:58-71 | In a 256-byte buffer, while writing never overtakes reading: no stray access if and only if the encoding leaves room for its terminator, and the text is the encoding; a length byte of 1 always strays. |
| `Utf16.InPlaceIsOutOfPlace` | benchmarks/repro/tinyusb_utf16.c:38-56 | Where reading stays ahead, in place stores exactly what out of place would, as many bytes as were counted. |
| `Utf16.NeverOvertakesIff` | benchmarks/repro/tinyusb_utf16.c:38-56 | Reading stays ahead if and only if no proper prefix has three more wide than narrow units. |
| `Utf16.FourWideUnitsCorrupt` | benchmarks/repro/tinyusb_utf16.c:83-84 | Four units of U+0800 come out wrong. |
| `Utf16.RoundTripIff` | benchmarks/repro/tinyusb_utf16.c:38-56 | Decoding by section 4 of RFC 3629 gives the units back if and only if none is a surrogate. |

## Left out

- Running the checker, compilers, git, threads and timeouts: arbitrary answers stand for them. A clock that spends the whole budget before the first attempt raises in the original outside what the scan passes catch; here they catch it.
- The language model's prompts and transport, command-line presentation, baselines, SARIF, replay, checker download, the shared-library collector in `checker/`.
- AgentLoop.VerifyWithAgent: says nothing of a limit on model calls other than the derived one, because the budget's own limit is never read.
- Erasure.AcceptedIsPreservedIff: which lines are skipped and what a directive pulls in are any functions of the directives so far (`Preprocessor`), so a directive that reads its own line number is not modelled, and `__LINE__` is a word like any other; single-quote literals, raw strings, digraphs, and `??/` at the end of a line that was there are not modelled.
- Erasure.StepIsSafe: compound literals at file scope outside parentheses, class bodies with functions, `extern "C"` groups, lambdas, statement expressions and `goto` are not in the statement language.
- A file is its lines: two paths with the same text are one file in the loop's model, and the scratch directory's effect on quoted includes is not modelled.
- VacuousNests.VacuousIff: is about nonnegative values, so signed counts below zero are not considered, and about a positive array bound; that names are recognised as pairs, lengths, cursors and invariants is a parameter, of which is asked what the generator checks of a name (`Inferable`).
- The name of a declared storage is taken to be unambiguous in the field it is for.
- `_field_statements`, `literal_call_arguments`, `evaluate_precondition`, `parse_output`'s ordering of properties, and `collect_deps`' worklist: they would add easy members or depend on translating C text.
- Typedefs.CollectScalarTypedefs: the regular expressions that read aliases, and `normalize_type` of a text, are parameters.
- Typedefs.NormalisedTwiceIff: the tidying of white space, qualifiers and namespaces is not part of it.
- Relocation.RelocationIff: is about a new root that is absolute and without `..`, as `resolve` gives it; `//` roots and symbolic links are not modelled, and splitting a `command` string is not part of this model.
- Spelling.ScrubbedIs: is about tokens with a blank between any two, so about a `*` and a `/` of different tokens it says nothing; a backslash stands at a line's end only, and `R"` inside a literal is two tokens.
- Scrub.SameReadingIff: line splices, trigraphs and raw strings are not modelled.
- ScanPasses.Scan: durations, locations and wording of results are carried only as the property they derive from; the sort by duration is any that is lawful, and the clock a parameter; call-site checks of preconditions are not modelled.
- Cache.Session: the files are taken not to change between computing a key and the end of the scan, and a JSON round trip to be the identity; a file's text is its bytes; the hash, the JSON of the settings and `sorted` are parameters that keep different arguments apart.
- Cache.SameKeySameCode: is about headers that can be read and a tree no unit of which reaches more than 64 of them.
- TraceParser.ParseAssignments: the binary suffix is removed by a parameter, and `raw` is kept as its lines.
- Utf16.InPlaceIsOutOfPlace: goes one way, because bytes overwritten before they are read can by chance be equal to what they replace.
