# Chipchamp: a model of its decision logic

Chipchamp is an agent for chip verification. Around the language model sits ordinary,
deterministic code that decides which tests a change may skip, which files make up a design,
when a tree of sources counts as green, what a conversation may forget, when a planted bug counts
as caught and whether coverage went down. This project models that code in Dafny and proves what it
keeps, over every input and every run. `dafny verify dfyconfig.toml` checks all of it.

What is outside the code (the language model, the tools, the clock, the file system, a JSON
library, a line matcher, rounding) enters as a parameter or as an input of each step. An assumption
about one of them is a named predicate that the lemma requires: `SoundCodec` and `RendersJobFirst`
(about objects the JSON library has itself parsed; `JobCodecIsSound` shows a codec that meets both),
`SoundHost`, `SoundLex`, `HashesDecide`, `Monotone`, and `SpellingInsensitive`, which
`AgreeingPathsAreInsensitive` derives from a condition on the path functions alone.

| module | part of the system |
|---|---|
| `Selection` | which tests a change may skip |
| `Filelist` | reading `.f` files that include each other |
| `Transcript`, `RunState`, `Router`, `AgentLoop` | one run of the agent: messages, greenness, handoffs, the step loop |
| `WorkingSet` | evicting old tool results from the conversation |
| `TextLines`, `Patterns`, `Mutators`, `Mutation`, `Campaign` | two ways to number lines, the meaning of regular expressions, single-site mutants, the candidate list and the campaign that runs them |
| `Coverage`, `Impact` | merging, rates, the regression gate, comparison; relating old lines to new ones |
| `Embeddings` | the vector cache |
| `Sequences`, `Wrappers` | facts about sequences and sets, and the option type, that the others share |

Code that changes state step by step is a class or a method with loops, proved against a
specification function or predicate; code made of expressions is a function. The main results:

- **Exclusion is safe.** A skipped test reaches, through any number of instances, only modules that
  are indexed and unchanged. This joins two searches that run in opposite directions.
- **Recursive parsing is flattening.** The recursive filelist parser computes what one linear
  reading of the token stream computes, over every include graph, cyclic ones too.
- **A run keeps its transcript legal, and saves it.** Whatever the model, the tools and an
  interrupting user do, every saved transcript can be sent: each turn with tool calls is followed by
  the answers to those calls. After each step the last saved transcript is the current one. Stretches without a tool call are bounded, and no model takes over twice.
- **Green means green.** The tracker's few fields decide a property of the whole history of tree
  changes and check results.
- **Compaction evicts little, only tool output, and reference material last**, and digesting settles.
- **Every report of a campaign is sound**, wherever the campaign stopped: a finished mutant is caught
  exactly when some attempt detects it, and survives exactly when all pass.
- **A mutant touches code alone.** The mask agrees with every reading of a text as comments, strings,
  escaped identifiers and code, and a site is what the operator's regular expression matches.
- **Merging passes the gate** exactly when no unhit bin weighs against its section or the total.

Where the code does not do what its documentation or its purpose suggests, the model follows
the code. For each such place one lemma gives an input and another says exactly when the property
holds:

- Selecting tests is not monotone: a change that maps to no test runs everything, and a second
  change can then narrow the plan (`SelectionIsNotMonotone`; `MoreChangesKeepTests`).
- Repairing a loaded transcript looks at the role of the next turn and not at the ids it answers, so
  wrong answers that are already there stay (`WrongAnswersStay`; `RepairIsLegal`).
- An interrupt leaves a call without an answer when it repeats an id that was answered
  (`RepeatedIdIsLost`; `InterruptAnswersAll`).
- The campaign's note says that errors are never detection, but a tool that cannot be launched in
  the last step of a job can be taken for one (`LaunchErrorCanBeDetection`;
  `LaunchErrorIsDetectionOnlyAtTheEnd`).
- A merge can lower a coverage rate when weights are negative (`NegativeWeightTrips`;
  `MergesPassExactlyWhen`).
- A mutant can be on a line that was not changed: the planner numbers lines as `splitlines` does and the
  mutator counts newlines, so a form feed or a lone carriage return shifts them (`FormFeedShiftsLines`;
  `CandidatesAreMeantExactlyWhen`).
- The vector cache is keyed by the model id, so a switch of servers under one id returns the old
  server's vectors (`OldServerAnswers`; `CacheAgreesExactlyWhen`).
- A job id can be lost to digesting (`LongJobIsLost`): it outlives every digest exactly when it is not
  clipped and either no field was dropped, or the digest is small, or the id lies within the head
  that a large text keeps (`JobSurvivesExactlyWhen`).
- An empty visited set handed to the filelist parser is not shared: the parser then keeps its own
  (`EmptySetStaysEmpty`; `EmptySetIsNotShared`).

## Model

| member | source | states |
|---|---|---|
| `Selection.AffectedModules` | chipchamp/verification.py:103-120 | the upward worklist finds exactly the modules from which a changed module is reachable, and enqueues none twice |
| `Selection.Unresolved` | chipchamp/verification.py:122-133 | the downward search reports a top exactly when it reaches a module the index lacks |
| `Selection.DirectlyChanged` | chipchamp/verification.py:108-114 | the directly changed modules are those whose file has the real path of a changed file; there is a warning for each change that is not documentation and is deleted, or no RTL file, or declares no indexed module, and for no other |
| `Selection.TopIsFirstSet` | chipchamp/verification.py:138-139 | a test's top is the first of its three runner keys that is set, and is named after the test when none is |
| `Selection.ReasonsFor` | chipchamp/verification.py:135-146 | before any fallback a test is kept exactly when impact is unknown, its top is affected, or its hierarchy is unresolved, and its reason holds of it |
| `Selection.Select` | chipchamp/verification.py:79-156 | a test is left out exactly when every change is documentation or an existing RTL file that declares an indexed module, the index is whole, some module changed, some test is affected and this one is not; selected and excluded tests partition the tests; an excluded test reaches only indexed, unchanged modules; reasons reported are true; something is selected whenever tests exist; full suite means nothing excluded |
| `Selection.ExclusionIsSafe` | chipchamp/verification.py:115-153 | nothing below an excluded test's top is changed or unknown, and every change was traced to an indexed module or is documentation |
| `Selection.MoreChangesKeepTests` | chipchamp/verification.py:136-150 | adding changes drops no test exactly when the first plan was not a fallback for lack of mapped modules or tests, or the changes together give a reason to run everything, or affect every test, or affect none |
| `Selection.SelectionIsNotMonotone` | chipchamp/verification.py:147-149 | a concrete design and two changes where adding the second drops a test |
| `Selection.ClosedUpwardHoldsAncestors` | chipchamp/verification.py:117-120 | a set closed under parents holds every ancestor of its members |
| `Selection.ClosedDownwardHoldsDescendants` | chipchamp/verification.py:123-132 | a set closed under instances holds everything below its members |
| `Filelist.ParseFilelist` | chipchamp/filelist.py:36-97 | the recursive parser returns what one linear reading collects, sources distinct by absolute path and include directories as written; the shared visited set ends as the linear reading's; an empty one is ignored; it terminates on every include graph |
| `Filelist.ParseTokens` | chipchamp/filelist.py:52-96 | the token loop of one file, look-ahead included, adds what a linear reading of the rest of the file adds |
| `Filelist.ResolveSources` | chipchamp/filelist.py:166-190 | a target's inputs are those of its filelists, then the core's without its defines, then the Bender manifest's, then the globbed and plain paths, deduplicated once |
| `Filelist.FileSet.Extend` | chipchamp/filelist.py:59-65 | a child's names are appended in order and its defines override |
| `Filelist.FileSet.DedupInPlace` | chipchamp/filelist.py:23-33 | deduplication leaves the normal form of the names held before |
| `Filelist.FirstOccurrences` | chipchamp/filelist.py:23-32 | the loop keeps what the recursive first-occurrence filter keeps |
| `Filelist.DedupKeepsFirst` | chipchamp/filelist.py:23-32 | an element is kept exactly when its key has not occurred before it, and order is kept |
| `Filelist.DedupTwice` | chipchamp/filelist.py:23-33 | deduplicating a nested list first changes nothing for the outer pass |
| `Filelist.NormalMerge` | chipchamp/filelist.py:59-65 | normal forms of joined names depend only on the normal forms of the parts, so deduplication per level composes |
| `Filelist.LinearConcat` | chipchamp/filelist.py:56-65 | reading a concatenation is reading its parts one after the other, the second with what the first has seen |
| `Filelist.OpensEachFileOnce` | chipchamp/filelist.py:36-44 | a reading opens each existing file at most once, none it had seen, and exactly those it has newly seen |
| `Filelist.VisitsExactlyTheReachable` | chipchamp/filelist.py:36-62 | started with nothing visited, it visits exactly the existing files reachable from the root by `-f`, cycles and diamonds included, provided that different spellings of one reachable file name the same existing files |
| `Filelist.AgreeingPathsAreInsensitive` | chipchamp/filelist.py:55-59 | that proviso holds of every design when a path resolved against the directory of either spelling of an existing file is the same place |
| `Filelist.EmptySetIsNotShared` | chipchamp/filelist.py:37 | a caller's visited set records what the parse opened exactly when it was not empty to start with, or nothing could be opened |
| `Filelist.EmptySetStaysEmpty` | chipchamp/filelist.py:37 | a design whose root is opened while the caller's empty set stays empty |
| `Filelist.WrittenReadsBack` | chipchamp/filelist.py:52-96 | round trip: written entries (one or several include directories or defines in a switch, sources, nested filelists by each of the three switches, libraries, ignored switches), variables in their tokens expanded, read back as what they mean, in order, relative paths resolved against the file's directory |
| `Filelist.PiecesOfJoined` | chipchamp/filelist.py:67-84 | splitting pieces joined by a separator gives the pieces back, but for the empty ones |
| `RunState.VerificationTracker.Observe` | chipchamp/agent/runstate.py:143-190 | recording a result keeps the tracker true of its history, fires each teaching of a check, tree and kind at most once and exactly when due, and names the job to checkpoint under exactly when everything current passes |
| `RunState.VerificationTracker.TreeChanged` | chipchamp/agent/runstate.py:85-86 | a bump of the epoch leaves the tracker true of the longer history, which is not green |
| `RunState.VerificationTracker.AfterPass` | chipchamp/agent/runstate.py:167-177 | after a pass the green fields change exactly when the history is green, to the strongest current job |
| `RunState.VerificationTracker.AfterFail` | chipchamp/agent/runstate.py:178-190 | after a failure the tree is not green, the failure is counted, and the scope lesson fires when a weaker check passes and it has not fired |
| `RunState.VerificationTracker.TeachOnce` | chipchamp/agent/runstate.py:157-162 | a lesson fires if and only if it has not fired before |
| `RunState.GreenMeansGreen` | chipchamp/agent/runstate.py:140-141 | with named jobs the tree is called green exactly when a check was recorded since the last bump and the latest result of every check since then passed; the green job is then outranked by no current check |
| `RunState.GreenFromChecks` | chipchamp/agent/runstate.py:126-127 | the entries of the current epoch decide greenness of the whole history |
| `RunState.TracksPut` | chipchamp/agent/runstate.py:163-166 | overwriting one entry keeps the record true of the history |
| `RunState.StrongestIsBest` | chipchamp/agent/runstate.py:171-174 | the strongest current entry names a job that no current check outranks |
| `RunState.WorkspaceLedger.Write` | chipchamp/agent/runstate.py:75-78 | a path is authored exactly when its last operation wrote it, deleted exactly when its last operation removed it; an empty path is ignored |
| `RunState.WorkspaceLedger.Remove` | chipchamp/agent/runstate.py:80-83 | the same, for a deletion |
| `RunState.DirtyMeans` | chipchamp/agent/runstate.py:88-90 | the ledger is dirty exactly when the run has written or deleted some file |
| `RunState.OracleGuard.Saw` | chipchamp/agent/runstate.py:51-59 | the counter is the current streak of identical simulation failures, with steps that show neither failure nor pass set aside |
| `RunState.OracleGuard.Suspect` | chipchamp/agent/runstate.py:61-63 | the harness is suspected exactly when some streak has reached three, once for each signature |
| `Transcript.CloseDanglingToolCalls` | chipchamp/agent/session.py:97-123 | the walk that inserts while it moves computes the recursive repair and counts the turns inserted |
| `Transcript.RepairIsLegal` | chipchamp/agent/session.py:112-122 | after repair every turn that asks is followed by a tool turn; the answers are exact if and only if those already present were |
| `Transcript.WrongAnswersStay` | chipchamp/agent/session.py:114-115 | a transcript with an answer to another id, which repair leaves as it is |
| `Transcript.RepairIsIdempotent` | chipchamp/agent/session.py:97-123 | repairing again inserts nothing |
| `Transcript.RepairOnlyInserts` | chipchamp/agent/session.py:116-121 | the original is a subsequence of the repaired transcript, which is longer by one turn for each dangling one |
| `Transcript.RepairLeavesLegal` | chipchamp/agent/session.py:105-107 | a legal transcript is loaded as it is |
| `Transcript.InterruptAnswersAll` | chipchamp/agent/loop.py:415-428 | what is saved on an interrupt answers every call in order if and only if no call from the interrupted one on repeats an answered id |
| `Transcript.RepeatedIdIsLost` | chipchamp/agent/loop.py:419-421 | a turn that repeats an id, interrupted at its second call, which then gets no answer |
| `Transcript.StripMeans` | chipchamp/agent/runstate.py:101-106 | stripping removes exactly the user turns that open with the ledger tag; the rest stays in order, and legality is kept |
| `Transcript.RefreshLeavesOne` | chipchamp/agent/runstate.py:108-112 | after a refresh exactly one ledger turn exists and the transcript is still legal |
| `Router.Rank` | chipchamp/agent/router.py:108-120 | ranking rearranges the pool: it adds no model and loses none |
| `Router.SortDescends` | chipchamp/agent/router.py:118-120 | without a chain the order descends by capability score, ties broken by speed |
| `Router.SortIsStable` | chipchamp/agent/router.py:118-120 | models of one capability and speed keep the order of the pool |
| `Router.NextFallback` | chipchamp/agent/router.py:129-133 | a fallback is an untried pool model other than the current one; there is none exactly when all have been tried |
| `Router.FallbackIsBest` | chipchamp/agent/router.py:118-133 | without a chain no fresh model is more capable than the fallback, and none as capable is faster |
| `Router.PickIsFallback` | chipchamp/agent/router.py:122-133 | the pick for a need is the fallback of a model outside the pool when none was tried |
| `Router.ChainWins` | chipchamp/agent/router.py:113-117 | with a chain the fallback is the first fresh pool model of the chain |
| `AgentLoop.AgentRun.constructor` | chipchamp/agent/loop.py:249-286 | a run starts on the repaired transcript and the prompt, and on the proactive router's pick exactly when that is reachable, else on the current model |
| `AgentLoop.AgentRun.Nudge` | chipchamp/agent/loop.py:243-247 | a nudge appends one user turn tagged with its guard; the transcript is legal and, with a session, saved as it stands |
| `AgentLoop.AgentRun.TrySwitch` | chipchamp/agent/loop.py:741-786 | a switch goes to the fallback for the need, an untried and reachable pool model, is recorded and saved; with the trigger on it fails only when no untried model is left, and then none passed over was reachable |
| `AgentLoop.AgentRun.SkipUnreachable` | chipchamp/agent/loop.py:754-761 | the search for a fallback marks only unreachable models as tried |
| `AgentLoop.AgentRun.Enter` | chipchamp/agent/loop.py:762-786 | the new model is marked tried and recorded; the handoff note goes to the system prompt after tool results and into the conversation otherwise; the transcript stays legal and is saved |
| `AgentLoop.AgentRun.HandleTextOnlyTurn` | chipchamp/agent/loop.py:600-682 | a turn without a call that lets the run go on burns fuel and is saved; a refusal hands over while another model is reachable; otherwise prose that is not engaged or already reported ends the run with nothing added, engaged prose with nudges left adds exactly the narration nudge, and the first two empty turns add exactly the nudge to continue |
| `AgentLoop.AgentRun.HandleProse` | chipchamp/agent/loop.py:611-639 | prose is final, with nothing added, when the work is not engaged (no mutating call, no open plan, no report demanded) or the report was accepted; engaged prose adds exactly the narration nudge while nudges are left, and then the run ends or is handed over |
| `AgentLoop.AgentRun.HandleEmpty` | chipchamp/agent/loop.py:640-682 | an empty turn is nudged twice, each time with exactly the nudge to continue; the third is handed over or ends the run with nothing added |
| `AgentLoop.AgentRun.Perform` | chipchamp/agent/loop.py:429-483 | one finished call moves the epoch by one exactly when it is a successful write, edit, delete or restore, records exactly its check result and its file operation, and earns exactly the scope lessons due, or the wipe lesson when it deletes a file of the green checkpoint for the first time |
| `AgentLoop.EffectMeans` | chipchamp/agent/loop.py:437-474 | by the kind of its effect: a successful write, edit, delete or restore is a tree change, a check is its result, and nothing else is either; a successful write or delete of a named path is its file operation, and nothing else is |
| `AgentLoop.PerformedMeans` | chipchamp/agent/loop.py:407-428 | what ran of a turn is everything before its first interrupted call |
| `AgentLoop.SeenMeans` | chipchamp/agent/loop.py:404-482 | a step showed a pass if and only if some job passed, and the signature of the last failure that has one |
| `AgentLoop.AgentRun.ApplyFiles` | chipchamp/agent/loop.py:437-459 | the epoch moves by one exactly on a successful write, edit, delete or restore; a successful write or delete extends the file operations of the ledger, in the order of the code; the wipe lesson is taught once, when the path is one the green checkpoint holds |
| `AgentLoop.AgentRun.RunCalls` | chipchamp/agent/loop.py:407-485 | every call is answered in order: with the tool's own name and its output, or, from an interrupted call on, with the name the model used and a note that it never ran; exactly the calls before the interrupt are performed |
| `AgentLoop.AgentRun.Exchange` | chipchamp/agent/loop.py:395-428 | the asking turn and its exact answers are appended together, interrupted or not |
| `AgentLoop.AgentRun.MakeRoom` | chipchamp/agent/loop.py:307-326 | the transcript becomes the compacted one; once a result was evicted there is exactly one ledger turn, the last, with the current text, when files were touched, and none when none were; nothing else goes, and it stays legal |
| `AgentLoop.AgentRun.AfterTools` | chipchamp/agent/loop.py:486-573 | the turns appended after a tool turn are, in order, the teachings, a current ledger, the cadence note, the nudges, the checkpoint lesson when two checks failed since the last green tree, and the suspicion of the harness when it is new; with a session the transcript is saved as it then stands; there is one ledger turn when the ledger is active and dirty, and nothing but ledger turns went |
| `AgentLoop.AgentRun.RecallCheckpoint` | chipchamp/agent/loop.py:549-553 | the way back is taught, and saved, exactly when a green job exists, two failures followed and it has not been taught since |
| `AgentLoop.AgentRun.WatchOracle` | chipchamp/agent/loop.py:558-573 | the harness is suspected at a step, and the suspicion saved, exactly when that step makes some signature fail for the third time in a row that never had before |
| `AgentLoop.AgentRun.ToolStep` | chipchamp/agent/loop.py:395-577 | a step with tool calls resets the quiet count, ends the run exactly on an interrupt, performs exactly the calls before it and, interrupted or not, saves the transcript as it stands; only a stalled run is handed over, to the best debugger left; nothing but ledger turns went |
| `AgentLoop.AgentRun.QuietStep` | chipchamp/agent/loop.py:332-400 | a failed or text-only step that lets the run go on lengthens the quiet stretch by one, keeps it within what the fuel allows and saves the transcript; finished prose ends the run with the reply alone added; a failed call ends it only when the trigger is off or no other model is reachable |
| `AgentLoop.AgentRun.Step` | chipchamp/agent/loop.py:287-577 | one iteration keeps the run valid and says when it ends and why; a step that goes on, or is interrupted, has saved the transcript as it stands; room is made first, and then turns are appended and only ledger turns removed |
| `AgentLoop.AgentRun.Execute` | chipchamp/agent/loop.py:287-577 | over any script of inputs: every saved transcript is legal (exact if the loaded one was) with at most one ledger turn unless it was loaded with more; after every step a run that goes on or is interrupted has, with a session, last saved its transcript as it stands; stretches without a tool call are bounded by the pool and the nudge allowance alone; no model runs twice; the tracker's history and the ledger's file operations are exactly those of the calls performed; the harness was suspected for exactly the signatures that failed three times in a row |
| `AgentLoop.SwitchBurnsFuel` | chipchamp/agent/loop.py:633-652 | handing over to an untried model lowers the measure even when every nudge is given back |
| `AgentLoop.FuelIsBounded` | chipchamp/agent/loop.py:600-682 | the measure never exceeds a bound that depends on the pool and the nudge allowance only |
| `AgentLoop.OneMoreStep` | chipchamp/agent/loop.py:287-400 | windows without a call stay within the bound as the run grows by a step |
| `AgentLoop.GoodPrompt` | chipchamp/agent/loop.py:253-263 | a repaired transcript with the prompt appended is legal, exactly answered if the loaded one was |
| `WorkingSet.DigestSettles` | chipchamp/agent/working_set.py:52-92 | one digest leaves a text that is small, is not JSON, or is its own digest |
| `WorkingSet.DigestFixpoint` | chipchamp/agent/working_set.py:52-92 | a third digest changes nothing |
| `WorkingSet.JobSurvives` | chipchamp/agent/working_set.py:39-91 | a job id that fits opens the text after any number of digests |
| `WorkingSet.JobSurvivesExactlyWhen` | chipchamp/agent/working_set.py:52-92 | it does so if and only if it is not clipped and, besides, no field was dropped, or the first digest is small, or the id lies within the head kept |
| `WorkingSet.JobSurvivesCompaction` | chipchamp/agent/working_set.py:128-189 | in a transcript, a result whose job id fits is left alone or keeps the id at its head, through any number of compactions under any budgets, with turns appended and ledger turns removed between them |
| `WorkingSet.LongJobIsLost` | chipchamp/agent/working_set.py:77 | a result with a job id of five hundred characters, which its first digest clips |
| `WorkingSet.LongJobIsCut` | chipchamp/agent/working_set.py:62-67 | taking the head of a large text keeps a leading job id if and only if it fits the clip |
| `WorkingSet.KeptMeans` | chipchamp/agent/working_set.py:70-83 | a digest keeps a field exactly when its key is among the verdicts, addresses and counts and its value is not a container over 200 characters; strings over 220 characters are clipped, other values kept whole |
| `WorkingSet.DigestLeavesTheWayBack` | chipchamp/agent/working_set.py:84-102 | a digest that drops a field ends with the way back: the job, else the job of the waves, else the file, else the tool |
| `WorkingSet.TranscriptSize` | chipchamp/agent/loop.py:1040-1058 | the size loop adds up texts, tool outputs and call inputs, and nothing else |
| `WorkingSet.SizeAccounts` | chipchamp/agent/loop.py:1047-1058 | the size grows by a text's length, by each output and by each call's input, and by nothing else |
| `WorkingSet.Sweep` | chipchamp/agent/working_set.py:149-177 | a pass digests from the oldest turn to the first point where the transcript fits, counts the results it changed, and reports whether it fits |
| `WorkingSet.Compact` | chipchamp/agent/working_set.py:128-189 | compaction is the two passes, the second only if the first was not enough; its report counts exactly the results changed, and claiming no change means none |
| `WorkingSet.CompactionKeepsTheFrame` | chipchamp/agent/working_set.py:144-172 | count, roles, calls, ids, names and every turn but old tool results stay, and so do the last `keep_recent` turns |
| `WorkingSet.CompactionKeepsLegality` | chipchamp/agent/working_set.py:128-189 | a legal transcript stays legal and keeps its ledger turns |
| `WorkingSet.SweepIsMinimal` | chipchamp/agent/working_set.py:149-177 | a pass leaves later turns untouched, and one turn less would not have been enough |
| `WorkingSet.ReferenceGoesLast` | chipchamp/agent/working_set.py:165-185 | library results, and reads of a fetched file or a golden model, are left alone whenever digesting every other old result is enough |
| `WorkingSet.OtherGoesFirst` | chipchamp/agent/working_set.py:149-185 | any other old result that the first pass reaches is digested, once, and a second time only when the first pass was not enough |
| `WorkingSet.PinnedMeans` | chipchamp/agent/working_set.py:105-125 | the code pins exactly the results named `lib.`, and the reads whose first path value, however its text goes on, is fetched or a golden model |
| `WorkingSet.FindPathMeans` | chipchamp/agent/working_set.py:118-119 | what is read of a text is its first non-empty quoted path value, and nothing is read only when there is none |
| `WorkingSet.BaseNameIs` | chipchamp/agent/working_set.py:120 | the base name of a path is what follows its last slash |
| `WorkingSet.OverBudgetDigestedAll` | chipchamp/agent/working_set.py:179-185 | finishing over budget means every old result was digested: reference material once, any other twice |
| `Mutators.MaskShowsCode` | chipchamp/bench/mutators.py:38-41 | of a text read as written pieces (code, line and block comments, strings, escaped identifiers) the mask shows code and line ends as they are and a space for every other character |
| `Mutators.EveryTextReads` | chipchamp/bench/mutators.py:38-41 | every text can be read as such pieces, a character being code only where no other piece stands |
| `Mutators.StandingIsHidden` | chipchamp/bench/mutators.py:38-41 | the matcher hides a well-formed comment, string or escaped identifier that stands at a position, to its end |
| `Mutators.HiddenStands` | chipchamp/bench/mutators.py:38-41 | whatever it hides is such a piece |
| `Mutators.MaskKeepsLines` | chipchamp/bench/mutators.py:24-25 | a position has the same line number in the text and in its mask |
| `Mutators.MatchIsCode` | chipchamp/bench/mutators.py:29-35 | an operator's match lies in code however the text is read, and its replacement changes the text |
| `Mutators.MatchMeans` | chipchamp/bench/mutators.py:29-35 | at each position the written-out matcher finds exactly what the operator's regular expression matches there, by the meaning of its parts, and replaces it as the operator says |
| `Mutators.SitesAreAll` | chipchamp/bench/mutators.py:56 | no match is passed over but for one that starts inside another site |
| `Mutators.SitesAreApart` | chipchamp/bench/mutators.py:56 | sites do not overlap and come from left to right |
| `Mutators.ListOperator` | chipchamp/bench/mutators.py:54-68 | one operator's loop adds the head of its uncapped list that both caps leave |
| `Mutators.GenerateMutants` | chipchamp/bench/mutators.py:44-69 | the listing is the head of the operator-by-operator lists, each under its own cap, with or without an overall limit |
| `Mutators.OperatorCapNeverBinds` | chipchamp/mutation.py:61-62 | a cap for each operator no smaller than the overall one never binds first |
| `Mutators.UncappedAreSingleSite` | chipchamp/bench/mutators.py:46-68 | every mutant rewrites one match of its operator's expression, in code however the text is read, on an allowed line, and is otherwise the text |
| `Mutation.ChooseCandidates` | chipchamp/mutation.py:39-71 | the candidates are exactly the head of the uncapped enumeration by file, operator and position; truncated means more exist; a file whose text as read differs from the planned one stops it; every file without a mutant is reported; each candidate rewrites one match, in code, of a file that changes some line and that nothing speaks against, on a line whose count of newlines is in a planned span; when no stray line end precedes a site they are the head of the mutants on the lines the planner meant |
| `Mutation.EligibleMeans` | chipchamp/mutation.py:44-56 | a file is skipped exactly when it changes no current line, or is refused with a reason, or is allowed but no source or in need of file-level impact |
| `Mutation.CandidatesAreMeantExactlyWhen` | chipchamp/mutation.py:51-62 | whatever spans the planner reports, a file's candidates are exactly the mutants on the lines it meant if and only if no separator other than a newline, alone or after a carriage return, precedes a site |
| `Mutation.FormFeedShiftsLines` | chipchamp/mutation.py:57-62 | a text with a form feed whose candidate is on the line after the changed one, while the mutant on the changed line is missed |
| `Mutation.NumbersDifferByStrays` | chipchamp/bench/mutators.py:24-25 | the planner's number of a line exceeds the mutator's by the stray line ends before it |
| `Mutation.PlannerLineMeans` | chipchamp/coverage/impact.py:34-43 | the planner's number of a position is that of the line of the planned text, as `splitlines` divides it, that holds its character |
| `Mutation.AddFile` | chipchamp/mutation.py:60-70 | one file's mutants, found under caps of one more than the maximum, extend the head of the enumeration |
| `Mutation.Accept` | chipchamp/mutation.py:65-70 | the accepting loop stops at the maximum and says whether anything was left |
| `Campaign.DetectedExactlyWhen` | chipchamp/mutation.py:89-104 | a record is detected if and only if every planned step ran, none timed out, all before the last ended cleanly, it did not fail to compile, the verdict is a failure and a check failed |
| `Campaign.PassedExactlyWhen` | chipchamp/mutation.py:89-104 | it passed if and only if every planned step ran and ended cleanly and in time, with a passing status and verdict |
| `Campaign.TimedOutExactlyWhen` | chipchamp/mutation.py:90-91 | it timed out if and only if the job or one of its steps did |
| `Campaign.CompileErrorExactlyWhen` | chipchamp/mutation.py:92-96 | it failed to compile if and only if, in time, the phase says so or a step before the last failed, and every tool could be launched |
| `Campaign.InconclusiveExactlyWhen` | chipchamp/mutation.py:89-104 | it is inconclusive if and only if, in time, a tool of a failed build could not be launched, or the run is short of the plan, or a full run neither fails a check nor passes cleanly |
| `Campaign.AttemptMeans` | chipchamp/mutation.py:195-264 | a tried case is detected, or passes, exactly when its plan's steps, all reached and ended within the job's deadline, say so |
| `Campaign.LaunchErrorIsDetectionOnlyAtTheEnd` | chipchamp/mutation.py:94-100 | a launch error counts as detection if and only if it is in the last planned step, after clean steps, with a failure verdict and a failed check |
| `Campaign.LaunchErrorCanBeDetection` | chipchamp/mutation.py:99-100 | a job whose only step could not be launched and is classified as detected |
| `Campaign.RunSteps` | chipchamp/bench/runner.py:19-26 | no step is launched at or after the deadline; each is given its timeout or, if less, the time left; a step reached too late ends the job, and the step logs are those of `StepLogs` |
| `Campaign.StepLogsMean` | chipchamp/jobs/runner.py:352-367 | a job stops at its first timeout or failure that is not allowed, and at nothing else; each log is its step's, or a timeout for a step reached too late |
| `Campaign.JobDeadline` | chipchamp/mutation.py:242-246 | a job's deadline is the earliest of the campaign's, its timeout and the processor and license time left |
| `Campaign.Campaign.RunCase` | chipchamp/mutation.py:195-264 | one case keeps all budgets, spends a reservation only when it submits, and reports what its run came to; it says exactly when a limit stops it, before the copy or before the job, and exactly when it is done; nothing but a limit or a failure outside stops it |
| `Campaign.Campaign.TryCase` | chipchamp/mutation.py:195-304 | a case that cannot be tried ends the campaign, as exhausted when a limit was met and as an error when something outside failed |
| `Campaign.Campaign.Submit` | chipchamp/mutation.py:242-264 | a submitted job is counted once, saved before it runs, launched within the deadline and classified from its own record |
| `Campaign.Campaign.RunBaseline` | chipchamp/mutation.py:271-280 | the baseline follows the matrix and stops at its first case that did not pass, or that could not be tried, and says which; it goes on when every case passes unhindered |
| `Campaign.Campaign.RunMutant` | chipchamp/mutation.py:282-298 | one mutant runs to its first detecting case or through the whole matrix; finished, it is caught exactly when some attempt detects it and survives exactly when all pass; no other mutant's entry changes; an unhindered one is finished |
| `Campaign.Campaign.Place` | chipchamp/mutation.py:285-298 | updating the mutant under way keeps the report's shape in the saved report |
| `Campaign.Campaign.RunMutants` | chipchamp/mutation.py:282-299 | completed means every mutant finished |
| `Campaign.Campaign.Run` | chipchamp/mutation.py:183-304 | every report written is sound: finished mutants, then at most one under way, then untouched ones; none has a case unless the baseline passed; jobs and copied bytes stay within their limits; each case says what its attempt came to; a finished mutant is caught exactly when some attempt of the matrix detects it, its last case being the first, and survives exactly when all pass; an unhindered campaign with a passing baseline completes, and one that stops early says why; no launch is past the deadline |
| `Campaign.CaughtIsFinished` | chipchamp/mutation.py:286-290 | a mutant is detected exactly by its last case, the first that detects it |
| `Campaign.AllTriedIsFinished` | chipchamp/mutation.py:295-298 | a mutant no case detected survived exactly when the whole matrix passed; otherwise it has its worst outcome |
| `Coverage.MergeMeans` | chipchamp/coverage/model.py:37-48 | in a merge counts add, a known bin keeps its definition and a new one takes the other's |
| `Coverage.MergingKnownRaises` | chipchamp/coverage/model.py:37-48 | merging hits of known bins changes counts only, upward |
| `Coverage.MergePassesTheGate` | chipchamp/coverage/service.py:70-94 | such a merge passes the gate under any monotone rounding when no unhit bin weighs against its section or the total, and no hit bin becomes unhit |
| `Coverage.MergesPassExactlyWhen` | chipchamp/coverage/model.py:55-58 | with exact rates every merge of known bins passes if and only if that condition holds, as it does when no weight is negative |
| `Coverage.NegativeWeightTrips` | chipchamp/coverage/model.py:55-58 | a model whose total falls when a bin of negative weight is hit |
| `Coverage.RateGrows` | chipchamp/coverage/model.py:55-58 | a rate does not fall when counts rise and no unhit bin weighs against it |
| `Coverage.RateMeans` | chipchamp/coverage/model.py:55-58 | without negative weights a rate is the percentage of the weight that is hit, full exactly when every weighing bin is hit and zero exactly when none is; where nothing weighs it is full, and the total of no bins is zero |
| `Coverage.GateIsReflexive` | chipchamp/coverage/service.py:73-94 | every model passes against itself |
| `Coverage.GateIsTransitive` | chipchamp/coverage/service.py:73-94 | passing composes and tolerances add, across missing sections and changed definitions |
| `Coverage.UnchangedMeans` | chipchamp/coverage/service.py:84-93 | a bin is unchanged exactly when the model holds it with everything but its count the same |
| `Coverage.CoverageModel.AddBin` | chipchamp/coverage/model.py:37-44 | adding a bin updates or appends in place, credits the test that hit it, and keeps credited bins hit |
| `Coverage.CoverageModel.Merge` | chipchamp/coverage/model.py:46-51 | a merge joins bins, credits and provenance, and every credited bin is a hit bin |
| `Coverage.SectionRates` | chipchamp/coverage/model.py:66-70 | the grouping loop computes each section's rate and no other, bins without a section counting as unmapped |
| `Coverage.BaselineCheck` | chipchamp/coverage/service.py:73-94 | the verdict is ok exactly when the gate's condition holds; it names exactly the sections that regressed and the bins removed or redefined |
| `Coverage.DefinitionChanges` | chipchamp/coverage/service.py:84-93 | no change is reported exactly when every baseline bin is still defined as it was |
| `Coverage.ComparisonAccounts` | chipchamp/coverage/history.py:108-113 | the four groups account for the change in the number of hit bins and are pairwise disjoint |
| `Coverage.PassingRemovesNothing` | chipchamp/coverage/history.py:113-120 | an observation that passes the gate removed no bin |
| `Impact.BuildMapping` | chipchamp/coverage/impact.py:60-66 | the map joins only identical, non-blank lines unique in both texts, increases strictly, and has exactly those lines of the matched blocks |
| `Impact.FaithfulIsInjective` | chipchamp/coverage/impact.py:61-66 | distinct new lines map to distinct old ones |
| `Impact.CountMeans` | chipchamp/coverage/impact.py:60-66 | a line is counted once exactly when it stands at one place and no other |
| `Impact.RecordedLines` | chipchamp/coverage/impact.py:47-69 | there is no reason exactly when the texts are identical or every line of the span is an unambiguous line of a matched block of texts within the limit; the lines are then the whole span's; nothing is ever guessed |
| `Impact.Aligned` | chipchamp/coverage/impact.py:60-69 | the lines found are those of the wanted lines that are unambiguous lines of a matched block, and there is no reason exactly when all of them are |
| `Impact.MapRegion` | chipchamp/coverage/impact.py:72-85 | lines come back exactly when the region needs no file-level impact and one side's whole span can be related; they are that whole span; the new side is taken when only the new version was recorded and it can be related, or when the old side cannot |
| `Embeddings.CorpusCache.CachedVectors` | chipchamp/embeddings.py:107-134 | over any sequence of calls the result has exactly the items' names, each vector being that of the server it was embedded by; it is what recomputing everything gives when the model id decides the embedding or one server was used; an item is embedded exactly when the cache is missing, of another model, or holds no entry with its name and hash; without an endpoint, or when it fails, the cache stays |
| `Embeddings.CacheAgreesExactlyWhen` | chipchamp/embeddings.py:115-125 | every up-to-date entry is what the endpoint would embed now if and only if the model id decides the embedding |
| `Embeddings.OldServerAnswers` | chipchamp/embeddings.py:115-125 | a cache filled from one server that answers for another under the same model id |
| `Embeddings.Refreshed` | chipchamp/embeddings.py:127-133 | embedding the stale items and dropping the gone ones leaves a cache that agrees with recomputation |

## Left out

- WorkingSet.DigestFixpoint: requires the first digest to be no longer than the longest string the host can hold (2 to the 63 minus 1); without any bound the count in the evicted note could outgrow 400 characters.
- WorkingSet.JobSurvives: covers job ids that JSON renders without escapes, as ids of the system are.
- Coverage.MergePassesTheGate: counts merged in are hit counts, so they are not negative; a negative count read from a file could unhit a bin.
- Coverage.MergesPassExactlyWhen: the converse is stated for exact rates, because rounding can hide a fall.
- Filelist.VisitsExactlyTheReachable: requires `SpellingInsensitive` of the paths reachable from the root, because the code keys its visited set by absolute path and resolves against the directory as spelled.
- Mutators.GenerateMutants: ids are the operator and its occurrence, not the hash the candidate search replaces them with.
- AgentLoop.AgentRun.Perform: the wording of a lesson is reduced to its guard; `lib.fetch` does not bump the epoch, as in the code, so greenness is about bumps and not about any change on disk.
- AgentLoop.AgentRun.RunCalls: the lessons a write earns about library directories and changed ports are inputs.
- AgentLoop.AgentRun.Execute: call ids are distinct within a turn, and no guard's text is worded like a ledger; the list of models used may name the original model again after a proactive start, because the original is never marked as tried.
- RunState.VerificationTracker.Observe: the wording of lessons and the checkpoint's files are not modelled.
- Embeddings.CorpusCache.CachedVectors: hashes that agree mean texts that agree, and a server embeds deterministically and answers once for each text; rounding is part of it; finding the endpoint and its model is an input.
- Selected, excluded and affected names are sets: the sorted order in which they are reported is not modelled, nor are duplicates among warnings.
- Test names are unique within a target, as the campaign demands of them; selection with repeated names is not modelled.
- A path that names a directory, and a file that symbolic links make different from its lexical absolute path.
- The parsing of FuseSoC cores, Bender manifests and filelist comments; expanding variables, globbing and path arithmetic are functions of the host.
- The word and space classes of regular expressions are parameters; what is assumed of them is `SoundLex`.
- The line matcher and the edit regions it yields: only its contract, ordered blocks of equal lines, is assumed.
- The generated-source, macro and size rules that send an edit to file-level impact are one input.
- Python exceptions other than an interrupt inside a tool, and the retry of one model call; in a campaign a case ends in a limit before its job is reserved, or in an error at any point.
- Recovering tool calls from text, the system prompt, streaming events, telemetry and parked jobs.
- Mutation.ChooseCandidates: the two reads of a file see the same bytes, decoded alike; the spans are an input, whatever the line matcher made of them.
- The stall, cadence, progress and lint guards as formulas within the loop: when they fire is an input of each step, what they do to the transcript is modelled.
- Building a gateway for a model: whether a model is reachable is an input.
- Log scraping for failed checks, adapters, licences, job recording and copying files: their outcomes are inputs of each case.
- Rates by kind, holes, attribution and the nearest test of a bin: easy loops that nothing harder needs.
- Loading, saving and hashing: a cache or a session is a value, and a file is a map entry.
- Floating point: rates are exact and rounding is any monotone function; clocks are real numbers.
