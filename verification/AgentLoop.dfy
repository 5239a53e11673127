/** One run of the agent loop: model turns, tool results, interrupts, nudges, compaction,
ledger refreshes and model handoffs over one transcript.

The model, the tools and the reachability of other models are inputs of each step, so a
statement about `Execute` holds of every run. */
module AgentLoop {
  import opened Router
  import opened Sequences
  import opened Transcript
  import opened Wrappers
  import R = RunState
  import W = WorkingSet

  /** A guard's text; none is worded like a ledger. */
  type NoteText = s: string | !(LEDGER_TAG <= s) witness ""

  datatype Note = Note(guard: string, text: NoteText)

  /** What a tool did, as far as the loop's own state depends on it. */
  datatype Effect =
    | WriteFile(path: string)
    | DeleteFile(path: string, checkpointed: bool) // whether the green checkpoint holds the path
    | RestoreTree
    | RunCheck(key: R.Key, rank: int, verdict: R.Verdict, job: string)
    | ReportDone(accepted: bool)
    | OtherTool

  /** What a simulation, synthesis or build job showed; a failed simulation has a signature. */
  datatype Job = NoJob | JobPassed | JobFailed(sig: Option<R.Signature>)

  datatype Outcome =
    | Interrupt
    | Ran(output: string, ok: bool, mutating: bool, effect: Effect, job: Job, notes: seq<Note>)

  /** A model turn and what follows it within the step: the outcome of each call, the cadence
      note, the nudges of the guards before the checkpoint guard, and whether the run now counts as
      stalled. */
  datatype Reply = Reply(
    text: string, truncated: bool, refusal: bool, planPending: bool,
    calls: seq<Call>, outcomes: seq<Outcome>, cadence: seq<Note>, nudges: seq<Note>, stalled: bool)

  datatype Event = TimedOut | CallFailed | Replied(reply: Reply)

  datatype StepInput = StepInput(
    tokensLeft: bool, reachable: set<Ref>, fetched: set<string>, ledgerText: string, event: Event)

  ghost predicate WellFormed(i: StepInput) {
    i.event.Replied? ==> |i.event.reply.outcomes| == |i.event.reply.calls| && DistinctIds(i.event.reply.calls)
  }

  /** `resolve` maps the name a model gives a tool to the tool's own. */
  datatype Settings = Settings(
    resolve: string -> string, hasSession: bool, router: Option<RouterConfig>, need: string, maxNudges: nat,
    requireReportDone: bool, codec: W.Codec, contextBudget: nat, keepRecent: nat)

  datatype Switch = Switch(source: Ref, target: Ref, reason: Trigger)

  datatype Next = Continue | Answered | ModelError | OutOfTokens | UserInterrupt

  function Pool(s: Settings): seq<Ref> {
    if s.router.Some? then s.router.value.pool else []
  }

  /** The model a proactive router would start on. */
  function Proactive(s: Settings): Option<Ref> {
    if s.router.Some? && s.router.value.enabled && s.router.value.proactive then Pick(s.router.value, s.need) else None
  }

  // ---- notes -------------------------------------------------------------------------

  function NoteTurns(notes: seq<Note>): seq<Turn> {
    if notes == [] then []
    else
      var last := notes[|notes| - 1];
      NoteTurns(notes[..|notes| - 1]) + [UserTurn(last.guard, last.text)]
  }

  /** How good a run keeps its transcript, given the one it loaded: ledger turns allowed, and
      whether every answer must be exact. */
  datatype Standard = Standard(ledgers: nat, exact: bool)

  /** A transcript fit to send and to save. */
  ghost predicate Good(t: seq<Turn>, limit: Standard) {
    Legal(t, limit.exact) && LedgerCount(t) <= limit.ledgers
  }

  lemma GoodAppend(t: seq<Turn>, m: Turn, limit: Standard)
    requires Good(t, limit) && !Asks(m) && !IsLedger(m)
    ensures Good(t + [m], limit)
  {
    LegalAppend(t, m, limit.exact);
    LedgerCountConcat(t, [m]);
  }

  lemma GoodExchange(t: seq<Turn>, m: Turn, next: Turn, limit: Standard)
    requires Good(t, limit) && Responds(m, next, true) && m.role.Assistant?
    ensures Good(t + [m] + [next], limit)
  {
    LegalExchange(t, m, next, limit.exact);
    LedgerCountConcat(t + [m], [next]);
    LedgerCountConcat(t, [m]);
    assert t + [m] + [next] == t + [m, next];
  }

  lemma {:induction false} GoodNotes(t: seq<Turn>, notes: seq<Note>, limit: Standard)
    requires Good(t, limit)
    ensures Good(t + NoteTurns(notes), limit)
  {
    if notes == [] {
      assert t + [] == t;
    } else {
      var init, last := notes[..|notes| - 1], notes[|notes| - 1];
      GoodNotes(t, init, limit);
      var m := UserTurn(last.guard, last.text);
      GoodAppend(t + NoteTurns(init), m, limit);
      assert t + NoteTurns(notes) == (t + NoteTurns(init)) + [m];
    }
  }

  lemma GoodRefresh(t: seq<Turn>, text: string, limit: Standard)
    requires Good(t, limit) && limit.ledgers >= 1
    ensures Good(Refresh(t, UserTurn("ledger", LEDGER_TAG + text)), limit)
    ensures Good(Strip(t), limit)
  {
    var ledger := UserTurn("ledger", LEDGER_TAG + text);
    assert IsLedger(ledger);
    RefreshLeavesOne(t, ledger, limit.exact);
    StripMeans(t, limit.exact);
  }

  /** The one ledger turn, current when the run has touched files and gone when it has not. */
  function Ledgered(t: seq<Turn>, dirty: bool, text: string): seq<Turn> {
    if dirty then Refresh(t, UserTurn("ledger", LEDGER_TAG + text)) else Strip(t)
  }

  ghost predicate EndsWithLedger(t: seq<Turn>, text: string) {
    t != [] && t[|t| - 1] == UserTurn("ledger", LEDGER_TAG + text)
  }

  lemma LedgeredMeans(t: seq<Turn>, dirty: bool, text: string)
    ensures LedgerCount(Ledgered(t, dirty, text)) == (if dirty then 1 else 0)
    ensures dirty ==> EndsWithLedger(Ledgered(t, dirty, text), text)
    ensures Strip(Ledgered(t, dirty, text)) == Strip(t)
  {
    var ledger := UserTurn("ledger", LEDGER_TAG + text);
    assert IsLedger(ledger);
    RefreshLeavesOne(t, ledger, false);
    StripCounts(t);
    StripCounts(Strip(t));
    StripConcat(Strip(t), [ledger]);
    assert Strip([ledger]) == [] by { assert [ledger][1..] == []; }
  }

  const HANDOFF_TEXT := "[router] takeover"

  lemma HandoffIsNoLedger()
    ensures !IsLedger(UserTurn("handoff", HANDOFF_TEXT))
  {
    assert HANDOFF_TEXT[1] == 'r';
    assert LEDGER_TAG[1] == 'w';
  }

  /** The standard a loaded transcript and a prompt set for the run. */
  ghost function StandardOf(loaded: seq<Turn>, prompt: string): Standard {
    var count := LedgerCount(Repaired(loaded) + [UserTurn("", prompt)]);
    Standard(if count > 1 then count else 1, NoWrongAnswers(loaded))
  }

  lemma StandardAllowsOne(loaded: seq<Turn>, prompt: string)
    ensures StandardOf(loaded, prompt).ledgers >= 1
  {
  }

  lemma GoodPrompt(t: seq<Turn>, prompt: string)
    ensures Good(Repaired(t) + [UserTurn("", prompt)], StandardOf(t, prompt))
  {
    RepairIsLegal(t, NoWrongAnswers(t));
    LegalAppend(Repaired(t), UserTurn("", prompt), NoWrongAnswers(t));
  }

  lemma GoodCompacted(p: W.Policy, t: seq<Turn>, limit: Standard)
    requires Good(t, limit)
    ensures Good(W.Compacted(p, t), limit)
  {
    W.CompactionKeepsLegality(p, t, limit.exact);
  }

  lemma {:induction false} NotesHoldNoLedger(notes: seq<Note>)
    ensures LedgerCount(NoteTurns(notes)) == 0
  {
    if notes != [] {
      var init, last := notes[..|notes| - 1], notes[|notes| - 1];
      NotesHoldNoLedger(init);
      LedgerCountConcat(NoteTurns(init), [UserTurn(last.guard, last.text)]);
    }
  }

  /** Notes appended, with the ledger refreshed after the first of them, leave the rest of the
      transcript where it was. */
  lemma AppendedKeep(
    t: seq<Turn>, notes: seq<Note>, refresh: bool, text: string, a: seq<Note>, b: seq<Note>, c: seq<Note>)
    ensures var taught := t + NoteTurns(notes);
      var out := (if refresh then Ledgered(taught, true, text) else taught) + NoteTurns(a) + NoteTurns(b) +
        NoteTurns(c);
      && Strip(t) <= Strip(out)
      && (refresh ==> LedgerCount(out) == 1)
  {
    hide Strip, LedgerCount, NoteTurns, Ledgered;
    var taught := t + NoteTurns(notes);
    var led := if refresh then Ledgered(taught, true, text) else taught;
    LedgeredMeans(taught, true, text);
    StripConcat(t, NoteTurns(notes));
    StripConcat(led, NoteTurns(a));
    StripConcat(led + NoteTurns(a), NoteTurns(b));
    StripConcat(led + NoteTurns(a) + NoteTurns(b), NoteTurns(c));
    NotesHoldNoLedger(a);
    NotesHoldNoLedger(b);
    NotesHoldNoLedger(c);
    LedgerCountConcat(led, NoteTurns(a));
    LedgerCountConcat(led + NoteTurns(a), NoteTurns(b));
    LedgerCountConcat(led + NoteTurns(a) + NoteTurns(b), NoteTurns(c));
  }

  // ---- what tools do to the tree ---------------------------------------------------------------

  function EventsOf(o: Outcome): seq<R.Event> {
    if o.Interrupt? then []
    else match o.effect
      case WriteFile(_) => if o.ok then [R.Bump] else []
      case DeleteFile(_, _) => if o.ok then [R.Bump] else []
      case RestoreTree => if o.ok then [R.Bump] else []
      case RunCheck(key, rank, verdict, job) => [R.Check(key, rank, verdict, job)]
      case _ => []
  }

  /** The files a call wrote or deleted. */
  function FileOpsOf(o: Outcome): seq<R.FileOp> {
    if o.Interrupt? || !o.ok then []
    else match o.effect
      case WriteFile(path) => if path != "" then [R.Wrote(path)] else []
      case DeleteFile(path, _) => if path != "" then [R.Removed(path)] else []
      case _ => []
  }

  /** The tree changes and check results of the calls performed. */
  function Events(done: seq<Outcome>): seq<R.Event> {
    if done == [] then [] else Events(done[..|done| - 1]) + EventsOf(done[|done| - 1])
  }

  function FileOps(done: seq<Outcome>): seq<R.FileOp> {
    if done == [] then [] else FileOps(done[..|done| - 1]) + FileOpsOf(done[|done| - 1])
  }

  lemma OneMoreDone(done: seq<Outcome>, o: Outcome)
    ensures Events(done + [o]) == Events(done) + EventsOf(o) && FileOps(done + [o]) == FileOps(done) + FileOpsOf(o)
  {
    assert (done + [o])[..|done|] == done;
  }

  lemma NothingDone()
    ensures Events([]) == [] && FileOps([]) == [] && R.Epoch([]) == 0
    ensures forall s :: !R.SuspectedBy([], s)
  {
  }

  /** The calls of a turn that ran: those before the first interrupt. */
  function Performed(outcomes: seq<Outcome>): seq<Outcome> {
    if outcomes == [] || outcomes[0].Interrupt? then [] else [outcomes[0]] + Performed(outcomes[1..])
  }

  lemma {:induction false} PerformedGrows(outcomes: seq<Outcome>, i: nat)
    requires i < |outcomes| && forall k :: 0 <= k < i ==> outcomes[k].Ran?
    ensures Performed(outcomes[..i]) == outcomes[..i]
    ensures outcomes[i].Ran? ==> Performed(outcomes[..i + 1]) == outcomes[..i] + [outcomes[i]]
    ensures outcomes[i].Interrupt? ==> Performed(outcomes) == outcomes[..i]
  {
    if i == 0 {
      assert outcomes[..1] == [outcomes[0]] && outcomes[..1][1..] == [];
    } else {
      PerformedGrows(outcomes[1..], i - 1);
      assert outcomes[..i + 1][1..] == outcomes[1..][..i] && outcomes[..i][1..] == outcomes[1..][..i - 1];
    }
  }

  /** What ran is everything before the first interrupt. */
  lemma {:induction false} PerformedMeans(outcomes: seq<Outcome>)
    ensures Performed(outcomes) <= outcomes && forall o :: o in Performed(outcomes) ==> o.Ran?
    ensures Performed(outcomes) == outcomes || outcomes[|Performed(outcomes)|].Interrupt?
  {
    if outcomes != [] && outcomes[0].Ran? { PerformedMeans(outcomes[1..]); }
  }

  /** Each call is answered with its own output, or, from an interrupted call on, with a note
      that it never ran. */
  ghost predicate Reports(s: Settings, reply: Reply, results: seq<Answer>) {
    && AnswersExactly(reply.calls, results)
    && |reply.outcomes| == |reply.calls|
    && forall i :: 0 <= i < |results| ==> results[i] == AnswerOf(s, reply, i)
  }

  /** The answer of a call that ran carries the tool's own name, that of another the name the
      model used. */
  function AnswerOf(s: Settings, reply: Reply, i: nat): Answer
    requires i < |reply.outcomes| == |reply.calls|
  {
    var call := reply.calls[i];
    if forall j :: 0 <= j <= i ==> reply.outcomes[j].Ran?
    then Answer(call.id, s.resolve(call.name), reply.outcomes[i].output)
    else Answer(call.id, call.name, INTERRUPTED)
  }

  /** The answers so far of calls that all ran. */
  ghost predicate RanSoFar(s: Settings, reply: Reply, results: seq<Answer>, n: nat) {
    && n <= |reply.calls| == |reply.outcomes| && AnswersExactly(reply.calls[..n], results)
    && forall i :: 0 <= i < n ==> reply.outcomes[i].Ran? && results[i] == AnswerOf(s, reply, i)
  }

  lemma NothingRan(s: Settings, reply: Reply)
    requires |reply.calls| == |reply.outcomes|
    ensures RanSoFar(s, reply, [], 0)
  {
  }

  lemma OneMoreRan(s: Settings, reply: Reply, results: seq<Answer>, n: nat)
    requires RanSoFar(s, reply, results, n) && n < |reply.calls| && reply.outcomes[n].Ran?
    ensures var call := reply.calls[n];
      RanSoFar(s, reply, results + [Answer(call.id, s.resolve(call.name), reply.outcomes[n].output)], n + 1)
  {
  }

  lemma AllRan(s: Settings, reply: Reply, results: seq<Answer>)
    requires RanSoFar(s, reply, results, |reply.calls|)
    ensures Reports(s, reply, results) && forall o :: o in reply.outcomes ==> o.Ran?
    ensures Performed(reply.outcomes) == reply.outcomes
  {
    assert reply.calls[..|reply.calls|] == reply.calls;
    AllPerform(reply.outcomes);
  }

  lemma {:induction false} AllPerform(outcomes: seq<Outcome>)
    requires forall o :: o in outcomes ==> o.Ran?
    ensures Performed(outcomes) == outcomes
  {
    if outcomes != [] {
      assert outcomes[0] in outcomes && outcomes[0].Ran?;
      assert outcomes == [outcomes[0]] + outcomes[1..];
      AllPerform(outcomes[1..]);
    }
  }

  lemma InterruptReports(s: Settings, reply: Reply, results: seq<Answer>, n: nat)
    requires DistinctIds(reply.calls) && RanSoFar(s, reply, results, n)
    requires n < |reply.calls| && reply.outcomes[n].Interrupt?
    ensures Reports(s, reply, Interrupted(reply.calls, results))
  {
    hide Unanswered;
    var calls := reply.calls;
    InterruptAnswersAll(calls, n, results);
    var rest := Unanswered(calls, Ids(results));
    UnansweredRest(calls, n, results);
    var all := results + rest;
    forall i | 0 <= i < |all| ensures all[i] == AnswerOf(s, reply, i) {
      if i >= n { assert all[i] == rest[i - n]; }
    }
  }

  /** What an interrupt adds stands for the calls from the interrupted one on. */
  lemma UnansweredRest(cs: seq<Call>, n: nat, results: seq<Answer>)
    requires n <= |cs| && AnswersExactly(cs[..n], results) && DistinctIds(cs)
    ensures var rest := Unanswered(cs, Ids(results));
      |rest| == |cs| - n && forall k :: 0 <= k < |rest| ==> rest[k] == Answer(cs[n + k].id, cs[n + k].name, INTERRUPTED)
  {
    hide Ids, Unanswered, NoneDone, AnswersExactly;
    var done, ahead := Ids(results), cs[n..];
    assert cs == cs[..n] + ahead;
    UnansweredConcat(cs[..n], ahead, done);
    IdsOfAnswered(cs[..n], results);
    AllAnswered(cs[..n], done);
    assert [] + Unanswered(ahead, done) == Unanswered(ahead, done);
    NoneAheadDone(cs, n, done);
    UnansweredAre(ahead, done);
    forall k | 0 <= k < |ahead| ensures ahead[k] == cs[n + k] { }
  }

  lemma AllAnswered(cs: seq<Call>, done: set<string>)
    requires done == set c | c in cs :: c.id
    ensures Unanswered(cs, done) == []
  {
    hide Unanswered;
    UnansweredCounts(cs, done);
  }

  lemma NoneAheadDone(cs: seq<Call>, n: nat, done: set<string>)
    requires n <= |cs| && DistinctIds(cs) && done == set c | c in cs[..n] :: c.id
    ensures NoneDone(cs[n..], done)
  {
    hide NoneDone;
    DisjointAhead(cs, n, done);
  }

  /** What the calls of a step showed of simulations: the last failure's signature, and whether
      any job passed. */
  function SeenIn(outcomes: seq<Outcome>): R.Seen {
    if outcomes == [] then R.Seen(None, false)
    else
      var seen, last := SeenIn(outcomes[..|outcomes| - 1]), outcomes[|outcomes| - 1];
      if last.Ran? && last.job.JobPassed? then seen.(passed := true)
      else if last.Ran? && last.job.JobFailed? && last.job.sig.Some? then seen.(sig := last.job.sig)
      else seen
  }

  predicate FailsWith(o: Outcome, s: R.Signature) {
    o.Ran? && o.job == JobFailed(Some(s))
  }

  /** The last failure that has a signature. */
  ghost predicate LastFailure(outcomes: seq<Outcome>, k: nat, s: R.Signature) {
    && k < |outcomes| && FailsWith(outcomes[k], s)
    && forall l, u :: k < l < |outcomes| ==> !FailsWith(outcomes[l], u)
  }

  /** A step showed a pass if some job passed, and the signature of the last failure that has one. */
  lemma {:induction false} SeenMeans(outcomes: seq<Outcome>, s: R.Signature)
    ensures SeenIn(outcomes).passed <==> exists o :: o in outcomes && o.Ran? && o.job.JobPassed?
    ensures SeenIn(outcomes).sig == Some(s) <==> exists k :: LastFailure(outcomes, k, s)
  {
    if outcomes != [] {
      var n := |outcomes| - 1;
      var last := outcomes[n];
      SeenMeans(outcomes[..n], s);
      SeenLast(outcomes, s);
      assert outcomes == outcomes[..n] + [last];
      assert last in outcomes;
      if last.Ran? && last.job.JobFailed? && last.job.sig.Some? {
        assert FailsWith(last, last.job.sig.value);
      }
    }
  }

  lemma SeenLast(outcomes: seq<Outcome>, s: R.Signature)
    requires outcomes != []
    ensures var n := |outcomes| - 1;
      (exists k :: LastFailure(outcomes, k, s)) <==>
        if exists u :: FailsWith(outcomes[n], u) then FailsWith(outcomes[n], s)
        else exists k :: LastFailure(outcomes[..n], k, s)
  {
    var n := |outcomes| - 1;
    if FailsWith(outcomes[n], s) { assert LastFailure(outcomes, n, s); }
    forall k | LastFailure(outcomes[..n], k, s) && !exists u :: FailsWith(outcomes[n], u)
      ensures LastFailure(outcomes, k, s) { }
    forall k | LastFailure(outcomes, k, s) && !exists u :: FailsWith(outcomes[n], u)
      ensures LastFailure(outcomes[..n], k, s) { }
  }

  const NARRATION_TEXT := "act now"
  const CONTINUE_TEXT := "continue"
  const REDO_TEXT := "same check"
  const GAP_TEXT := "scope gap"
  const WIPE_TEXT := "wiped"
  const ORACLE_TEXT := "check oracle"
  const RESTORE_TEXT := "go back"

  function TaughtNotes(teach: seq<R.Taught>): seq<Note> {
    if teach == [] then []
    else
      var note := if teach[0].lesson.Redo? then Note("scope_redo", REDO_TEXT) else Note("scope_gap", GAP_TEXT);
      [note] + TaughtNotes(teach[1..])
  }

  /** The last two guards of a step, as notes. */
  function LastGuards(tangled: bool, suspect: bool): seq<Note> {
    (if tangled then [Note("checkpoint", RESTORE_TEXT)] else []) +
      (if suspect then [Note("oracle", ORACLE_TEXT)] else [])
  }

  /** What follows the answers of a step leaves the rest of the transcript where it was. */
  lemma StepKeeps(t: seq<Turn>, out: seq<Turn>, reply: Reply, notes: seq<Note>, refresh: bool, text: string,
                  tangled: bool, suspect: bool)
    requires var taught := t + NoteTurns(notes);
      out == (if refresh then Ledgered(taught, true, text) else taught) + NoteTurns(reply.cadence)
        + NoteTurns(reply.nudges) + (if tangled then [UserTurn("checkpoint", RESTORE_TEXT)] else [])
        + (if suspect then [UserTurn("oracle", ORACLE_TEXT)] else [])
    ensures Strip(t) <= Strip(out) && (refresh ==> LedgerCount(out) == 1)
  {
    hide Strip, LedgerCount, NoteTurns, Ledgered;
    LastNotes(tangled, suspect);
    AppendedKeep(t, notes, refresh, text, reply.cadence, reply.nudges, LastGuards(tangled, suspect));
    var taught := t + NoteTurns(notes);
    var led := if refresh then Ledgered(taught, true, text) else taught;
    assert out == led + NoteTurns(reply.cadence) + NoteTurns(reply.nudges) + NoteTurns(LastGuards(tangled, suspect));
  }

  lemma LastNotes(tangled: bool, suspect: bool)
    ensures NoteTurns(LastGuards(tangled, suspect)) ==
      (if tangled then [UserTurn("checkpoint", RESTORE_TEXT)] else [])
      + (if suspect then [UserTurn("oracle", ORACLE_TEXT)] else [])
  {
    NoteTurnsOne(Note("checkpoint", RESTORE_TEXT));
    NoteTurnsOne(Note("oracle", ORACLE_TEXT));
    var both := [Note("checkpoint", RESTORE_TEXT), Note("oracle", ORACLE_TEXT)];
    assert both[..1] == [Note("checkpoint", RESTORE_TEXT)];
  }

  lemma NoteTurnsOne(note: Note)
    ensures NoteTurns([note]) == [UserTurn(note.guard, note.text)]
  {
    assert [note][..0] == [];
  }

  // ---- the quiet measure -----------------------------------------------------------------

  ghost function Untried(pool: seq<Ref>, tried: set<Ref>, gateway: Ref): set<Ref> {
    Elements(pool) - tried - {gateway}
  }

  /** Lexicographic (models left, nudges left) flattened to a number. */
  ghost function Fuel(models: nat, maxNudges: nat, narrations: nat, empties: nat): nat {
    models * (maxNudges + 3) + (if narrations <= maxNudges then maxNudges - narrations else 0) +
      (if empties <= 2 then 2 - empties else 0)
  }

  /** Depends on the pool and the nudge allowance alone. */
  ghost function Bound(pool: seq<Ref>, maxNudges: nat): nat {
    |Elements(pool)| * (maxNudges + 3) + maxNudges + 2
  }

  lemma FuelIsBounded(pool: seq<Ref>, tried: set<Ref>, gateway: Ref, maxNudges: nat, narrations: nat, empties: nat)
    ensures Fuel(|Untried(pool, tried, gateway)|, maxNudges, narrations, empties) <= Bound(pool, maxNudges)
  {
    SubsetCardinality(Untried(pool, tried, gateway), Elements(pool));
    Scaled(|Untried(pool, tried, gateway)|, |Elements(pool)|, maxNudges + 3);
  }

  lemma {:induction false} Scaled(a: nat, b: nat, k: nat)
    requires a <= b
    ensures a * k <= b * k
    ensures a < b ==> a * k + k <= b * k
  {
    if a < b {
      Scaled(a, b - 1, k);
      assert b * k == (b - 1) * k + k;
    }
  }

  /** Handing over to an untried model burns fuel even when every nudge is given back. */
  lemma SwitchBurnsFuel(pool: seq<Ref>, tried: set<Ref>, gateway: Ref, tried': set<Ref>, gateway': Ref,
                        maxNudges: nat, n: nat, e: nat, n': nat, e': nat)
    requires gateway' in Untried(pool, tried, gateway)
    requires tried + {gateway, gateway'} <= tried'
    ensures Fuel(|Untried(pool, tried', gateway')|, maxNudges, n', e')
      < Fuel(|Untried(pool, tried, gateway)|, maxNudges, n, e)
  {
    var before, after := Untried(pool, tried, gateway), Untried(pool, tried', gateway');
    SubsetCardinality(after, before - {gateway'});
    FewerModelsLessFuel(|after|, |before|, maxNudges, n, e, n', e');
  }

  lemma MoreTriedLessFuel(
    pool: seq<Ref>, tried: set<Ref>, tried': set<Ref>, gateway: Ref, maxNudges: nat, n: nat, e: nat)
    requires tried <= tried'
    ensures Fuel(|Untried(pool, tried', gateway)|, maxNudges, n, e)
      <= Fuel(|Untried(pool, tried, gateway)|, maxNudges, n, e)
  {
    SubsetCardinality(Untried(pool, tried', gateway), Untried(pool, tried, gateway));
    Scaled(|Untried(pool, tried', gateway)|, |Untried(pool, tried, gateway)|, maxNudges + 3);
  }

  lemma NudgeBurnsFuel(models: nat, maxNudges: nat, n: nat, e: nat)
    ensures n < maxNudges ==> Fuel(models, maxNudges, n + 1, e) < Fuel(models, maxNudges, n, e)
    ensures e < 2 ==> Fuel(models, maxNudges, n, e + 1) < Fuel(models, maxNudges, n, e)
    ensures Fuel(models, maxNudges, n, e + 1) <= Fuel(models, maxNudges, n, e)
  {
  }

  lemma FewerModelsLessFuel(models': nat, models: nat, maxNudges: nat, n: nat, e: nat, n': nat, e': nat)
    requires models' < models
    ensures Fuel(models', maxNudges, n', e') < Fuel(models, maxNudges, n, e)
  {
    Scaled(models', models, maxNudges + 3);
  }

  /** `now` is the fallback for `need` after `cur` once every other model tried is set aside. */
  ghost predicate IsNext(cfg: RouterConfig, cur: Ref, need: string, tried: set<Ref>, now: Ref) {
    NextFallback(cfg, cur, need, tried - {now}) == Some(now)
  }

  // ---- who has taken over ---------------------------------------------------------------------

  function Targets(switches: seq<Switch>): seq<Ref> {
    if switches == [] then [] else Targets(switches[..|switches| - 1]) + [switches[|switches| - 1].target]
  }

  /** No model has run twice: `first`, then the target of each switch, are all different, and
      all but possibly the current one are marked as tried. */
  ghost predicate Routed(pool: seq<Ref>, first: Ref, gateway: Ref, tried: set<Ref>, switches: seq<Switch>) {
    && NoDup([first] + Targets(switches))
    && Elements(Targets(switches)) <= tried * Elements(pool)
    && (switches == [] ==> gateway == first)
    && (switches != [] ==> first in tried && gateway == switches[|switches| - 1].target)
  }

  lemma RoutedStart(pool: seq<Ref>, first: Ref)
    ensures Routed(pool, first, first, {}, [])
  {
  }

  lemma RoutedMoreTried(
    pool: seq<Ref>, first: Ref, gateway: Ref, tried: set<Ref>, switches: seq<Switch>, more: set<Ref>)
    requires Routed(pool, first, gateway, tried, switches) && tried <= more
    ensures Routed(pool, first, gateway, more, switches)
  {
  }

  lemma RoutedSwitch(
    pool: seq<Ref>, first: Ref, gateway: Ref, tried: set<Ref>, switches: seq<Switch>, next: Ref, reason: Trigger)
    requires Routed(pool, first, gateway, tried, switches)
    requires gateway in tried && next in pool && next !in tried
    ensures Routed(pool, first, next, tried + {next}, switches + [Switch(gateway, next, reason)])
  {
    var more := switches + [Switch(gateway, next, reason)];
    assert more[..|switches|] == switches;
    assert Targets(more) == Targets(switches) + [next];
    assert next !in [first] + Targets(switches) by {
      assert next !in Elements(Targets(switches));
    }
    NoDupAppend([first] + Targets(switches), next);
    assert [first] + Targets(more) == ([first] + Targets(switches)) + [next];
    ElementsConcat(Targets(switches), [next]);
  }

  /** A successful write, edit, delete or restore. */
  predicate Touches(o: Outcome) {
    o.Ran? && o.ok && (o.effect.WriteFile? || o.effect.DeleteFile? || o.effect.RestoreTree?)
  }

  /** What the tracker and the ledger are told of a call, by the kind of its effect. */
  lemma EffectMeans(o: Outcome)
    requires o.Ran?
    ensures Touches(o) ==> EventsOf(o) == [R.Bump]
    ensures o.effect.RunCheck? ==> EventsOf(o) == [R.Check(o.effect.key, o.effect.rank, o.effect.verdict, o.effect.job)]
    ensures !Touches(o) && !o.effect.RunCheck? ==> EventsOf(o) == []
    ensures o.ok && o.effect.WriteFile? && o.effect.path != "" ==> FileOpsOf(o) == [R.Wrote(o.effect.path)]
    ensures o.ok && o.effect.DeleteFile? && o.effect.path != "" ==> FileOpsOf(o) == [R.Removed(o.effect.path)]
    ensures !o.ok || !(o.effect.WriteFile? || o.effect.DeleteFile?) || o.effect.path == "" ==> FileOpsOf(o) == []
  {
  }

  /** This step makes a signature suspected that was not before. */
  ghost predicate NewSuspect(steps: seq<R.Seen>, seen: R.Seen) {
    exists s :: R.SuspectedBy(steps + [seen], s) && !R.SuspectedBy(steps, s)
  }

  /** The transcript with old results evicted as far as the settings ask. */
  ghost function Roomed(s: Settings, fetched: set<string>, t: seq<Turn>): seq<Turn> {
    if s.contextBudget == 0 then t
    else W.Compacted(W.Policy(s.codec, s.contextBudget, s.keepRecent, fetched), t)
  }

  lemma AppendsOnly(t: seq<Turn>, u: seq<Turn>)
    ensures t <= u ==> Strip(t) <= Strip(u)
  {
    if t <= u {
      assert u == t + u[|t|..];
      StripConcat(t, u[|t|..]);
    }
  }

  // ---- one run -----------------------------------------------------------------------------

  class AgentRun {
    const settings: Settings
    const led: R.WorkspaceLedger
    const ver: R.VerificationTracker
    const oracle: R.OracleGuard
    var transcript: seq<Turn>
    var gateway: Ref
    var tried: set<Ref>
    var switches: seq<Switch>
    var modelsUsed: seq<Ref>
    var handoffInPrompt: bool
    var narrationNudges: nat
    var emptyTurns: nat
    var reportedDone: bool
    var madeMutatingCall: bool
    ghost const limit: Standard // set by the transcript loaded
    ghost const first: Ref      // the model the step loop starts on
    ghost var saved: seq<seq<Turn>>   // every transcript written to the session
    ghost var quiet: nat        // steps since the last one with a tool call
    ghost var performed: seq<Outcome> // every call that ran, in order

    /** Load and repair the session, add the prompt, and start on the best model for its need
        when the router is proactive. */
    constructor (settings: Settings, loaded: seq<Turn>, prompt: string, current: Ref, reachable: set<Ref>)
      ensures this.settings == settings && fresh(led) && fresh(ver) && fresh(oracle)
      ensures Valid() && emptyTurns == 0 && saved == [] && switches == [] && quiet == 0 && performed == []
      ensures oracle.steps == []
      ensures var messages := if settings.hasSession then loaded else [];
        transcript == Repaired(messages) + [UserTurn("", prompt)] && limit == StandardOf(messages, prompt)
      ensures modelsUsed == if gateway == current then [current] else [current, gateway]
      ensures first == gateway
      // a proactive router's pick runs if it is reachable, and nothing else replaces the current model
      ensures var picks := settings.router.Some? && settings.router.value.enabled && settings.router.value.proactive;
        var best := if picks then Pick(settings.router.value, settings.need) else None;
        gateway == if best.Some? && best.value in reachable then best.value else current
    {
      hide Good, StandardOf, Repaired, Fuel, Untried, Bound, Routed, LedgerCount, Legal, Pick;
      hide Events, FileOps, R.Epoch, R.SuspectedBy, R.Streak, R.Tracks, R.Green, R.FailsSinceGreen, R.LastOp;
      NothingDone();
      var messages, _ := CloseDanglingToolCalls(if settings.hasSession then loaded else []);
      StandardAllowsOne(if settings.hasSession then loaded else [], prompt);
      GoodPrompt(if settings.hasSession then loaded else [], prompt);
      var start := current;
      var best := Proactive(settings);
      if best.Some? && best.value != current && best.value in reachable {
        start := best.value;
      }
      this.settings := settings;
      led := new R.WorkspaceLedger();
      ver := new R.VerificationTracker();
      oracle := new R.OracleGuard();
      transcript := messages + [UserTurn("", prompt)];
      limit := StandardOf(if settings.hasSession then loaded else [], prompt);
      gateway, first := start, start;
      modelsUsed := if start == current then [current] else [current, start];
      tried, switches, handoffInPrompt := {}, [], false;
      narrationNudges, emptyTurns, reportedDone, madeMutatingCall := 0, 0, false, false;
      saved, quiet, performed := [], 0, [];
      RoutedStart(Pool(settings), start);
      FuelIsBounded(Pool(settings), {}, start, settings.maxNudges, 0, 0);
    }

    /** The transcript, and every transcript ever saved, is fit to send. */
    ghost predicate Conversation()
      reads this`transcript, this`saved
    {
      limit.ledgers >= 1 && Good(transcript, limit) && forall t :: t in saved ==> Good(t, limit)
    }

    ghost predicate Routing()
      reads this`gateway, this`tried, this`switches
    {
      Routed(Pool(settings), first, gateway, tried, switches)
    }

    ghost predicate TreeState()
      reads led`authored, led`deleted, led`ops, led`epoch
      reads ver`checks, ver`greenEpoch, ver`greenJob, ver`failsSinceGreen, ver`scopeTaught, ver`history, ver`lessons
    {
      led.Valid() && ver.Valid() && led.epoch == R.Epoch(ver.history)
    }

    /** The tracker and the ledger are true of everything that ran. */
    ghost predicate Tree()
      reads this`performed, led`authored, led`deleted, led`ops, led`epoch
      reads ver`checks, ver`greenEpoch, ver`greenJob, ver`failsSinceGreen, ver`scopeTaught, ver`history, ver`lessons
    {
      TreeState() && ver.history == Events(performed) && led.ops == FileOps(performed)
    }

    ghost function Left(): nat
      reads this`gateway, this`tried, this`narrationNudges, this`emptyTurns
    {
      Fuel(|Untried(Pool(settings), tried, gateway)|, settings.maxNudges, narrationNudges, emptyTurns)
    }

    ghost predicate Quieting()
      reads this`quiet, this`gateway, this`tried, this`narrationNudges, this`emptyTurns
    {
      quiet + Left() <= Bound(Pool(settings), settings.maxNudges)
    }

    /** Exactly the signatures that ever failed three times in a row have been suspected. */
    ghost predicate Watching()
      reads oracle
    {
      oracle.Valid() && forall s :: s in oracle.nudged <==> R.SuspectedBy(oracle.steps, s)
    }

    ghost predicate Valid()
      reads this, led, ver, oracle
    {
      Conversation() && Routing() && Tree() && Watching() && Quieting()
    }

    /** With a session, what was saved last is the transcript as it stands. */
    ghost predicate SavedLast()
      reads this`transcript, this`saved
    {
      settings.hasSession ==> saved != [] && saved[|saved| - 1] == transcript
    }

    // ---- persistence and notes --------------------------------------------------------------

    method Persist()
      requires Conversation()
      modifies this`saved
      ensures Conversation() && SavedLast() && saved == old(saved) + (if settings.hasSession then [transcript] else [])
    {
      if settings.hasSession {
        saved := saved + [transcript];
      }
    }

    method Nudge(note: Note)
      requires Conversation()
      modifies this`transcript, this`saved
      ensures Conversation() && SavedLast() && transcript == old(transcript) + [UserTurn(note.guard, note.text)]
    {
      GoodAppend(transcript, UserTurn(note.guard, note.text), limit);
      transcript := transcript + [UserTurn(note.guard, note.text)];
      Persist();
    }

    // ---- model handoff -------------------------------------------------------------------------

    /** Hand over to the next reachable fallback.  False only when the trigger is off or no
        other pool model is left; then every fallback this call considered was unreachable. */
    method TrySwitch(reason: Trigger, need: string, reachable: set<Ref>) returns (switched: bool)
      requires Conversation() && Routing()
      modifies this`transcript, this`saved, this`gateway, this`tried, this`switches, this`modelsUsed,
               this`handoffInPrompt
      ensures Conversation() && Routing()
      ensures old(tried) <= tried
      ensures switched ==>
        && settings.router.Some? && TriggerOn(settings.router.value, reason)
        && settings.router.value.enabled && settings.router.value.reactive && reason !in settings.router.value.off
      ensures switched ==> gateway in Untried(Pool(settings), old(tried), old(gateway)) && gateway in reachable
      ensures switched ==> switches == old(switches) + [Switch(old(gateway), gateway, reason)]
      ensures switched ==> modelsUsed == old(modelsUsed) + [gateway] && old(tried) + {old(gateway), gateway} <= tried
      ensures !switched ==> gateway == old(gateway) && switches == old(switches) && modelsUsed == old(modelsUsed)
      ensures switched ==> SavedLast() && old(transcript) <= transcript
      ensures switched ==> IsNext(settings.router.value, old(gateway), need, tried, gateway)
      ensures !switched ==> transcript == old(transcript) && saved == old(saved)
      ensures !switched && settings.router.Some? && TriggerOn(settings.router.value, reason) ==>
        Untried(Pool(settings), tried, gateway) == {} && Untried(Pool(settings), old(tried), gateway) !! reachable
    {
      hide Good, Routed, NextFallback;
      if settings.router.None? || !TriggerOn(settings.router.value, reason) {
        return false;
      }
      var cur := gateway;
      RoutedMoreTried(Pool(settings), first, cur, tried, switches, tried + {cur});
      tried := tried + {cur};
      var next := SkipUnreachable(settings.router.value, need, reachable);
      if next.None? {
        return false;
      }
      ghost var passed := tried;
      Enter(next.value, reason);
      assert tried - {gateway} == passed;
      switched := true;
    }

    /** Mark unreachable fallbacks as tried until a reachable one is found. */
    method SkipUnreachable(cfg: RouterConfig, need: string, reachable: set<Ref>) returns (next: Option<Ref>)
      requires settings.router == Some(cfg) && Routing() && gateway in tried
      modifies this`tried
      ensures Routing() && old(tried) <= tried && (tried - old(tried)) !! reachable
      ensures next.None? ==> Elements(cfg.pool) <= tried
      ensures next.Some? ==> next.value in cfg.pool && next.value !in tried && next.value in reachable
      ensures next == NextFallback(cfg, gateway, need, tried)
    {
      hide Routed, NoDup;
      next := NextFallback(cfg, gateway, need, tried);
      while next.Some? && next.value !in reachable
        invariant old(tried) <= tried && (tried - old(tried)) !! reachable
        invariant next == NextFallback(cfg, gateway, need, tried)
        invariant Routing()
        decreases Elements(cfg.pool) - tried
      {
        assert next.value in Elements(cfg.pool) - tried;
        RoutedMoreTried(Pool(settings), first, gateway, tried, switches, tried + {next.value});
        tried := tried + {next.value};
        next := NextFallback(cfg, gateway, need, tried);
      }
    }

    method Enter(next: Ref, reason: Trigger)
      requires Conversation() && Routing() && gateway in tried
      requires next in Pool(settings) && next !in tried
      modifies this`transcript, this`saved, this`gateway, this`tried, this`switches, this`modelsUsed,
               this`handoffInPrompt
      ensures Conversation() && Routing() && SavedLast() && gateway == next && tried == old(tried) + {next}
      ensures switches == old(switches) + [Switch(old(gateway), next, reason)] && modelsUsed == old(modelsUsed) + [next]
      // the note goes to the system prompt after tool results, else into the conversation
      ensures var afterTools := old(transcript) != [] && old(transcript)[|old(transcript)| - 1].role.Tool?;
        && handoffInPrompt == (old(handoffInPrompt) || afterTools)
        && transcript == old(transcript) + (if afterTools then [] else [UserTurn("handoff", HANDOFF_TEXT)])
    {
      hide Good, IsLedger, Routed;
      RoutedSwitch(Pool(settings), first, gateway, tried, switches, next, reason);
      switches := switches + [Switch(gateway, next, reason)];
      gateway, tried := next, tried + {next};
      modelsUsed := modelsUsed + [next];
      if transcript != [] && transcript[|transcript| - 1].role.Tool? {
        handoffInPrompt := true;
      } else {
        HandoffIsNoLedger();
        GoodAppend(transcript, UserTurn("handoff", HANDOFF_TEXT), limit);
        transcript := transcript + [UserTurn("handoff", HANDOFF_TEXT)];
      }
      Persist();
    }

    // ---- a turn without a tool call ---------------------------------------------------------------

    /** Work is under way, so prose alone does not finish it. */
    predicate Engaged(reply: Reply)
      reads this
    {
      madeMutatingCall || reply.planPending || settings.requireReportDone
    }

    /** A refusal that the router acts on. */
    predicate Refuses(reply: Reply) {
      settings.router.Some? && TriggerOn(settings.router.value, Refusal) && reply.refusal
    }

    /** True to take another step: a nudge or a handoff was issued, and each burns fuel. */
    method HandleTextOnlyTurn(reply: Reply, reachable: set<Ref>) returns (again: bool)
      requires Conversation() && Routing() && emptyTurns <= 2
      modifies this`transcript, this`saved, this`gateway, this`tried, this`switches, this`modelsUsed,
               this`handoffInPrompt, this`narrationNudges, this`emptyTurns
      ensures Conversation() && Routing()
      ensures again ==> Left() < old(Left()) && emptyTurns <= 2
      ensures Left() <= old(Left())
      ensures !again ==>
        if reply.text != "" && !reply.truncated
        then !Engaged(reply) || reportedDone || old(narrationNudges) >= settings.maxNudges
        else old(emptyTurns) == 2
      ensures again ==> SavedLast()
      ensures old(transcript) <= transcript && (!again ==> transcript == old(transcript))
      // a refusal hands over while any other model is left
      ensures reply.refusal && settings.router.Some? && TriggerOn(settings.router.value, Refusal) ==>
        || (again && switches == old(switches) + [Switch(old(gateway), gateway, Refusal)])
        || Untried(Pool(settings), old(tried), old(gateway)) !! reachable
      // without one, what happens is decided
      ensures !Refuses(reply) && reply.text != "" && !reply.truncated ==>
        && (!Engaged(reply) || reportedDone ==> !again)
        && (Engaged(reply) && !reportedDone && old(narrationNudges) < settings.maxNudges ==>
            again && transcript == old(transcript) + [UserTurn("narration", NARRATION_TEXT)])
      ensures !Refuses(reply) && (reply.text == "" || reply.truncated) && old(emptyTurns) < 2 ==>
        again && transcript == old(transcript) + [UserTurn("continue", CONTINUE_TEXT)]
    {
      hide Good, Routed, Fuel, Untried, TriggerOn, SavedLast, IsNext;
      if Refuses(reply) {
        again := Handoff(Refusal, reachable, narrationNudges, emptyTurns);
        if again { return; }
      }
      if reply.text != "" && !reply.truncated {
        again := HandleProse(reply, reachable);
      } else {
        again := HandleEmpty(reachable);
      }
    }

    /** Text that looks like a final answer: nudge, hand over, or accept it. */
    method HandleProse(reply: Reply, reachable: set<Ref>) returns (again: bool)
      requires Conversation() && Routing()
      modifies this`transcript, this`saved, this`gateway, this`tried, this`switches, this`modelsUsed,
               this`handoffInPrompt, this`narrationNudges, this`emptyTurns
      ensures Conversation() && Routing() && Left() <= old(Left()) && emptyTurns == old(emptyTurns)
      ensures again ==> Left() < old(Left())
      ensures var engaged := madeMutatingCall || reply.planPending || settings.requireReportDone;
        Engaged(reply) == engaged && (!again ==> !engaged || reportedDone || old(narrationNudges) >= settings.maxNudges)
      ensures again ==> SavedLast()
      ensures old(transcript) <= transcript && (!again ==> transcript == old(transcript))
      ensures !Engaged(reply) || reportedDone ==>
        !again && saved == old(saved) && narrationNudges == old(narrationNudges) && gateway == old(gateway)
      ensures Engaged(reply) && !reportedDone && old(narrationNudges) < settings.maxNudges ==>
        && again && narrationNudges == old(narrationNudges) + 1 && gateway == old(gateway)
        && transcript == old(transcript) + [UserTurn("narration", NARRATION_TEXT)]
      ensures Engaged(reply) && !reportedDone && old(narrationNudges) >= settings.maxNudges && again ==>
        narrationNudges == 0 && switches == old(switches) + [Switch(old(gateway), gateway, GiveUp)]
    {
      hide Good, Routed, Fuel, Untried, SavedLast, IsNext;
      again := false;
      if Engaged(reply) && !reportedDone {
        if narrationNudges < settings.maxNudges {
          NudgeBurnsFuel(|Untried(Pool(settings), tried, gateway)|, settings.maxNudges, narrationNudges, emptyTurns);
          narrationNudges := narrationNudges + 1;
          Nudge(Note("narration", NARRATION_TEXT));
          again := true;
        } else {
          again := Handoff(GiveUp, reachable, 0, emptyTurns);
        }
      }
    }

    /** No usable output: nudge to continue twice, then hand over or stop loudly. */
    method HandleEmpty(reachable: set<Ref>) returns (again: bool)
      requires Conversation() && Routing() && emptyTurns <= 2
      modifies this`transcript, this`saved, this`gateway, this`tried, this`switches, this`modelsUsed,
               this`handoffInPrompt, this`narrationNudges, this`emptyTurns
      ensures Conversation() && Routing() && Left() <= old(Left())
      ensures again ==> Left() < old(Left()) && emptyTurns <= 2
      ensures !again ==> old(emptyTurns) == 2
      ensures again ==> SavedLast()
      ensures old(transcript) <= transcript && (!again ==> transcript == old(transcript))
      ensures old(emptyTurns) < 2 ==>
        && again && emptyTurns == old(emptyTurns) + 1 && gateway == old(gateway)
        && transcript == old(transcript) + [UserTurn("continue", CONTINUE_TEXT)]
      ensures old(emptyTurns) == 2 && again ==>
        emptyTurns == 0 && switches == old(switches) + [Switch(old(gateway), gateway, GiveUp)]
    {
      hide Good, Routed, Fuel, Untried, SavedLast, IsNext;
      NudgeBurnsFuel(|Untried(Pool(settings), tried, gateway)|, settings.maxNudges, narrationNudges, emptyTurns);
      emptyTurns := emptyTurns + 1;
      if emptyTurns > 2 {
        again := Handoff(GiveUp, reachable, narrationNudges, 0);
      } else {
        Nudge(Note("continue", CONTINUE_TEXT));
        again := true;
      }
    }

    /** Try to hand over; on success the nudge counters become those given. */
    method Handoff(reason: Trigger, reachable: set<Ref>, narrations: nat, empties: nat) returns (switched: bool)
      requires Conversation() && Routing()
      modifies this`transcript, this`saved, this`gateway, this`tried, this`switches, this`modelsUsed,
               this`handoffInPrompt, this`narrationNudges, this`emptyTurns
      ensures Conversation() && Routing()
      ensures switched ==> Left() < old(Left()) && narrationNudges == narrations && emptyTurns == empties
      ensures switched ==> forall n, e ::
        Left() < Fuel(|Untried(Pool(settings), old(tried), old(gateway))|, settings.maxNudges, n, e)
      ensures !switched ==> Left() <= old(Left())
      ensures !switched ==> narrationNudges == old(narrationNudges) && emptyTurns == old(emptyTurns)
      ensures !switched ==> gateway == old(gateway) && old(tried) <= tried
      ensures switched ==> SavedLast() && switches == old(switches) + [Switch(old(gateway), gateway, reason)]
      ensures switched ==>
        settings.router.Some? && IsNext(settings.router.value, old(gateway), settings.need, tried, gateway)
      ensures !switched ==> transcript == old(transcript) && saved == old(saved) && switches == old(switches)
      ensures !switched && settings.router.Some? && TriggerOn(settings.router.value, reason) ==>
        Untried(Pool(settings), old(tried), gateway) !! reachable
      ensures old(transcript) <= transcript
    {
      hide Good, Routed, NoDup, Fuel, Untried, SavedLast, IsNext, TriggerOn;
      switched := TrySwitch(reason, settings.need, reachable);
      if switched {
        narrationNudges, emptyTurns := narrations, empties;
        ghost var pool, most := Pool(settings), settings.maxNudges;
        forall n, e ensures Left() < Fuel(|Untried(pool, old(tried), old(gateway))|, most, n, e) {
          SwitchBurnsFuel(pool, old(tried), old(gateway), tried, gateway, most, n, e, narrations, empties);
        }
      } else {
        MoreTriedLessFuel(Pool(settings), old(tried), tried, gateway, settings.maxNudges, narrationNudges, emptyTurns);
      }
    }

    // ---- a turn with tool calls -----------------------------------------------------------------------

    /** What one finished call does to the ledger and the tracker, and the teachings it earns:
        those the tool's own guards give, the scope lessons of a check, and one when a delete
        wipes a file of the green checkpoint. */
    method Perform(o: Outcome) returns (notes: seq<Note>)
      requires Tree() && o.Ran?
      modifies this`reportedDone, this`madeMutatingCall, this`performed, led, ver
      ensures Tree() && performed == old(performed) + [o]
      ensures led.active == old(led.active)
      // the epoch moves exactly on a successful write, edit, delete or restore
      ensures led.epoch == old(led.epoch) + (if Touches(o) then 1 else 0)
      ensures madeMutatingCall == (old(madeMutatingCall) || (o.ok && o.mutating))
      ensures reportedDone == (old(reportedDone) || (o.ok && o.effect == ReportDone(true)))
      ensures o.effect.RunCheck? ==>
        |old(ver.lessons)| <= |ver.lessons| && notes == o.notes + TaughtNotes(ver.lessons[|old(ver.lessons)|..])
      ensures !o.effect.RunCheck? ==>
        var wiped := o.ok && o.effect.DeleteFile? && o.effect.path != "" && o.effect.checkpointed
          && old(ver.greenJob) != "" && !old(ver.checkpointTaught);
        && notes == o.notes + (if wiped then [Note("wipe", WIPE_TEXT)] else [])
        && ver.checkpointTaught == (old(ver.checkpointTaught) || wiped)
    {
      hide TreeState, Events, FileOps, EventsOf, FileOpsOf;
      OneMoreDone(performed, o);
      EffectMeans(o);
      notes := o.notes;
      if o.ok && o.mutating { madeMutatingCall := true; }
      var earned;
      if o.effect.RunCheck? {
        earned := ApplyCheck(o.effect.key, o.effect.rank, o.effect.verdict, o.effect.job);
      } else {
        earned := ApplyFiles(o);
      }
      notes := notes + earned;
      if o.ok && o.effect == ReportDone(true) { reportedDone := true; }
      performed := performed + [o];
    }

    /** A check result, recorded on the current tree. */
    method ApplyCheck(key: R.Key, rank: int, verdict: R.Verdict, job: string) returns (earned: seq<Note>)
      requires TreeState()
      modifies ver
      ensures TreeState() && ver.history == old(ver.history) + [R.Check(key, rank, verdict, job)]
      ensures |old(ver.lessons)| <= |ver.lessons| && earned == TaughtNotes(ver.lessons[|old(ver.lessons)|..])
    {
      hide R.Epoch, R.Green;
      R.HistoryGrows(ver.history, R.Check(key, rank, verdict, job));
      var teach, _ := ver.Observe(key, rank, verdict, job, led.epoch);
      assert ver.lessons[|old(ver.lessons)|..] == teach;
      earned := TaughtNotes(teach);
    }

    /** What a successful write, edit, delete or restore does. */
    method ApplyFiles(o: Outcome) returns (earned: seq<Note>)
      requires TreeState() && o.Ran? && !o.effect.RunCheck?
      modifies led`authored, led`deleted, led`ops, led`epoch, ver`history, ver`checkpointTaught
      ensures TreeState()
      ensures ver.history == old(ver.history) + EventsOf(o) && led.ops == old(led.ops) + FileOpsOf(o)
      ensures led.epoch == old(led.epoch) + (if Touches(o) then 1 else 0)
      ensures var wiped := o.ok && o.effect.DeleteFile? && o.effect.path != "" && o.effect.checkpointed
          && ver.greenJob != "" && !old(ver.checkpointTaught);
        && earned == (if wiped then [Note("wipe", WIPE_TEXT)] else [])
        && ver.checkpointTaught == (old(ver.checkpointTaught) || wiped)
    {
      hide R.Epoch, R.WorkspaceLedger.Valid, R.VerificationTracker.Valid;
      earned := [];
      if !o.ok { return; }
      match o.effect {
        case WriteFile(path) =>
          led.Write(path);
          BumpTree();
        case DeleteFile(path, checkpointed) =>
          BumpTree();
          led.Remove(path);
          if path != "" && checkpointed && ver.greenJob != "" && !ver.checkpointTaught {
            ver.checkpointTaught := true;
            earned := [Note("wipe", WIPE_TEXT)];
          }
        case RestoreTree =>
          BumpTree();
        case ReportDone(_) =>
        case OtherTool =>
      }
    }

    method BumpTree()
      requires TreeState()
      modifies led`epoch, ver`history
      ensures TreeState() && ver.history == old(ver.history) + [R.Bump] && led.epoch == old(led.epoch) + 1
    {
      R.HistoryGrows(ver.history, R.Bump);
      led.epoch := led.epoch + 1;
      ver.TreeChanged();
    }

    /** Run a turn's calls in order; an interrupt answers the interrupted call and every call
        after it.  Either way the answers are exactly those asked for. */
    method RunCalls(reply: Reply) returns (results: seq<Answer>, notes: seq<Note>, interrupted: bool)
      requires Tree() && |reply.outcomes| == |reply.calls| && DistinctIds(reply.calls)
      modifies this`reportedDone, this`madeMutatingCall, this`performed, led, ver
      ensures Tree() && led.active == old(led.active)
      ensures Reports(settings, reply, results)
      ensures interrupted <==> exists o :: o in reply.outcomes && o.Interrupt?
      ensures performed == old(performed) + Performed(reply.outcomes)
    {
      hide AnswersExactly, Reports, Performed, EventsOf, TreeState, Events, FileOps;
      var calls := reply.calls;
      results, notes, interrupted := [], [], false;
      NothingRan(settings, reply);
      for i := 0 to |calls|
        invariant Tree() && led.active == old(led.active)
        invariant RanSoFar(settings, reply, results, i)
        invariant performed == old(performed) + reply.outcomes[..i]
      {
        PerformedGrows(reply.outcomes, i);
        match reply.outcomes[i] {
          case Interrupt =>
            InterruptReports(settings, reply, results, i);
            results := Interrupted(calls, results);
            assert reply.outcomes[i] in reply.outcomes;
            interrupted := true;
            return;
          case Ran(output, _, _, _, _, _) =>
            var earned := Perform(reply.outcomes[i]);
            notes := notes + earned;
            OneMoreRan(settings, reply, results, i);
            results := results + [Answer(calls[i].id, settings.resolve(calls[i].name), output)];
        }
      }
      AllRan(settings, reply, results);
      assert reply.outcomes[..|calls|] == reply.outcomes;
    }

    /** Evict old results once the transcript outgrows its budget, then keep the one ledger
        turn current. */
    method MakeRoom(fetched: set<string>, ledgerText: string)
      requires Conversation()
      modifies this`transcript, led`active
      ensures Conversation()
      ensures settings.contextBudget == 0 ==> transcript == old(transcript) && led.active == old(led.active)
      ensures settings.contextBudget > 0 ==>
        var policy := W.Policy(settings.codec, settings.contextBudget, settings.keepRecent, fetched);
        var compacted := W.Compacted(policy, old(transcript));
        && led.active == (old(led.active) || W.Evictions(policy, old(transcript)) > 0)
        && transcript == if led.active then Ledgered(compacted, led.Dirty(), ledgerText) else compacted
      // the ledger turn says what the ledger says now, or there is none
      ensures settings.contextBudget > 0 && led.active && led.Dirty() ==>
        LedgerCount(transcript) == 1 && EndsWithLedger(transcript, ledgerText)
      ensures settings.contextBudget > 0 && led.active && !led.Dirty() ==> LedgerCount(transcript) == 0
      ensures Strip(transcript) == if settings.contextBudget == 0 then Strip(old(transcript)) else
        Strip(W.Compacted(W.Policy(settings.codec, settings.contextBudget, settings.keepRecent, fetched),
          old(transcript)))
    {
      hide Good, W.Compacted, W.Evictions, Refresh, Strip, LedgerCount, EndsWithLedger;
      if settings.contextBudget == 0 { return; }
      var policy := W.Policy(settings.codec, settings.contextBudget, settings.keepRecent, fetched);
      GoodCompacted(policy, transcript, limit);
      var report;
      transcript, report := W.Compact(policy, transcript);
      if report.compacted { led.active := true; }
      if led.active {
        LedgeredMeans(transcript, led.Dirty(), ledgerText);
        GoodRefresh(transcript, ledgerText, limit);
        if led.Dirty() {
          transcript := Refresh(transcript, UserTurn("ledger", LEDGER_TAG + ledgerText));
        } else {
          transcript := Strip(transcript);
        }
      }
    }

    /** Append a reply and the answers to its calls; both turns are appended before anything
        is saved, whether or not a call was interrupted. */
    method Exchange(reply: Reply) returns (results: seq<Answer>, notes: seq<Note>, interrupted: bool)
      requires Conversation() && Tree()
      requires |reply.outcomes| == |reply.calls| && DistinctIds(reply.calls)
      modifies this`transcript, this`reportedDone, this`madeMutatingCall, this`performed, led, ver
      ensures Conversation() && Tree()
      ensures Reports(settings, reply, results)
      ensures transcript == old(transcript) + [AssistantTurn(reply.text, reply.calls)] + [ToolTurn(results)]
      ensures interrupted <==> exists o :: o in reply.outcomes && o.Interrupt?
      ensures performed == old(performed) + Performed(reply.outcomes) && led.active == old(led.active)
    {
      hide Good, Reports, AnswersExactly, Performed, TreeState, Events, FileOps;
      ghost var base := transcript;
      var asked := AssistantTurn(reply.text, reply.calls);
      transcript := transcript + [asked];
      results, notes, interrupted := RunCalls(reply);
      ReportsExactly(settings, reply, results);
      GoodExchange(base, asked, ToolTurn(results), limit);
      transcript := transcript + [ToolTurn(results)];
    }

    /** Teachings, a current ledger, the cadence note; then save; then the nudges, among them
        the way back to the last green tree after two failures since, and last the suspicion of
        the harness. */
    method AfterTools(reply: Reply, notes: seq<Note>, ledgerText: string)
      requires Conversation() && Tree() && Watching()
      modifies this`transcript, this`saved, ver`checkpointTaught, oracle
      ensures Conversation() && Tree() && Watching()
      ensures oracle.steps == old(oracle.steps) + [SeenIn(reply.outcomes)]
      ensures var taught := old(transcript) + NoteTurns(notes);
        var tangled := ver.greenJob != "" && ver.failsSinceGreen >= 2 && !old(ver.checkpointTaught);
        && transcript == (if led.active && led.Dirty() then Ledgered(taught, true, ledgerText) else taught)
             + NoteTurns(reply.cadence) + NoteTurns(reply.nudges)
             + (if tangled then [UserTurn("checkpoint", RESTORE_TEXT)] else [])
             + (if NewSuspect(old(oracle.steps), SeenIn(reply.outcomes)) then [UserTurn("oracle", ORACLE_TEXT)] else [])
        && ver.checkpointTaught == (old(ver.checkpointTaught) || tangled)
      // the step is saved, and nothing but a ledger turn went
      ensures SavedLast() && Strip(old(transcript)) <= Strip(transcript)
      ensures led.active && led.Dirty() ==> LedgerCount(transcript) == 1
    {
      hide Conversation, NoteTurns, Ledgered, Tree, Watching, NewSuspect, SeenIn, SavedLast, Strip, LedgerCount;
      ghost var before := transcript;
      AppendNotes(notes);
      RefreshLedger(ledgerText);
      AppendNotes(reply.cadence);
      Persist();
      NudgeAll(reply.nudges);
      RecallCheckpoint();
      WatchOracle(SeenIn(reply.outcomes));
      ghost var tangled := ver.greenJob != "" && ver.failsSinceGreen >= 2 && !old(ver.checkpointTaught);
      StepKeeps(before, transcript, reply, notes, led.active && led.Dirty(), ledgerText, tangled,
                NewSuspect(old(oracle.steps), SeenIn(reply.outcomes)));
    }

    /** Suspect the harness when a signature fails for the third time in a row, once for each. */
    method WatchOracle(seen: R.Seen)
      requires Conversation() && Watching()
      modifies this`transcript, this`saved, oracle
      ensures Conversation() && Watching() && oracle.steps == old(oracle.steps) + [seen]
      ensures transcript ==
        old(transcript) + (if NewSuspect(old(oracle.steps), seen) then [UserTurn("oracle", ORACLE_TEXT)] else [])
      ensures NewSuspect(old(oracle.steps), seen) || old(SavedLast()) ==> SavedLast()
    {
      hide Conversation, SavedLast, R.SuspectedBy, R.Streak;
      R.SuspectedNext(oracle.steps, seen);
      oracle.Saw(seen);
      var suspect := oracle.Suspect();
      if suspect.Some? {
        Nudge(Note("oracle", ORACLE_TEXT));
      }
    }

    /** A ledger in use never describes the previous step. */
    method RefreshLedger(ledgerText: string)
      requires Conversation()
      modifies this`transcript
      ensures Conversation()
      ensures transcript ==
        if led.active && led.Dirty() then Ledgered(old(transcript), true, ledgerText) else old(transcript)
    {
      hide Good, Refresh;
      if led.active && led.Dirty() {
        GoodRefresh(transcript, ledgerText, limit);
        transcript := Refresh(transcript, UserTurn("ledger", LEDGER_TAG + ledgerText));
      }
    }

    /** Teach the way back, once, when two checks have failed since the last green tree. */
    method RecallCheckpoint()
      requires Conversation() && Tree()
      modifies this`transcript, this`saved, ver`checkpointTaught
      ensures Conversation() && Tree()
      ensures var tangled := ver.greenJob != "" && ver.failsSinceGreen >= 2 && !old(ver.checkpointTaught);
        && transcript == old(transcript) + (if tangled then [UserTurn("checkpoint", RESTORE_TEXT)] else [])
        && ver.checkpointTaught == (old(ver.checkpointTaught) || tangled)
        && (tangled || old(SavedLast()) ==> SavedLast())
    {
      hide Conversation, Tree, SavedLast;
      if ver.greenJob != "" && ver.failsSinceGreen >= 2 && !ver.checkpointTaught {
        ver.checkpointTaught := true;
        Nudge(Note("checkpoint", RESTORE_TEXT));
      }
    }

    method NudgeAll(notes: seq<Note>)
      requires Conversation()
      modifies this`transcript, this`saved
      ensures Conversation() && transcript == old(transcript) + NoteTurns(notes)
      ensures notes != [] || old(SavedLast()) ==> SavedLast()
    {
      hide Good, SavedLast;
      for i := 0 to |notes|
        invariant Conversation() && transcript == old(transcript) + NoteTurns(notes[..i])
        invariant i > 0 || old(SavedLast()) ==> SavedLast()
      {
        assert notes[..i + 1][..i] == notes[..i];
        Nudge(notes[i]);
      }
      assert notes[..|notes|] == notes;
    }

    /** The tool turn of one reply and everything the loop appends after it. */
    method ToolStep(reply: Reply, reachable: set<Ref>, ledgerText: string) returns (next: Next)
      requires Valid() && emptyTurns <= 2 && reply.calls != []
      requires |reply.outcomes| == |reply.calls| && DistinctIds(reply.calls)
      modifies this, led, ver, oracle
      ensures Valid() && quiet == 0
      ensures next == if exists o :: o in reply.outcomes && o.Interrupt? then UserInterrupt else Continue
      ensures next.Continue? ==> emptyTurns <= 2
      ensures performed == old(performed) + Performed(reply.outcomes)
      ensures oracle.steps == old(oracle.steps) + (if next.Continue? then [SeenIn(reply.outcomes)] else [])
      ensures SavedLast() && Strip(old(transcript)) <= Strip(transcript)
      ensures narrationNudges == 0 && led.active == old(led.active)
      // a stalled run is handed to the best debugger left; nothing else hands it over here
      ensures switches != old(switches) ==>
        && next.Continue? && reply.stalled && switches == old(switches) + [Switch(old(gateway), gateway, Stall)]
        && settings.router.Some? && TriggerOn(settings.router.value, Stall) && gateway in reachable
        && IsNext(settings.router.value, old(gateway), "debugger", tried, gateway)
      ensures next.Continue? && reply.stalled && settings.router.Some? && TriggerOn(settings.router.value, Stall) ==>
        switches != old(switches) || Untried(Pool(settings), old(tried), gateway) !! reachable
    {
      hide Conversation, Routing, Quieting, Tree, Watching, Performed, Reports, Ledgered, NoteTurns, Untried;
      hide NewSuspect, SeenIn, SavedLast, IsNext, Strip, LedgerCount, EndsWithLedger, R.Epoch, Events, FileOps, Legal;
      hide TriggerOn, DistinctIds;
      narrationNudges := 0;
      ghost var before := transcript;
      var _, notes, interrupted := Exchange(reply);
      quiet := 0;
      AppendsOnly(before, transcript);
      if interrupted {
        Persist();
        next := UserInterrupt;
      } else {
        AfterTools(reply, notes, ledgerText);
        SwitchIfStalled(reply, reachable);
        next := Continue;
      }
      NotQuiet();
    }

    /** A stalled run is handed to the best debugger left. */
    method SwitchIfStalled(reply: Reply, reachable: set<Ref>)
      requires Conversation() && Routing() && SavedLast()
      modifies this`transcript, this`saved, this`gateway, this`tried, this`switches, this`modelsUsed,
               this`handoffInPrompt
      ensures Conversation() && Routing() && SavedLast() && Strip(old(transcript)) <= Strip(transcript)
      ensures switches != old(switches) ==>
        && reply.stalled && switches == old(switches) + [Switch(old(gateway), gateway, Stall)]
        && settings.router.Some? && TriggerOn(settings.router.value, Stall) && gateway in reachable
        && IsNext(settings.router.value, old(gateway), "debugger", tried, gateway)
      ensures reply.stalled && settings.router.Some? && TriggerOn(settings.router.value, Stall) ==>
        switches != old(switches) || Untried(Pool(settings), old(tried), gateway) !! reachable
    {
      hide Conversation, Routing, SavedLast, IsNext, Strip, Untried, TriggerOn;
      if settings.router.Some? && TriggerOn(settings.router.value, Stall) && reply.stalled {
        ghost var before := transcript;
        var _ := TrySwitch(Stall, "debugger", reachable);
        AppendsOnly(before, transcript);
      }
    }

    lemma NotQuiet()
      requires quiet == 0
      ensures Quieting()
    {
      hide Fuel, Untried, Bound;
      FuelIsBounded(Pool(settings), tried, gateway, settings.maxNudges, narrationNudges, emptyTurns);
    }

    method AppendNotes(notes: seq<Note>)
      requires Conversation()
      modifies this`transcript
      ensures Conversation() && transcript == old(transcript) + NoteTurns(notes)
    {
      GoodNotes(transcript, notes, limit);
      transcript := transcript + NoteTurns(notes);
    }

    /** A failed or text-only model turn; every one that lets the run go on burns fuel. */
    method QuietStep(event: Event, reachable: set<Ref>) returns (next: Next)
      requires Valid() && emptyTurns <= 2 && (event.Replied? ==> event.reply.calls == [])
      modifies this`transcript, this`saved, this`gateway, this`tried, this`switches, this`modelsUsed,
               this`handoffInPrompt, this`narrationNudges, this`emptyTurns, this`quiet
      ensures Valid()
      ensures next.Continue? ==> emptyTurns <= 2 && quiet == old(quiet) + 1
      ensures next in {Continue, Answered, ModelError}
      ensures next.Continue? ==> SavedLast()
      ensures next.ModelError? ==> !event.Replied?
      ensures next.Answered? ==> event.Replied?
      // the reply is appended, and nothing else unless the run goes on
      ensures var said := old(transcript) + (if event.Replied? then [AssistantTurn(event.reply.text, [])] else []);
        said <= transcript && (!next.Continue? ==> transcript == said)
      // prose that ends nothing under way is the answer; a failure goes on only by a handoff
      ensures event.Replied? ==>
        var said := event.reply;
        said.text != "" && !said.truncated && !Refuses(said) && (!Engaged(said) || reportedDone) ==> next.Answered?
      ensures !event.Replied? && next.Continue? ==>
        switches == old(switches) + [Switch(old(gateway), gateway, if event.TimedOut? then Timeout else Error)]
      ensures next.ModelError? && settings.router.Some? ==>
        || !TriggerOn(settings.router.value, if event.TimedOut? then Timeout else Error)
        || Untried(Pool(settings), old(tried), old(gateway)) !! reachable
    {
      hide Good, Routed, Fuel, Untried, Bound, TriggerOn, TreeState, Events, FileOps, SavedLast, IsNext, Refuses;
      var again := false;
      match event {
        case TimedOut => again := FailureSwitch(Timeout, reachable);
        case CallFailed => again := FailureSwitch(Error, reachable);
        case Replied(reply) =>
          PlainAssistant(reply.text);
          GoodAppend(transcript, AssistantTurn(reply.text, []), limit);
          transcript := transcript + [AssistantTurn(reply.text, [])];
          again := HandleTextOnlyTurn(reply, reachable);
      }
      if again {
        quiet := quiet + 1;
        next := Continue;
      } else {
        next := if event.Replied? then Answered else ModelError;
      }
    }

    /** A model that is too slow or unreachable hands over like any other failing one. */
    method FailureSwitch(reason: Trigger, reachable: set<Ref>) returns (switched: bool)
      requires Conversation() && Routing()
      modifies this`transcript, this`saved, this`gateway, this`tried, this`switches, this`modelsUsed,
               this`handoffInPrompt, this`narrationNudges, this`emptyTurns
      ensures Conversation() && Routing() && emptyTurns == old(emptyTurns)
      ensures Left() <= old(Left()) && (switched ==> Left() < old(Left()))
      ensures switched ==> SavedLast() && switches == old(switches) + [Switch(old(gateway), gateway, reason)]
      ensures !switched ==> transcript == old(transcript) && saved == old(saved) && gateway == old(gateway)
      ensures !switched && settings.router.Some? && TriggerOn(settings.router.value, reason) ==>
        Untried(Pool(settings), old(tried), gateway) !! reachable
      ensures old(transcript) <= transcript
    {
      hide Good, Routed, Fuel, Untried, TriggerOn, SavedLast, IsNext;
      switched := false;
      if settings.router.Some? && TriggerOn(settings.router.value, reason) {
        switched := Handoff(reason, reachable, narrationNudges, emptyTurns);
      }
    }

    /** One iteration of the loop. */
    method Step(i: StepInput) returns (next: Next)
      requires Valid() && emptyTurns <= 2 && WellFormed(i)
      modifies this, led, ver, oracle
      ensures Valid() && (next.Continue? ==> emptyTurns <= 2)
      ensures next.Continue? ==> quiet == if HasCalls(i) then 0 else old(quiet) + 1
      ensures next.OutOfTokens? <==> !i.tokensLeft
      ensures next.UserInterrupt? <==>
        i.tokensLeft && HasCalls(i) && exists o :: o in i.event.reply.outcomes && o.Interrupt?
      ensures performed == old(performed) + StepPerformed(i) && oracle.steps == old(oracle.steps) + StepSeen(i)
      ensures next.Continue? || next.UserInterrupt? ==> SavedLast()
      ensures !i.tokensLeft ==> transcript == old(transcript) && saved == old(saved)
      // room is made first; after that turns are appended and only ledger turns removed
      ensures i.tokensLeft ==> Strip(Roomed(settings, i.fetched, old(transcript))) <= Strip(transcript)
    {
      hide Conversation, Routing, Quieting, Tree, Watching, SeenIn, Performed, Ledgered, W.Compacted, W.Evictions;
      hide SavedLast, Strip, LedgerCount, EndsWithLedger, IsNext, TriggerOn, Refuses, Untried;
      if !i.tokensLeft {
        return OutOfTokens;
      }
      MakeRoom(i.fetched, i.ledgerText);
      ghost var before := transcript;
      if HasCalls(i) {
        next := ToolStep(i.event.reply, i.reachable, i.ledgerText);
      } else {
        next := QuietStep(i.event, i.reachable);
        AppendsOnly(before, transcript);
      }
    }

    /** The step loop, one input per allowed step. */
    method Execute(script: seq<StepInput>) returns (steps: nat, next: Next)
      requires Valid() && emptyTurns <= 2 && quiet == 0 && performed == [] && oracle.steps == []
      requires forall i :: i in script ==> WellFormed(i)
      modifies this, led, ver, oracle
      ensures steps <= |script| && (next.Continue? ==> steps == |script|)
      // every transcript ever saved is legal, and so is the one the run ends with; answers are
      // exact if those of the loaded transcript were
      ensures Legal(transcript, limit.exact) && forall t :: t in saved ==> Legal(t, limit.exact)
      ensures LedgerCount(transcript) <= limit.ledgers && forall t :: t in saved ==> LedgerCount(t) <= limit.ledgers
      // a stretch of steps without a tool call is bounded by the pool and the nudge allowance
      ensures forall a, b :: 0 <= a <= b <= steps && NoCalls(script, a, b) ==>
        b - a <= Bound(Pool(settings), settings.maxNudges) + 1
      // no model runs twice
      ensures NoDup([first] + Targets(switches)) && Elements(Targets(switches)) <= Elements(Pool(settings))
      // the tracker and the ledger are true of everything the calls did
      ensures performed == AllPerformed(script[..steps]) && ver.Valid() && led.Valid()
      ensures ver.history == Events(performed) && led.ops == FileOps(performed) && led.epoch == R.Epoch(ver.history)
      // and the harness was suspected for exactly the signatures that failed three times in a row
      ensures oracle.steps == AllSeen(script[..steps])
      ensures forall s :: s in oracle.nudged <==> R.SuspectedBy(oracle.steps, s)
      // a run that goes on or is interrupted has saved its transcript as it stands
      ensures steps > 0 && (next.Continue? || next.UserInterrupt?) ==> SavedLast()
      ensures Valid()
    {
      hide Good, Routed, Fuel, Untried, Bound, WellFormed, NoCalls, HasCalls, Events, FileOps;
      hide StepPerformed, StepSeen, SeenIn, R.SuspectedBy, R.Streak, R.Epoch, SavedLast, Roomed;
      steps, next := 0, Continue;
      ghost var most := Bound(Pool(settings), settings.maxNudges);
      NoStepsYet(script);
      while steps < |script| && next.Continue?
        invariant steps <= |script| && Valid()
        invariant next.Continue? ==> emptyTurns <= 2
        invariant next.Continue? ==> QuietUpTo(script, steps, quiet) && quiet <= most
        invariant WindowsUpTo(script, steps, if next.Continue? then most else most + 1)
        invariant steps > 0 && (next.Continue? || next.UserInterrupt?) ==> SavedLast()
        invariant performed == AllPerformed(script[..steps]) && oracle.steps == AllSeen(script[..steps])
        decreases |script| - steps
      {
        ghost var before := quiet;
        next := Step(script[steps]);
        AllPerformedGrow(script, steps);
        OneMoreStep(script, steps, before, most);
        steps := steps + 1;
      }
      WindowsMean(script, steps, most);
      Summary();
    }

    lemma Summary()
      requires Valid()
      ensures Legal(transcript, limit.exact) && forall t :: t in saved ==> Legal(t, limit.exact)
      ensures LedgerCount(transcript) <= limit.ledgers && forall t :: t in saved ==> LedgerCount(t) <= limit.ledgers
      ensures NoDup([first] + Targets(switches)) && Elements(Targets(switches)) <= Elements(Pool(settings))
    {
      hide Legal, LedgerCount, NoDup;
    }
  }

  predicate HasCalls(i: StepInput) {
    i.event.Replied? && i.event.reply.calls != []
  }

  function StepPerformed(i: StepInput): seq<Outcome> {
    if i.tokensLeft && HasCalls(i) then Performed(i.event.reply.outcomes) else []
  }

  function AllPerformed(script: seq<StepInput>): seq<Outcome> {
    if script == [] then [] else AllPerformed(script[..|script| - 1]) + StepPerformed(script[|script| - 1])
  }

  /** What a step that was not interrupted showed of simulations. */
  function StepSeen(i: StepInput): seq<R.Seen> {
    if i.tokensLeft && HasCalls(i) && !exists o :: o in i.event.reply.outcomes && o.Interrupt?
    then [SeenIn(i.event.reply.outcomes)] else []
  }

  function AllSeen(script: seq<StepInput>): seq<R.Seen> {
    if script == [] then [] else AllSeen(script[..|script| - 1]) + StepSeen(script[|script| - 1])
  }

  lemma AllPerformedGrow(script: seq<StepInput>, i: nat)
    requires i < |script|
    ensures AllPerformed(script[..i + 1]) == AllPerformed(script[..i]) + StepPerformed(script[i])
    ensures AllSeen(script[..i + 1]) == AllSeen(script[..i]) + StepSeen(script[i])
  {
    assert script[..i + 1][..i] == script[..i];
  }

  lemma PlainAssistant(text: string)
    ensures !Asks(AssistantTurn(text, [])) && !IsLedger(AssistantTurn(text, []))
  {
  }

  // ---- stretches of steps without a tool call ------------------------------------------------------

  ghost predicate NoCalls(script: seq<StepInput>, a: nat, b: nat)
    requires a <= b <= |script|
  {
    forall k :: a <= k < b ==> !HasCalls(script[k])
  }

  /** Any stretch that reaches up to step `n` has at most `quiet` steps. */
  ghost predicate QuietUpTo(script: seq<StepInput>, n: nat, quiet: nat)
    requires n <= |script|
  {
    forall a :: 0 <= a <= n && NoCalls(script, a, n) ==> n - a <= quiet
  }

  ghost predicate WindowsUpTo(script: seq<StepInput>, n: nat, most: nat)
    requires n <= |script|
  {
    forall a, b :: 0 <= a <= b <= n && NoCalls(script, a, b) ==> b - a <= most
  }

  lemma NoStepsYet(script: seq<StepInput>)
    ensures QuietUpTo(script, 0, 0) && AllPerformed(script[..0]) == [] && AllSeen(script[..0]) == []
    ensures forall most: nat :: WindowsUpTo(script, 0, most)
  {
  }

  lemma OneMoreStep(script: seq<StepInput>, n: nat, quiet: nat, limit: nat)
    requires n < |script| && QuietUpTo(script, n, quiet) && quiet <= limit && WindowsUpTo(script, n, limit)
    ensures QuietUpTo(script, n + 1, if HasCalls(script[n]) then 0 else quiet + 1)
    ensures WindowsUpTo(script, n + 1, limit + 1)
    ensures HasCalls(script[n]) || quiet + 1 <= limit ==> WindowsUpTo(script, n + 1, limit)
  {
    var m := n + 1;
    forall a: nat | a <= m && NoCalls(script, a, m)
      ensures m - a <= if HasCalls(script[n]) then 0 else quiet + 1
    {
      if a <= n { assert NoCalls(script, a, n); }
    }
  }

  lemma WindowsMean(script: seq<StepInput>, n: nat, limit: nat)
    requires n <= |script| && (WindowsUpTo(script, n, limit) || WindowsUpTo(script, n, limit + 1))
    ensures forall a, b :: 0 <= a <= b <= n && NoCalls(script, a, b) ==> b - a <= limit + 1
  {
  }

  lemma ReportsExactly(s: Settings, reply: Reply, results: seq<Answer>)
    requires Reports(s, reply, results)
    ensures AnswersExactly(reply.calls, results)
  {
  }
}
