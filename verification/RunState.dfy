/** The state of one agent run: when its tree counts as green, and its bad-oracle guard.

Everything the loop asks of a verification tracker is stated against the run's history of
tree changes and check results. */
module RunState {
  import opened Sequences
  import opened Wrappers

  /** A check is a tool run on one scope; other scopes are other checks. */
  datatype Key = Key(tool: string, scope: string)

  datatype Verdict = Passed | Failed | Unsettled

  datatype Event = Bump | Check(key: Key, rank: int, verdict: Verdict, job: string)

  // ---- the history -----------------------------------------------------------------

  ghost function Epoch(h: seq<Event>): nat {
    if h == [] then 0 else Epoch(h[..|h| - 1]) + (if h[|h| - 1].Bump? then 1 else 0)
  }

  /** The latest settled result of a check on the current tree. */
  ghost function Latest(h: seq<Event>, key: Key): (r: Option<Event>)
    ensures r.Some? ==> r.value.Check? && r.value in h
  {
    if h == [] || h[|h| - 1].Bump? then None
    else if h[|h| - 1].key == key && !h[|h| - 1].verdict.Unsettled? then Some(h[|h| - 1])
    else Latest(h[..|h| - 1], key)
  }

  /** At least one check has been recorded on the current tree, and the latest result of
      every check recorded on it passed. */
  ghost predicate Green(h: seq<Event>) {
    && (exists key :: Latest(h, key).Some?)
    && (forall key :: Latest(h, key).Some? ==> Latest(h, key).value.verdict.Passed?)
  }

  /** Failing results since the tree was last green. */
  ghost function FailsSinceGreen(h: seq<Event>): nat {
    if h == [] then 0
    else
      var init, last := h[..|h| - 1], h[|h| - 1];
      if last.Check? && last.verdict.Failed? then FailsSinceGreen(init) + 1
      else if last.Check? && last.verdict.Passed? && Green(h) then 0
      else FailsSinceGreen(init)
  }

  ghost predicate JobsNamed(h: seq<Event>) {
    forall e :: e in h && e.Check? ==> e.job != ""
  }

  lemma HistoryGrows(h: seq<Event>, e: Event)
    ensures Epoch(h + [e]) == Epoch(h) + (if e.Bump? then 1 else 0)
    ensures forall key ::
              Latest(h + [e], key) == (if e.Bump? then None
                                       else if e.key == key && !e.verdict.Unsettled? then Some(e)
                                       else Latest(h, key))
    ensures FailsSinceGreen(h + [e]) == (if e.Check? && e.verdict.Failed? then FailsSinceGreen(h) + 1
                                         else if e.Check? && e.verdict.Passed? && Green(h + [e]) then 0
                                         else FailsSinceGreen(h))
  {
    assert (h + [e])[..|h|] == h;
  }

  // ---- the recorded checks -------------------------------------------------------------

  /** One remembered result, stamped with the epoch it ran on. */
  datatype Entry = Entry(key: Key, rank: int, passed: bool, job: string, epoch: nat)

  ghost predicate UniqueKeys(checks: seq<Entry>) {
    forall i, j :: 0 <= i < j < |checks| ==> checks[i].key != checks[j].key
  }

  /** Overwrite a check's entry where it stands, or append a new one. */
  function Put(checks: seq<Entry>, e: Entry): seq<Entry> {
    if checks == [] then [e]
    else if checks[0].key == e.key then [e] + checks[1..]
    else [checks[0]] + Put(checks[1..], e)
  }

  function Lookup(checks: seq<Entry>, key: Key): Option<Entry> {
    if checks == [] then None else if checks[0].key == key then Some(checks[0]) else Lookup(checks[1..], key)
  }

  function Current(checks: seq<Entry>, epoch: nat): seq<Entry> {
    if checks == [] then []
    else (if checks[0].epoch == epoch then [checks[0]] else []) + Current(checks[1..], epoch)
  }

  /** The first entry of the highest rank. */
  function Strongest(cs: seq<Entry>): (r: Entry)
    requires cs != []
    ensures r in cs && forall c :: c in cs ==> c.rank <= r.rank
  {
    if |cs| == 1 then cs[0]
    else var r := Strongest(cs[1..]); if cs[0].rank >= r.rank then cs[0] else r
  }

  lemma {:induction false} PutKeepsUnique(checks: seq<Entry>, e: Entry)
    requires UniqueKeys(checks)
    ensures UniqueKeys(Put(checks, e))
    ensures forall c :: c in Put(checks, e) <==> c == e || (c in checks && c.key != e.key)
  {
    if checks != [] {
      assert UniqueKeys(checks[1..]);
      if checks[0].key != e.key { PutKeepsUnique(checks[1..], e); }
    }
  }

  lemma {:induction false} CurrentMeans(checks: seq<Entry>, epoch: nat)
    ensures forall c :: c in Current(checks, epoch) <==> c in checks && c.epoch == epoch
  {
    if checks != [] { CurrentMeans(checks[1..], epoch); }
  }

  lemma {:induction false} LookupMeans(checks: seq<Entry>, key: Key)
    requires UniqueKeys(checks)
    ensures Lookup(checks, key).Some? <==> exists c :: c in checks && c.key == key
    ensures forall c :: c in checks && c.key == key ==> Lookup(checks, key) == Some(c)
  {
    if checks != [] { assert UniqueKeys(checks[1..]); LookupMeans(checks[1..], key); }
  }

  /** An entry of the current epoch is exactly its check's latest result. */
  predicate Records(c: Entry, e: Event) {
    e == Check(c.key, c.rank, if c.passed then Passed else Failed, c.job)
  }

  ghost predicate Tracks(checks: seq<Entry>, h: seq<Event>) {
    && UniqueKeys(checks)
    && (forall c :: c in checks ==> c.epoch <= Epoch(h))
    && (forall c :: c in checks && c.epoch == Epoch(h) ==> Latest(h, c.key).Some? && Records(c, Latest(h, c.key).value))
    && (forall key :: Latest(h, key).Some? ==> exists c :: c in checks && c.key == key && c.epoch == Epoch(h))
  }

  lemma TracksOther(checks: seq<Entry>, h: seq<Event>, e: Event)
    requires Tracks(checks, h) && (e.Bump? || e.verdict.Unsettled?)
    ensures Tracks(checks, h + [e])
  {
    HistoryGrows(h, e);
  }

  lemma TracksPut(checks: seq<Entry>, h: seq<Event>, e: Event)
    requires Tracks(checks, h) && e.Check? && !e.verdict.Unsettled?
    ensures Tracks(Put(checks, Entry(e.key, e.rank, e.verdict.Passed?, e.job, Epoch(h))), h + [e])
  {
    HistoryGrows(h, e);
    var entry := Entry(e.key, e.rank, e.verdict.Passed?, e.job, Epoch(h));
    PutKeepsUnique(checks, entry);
    forall key | Latest(h + [e], key).Some?
      ensures exists c :: c in Put(checks, entry) && c.key == key && c.epoch == Epoch(h + [e])
    {
      if key == e.key {
        assert entry in Put(checks, entry);
      } else {
        var c :| c in checks && c.key == key && c.epoch == Epoch(h);
        assert c in Put(checks, entry);
      }
    }
  }

  /** What the tracker can see of the current epoch decides greenness. */
  lemma GreenFromChecks(checks: seq<Entry>, h: seq<Event>)
    requires Tracks(checks, h)
    ensures Green(h) <==> Current(checks, Epoch(h)) != [] && forall c :: c in Current(checks, Epoch(h)) ==> c.passed
  {
    var cur := Current(checks, Epoch(h));
    CurrentMeans(checks, Epoch(h));
    if Green(h) {
      var key :| Latest(h, key).Some?;
      var c :| c in checks && c.key == key && c.epoch == Epoch(h);
      assert c in cur;
    }
    if cur != [] && (forall c :: c in cur ==> c.passed) {
      assert cur[0] in cur;
      assert Latest(h, cur[0].key).Some?;
      forall key | Latest(h, key).Some? ensures Latest(h, key).value.verdict.Passed? {
        var c :| c in checks && c.key == key && c.epoch == Epoch(h);
        assert c in cur;
      }
    }
  }

  /** The strongest current entry names a job that no current check outranks. */
  lemma StrongestIsBest(checks: seq<Entry>, h: seq<Event>)
    requires Tracks(checks, h) && Current(checks, Epoch(h)) != []
    ensures BestJob(h, Strongest(Current(checks, Epoch(h))).job)
  {
    var cur := Current(checks, Epoch(h));
    CurrentMeans(checks, Epoch(h));
    var best := Strongest(cur);
    forall other | Latest(h, other).Some? ensures Latest(h, other).value.rank <= best.rank {
      var c :| c in checks && c.key == other && c.epoch == Epoch(h);
      assert c in cur;
    }
    assert Latest(h, best.key).Some?;
  }

  lemma WeakerPassesMean(checks: seq<Entry>, h: seq<Event>, rank: int)
    requires Tracks(checks, h)
    ensures (exists c :: c in Current(checks, Epoch(h)) && c.passed && c.rank < rank) <==> PassedBelow(h, rank)
  {
    CurrentMeans(checks, Epoch(h));
    if PassedBelow(h, rank) {
      var key :| Latest(h, key).Some? && Latest(h, key).value.verdict.Passed? && Latest(h, key).value.rank < rank;
      var c :| c in checks && c.key == key && c.epoch == Epoch(h);
      assert c in Current(checks, Epoch(h));
    }
  }

  /** A check is on record for this epoch exactly when the history has a latest result. */
  lemma LookupMeansLatest(checks: seq<Entry>, h: seq<Event>, key: Key)
    requires Tracks(checks, h)
    ensures Latest(h, key).Some? <==> Lookup(checks, key).Some? && Lookup(checks, key).value.epoch == Epoch(h)
  {
    LookupMeans(checks, key);
  }

  lemma NamedJobs(checks: seq<Entry>, h: seq<Event>)
    requires Tracks(checks, h) && JobsNamed(h)
    ensures forall c :: c in Current(checks, Epoch(h)) ==> c.job != ""
  {
    CurrentMeans(checks, Epoch(h));
  }

  // ---- the tracker ------------------------------------------------------------------------

  datatype Lesson = Redo | Gap

  /** A teaching, identified by the check, the tree and the kind of lesson. */
  datatype Taught = Taught(key: Key, epoch: nat, lesson: Lesson)

  class VerificationTracker {
    var checks: seq<Entry>
    var greenEpoch: int
    var greenJob: string
    var failsSinceGreen: nat
    var checkpointTaught: bool
    var scopeTaught: set<Taught>
    ghost var history: seq<Event>
    ghost var lessons: seq<Taught>

    ghost predicate Valid()
      reads this`checks, this`greenEpoch, this`greenJob, this`failsSinceGreen
      reads this`scopeTaught, this`history, this`lessons
    {
      && Tracks(checks, history)
      && greenEpoch <= Epoch(history) && (greenEpoch == Epoch(history) <==> Green(history))
      && failsSinceGreen == FailsSinceGreen(history)
      && (greenEpoch == Epoch(history) && JobsNamed(history) ==> BestJob(history, greenJob))
      && NoDup(lessons) && Elements(lessons) == scopeTaught
    }

    constructor ()
      ensures Valid() && history == [] && lessons == []
    {
      checks, greenEpoch, greenJob, failsSinceGreen := [], -1, "", 0;
      checkpointTaught, scopeTaught := false, {};
      history, lessons := [], [];
    }

    predicate IsGreen(epoch: nat)
      reads this
    {
      greenJob != "" && greenEpoch == epoch
    }

    /** The tree changed: the ledger bumped its epoch. */
    ghost method TreeChanged()
      requires Valid()
      modifies this`history
      ensures Valid() && history == old(history) + [Bump]
    {
      TracksOther(checks, history, Bump);
      HistoryGrows(history, Bump);
      history := history + [Bump];
      assert !Green(history);
    }

    /** Record one lint or sim result.  Returns the teachings it earns and the job to
        checkpoint under when every current check passes. */
    method Observe(key: Key, rank: int, verdict: Verdict, job: string, epoch: nat)
      returns (teach: seq<Taught>, checkpoint: Option<string>)
      requires Valid() && epoch == Epoch(history)
      modifies this
      ensures Valid() && history == old(history) + [Check(key, rank, verdict, job)]
      ensures lessons == old(lessons) + teach
      ensures Taught(key, epoch, Redo) in teach <==>
        !verdict.Unsettled? && Latest(old(history), key).Some? && Taught(key, epoch, Redo) !in old(scopeTaught)
      ensures Taught(key, epoch, Gap) in teach <==>
        verdict.Failed? && PassedBelow(history, rank) && Taught(key, epoch, Gap) !in old(scopeTaught)
      ensures forall t :: t in teach ==> t.key == key && t.epoch == epoch
      ensures checkpoint.Some? ==> Green(history) && verdict.Passed?
      ensures checkpoint.Some? ==> BestJob(history, checkpoint.value) && greenJob == checkpoint.value
      ensures verdict.Passed? && Green(history) && JobsNamed(history) ==> checkpoint.Some?
      ensures checkpointTaught == (old(checkpointTaught) && !(verdict.Passed? && Green(history)))
    {
      hide Tracks, Green, JobsNamed, BestJob, PassedBelow, Latest, Epoch, FailsSinceGreen, NoDup, Lookup, Put, Current;
      teach, checkpoint := [], None;
      var event := Check(key, rank, verdict, job);
      ghost var before := history;
      HistoryGrows(before, event);
      if verdict.Unsettled? {
        UnsettledChangesNothing(checks, before, event);
        history := before + [event];
        return;
      }
      var prev := Lookup(checks, key);
      LookupMeansLatest(checks, before, key);
      if prev.Some? && prev.value.epoch == epoch {
        var fired := TeachOnce(Taught(key, epoch, Redo));
        if fired { teach := [Taught(key, epoch, Redo)]; }
      }
      TracksPut(checks, before, event);
      checks := Put(checks, Entry(key, rank, verdict.Passed?, job, epoch));
      history := before + [event];
      SettledIsCurrent(checks, before, event);
      if verdict.Passed? {
        checkpoint := AfterPass(epoch);
      } else {
        var gap := AfterFail(key, rank, epoch);
        teach := teach + gap;
      }
    }

    /** A pass was recorded: the tree is green again if everything current passes. */
    method AfterPass(epoch: nat) returns (checkpoint: Option<string>)
      requires Tracks(checks, history) && epoch == Epoch(history) && Current(checks, epoch) != []
      modifies this`greenEpoch, this`greenJob, this`failsSinceGreen, this`checkpointTaught
      ensures if Green(history) then
                greenEpoch == epoch && failsSinceGreen == 0 && !checkpointTaught
                && (JobsNamed(history) ==> checkpoint.Some? && BestJob(history, greenJob))
              else
                greenEpoch == old(greenEpoch) && greenJob == old(greenJob) && checkpoint.None?
                && failsSinceGreen == old(failsSinceGreen) && checkpointTaught == old(checkpointTaught)
      ensures checkpoint.Some? ==> Green(history) && BestJob(history, checkpoint.value)
      ensures checkpoint.Some? ==> greenJob == checkpoint.value != ""
    {
      hide Tracks, Green, JobsNamed, BestJob, Latest, Epoch;
      checkpoint := None;
      var cur := Current(checks, epoch);
      GreenFromChecks(checks, history);
      if forall c :: c in cur ==> c.passed {
        var strongest := Strongest(cur);
        StrongestIsBest(checks, history);
        if JobsNamed(history) { NamedJobs(checks, history); }
        if strongest.job != "" {
          checkpoint := Some(strongest.job);
          greenJob := strongest.job;
        }
        greenEpoch, failsSinceGreen, checkpointTaught := epoch, 0, false;
      }
    }

    /** A failure was recorded: the tree is known not to be green. */
    method AfterFail(key: Key, rank: int, epoch: nat) returns (gap: seq<Taught>)
      requires Tracks(checks, history) && epoch == Epoch(history)
      requires NoDup(lessons) && Elements(lessons) == scopeTaught
      modifies this`greenEpoch, this`failsSinceGreen, this`scopeTaught, this`lessons
      ensures greenEpoch == -1 && failsSinceGreen == old(failsSinceGreen) + 1
      ensures NoDup(lessons) && Elements(lessons) == scopeTaught && lessons == old(lessons) + gap
      ensures var due := PassedBelow(history, rank) && Taught(key, epoch, Gap) !in old(scopeTaught);
        gap == if due then [Taught(key, epoch, Gap)] else []
    {
      hide Tracks, PassedBelow, Latest, Epoch, NoDup;
      failsSinceGreen := failsSinceGreen + 1;
      greenEpoch := -1;
      gap := [];
      WeakerPassesMean(checks, history, rank);
      var cur := Current(checks, epoch);
      if exists c :: c in cur && c.passed && c.rank < rank {
        var fired := TeachOnce(Taught(key, epoch, Gap));
        if fired { gap := [Taught(key, epoch, Gap)]; }
      }
    }

    /** Fire a teaching unless it has fired before. */
    method TeachOnce(t: Taught) returns (fired: bool)
      requires NoDup(lessons) && Elements(lessons) == scopeTaught
      modifies this`scopeTaught, this`lessons
      ensures NoDup(lessons) && Elements(lessons) == scopeTaught
      ensures fired == (t !in old(scopeTaught)) && scopeTaught == old(scopeTaught) + {t}
      ensures lessons == old(lessons) + (if fired then [t] else [])
    {
      fired := t !in scopeTaught;
      if fired {
        NoDupAppend(lessons, t);
        scopeTaught, lessons := scopeTaught + {t}, lessons + [t];
      }
    }
  }

  lemma UnsettledChangesNothing(checks: seq<Entry>, h: seq<Event>, e: Event)
    requires Tracks(checks, h) && e.Check? && e.verdict.Unsettled?
    ensures Tracks(checks, h + [e]) && (Green(h + [e]) <==> Green(h))
    ensures JobsNamed(h + [e]) ==> JobsNamed(h)
    ensures forall job :: BestJob(h, job) ==> BestJob(h + [e], job)
  {
    TracksOther(checks, h, e);
    HistoryGrows(h, e);
    forall job | BestJob(h, job) ensures BestJob(h + [e], job) {
      var key :| Latest(h, key).Some? && Latest(h, key).value.job == job &&
        forall other :: Latest(h, other).Some? ==> Latest(h, other).value.rank <= Latest(h, key).value.rank;
      assert Latest(h + [e], key).Some?;
    }
  }

  /** After a settled result its own entry is current; greenness then needs it to pass. */
  lemma SettledIsCurrent(checks: seq<Entry>, h: seq<Event>, e: Event)
    requires e.Check? && !e.verdict.Unsettled? && Tracks(checks, h + [e])
    ensures Current(checks, Epoch(h + [e])) != []
    ensures Green(h + [e]) ==> e.verdict.Passed?
    ensures e.verdict.Passed? && Green(h) ==> Green(h + [e])
    ensures Epoch(h + [e]) == Epoch(h)
  {
    HistoryGrows(h, e);
    assert Latest(h + [e], e.key).Some?;
    var c :| c in checks && c.key == e.key && c.epoch == Epoch(h + [e]);
    CurrentMeans(checks, Epoch(h + [e]));
    assert c in Current(checks, Epoch(h + [e]));
  }

  /** `job` ran a check that no check current on this tree outranks. */
  ghost predicate BestJob(h: seq<Event>, job: string) {
    exists key :: Latest(h, key).Some? && Latest(h, key).value.job == job &&
      forall other :: Latest(h, other).Some? ==> Latest(h, other).value.rank <= Latest(h, key).value.rank
  }

  /** A weaker check passes on the current tree. */
  ghost predicate PassedBelow(h: seq<Event>, rank: int) {
    exists key :: Latest(h, key).Some? && Latest(h, key).value.verdict.Passed? && Latest(h, key).value.rank < rank
  }

  /** Green means green: with named jobs the loop's answer is exactly the history's, and the
      job it would restore is one that no current check outranks. */
  lemma GreenMeansGreen(t: VerificationTracker)
    requires t.Valid()
    ensures t.IsGreen(Epoch(t.history)) ==> Green(t.history)
    ensures JobsNamed(t.history) ==> (t.IsGreen(Epoch(t.history)) <==> Green(t.history))
    ensures JobsNamed(t.history) && Green(t.history) ==> BestJob(t.history, t.greenJob)
  {
  }

  // ---- the ledger of the workspace ----------------------------------------------------------

  datatype FileOp = Wrote(path: string) | Removed(path: string)

  ghost function LastOp(ops: seq<FileOp>, path: string): Option<FileOp> {
    if ops == [] then None
    else if ops[|ops| - 1].path == path then Some(ops[|ops| - 1])
    else LastOp(ops[..|ops| - 1], path)
  }

  /** The files this run wrote and deleted, and the epoch of the tree. */
  class WorkspaceLedger {
    var authored: set<string>
    var deleted: set<string>
    var epoch: nat
    var active: bool
    ghost var ops: seq<FileOp>

    ghost predicate Valid()
      reads this`authored, this`deleted, this`ops
    {
      forall p ::
        && (p in authored <==> LastOp(ops, p) == Some(Wrote(p)))
        && (p in deleted <==> LastOp(ops, p) == Some(Removed(p)))
    }

    constructor ()
      ensures Valid() && epoch == 0 && !active && ops == []
    {
      authored, deleted, epoch, active, ops := {}, {}, 0, false, [];
    }

    predicate Dirty()
      reads this`authored, this`deleted
    {
      authored != {} || deleted != {}
    }

    method Write(path: string)
      requires Valid()
      modifies this`authored, this`deleted, this`ops
      ensures Valid() && ops == old(ops) + (if path != "" then [Wrote(path)] else [])
    {
      if path != "" {
        authored, deleted := authored + {path}, deleted - {path};
        ops := ops + [Wrote(path)];
        assert ops[..|ops| - 1] == old(ops);
      }
    }

    method Remove(path: string)
      requires Valid()
      modifies this`authored, this`deleted, this`ops
      ensures Valid() && ops == old(ops) + (if path != "" then [Removed(path)] else [])
    {
      if path != "" {
        authored, deleted := authored - {path}, deleted + {path};
        ops := ops + [Removed(path)];
        assert ops[..|ops| - 1] == old(ops);
      }
    }
  }

  /** The ledger is dirty exactly when the run has written or deleted some file. */
  lemma DirtyMeans(l: WorkspaceLedger)
    requires l.Valid()
    ensures l.Dirty() <==> l.ops != []
  {
    if l.ops != [] {
      var path := l.ops[|l.ops| - 1].path;
      assert path in l.authored || path in l.deleted;
    }
    if path :| path in l.authored { assert LastOp(l.ops, path).Some?; }
    if path :| path in l.deleted { assert LastOp(l.ops, path).Some?; }
  }

  // ---- the bad-oracle guard --------------------------------------------------------------------

  /** The test, and the failure text with its numbers collapsed. */
  datatype Signature = Signature(test: string, text: string)

  /** What one step showed of simulations: the signature of a failure, or a passing job. */
  datatype Seen = Seen(sig: Option<Signature>, passed: bool)

  /** Failures with signature `s` in a row, steps that show neither failure nor pass aside. */
  ghost function Streak(steps: seq<Seen>, s: Signature): nat {
    if steps == [] then 0
    else
      var last := steps[|steps| - 1];
      if last.sig == Some(s) then Streak(steps[..|steps| - 1], s) + 1
      else if last.sig.None? && !last.passed then Streak(steps[..|steps| - 1], s)
      else 0
  }

  /** The signature reached three failures in a row at some step so far. */
  ghost predicate SuspectedBy(steps: seq<Seen>, s: Signature) {
    steps != [] && (SuspectedBy(steps[..|steps| - 1], s) || Streak(steps, s) >= 3)
  }

  lemma SuspectedNext(steps: seq<Seen>, seen: Seen)
    ensures forall s :: SuspectedBy(steps + [seen], s) <==> SuspectedBy(steps, s) || Streak(steps + [seen], s) >= 3
  {
    assert (steps + [seen])[..|steps|] == steps;
  }

  class OracleGuard {
    var sig: Option<Signature>
    var count: nat
    var nudged: set<Signature>
    ghost var steps: seq<Seen>

    ghost predicate Valid()
      reads this`sig, this`count, this`steps
    {
      && (sig.Some? <==> count > 0)
      && forall s :: Streak(steps, s) == if sig == Some(s) then count else 0
    }

    constructor ()
      ensures Valid() && steps == [] && nudged == {}
    {
      sig, count, nudged, steps := None, 0, {}, [];
    }

    method Saw(seen: Seen)
      requires Valid()
      modifies this`sig, this`count, this`steps
      ensures Valid() && steps == old(steps) + [seen]
    {
      if seen.sig.Some? {
        if seen.sig == sig {
          count := count + 1;
        } else {
          sig, count := seen.sig, 1;
        }
      } else if seen.passed {
        sig, count := None, 0;
      }
      steps := steps + [seen];
      assert steps[..|steps| - 1] == old(steps);
    }

    /** Suspect the harness once per signature, from the third identical failure on. */
    method Suspect() returns (suspect: Option<Signature>)
      requires Valid()
      modifies this`nudged
      ensures suspect.Some? <==> exists s :: Streak(steps, s) >= 3 && s !in old(nudged)
      ensures suspect.Some? ==> Streak(steps, suspect.value) >= 3 && suspect.value !in old(nudged)
      ensures nudged == old(nudged) + (if suspect.Some? then {suspect.value} else {})
    {
      suspect := None;
      if sig.Some? && count >= 3 && sig.value !in nudged {
        assert Streak(steps, sig.value) == count;
        suspect := sig;
        nudged := nudged + {sig.value};
      }
    }
  }
}
