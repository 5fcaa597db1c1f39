/** Two runs of the finalize machine, step by step: votes of no one moment, and a reversal without a new check. */
module MixedReads {
  import opened Common
  import opened Regions
  import opened Checks
  import opened Incidents
  import opened FinalizeProtocol
  import opened FinalizeReads
  import opened FinalizeSnapshots

  lemma RunSnoc(key: LockKey, steps: seq<Step>, step: Step)
    requires Runs(key, INIT, steps) && Enabled(key, Exec(INIT, steps), step)
    ensures Runs(key, INIT, steps + [step]) && Exec(INIT, steps + [step]) == Apply(Exec(INIT, steps), step)
  {
    assert (steps + [step])[..|steps|] == steps;
  }

  const INTERVAL := 300
  const CUTOFF := -900

  /** Monitor 0 is the only one, and its interval is INTERVAL; the rest of the state as given. */
  predicate At(s: State, clock: int, tables: Tables, checks: seq<Check>, tasks: map<TaskId, Task>, log: seq<Txn>) {
    && s.interval == map[0 := INTERVAL] && s.siteChecks == {}
    && s.clock == clock && s.tables == tables && s.checks == checks && s.tasks == tasks && s.log == log
    && tables.status.Keys == {0}
  }

  const CREATED := Tables(map[0 := StatusUnknown], [], [], 0)

  function QueuedTask(): Task {
    Task(0, Queued, StatusUnknown, NO_READING, 0)
  }

  lemma CreateStep(key: LockKey)
    ensures Enabled(key, INIT, CreateMonitor(0, INTERVAL, false))
    ensures At(Apply(INIT, CreateMonitor(0, INTERVAL, false)), 0, CREATED, [], map[], [Created(0)])
  {
  }

  lemma TickStep(key: LockKey, s: State, tables: Tables, checks: seq<Check>, tasks: map<TaskId, Task>, log: seq<Txn>)
    requires At(s, 0, tables, checks, tasks, log)
    ensures Enabled(key, s, Tick(1)) && At(Apply(s, Tick(1)), 1, tables, checks, tasks, log)
  {
  }

  lemma ChecksStep(
    key: LockKey, s: State, clock: int, tables: Tables, checks: seq<Check>, tasks: map<TaskId, Task>, log: seq<Txn>,
    batch: seq<Check>)
    requires At(s, clock, tables, checks, tasks, log) && batch != [] && forall x :: x in batch ==> x.monitor == 0
    ensures Enabled(key, s, CommitChecks(batch))
    ensures At(Apply(s, CommitChecks(batch)), clock, tables, checks + batch, tasks, log)
    ensures (0, |checks + batch|) in Apply(s, CommitChecks(batch)).undispatched
    ensures s.undispatched <= Apply(s, CommitChecks(batch)).undispatched
  {
    assert batch[0] in batch;
  }

  lemma DispatchStep(
    key: LockKey, s: State, clock: int, tables: Tables, checks: seq<Check>, tasks: map<TaskId, Task>, log: seq<Txn>,
    n: nat, t: TaskId)
    requires At(s, clock, tables, checks, tasks, log) && (0, n) in s.undispatched && t !in tasks
    ensures Enabled(key, s, Dispatch(0, n, t))
    ensures At(Apply(s, Dispatch(0, n, t)), clock, tables, checks, tasks[t := QueuedTask()], log)
    ensures Apply(s, Dispatch(0, n, t)).undispatched == s.undispatched - {(0, n)}
  {
  }

  lemma LockStep(
    key: LockKey, s: State, clock: int, tables: Tables, checks: seq<Check>, tasks: map<TaskId, Task>, log: seq<Txn>,
    t: TaskId)
    requires At(s, clock, tables, checks, tasks, log) && t in tasks && tasks[t] == QueuedTask()
    requires forall u :: u in tasks ==> !tasks[u].Active()
    ensures Enabled(key, s, Lock(t))
    ensures At(Apply(s, Lock(t)), clock, tables, checks,
               tasks[t := Task(0, Locked, StatusUnknown, Reading([], 0, |checks|, map[]), 0)], log)
  {
  }

  lemma MonitorStep(
    key: LockKey, s: State, tables: Tables, checks: seq<Check>, tasks: map<TaskId, Task>, log: seq<Txn>,
    t: TaskId, seen: nat, codes: seq<Code>)
    requires At(s, 0, tables, checks, tasks, log) && t in tasks && Distinct(codes)
    requires tasks[t] == Task(0, Locked, StatusUnknown, Reading([], 0, seen, map[]), 0)
    ensures Enabled(key, s, ReadMonitor(t, codes))
    ensures At(Apply(s, ReadMonitor(t, codes)), 0, tables, checks,
               tasks[t := Task(0, Gathering, tables.status[0], Reading(codes, CUTOFF, seen, map[]), 0)], log)
  {
  }

  lemma RegionStep(
    key: LockKey, s: State, clock: int, tables: Tables, checks: seq<Check>, tasks: map<TaskId, Task>, log: seq<Txn>,
    t: TaskId, vote: Check)
    requires At(s, clock, tables, checks, tasks, log) && t in tasks && tasks[t].pc == Gathering && tasks[t].m == 0
    requires var r, k := tasks[t].reading, tasks[t].regionsRead;
             k < |r.codes| && IsLatestFresh(checks, 0, r.codes[k], r.cutoff, Some(vote))
    ensures var task := tasks[t];
            var r, k := task.reading, task.regionsRead;
            && Enabled(key, s, ReadRegion(t, Some(vote)))
            && At(Apply(s, ReadRegion(t, Some(vote))), clock, tables, checks,
                  tasks[t := task.(reading := r.(picks := r.picks[r.codes[k] := Pick(Some(vote), |checks|)]),
                                   regionsRead := k + 1)], log)
  {
  }

  /** The tables and the round a commit of `task` leaves. */
  function RoundOf(task: Task, clock: int): Round {
    Round(VerdictOf(task.reading), clock, [], task.reading)
  }

  lemma CommitStep(
    key: LockKey, s: State, clock: int, tables: Tables, checks: seq<Check>, tasks: map<TaskId, Task>, log: seq<Txn>,
    t: TaskId)
    requires At(s, clock, tables, checks, tasks, log) && t in tasks && tasks[t].pc == Gathering && tasks[t].m == 0
    requires tasks[t].regionsRead == |tasks[t].reading.codes|
    ensures var task := tasks[t];
            var tables' := WriteVerdict(tables, 0, task.oldStatus, RoundOf(task, clock));
            && Enabled(key, s, Commit(t, []))
            && At(Apply(s, Commit(t, [])), clock, tables', checks,
                  tasks[t := task.(pc := Finished)], log + [Finalized(0, RoundOf(task, clock))])
  {
  }

  lemma CreatedRun(key: LockKey) returns (steps: seq<Step>)
    ensures Runs(key, INIT, steps) && At(Exec(INIT, steps), 0, CREATED, [], map[], [Created(0)])
  {
    steps := [];
    CreateStep(key);
    RunSnoc(key, steps, CreateMonitor(0, INTERVAL, false));
    steps := steps + [CreateMonitor(0, INTERVAL, false)];
  }

  lemma CommittedRun(key: LockKey, batch: seq<Check>) returns (steps: seq<Step>)
    requires batch != [] && forall x :: x in batch ==> x.monitor == 0
    ensures Runs(key, INIT, steps)
    ensures At(Exec(INIT, steps), 0, CREATED, batch, map[], [Created(0)])
    ensures (0, |batch|) in Exec(INIT, steps).undispatched
  {
    var before := CreatedRun(key);
    ChecksStep(key, Exec(INIT, before), 0, CREATED, [], map[], [Created(0)], batch);
    RunSnoc(key, before, CommitChecks(batch));
    steps := before + [CommitChecks(batch)];
    assert [] + batch == batch;
  }

  /** Create the monitor, commit a batch of its checks, dispatch its finalize. */
  lemma ReadyRun(key: LockKey, batch: seq<Check>) returns (steps: seq<Step>)
    requires batch != [] && forall x :: x in batch ==> x.monitor == 0
    ensures Runs(key, INIT, steps)
    ensures At(Exec(INIT, steps), 0, CREATED, batch, map[0 := QueuedTask()], [Created(0)])
  {
    var before := CommittedRun(key, batch);
    DispatchStep(key, Exec(INIT, before), 0, CREATED, batch, map[], [Created(0)], |batch|, 0);
    RunSnoc(key, before, Dispatch(0, |batch|, 0));
    steps := before + [Dispatch(0, |batch|, 0)];
    assert map[][0 := QueuedTask()] == map[0 := QueuedTask()];
  }

  // ---- Votes of no one moment --------------------------------------------------------------------------

  const A_DOWN := Check(0, "a", Down, 0)
  const B_UP := Check(0, "b", Up, 0)
  const A_UP := Check(0, "a", Up, 1)
  const B_DOWN := Check(0, "b", Down, 1)
  const AT_LOCK := [A_DOWN, B_UP]
  const AT_END := [A_DOWN, B_UP, A_UP, B_DOWN]
  const BOTH := ["a", "b"]
  const MIXED := Reading(BOTH, CUTOFF, 2, map["a" := Pick(Some(A_DOWN), 2), "b" := Pick(Some(B_DOWN), 4)])
  const HALF := Reading(BOTH, CUTOFF, 2, map["a" := Pick(Some(A_DOWN), 2)])

  lemma LockedAndRead(key: LockKey) returns (steps: seq<Step>)
    ensures Runs(key, INIT, steps)
    ensures At(Exec(INIT, steps), 0, CREATED, AT_LOCK,
               map[0 := Task(0, Gathering, StatusUnknown, Reading(BOTH, CUTOFF, 2, map[]), 0)], [Created(0)])
  {
    var ready := ReadyRun(key, AT_LOCK);
    var s, tasks, log := Exec(INIT, ready), map[0 := QueuedTask()], [Created(0)];
    LockStep(key, s, 0, CREATED, AT_LOCK, tasks, log, 0);
    RunSnoc(key, ready, Lock(0));
    s, tasks := Apply(s, Lock(0)), tasks[0 := Task(0, Locked, StatusUnknown, Reading([], 0, 2, map[]), 0)];
    MonitorStep(key, s, CREATED, AT_LOCK, tasks, log, 0, 2, BOTH);
    RunSnoc(key, ready + [Lock(0)], ReadMonitor(0, BOTH));
    steps := ready + [Lock(0)] + [ReadMonitor(0, BOTH)];
  }

  lemma LatestOfAIsDown()
    ensures IsLatestFresh(AT_LOCK, 0, "a", CUTOFF, Some(A_DOWN))
  {
    assert A_DOWN == AT_LOCK[0];
  }

  /** The task reads region a's down vote. */
  lemma FirstRead(key: LockKey) returns (steps: seq<Step>)
    ensures Runs(key, INIT, steps)
    ensures At(Exec(INIT, steps), 0, CREATED, AT_LOCK, map[0 := Task(0, Gathering, StatusUnknown, HALF, 1)],
               [Created(0)])
  {
    var locked := LockedAndRead(key);
    var tasks := map[0 := Task(0, Gathering, StatusUnknown, Reading(BOTH, CUTOFF, 2, map[]), 0)];
    LatestOfAIsDown();
    RegionStep(key, Exec(INIT, locked), 0, CREATED, AT_LOCK, tasks, [Created(0)], 0, A_DOWN);
    RunSnoc(key, locked, ReadRegion(0, Some(A_DOWN)));
    steps := locked + [ReadRegion(0, Some(A_DOWN))];
    assert map[]["a" := Pick(Some(A_DOWN), 2)] == HALF.picks;
    assert tasks[0 := Task(0, Gathering, StatusUnknown, HALF, 1)]
        == map[0 := Task(0, Gathering, StatusUnknown, HALF, 1)];
  }

  /** Then a recovers and b fails. */
  lemma HalfReadRun(key: LockKey) returns (steps: seq<Step>)
    ensures Runs(key, INIT, steps)
    ensures At(Exec(INIT, steps), 1, CREATED, AT_END, map[0 := Task(0, Gathering, StatusUnknown, HALF, 1)],
               [Created(0)])
  {
    var first := FirstRead(key);
    var s, tasks, log := Exec(INIT, first), map[0 := Task(0, Gathering, StatusUnknown, HALF, 1)], [Created(0)];
    TickStep(key, s, CREATED, AT_LOCK, tasks, log);
    RunSnoc(key, first, Tick(1));
    s := Apply(s, Tick(1));
    ChecksStep(key, s, 1, CREATED, AT_LOCK, tasks, log, [A_UP]);
    RunSnoc(key, first + [Tick(1)], CommitChecks([A_UP]));
    s := Apply(s, CommitChecks([A_UP]));
    ChecksStep(key, s, 1, CREATED, AT_LOCK + [A_UP], tasks, log, [B_DOWN]);
    RunSnoc(key, first + [Tick(1)] + [CommitChecks([A_UP])], CommitChecks([B_DOWN]));
    steps := first + [Tick(1)] + [CommitChecks([A_UP])] + [CommitChecks([B_DOWN])];
    assert AT_LOCK + [A_UP] + [B_DOWN] == AT_END;
  }

  lemma TwoDownVotes(votes: map<Code, CheckStatus>)
    requires votes == map["a" := Down, "b" := Down]
    ensures Consensus(votes, BOTH).verdict == VerdictDown
  {
    assert Distinct(BOTH) && BOTH[0] in BOTH && BOTH[1] in BOTH;
    ConsensusIsStrictMajority(votes, BOTH);
    assert Voters(votes, BOTH, Down) == {"a", "b"};
  }

  lemma MixedVerdict()
    ensures VerdictOf(MIXED) == VerdictDown
  {
    TwoDownVotes(VotesOf(MIXED));
  }

  lemma SecondRead(key: LockKey) returns (steps: seq<Step>)
    ensures Runs(key, INIT, steps)
    ensures At(Exec(INIT, steps), 1, CREATED, AT_END, map[0 := Task(0, Gathering, StatusUnknown, MIXED, 2)],
               [Created(0)])
  {
    var half := HalfReadRun(key);
    var s, task := Exec(INIT, half), Task(0, Gathering, StatusUnknown, HALF, 1);
    LatestOfBIsDown();
    RegionStep(key, s, 1, CREATED, AT_END, map[0 := task], [Created(0)], 0, B_DOWN);
    RunSnoc(key, half, ReadRegion(0, Some(B_DOWN)));
    steps := half + [ReadRegion(0, Some(B_DOWN))];
    assert HALF.picks["b" := Pick(Some(B_DOWN), 4)] == MIXED.picks;
    assert map[0 := task][0 := Task(0, Gathering, StatusUnknown, MIXED, 2)]
        == map[0 := Task(0, Gathering, StatusUnknown, MIXED, 2)];
  }

  /** The finalize of the mixed votes opens an incident. */
  lemma MixedRun(key: LockKey) returns (steps: seq<Step>)
    ensures Runs(key, INIT, steps)
    ensures var s := Exec(INIT, steps);
            && s.checks == AT_END && s.tables.status == map[0 := StatusDown] && |s.tables.incidents| == 1
            && s.log == [Created(0), Finalized(0, Round(VerdictDown, 1, [], MIXED))]
  {
    var read := SecondRead(key);
    MixedVerdict();
    CommitStep(key, Exec(INIT, read), 1, CREATED, AT_END, map[0 := Task(0, Gathering, StatusUnknown, MIXED, 2)],
               [Created(0)], 0);
    RunSnoc(key, read, Commit(0, []));
    steps := read + [Commit(0, [])];
  }

  lemma LatestOfBIsDown()
    ensures IsLatestFresh(AT_END, 0, "b", CUTOFF, Some(B_DOWN))
  {
    assert B_DOWN == AT_END[3];
  }

  /** Region b's only down check is the last row, and by then region a is up. */
  lemma NeverBothDown(n: nat, picks: map<Code, Option<Check>>)
    requires n <= 4 && Answers(AT_END[..n], 0, BOTH, CUTOFF, picks)
    ensures Consensus(VotesFrom(picks), BOTH).verdict != VerdictDown
  {
    assert BOTH[0] in BOTH && BOTH[1] in BOTH && "a" in picks && "b" in picks;
    if n == 4 {
      assert A_UP == AT_END[2] && A_UP in AT_END[..4];
      assert picks["a"] != Some(A_DOWN);
    } else {
      assert B_DOWN !in AT_END[..n];
    }
    FewerThanTwoDown(VotesFrom(picks));
  }

  lemma FewerThanTwoDown(votes: map<Code, CheckStatus>)
    requires !("a" in votes && votes["a"] == Down && "b" in votes && votes["b"] == Down)
    ensures Consensus(votes, BOTH).verdict != VerdictDown
  {
    assert Distinct(BOTH);
    ConsensusIsStrictMajority(votes, BOTH);
    var down := Voters(votes, BOTH, Down);
    if "a" in votes && votes["a"] == Down {
      SubsetSize(down, {"a"});
    } else {
      SubsetSize(down, {"b"});
    }
  }

  /**
   * Reads can be mixed for real: in this run a finalize reports the monitor down and opens an incident,
   * although no table there ever was, before, during or after, has that verdict.
   */
  lemma MixedReadsMatchNoMoment(key: LockKey) returns (steps: seq<Step>)
    ensures Runs(key, INIT, steps)
    ensures var s := Exec(INIT, steps);
            && s.tables.status == map[0 := StatusDown] && |s.tables.incidents| == 1
            && FinalizedAt(s.log, 1, 0) && s.log[1].round.verdict == VerdictDown
            && var r := s.log[1].round.reading;
               && Overtaken(s.checks, 0, r)
               && forall n: nat :: n <= |s.checks| ==>
                    !PossibleVerdict(s.checks[..n], 0, r.codes, r.cutoff, VerdictDown)
  {
    steps := MixedRun(key);
    forall n: nat | n <= |AT_END| ensures !PossibleVerdict(AT_END[..n], 0, BOTH, CUTOFF, VerdictDown) {
      forall picks | Answers(AT_END[..n], 0, BOTH, CUTOFF, picks)
        ensures Consensus(VotesFrom(picks), BOTH).verdict != VerdictDown
      {
        NeverBothDown(n, picks);
      }
    }
    MixedIsOvertaken();
  }

  lemma MixedIsOvertaken()
    ensures Overtaken(AT_END, 0, MIXED)
  {
    assert AT_END[2] == A_UP && B_DOWN !in AT_END[..3];
    assert OvertakenAt(AT_END, 0, MIXED, "a", "b", 2);
  }

  // ---- A reversal without a new check --------------------------------------------------------------------

  const TIED_DOWN := Check(0, "a", Down, 0)
  const TIED_UP := Check(0, "a", Up, 0)
  const TIED := [TIED_DOWN, TIED_UP]
  const ONE := ["a"]

  function TiedReading(vote: Check): Reading {
    Reading(ONE, CUTOFF, 2, map["a" := Pick(Some(vote), 2)])
  }

  function TiedRound(vote: Check): Round {
    Round(if vote.status == Down then VerdictDown else VerdictUp, 0, [], TiedReading(vote))
  }

  lemma TiedVerdict(vote: Check)
    requires vote in TIED
    ensures VerdictOf(TiedReading(vote)) == TiedRound(vote).verdict
  {
    SingleVoter(VotesOf(TiedReading(vote)), "a");
  }

  lemma TiedVotesAreLatest(vote: Check)
    requires vote in TIED
    ensures IsLatestFresh(TIED, 0, "a", CUTOFF, Some(vote))
  {
  }

  /** One whole finalize of the tied table by task `t`, which happens to get `vote`. */
  lemma FinalizeTied(
    key: LockKey, run: seq<Step>, tables: Tables, tasks: map<TaskId, Task>, log: seq<Txn>, t: TaskId, vote: Check)
    returns (steps: seq<Step>)
    requires Runs(key, INIT, run) && At(Exec(INIT, run), 0, tables, TIED, tasks, log) && vote in TIED
    requires t in tasks && tasks[t] == QueuedTask() && forall u :: u in tasks ==> !tasks[u].Active()
    ensures Runs(key, INIT, steps)
    ensures At(Exec(INIT, steps), 0, WriteVerdict(tables, 0, tables.status[0], TiedRound(vote)), TIED,
               tasks[t := Task(0, Finished, tables.status[0], TiedReading(vote), 1)],
               log + [Finalized(0, TiedRound(vote))])
  {
    var reading := ReadTied(key, run, tables, tasks, log, t, vote);
    var tasks' := tasks[t := Task(0, Gathering, tables.status[0], TiedReading(vote), 1)];
    TiedVerdict(vote);
    CommitStep(key, Exec(INIT, reading), 0, tables, TIED, tasks', log, t);
    RunSnoc(key, reading, Commit(t, []));
    steps := reading + [Commit(t, [])];
    assert tasks'[t := tasks'[t].(pc := Finished)]
        == tasks[t := Task(0, Finished, tables.status[0], TiedReading(vote), 1)];
  }

  lemma ReadTied(
    key: LockKey, run: seq<Step>, tables: Tables, tasks: map<TaskId, Task>, log: seq<Txn>, t: TaskId, vote: Check)
    returns (steps: seq<Step>)
    requires Runs(key, INIT, run) && At(Exec(INIT, run), 0, tables, TIED, tasks, log) && vote in TIED
    requires t in tasks && tasks[t] == QueuedTask() && forall u :: u in tasks ==> !tasks[u].Active()
    ensures Runs(key, INIT, steps)
    ensures At(Exec(INIT, steps), 0, tables, TIED,
               tasks[t := Task(0, Gathering, tables.status[0], TiedReading(vote), 1)], log)
  {
    var s := Exec(INIT, run);
    LockStep(key, s, 0, tables, TIED, tasks, log, t);
    RunSnoc(key, run, Lock(t));
    s := Apply(s, Lock(t));
    var locked := tasks[t := Task(0, Locked, StatusUnknown, Reading([], 0, 2, map[]), 0)];
    MonitorStep(key, s, tables, TIED, locked, log, t, 2, ONE);
    RunSnoc(key, run + [Lock(t)], ReadMonitor(t, ONE));
    s := Apply(s, ReadMonitor(t, ONE));
    var reading := locked[t := Task(0, Gathering, tables.status[0], Reading(ONE, CUTOFF, 2, map[]), 0)];
    TiedVotesAreLatest(vote);
    RegionStep(key, s, 0, tables, TIED, reading, log, t, vote);
    RunSnoc(key, run + [Lock(t)] + [ReadMonitor(t, ONE)], ReadRegion(t, Some(vote)));
    steps := run + [Lock(t)] + [ReadMonitor(t, ONE)] + [ReadRegion(t, Some(vote))];
    assert map[]["a" := Pick(Some(vote), 2)] == TiedReading(vote).picks;
    assert reading[t := reading[t].(reading := TiedReading(vote), regionsRead := 1)]
        == tasks[t := Task(0, Gathering, tables.status[0], TiedReading(vote), 1)];
  }

  /** Both rows committed, one batch each, and a finalize queued for either. */
  lemma TiedReady(key: LockKey) returns (steps: seq<Step>)
    ensures Runs(key, INIT, steps)
    ensures At(Exec(INIT, steps), 0, CREATED, TIED, map[0 := QueuedTask(), 1 := QueuedTask()], [Created(0)])
  {
    var ready := ReadyRun(key, [TIED_DOWN]);
    var s, tasks, log := Exec(INIT, ready), map[0 := QueuedTask()], [Created(0)];
    ChecksStep(key, s, 0, CREATED, [TIED_DOWN], tasks, log, [TIED_UP]);
    RunSnoc(key, ready, CommitChecks([TIED_UP]));
    s := Apply(s, CommitChecks([TIED_UP]));
    assert [TIED_DOWN] + [TIED_UP] == TIED;
    DispatchStep(key, s, 0, CREATED, TIED, tasks, log, 2, 1);
    RunSnoc(key, ready + [CommitChecks([TIED_UP])], Dispatch(0, 2, 1));
    steps := ready + [CommitChecks([TIED_UP])] + [Dispatch(0, 2, 1)];
    assert tasks[1 := QueuedTask()] == map[0 := QueuedTask(), 1 := QueuedTask()];
  }

  /**
   * The exception for equal timestamps is real: here a down verdict is followed by an up verdict of the
   * same voters over the same table, with no check in between.
   */
  lemma TiedRowsReverse(key: LockKey) returns (steps: seq<Step>)
    ensures Runs(key, INIT, steps)
    ensures var s := Exec(INIT, steps);
            && s.checks == TIED
            && s.log == [Created(0), Finalized(0, TiedRound(TIED_DOWN)), Finalized(0, TiedRound(TIED_UP))]
            && s.log[1].round.verdict == VerdictDown && s.log[2].round.verdict == VerdictUp
            && s.log[1].round.reading.lockSeen == s.log[2].round.reading.lockSeen == |s.checks|
            && s.tables.status == map[0 := StatusUp] && Reversal(s.log, 0, 1, 2)
  {
    var log := [Created(0), Finalized(0, TiedRound(TIED_DOWN)), Finalized(0, TiedRound(TIED_UP))];
    var tables: Tables;
    var tasks: map<TaskId, Task>;
    steps, tables, tasks := TiedRun(key);
    assert At(Exec(INIT, steps), 0, tables, TIED, tasks, log);
    TiedLogReverses();
  }

  lemma TiedLogReverses()
    ensures Reversal([Created(0), Finalized(0, TiedRound(TIED_DOWN)), Finalized(0, TiedRound(TIED_UP))], 0, 1, 2)
  {
  }

  /** The first finalize, which reads the down row. */
  lemma TiedDownRun(key: LockKey) returns (steps: seq<Step>, tables: Tables)
    ensures Runs(key, INIT, steps)
    ensures At(Exec(INIT, steps), 0, tables, TIED, TiedTasks(), [Created(0), Finalized(0, TiedRound(TIED_DOWN))])
    ensures tables.status == map[0 := StatusDown]
  {
    var ready := TiedReady(key);
    var tasks := map[0 := QueuedTask(), 1 := QueuedTask()];
    assert TIED_DOWN == TIED[0];
    steps := FinalizeTied(key, ready, CREATED, tasks, [Created(0)], 0, TIED_DOWN);
    tables := WriteVerdict(CREATED, 0, StatusUnknown, TiedRound(TIED_DOWN));
    assert tasks[0 := Task(0, Finished, StatusUnknown, TiedReading(TIED_DOWN), 1)] == TiedTasks();
  }

  function TiedTasks(): map<TaskId, Task> {
    map[0 := Task(0, Finished, StatusUnknown, TiedReading(TIED_DOWN), 1), 1 := QueuedTask()]
  }

  /** The two finalizes, one after the other. */
  lemma TiedRun(key: LockKey) returns (steps: seq<Step>, tables: Tables, tasks: map<TaskId, Task>)
    ensures Runs(key, INIT, steps)
    ensures At(Exec(INIT, steps), 0, tables, TIED, tasks,
               [Created(0), Finalized(0, TiedRound(TIED_DOWN)), Finalized(0, TiedRound(TIED_UP))])
    ensures tables.status == map[0 := StatusUp]
  {
    var down, before := TiedDownRun(key);
    assert TIED_UP == TIED[1];
    steps := FinalizeTied(key, down, before, TiedTasks(), [Created(0), Finalized(0, TiedRound(TIED_DOWN))], 1, TIED_UP);
    tasks := TiedTasks()[1 := Task(0, Finished, StatusDown, TiedReading(TIED_UP), 1)];
    tables := WriteVerdict(before, 0, StatusDown, TiedRound(TIED_UP));
  }
}
