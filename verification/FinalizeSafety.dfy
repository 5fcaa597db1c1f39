/** What every interleaving of finalize tasks keeps, and what follows for whole runs. */
module FinalizeSafety {
  import opened Common
  import opened Incidents
  import opened IncidentHistory
  import opened FinalizeProtocol

  // ---- Serializability ---------------------------------------------------------------------------

  /** At most one active task per lock key. */
  predicate Exclusive(key: LockKey, s: State) {
    forall t, u :: t in s.tasks && u in s.tasks && t != u && s.tasks[t].Active() && s.tasks[u].Active()
                   ==> key(s.tasks[t].m) != key(s.tasks[u].m)
  }

  /** What a reading task remembers of the monitor is still what the table says. */
  predicate OldStatusCurrent(s: State) {
    forall t :: t in s.tasks && s.tasks[t].pc == Gathering && s.tasks[t].m in s.tables.status
                ==> s.tasks[t].oldStatus == s.tables.status[s.tasks[t].m]
  }

  /** Tasks and checks only speak of monitors that were created at some point. */
  predicate Known(s: State) {
    && (forall t :: t in s.tasks && s.tasks[t].pc == Gathering ==> Created(s.tasks[t].m) in s.log)
    && (forall x :: x in s.checks ==> Created(x.monitor) in s.log)
  }

  predicate Serial(key: LockKey, s: State) {
    && Exclusive(key, s)
    && OldStatusCurrent(s)
    && Known(s)
    && ValidLog(s.log)
    && s.tables == Replay(s.log)
  }

  lemma ReplaySnoc(log: seq<Txn>, x: Txn)
    ensures Replay(log + [x]) == ApplyTxn(Replay(log), x)
    ensures ValidLog(log + [x]) <==> ValidLog(log) && TxnAllowed(log, x)
  {
    assert (log + [x])[..|log|] == log;
  }

  lemma ExistingWasCreated(log: seq<Txn>, m: MonitorId)
    requires ValidLog(log) && m in Replay(log).status
    ensures Created(m) in log
  {
    if Created(m) !in log {
      NeverCreated(log, m);
    }
  }

  lemma KnownStep(key: LockKey, s: State, step: Step)
    requires Serial(key, s) && Enabled(key, s, step)
    ensures Known(Apply(s, step))
  {
    match step
    case ReadMonitor(t, _) => ExistingWasCreated(s.log, s.tasks[t].m);
    case CommitChecks(batch) =>
      forall x | x in batch ensures Created(x.monitor) in s.log {
        ExistingWasCreated(s.log, x.monitor);
      }
    case _ =>
  }

  lemma ExclusiveStep(key: LockKey, s: State, step: Step)
    requires Exclusive(key, s) && Enabled(key, s, step)
    ensures Exclusive(key, Apply(s, step))
  {
  }

  /** Only the task that holds the lock writes the status, so no other reader of that monitor exists. */
  lemma OldStatusCommit(key: LockKey, s: State, commit: Step)
    requires commit.Commit? && Enabled(key, s, commit)
    requires Exclusive(key, s) && OldStatusCurrent(s)
    ensures OldStatusCurrent(Apply(s, commit))
  {
    var m := s.tasks[commit.t].m;
    var s' := Apply(s, commit);
    forall u | u in s'.tasks && s'.tasks[u].pc == Gathering && s'.tasks[u].m in s'.tables.status
      ensures s'.tasks[u].oldStatus == s'.tables.status[s'.tasks[u].m]
    {
      assert u != commit.t && s'.tasks[u] == s.tasks[u] && s.tasks[u].m != m;
    }
  }

  lemma OldStatusStep(key: LockKey, s: State, step: Step)
    requires Exclusive(key, s) && OldStatusCurrent(s) && Known(s) && Enabled(key, s, step)
    ensures OldStatusCurrent(Apply(s, step))
  {
    if step.Commit? {
      OldStatusCommit(key, s, step);
    }
  }

  lemma LogStep(key: LockKey, s: State, step: Step)
    requires OldStatusCurrent(s) && ValidLog(s.log) && s.tables == Replay(s.log) && Enabled(key, s, step)
    ensures ValidLog(Apply(s, step).log) && Apply(s, step).tables == Replay(Apply(s, step).log)
  {
    match step
    case CreateMonitor(m, _, _) => ReplaySnoc(s.log, Created(m));
    case DeleteMonitor(m) => ReplaySnoc(s.log, Deleted(m));
    case Commit(t, channels) =>
      var task := s.tasks[t];
      ReplaySnoc(s.log, Finalized(task.m, Round(VerdictOf(task.reading), s.clock, channels, task.reading)));
    case _ =>
  }

  lemma SerialStep(key: LockKey, s: State, step: Step)
    requires Serial(key, s) && Enabled(key, s, step)
    ensures Serial(key, Apply(s, step))
  {
    KnownStep(key, s, step);
    ExclusiveStep(key, s, step);
    OldStatusStep(key, s, step);
    LogStep(key, s, step);
  }

  lemma {:induction false} SerialRun(key: LockKey, steps: seq<Step>)
    requires Runs(key, INIT, steps)
    ensures Serial(key, Exec(INIT, steps))
  {
    if steps != [] {
      var before := steps[..|steps| - 1];
      SerialRun(key, before);
      SerialStep(key, Exec(INIT, before), steps[|steps| - 1]);
    }
  }
}
