/**
 * What the finalize tasks of a run have read. Votes are read one region at a time while new checks
 * commit in between; the lock orders whole tasks, so the reads of one task precede those of the next.
 */
module FinalizeReads {
  import opened Common
  import opened Regions
  import opened Checks
  import opened Incidents
  import opened FinalizeProtocol
  import opened FinalizeSafety

  /** The first `k` regions have been read, each from a table no older than the lock. */
  predicate Gathered(checks: seq<Check>, m: MonitorId, r: Reading, k: nat) {
    && k <= |r.codes| && Distinct(r.codes)
    && r.lockSeen <= |checks|
    && r.picks.Keys == Elements(r.codes[..k])
    && forall c :: c in r.picks ==>
         && r.lockSeen <= r.picks[c].seen <= |checks|
         && IsLatestFresh(checks[..r.picks[c].seen], m, c, r.cutoff, r.picks[c].vote)
  }

  /** The votes a task gathered, without when it read them. */
  function VoteRows(r: Reading): map<Code, Option<Check>> {
    map c | c in r.picks :: r.picks[c].vote
  }

  /** Everything in `r` was read when the checks table had at most `n` rows. */
  predicate ReadBy(r: Reading, n: nat) {
    r.lockSeen <= n && forall c :: c in r.picks ==> r.picks[c].seen <= n
  }

  predicate FinalizedAt(log: seq<Txn>, i: nat, m: MonitorId) {
    i < |log| && log[i].Finalized? && log[i].m == m
  }

  /** A down verdict at log position `i` and a later up verdict at `j`, with one voting list. */
  predicate Reversal(log: seq<Txn>, m: MonitorId, i: nat, j: nat) {
    && i < j && FinalizedAt(log, i, m) && FinalizedAt(log, j, m)
    && log[i].round.verdict == VerdictDown && log[j].round.verdict == VerdictUp
    && log[i].round.reading.codes == log[j].round.reading.codes
  }

  predicate TasksRead(s: State) {
    forall t :: t in s.tasks && s.tasks[t].Active()
                ==> Gathered(s.checks, s.tasks[t].m, s.tasks[t].reading, s.tasks[t].regionsRead)
  }

  predicate LogRead(s: State) {
    forall i: nat :: i < |s.log| && s.log[i].Finalized? ==>
      var r := s.log[i].round;
      && Gathered(s.checks, s.log[i].m, r.reading, |r.reading.codes|)
      && r.verdict == VerdictOf(r.reading)
      && r.at <= s.clock
  }

  /** Two finalizes of one monitor: the earlier one read everything before the later one took the lock. */
  predicate LogOrdered(s: State) {
    forall i: nat, j: nat :: i < j < |s.log| && s.log[i].Finalized? && FinalizedAt(s.log, j, s.log[i].m) ==>
      ReadBy(s.log[i].round.reading, s.log[j].round.reading.lockSeen) && s.log[i].round.at <= s.log[j].round.at
  }

  predicate LogBeforeActive(s: State) {
    forall i: nat, t :: i < |s.log| && s.log[i].Finalized? && t in s.tasks && s.tasks[t].Active()
                        && s.tasks[t].m == s.log[i].m ==>
      ReadBy(s.log[i].round.reading, s.tasks[t].reading.lockSeen)
  }

  lemma GatheredGrows(checks: seq<Check>, more: seq<Check>, m: MonitorId, r: Reading, k: nat)
    requires Gathered(checks, m, r, k)
    ensures Gathered(checks + more, m, r, k)
  {
    forall c | c in r.picks
      ensures (checks + more)[..r.picks[c].seen] == checks[..r.picks[c].seen]
    {
    }
  }

  lemma TasksReadStep(key: LockKey, s: State, step: Step)
    requires TasksRead(s) && Enabled(key, s, step)
    ensures TasksRead(Apply(s, step))
  {
    match step
    case CommitChecks(batch) =>
      forall t | t in s.tasks && s.tasks[t].Active()
        ensures Gathered(s.checks + batch, s.tasks[t].m, s.tasks[t].reading, s.tasks[t].regionsRead)
      {
        GatheredGrows(s.checks, batch, s.tasks[t].m, s.tasks[t].reading, s.tasks[t].regionsRead);
      }
    case ReadRegion(t, vote) =>
      var task := s.tasks[t];
      var k, codes := task.regionsRead, task.reading.codes;
      assert s.checks[..|s.checks|] == s.checks;
      assert codes[..k + 1] == codes[..k] + [codes[k]];
      assert codes[k] !in codes[..k];
      assert Gathered(s.checks, task.m, Apply(s, step).tasks[t].reading, k + 1);
    case _ =>
  }

  lemma LogReadStep(key: LockKey, s: State, step: Step)
    requires TasksRead(s) && LogRead(s) && Enabled(key, s, step)
    ensures LogRead(Apply(s, step))
  {
    match step
    case CommitChecks(batch) =>
      forall i: nat | i < |s.log| && s.log[i].Finalized?
        ensures Gathered(s.checks + batch, s.log[i].m, s.log[i].round.reading, |s.log[i].round.reading.codes|)
      {
        GatheredGrows(s.checks, batch, s.log[i].m, s.log[i].round.reading, |s.log[i].round.reading.codes|);
      }
    case _ =>
  }

  lemma LogOrderedCommit(key: LockKey, s: State, commit: Step)
    requires commit.Commit? && Enabled(key, s, commit)
    requires LogRead(s) && LogOrdered(s) && LogBeforeActive(s)
    ensures LogOrdered(Apply(s, commit))
  {
    var n, log' := |s.log|, Apply(s, commit).log;
    forall i: nat, j: nat | i < j < |log'| && log'[i].Finalized? && FinalizedAt(log', j, log'[i].m)
      ensures ReadBy(log'[i].round.reading, log'[j].round.reading.lockSeen)
      ensures log'[i].round.at <= log'[j].round.at
    {
      assert log'[i] == s.log[i];
      if j < n {
        assert log'[j] == s.log[j] && FinalizedAt(s.log, j, s.log[i].m);
      } else {
        assert s.tasks[commit.t].m == s.log[i].m;
      }
    }
  }

  lemma LogOrderedStep(key: LockKey, s: State, step: Step)
    requires LogRead(s) && LogOrdered(s) && LogBeforeActive(s) && Enabled(key, s, step)
    ensures LogOrdered(Apply(s, step))
  {
    var log, log' := s.log, Apply(s, step).log;
    if step.Commit? {
      LogOrderedCommit(key, s, step);
    } else {
      assert |log| <= |log'| && log'[..|log|] == log;
      assert forall j: nat :: |log| <= j < |log'| ==> !log'[j].Finalized?;
      forall i: nat, j: nat | i < j < |log'| && log'[i].Finalized? && FinalizedAt(log', j, log'[i].m)
        ensures ReadBy(log'[i].round.reading, log'[j].round.reading.lockSeen)
        ensures log'[i].round.at <= log'[j].round.at
      {
        assert log'[i] == log[i] && log'[j] == log[j] && FinalizedAt(log, j, log[i].m);
      }
    }
  }

  lemma LogBeforeActiveCommit(key: LockKey, s: State, commit: Step)
    requires commit.Commit? && Enabled(key, s, commit)
    requires Exclusive(key, s) && LogBeforeActive(s)
    ensures LogBeforeActive(Apply(s, commit))
  {
    var m, s' := s.tasks[commit.t].m, Apply(s, commit);
    forall i: nat, u | i < |s'.log| && s'.log[i].Finalized? && u in s'.tasks && s'.tasks[u].Active()
                       && s'.tasks[u].m == s'.log[i].m
      ensures ReadBy(s'.log[i].round.reading, s'.tasks[u].reading.lockSeen)
    {
      assert u != commit.t && s'.tasks[u] == s.tasks[u] && s.tasks[u].m != m;
      assert i < |s.log| && s'.log[i] == s.log[i];
    }
  }

  lemma LogBeforeActiveStep(key: LockKey, s: State, step: Step)
    requires Exclusive(key, s) && LogRead(s) && LogBeforeActive(s) && Enabled(key, s, step)
    ensures LogBeforeActive(Apply(s, step))
  {
    if step.Commit? {
      LogBeforeActiveCommit(key, s, step);
    }
  }

  predicate Orderly(key: LockKey, s: State) {
    Serial(key, s) && TasksRead(s) && LogRead(s) && LogOrdered(s) && LogBeforeActive(s)
  }

  lemma {:induction false} OrderlyRun(key: LockKey, steps: seq<Step>)
    requires Runs(key, INIT, steps)
    ensures Orderly(key, Exec(INIT, steps))
  {
    if steps != [] {
      var before, step := steps[..|steps| - 1], steps[|steps| - 1];
      var s := Exec(INIT, before);
      OrderlyRun(key, before);
      SerialStep(key, s, step);
      TasksReadStep(key, s, step);
      LogReadStep(key, s, step);
      LogOrderedStep(key, s, step);
      LogBeforeActiveStep(key, s, step);
    }
  }

  // ---- Every committed check reaches a finalize ------------------------------------------------

  ghost predicate InDispatch(s: State, m: MonitorId, i: nat) {
    exists n: nat :: (m, n) in s.undispatched && i < n
  }

  ghost predicate InQueue(s: State, m: MonitorId) {
    exists t :: t in s.tasks && s.tasks[t].m == m && s.tasks[t].pc == Queued
  }

  ghost predicate InFlight(s: State, m: MonitorId, i: nat) {
    exists t :: t in s.tasks && s.tasks[t].m == m && s.tasks[t].Active() && i < s.tasks[t].reading.lockSeen
  }

  ghost predicate InLog(s: State, m: MonitorId, i: nat) {
    exists j: nat :: FinalizedAt(s.log, j, m) && i < s.log[j].round.reading.lockSeen
  }

  /** Check `i` waits for a dispatch, for a queued task, or was in the table when some task took the lock. */
  ghost predicate Covered(s: State, m: MonitorId, i: nat) {
    InDispatch(s, m, i) || InQueue(s, m) || InFlight(s, m, i) || InLog(s, m, i)
  }

  predicate Tracked(s: State, m: MonitorId) {
    m in s.tables.status && m !in s.siteChecks && m !in s.lost
  }

  ghost predicate AllCovered(s: State) {
    forall i: nat :: i < |s.checks| && Tracked(s, s.checks[i].monitor) ==> Covered(s, s.checks[i].monitor, i)
  }

  lemma CoveredByTask(key: LockKey, s: State, step: Step, m: MonitorId, i: nat, t: TaskId)
    requires Enabled(key, s, step) && i < |s.checks|
    requires t in s.tasks && s.tasks[t].m == m
    requires s.tasks[t].pc == Queued || (s.tasks[t].Active() && i < s.tasks[t].reading.lockSeen)
    requires Tracked(Apply(s, step), m) && m in s.tables.status
    ensures Covered(Apply(s, step), m, i)
  {
    var s' := Apply(s, step);
    assert t in s'.tasks && s'.tasks[t].m == m;
    if step.Commit? && step.t == t {
      assert FinalizedAt(s'.log, |s.log|, m);
      assert InLog(s', m, i);
    } else if s'.tasks[t].pc == Queued {
      assert InQueue(s', m);
    } else {
      assert InFlight(s', m, i);
    }
  }

  lemma CoveredByLog(key: LockKey, s: State, step: Step, m: MonitorId, i: nat)
    requires Enabled(key, s, step) && InLog(s, m, i)
    ensures InLog(Apply(s, step), m, i)
  {
    var j: nat :| FinalizedAt(s.log, j, m) && i < s.log[j].round.reading.lockSeen;
    assert FinalizedAt(Apply(s, step).log, j, m) && Apply(s, step).log[j] == s.log[j];
  }

  lemma CoveredByDispatch(key: LockKey, s: State, step: Step, m: MonitorId, i: nat)
    requires Enabled(key, s, step) && InDispatch(s, m, i) && Tracked(Apply(s, step), m)
    ensures Covered(Apply(s, step), m, i)
  {
    var s' := Apply(s, step);
    var n: nat :| (m, n) in s.undispatched && i < n;
    if step.Dispatch? && step.m == m && step.upTo == n {
      assert s'.tasks[step.t].pc == Queued && InQueue(s', m);
    } else {
      assert (m, n) in s'.undispatched;
    }
  }

  lemma CoveredStep(key: LockKey, s: State, step: Step, m: MonitorId, i: nat)
    requires Enabled(key, s, step)
    requires i < |s.checks| && Covered(s, m, i) && Tracked(Apply(s, step), m) && m in s.tables.status
    ensures Covered(Apply(s, step), m, i)
  {
    if InLog(s, m, i) {
      CoveredByLog(key, s, step, m, i);
    } else if InFlight(s, m, i) {
      var t :| t in s.tasks && s.tasks[t].m == m && s.tasks[t].Active() && i < s.tasks[t].reading.lockSeen;
      CoveredByTask(key, s, step, m, i, t);
    } else if InQueue(s, m) {
      var t :| t in s.tasks && s.tasks[t].m == m && s.tasks[t].pc == Queued;
      CoveredByTask(key, s, step, m, i, t);
    } else {
      CoveredByDispatch(key, s, step, m, i);
    }
  }

  lemma AllCoveredStep(key: LockKey, s: State, step: Step)
    requires Serial(key, s) && AllCovered(s) && Enabled(key, s, step)
    ensures AllCovered(Apply(s, step))
  {
    var s' := Apply(s, step);
    forall i: nat | i < |s'.checks| && Tracked(s', s'.checks[i].monitor)
      ensures Covered(s', s'.checks[i].monitor, i)
    {
      var m := s'.checks[i].monitor;
      if i < |s.checks| {
        assert s'.checks[i] == s.checks[i] && s.checks[i] in s.checks;
        CoveredStep(key, s, step, m, i);
      } else {
        assert s'.checks[i] in step.batch;
        assert (m, |s'.checks|) in s'.undispatched;
      }
    }
  }

  lemma {:induction false} CoveredRun(key: LockKey, steps: seq<Step>)
    requires Runs(key, INIT, steps)
    ensures AllCovered(Exec(INIT, steps))
  {
    if steps != [] {
      var before := steps[..|steps| - 1];
      CoveredRun(key, before);
      SerialRun(key, before);
      AllCoveredStep(key, Exec(INIT, before), steps[|steps| - 1]);
    }
  }
}
