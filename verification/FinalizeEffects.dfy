/** What single steps of a finalize task read and write, and that site checks are never finalized. */
module FinalizeEffects {
  import opened Common
  import opened Regions
  import opened Checks
  import opened Incidents
  import opened FinalizeProtocol

  /**
   * The votes that a task will count are checks of at most three intervals' age or at most 15 minutes, by
   * the interval and the clock when it reads the monitor; the status it goes by is the one stored then.
   */
  lemma ReadMonitorSetsTheWindow(key: LockKey, s: State, t: TaskId, codes: seq<Code>, x: Check, c: Code)
    requires Enabled(key, s, ReadMonitor(t, codes))
    ensures var m, task := s.tasks[t].m, Apply(s, ReadMonitor(t, codes)).tasks[t];
            && task.m == m && task.pc == Gathering && task.oldStatus == s.tables.status[m]
            && task.reading.codes == codes && task.reading.picks == map[] && task.regionsRead == 0
            && task.reading.lockSeen == s.tasks[t].reading.lockSeen
            && (Fresh(x, m, c, task.reading.cutoff)
                <==> && x.monitor == m && x.region == c
                     && (s.clock - x.checkedAt <= 3 * s.interval[m] || s.clock - x.checkedAt <= 15 * 60))
  {
    FreshIffRecent(x, s.tasks[t].m, c, s.interval[s.tasks[t].m], s.clock);
  }

  /** A commit happens at the clock, with the channels active then and the votes the task has read. */
  lemma CommitLogsNow(key: LockKey, s: State, t: TaskId, channels: seq<ChannelId>)
    requires Enabled(key, s, Commit(t, channels))
    ensures var task, s' := s.tasks[t], Apply(s, Commit(t, channels));
            && |s'.log| == |s.log| + 1 && s'.log[..|s.log|] == s.log
            && s'.log[|s.log|].Finalized? && s'.log[|s.log|].m == task.m
            && s'.log[|s.log|].round.at == s.clock && s'.log[|s.log|].round.channels == channels
            && s'.log[|s.log|].round.reading == task.reading
            && s'.tasks[t].pc == Finished && s'.checks == s.checks
  {
  }

  /** The step sets the interval of `m` to `i`. */
  predicate Sets(step: Step, m: MonitorId, i: int) {
    (step.CreateMonitor? && step.m == m && step.interval == i) || step == EditInterval(m, i)
  }

  /** The interval a monitor is read with is the one its owner set last. */
  lemma {:induction false} IntervalSetLast(steps: seq<Step>, m: MonitorId, i: int, k: nat)
    requires k < |steps| && Sets(steps[k], m, i)
    requires forall j, other :: k < j < |steps| ==> !Sets(steps[j], m, other)
    ensures var s := Exec(INIT, steps); m in s.interval && s.interval[m] == i
  {
    var n := |steps| - 1;
    if k < n {
      IntervalSetLast(steps[..n], m, i, k);
      var step := steps[n];
      assert step.CreateMonitor? ==> !Sets(step, m, step.interval);
      assert step.EditInterval? ==> !Sets(step, m, step.interval);
    }
  }

  // ---- Site checks ---------------------------------------------------------------------------------------

  /** What has been finalized or is being read was created, and is no site check. */
  predicate SiteChecksSilent(s: State) {
    && (forall m :: m in s.siteChecks ==> Created(m) in s.log)
    && (forall t :: t in s.tasks && s.tasks[t].pc == Gathering ==>
          Created(s.tasks[t].m) in s.log && s.tasks[t].m !in s.siteChecks)
    && (forall x :: x in s.log && x.Finalized? ==> Created(x.m) in s.log && x.m !in s.siteChecks)
    && (forall m :: m in s.tables.status ==> Created(m) in s.log)
  }

  lemma SilentStep(key: LockKey, s: State, step: Step)
    requires SiteChecksSilent(s) && Enabled(key, s, step)
    ensures SiteChecksSilent(Apply(s, step))
  {
    var s' := Apply(s, step);
    assert forall x :: x in s.log ==> x in s'.log;
  }

  lemma SiteChecksGrow(s: State, step: Step)
    ensures s.siteChecks <= Apply(s, step).siteChecks
    ensures step.CreateMonitor? && step.siteCheck ==> step.m in Apply(s, step).siteChecks
  {
  }

  lemma {:induction false} SilentRun(key: LockKey, steps: seq<Step>)
    requires Runs(key, INIT, steps)
    ensures SiteChecksSilent(Exec(INIT, steps))
    ensures forall m, i :: CreateMonitor(m, i, true) in steps ==> m in Exec(INIT, steps).siteChecks
  {
    if steps != [] {
      var n := |steps| - 1;
      SilentRun(key, steps[..n]);
      SilentStep(key, Exec(INIT, steps[..n]), steps[n]);
      SiteChecksGrow(Exec(INIT, steps[..n]), steps[n]);
      assert steps == steps[..n] + [steps[n]];
    }
  }

  /** In no run is a site check ever finalized, so it has no incident and no alert. */
  lemma SiteChecksAreNeverFinalized(key: LockKey, steps: seq<Step>, m: MonitorId, interval: int)
    requires Runs(key, INIT, steps) && CreateMonitor(m, interval, true) in steps
    ensures forall x :: x in Exec(INIT, steps).log && x.Finalized? ==> x.m != m
  {
    SilentRun(key, steps);
  }
}
