/**
 * finalize_check_result as concurrent small steps (app/workers/tasks.py:251-341), interleaved with
 * everything else that commits: new checks, monitor edits, creation and deletion, crashes and retries.
 * The advisory lock is transaction scoped, so it is held exactly while a task is active; `key` is the
 * hash of the monitor id that the lock is taken on.
 */
module FinalizeProtocol {
  import opened Common
  import opened Regions
  import opened Checks
  import opened Incidents

  type TaskId = nat
  type LockKey = MonitorId -> int

  datatype Pc = Queued | Locked | Gathering | Finished

  /** `regionsRead` counts the voting regions whose vote has been read. */
  datatype Task = Task(m: MonitorId, pc: Pc, oldStatus: MonitorStatus, reading: Reading, regionsRead: nat) {
    predicate Active() {
      pc == Locked || pc == Gathering
    }
  }

  /**
   * `siteChecks`: throwaway monitors of the public site check. `undispatched`: committed batches whose
   * finalize_check_result.delay has not run, as (monitor, checks table length after the commit).
   * `lost`: monitors that lost a dispatch or a task to a crash or to exhausted retries.
   * The checks table only grows here: rows of a deleted monitor stay, and are never read again.
   */
  datatype State = State(
    clock: int,
    interval: map<MonitorId, int>,
    siteChecks: set<MonitorId>,
    tables: Tables,
    checks: seq<Check>,
    undispatched: set<(MonitorId, nat)>,
    lost: set<MonitorId>,
    tasks: map<TaskId, Task>,
    log: seq<Txn>)

  const INIT := State(0, map[], {}, EMPTY_TABLES, [], {}, {}, map[], [])

  datatype Step =
    | Tick(seconds: nat)
    | CreateMonitor(m: MonitorId, interval: int, siteCheck: bool)
    | DeleteMonitor(m: MonitorId)
    | EditInterval(m: MonitorId, interval: int)
    | CommitChecks(batch: seq<Check>)
    | Dispatch(m: MonitorId, upTo: nat, t: TaskId)
    | LoseDispatch(m: MonitorId, upTo: nat)
    | Lock(t: TaskId)
    | Skip(t: TaskId)
    | ReadMonitor(t: TaskId, codes: seq<Code>)
    | ReadRegion(t: TaskId, vote: Option<Check>)
    | Commit(t: TaskId, channels: seq<ChannelId>)
    | Abort(t: TaskId)
    | GiveUp(t: TaskId)

  const NO_READING := Reading([], 0, 0, map[])

  predicate LockFree(key: LockKey, s: State, m: MonitorId) {
    forall u :: u in s.tasks && s.tasks[u].Active() ==> key(s.tasks[u].m) != key(m)
  }

  predicate Enabled(key: LockKey, s: State, step: Step) {
    match step
    case Tick(_) => true
    case CreateMonitor(m, _, _) => Created(m) !in s.log
    case DeleteMonitor(m) => m in s.tables.status
    case EditInterval(m, _) => m in s.tables.status
    case CommitChecks(batch) => batch != [] && forall x :: x in batch ==> x.monitor in s.tables.status
    case Dispatch(m, upTo, t) => (m, upTo) in s.undispatched && t !in s.tasks
    case LoseDispatch(m, upTo) => (m, upTo) in s.undispatched
    case Lock(t) => t in s.tasks && s.tasks[t].pc == Queued && LockFree(key, s, s.tasks[t].m)
    case Skip(t) =>
      && t in s.tasks && s.tasks[t].Active()
      && (s.tasks[t].m !in s.tables.status || (s.tasks[t].pc == Locked && s.tasks[t].m in s.siteChecks))
    case ReadMonitor(t, codes) =>
      && t in s.tasks && s.tasks[t].pc == Locked
      && s.tasks[t].m in s.tables.status && s.tasks[t].m in s.interval && s.tasks[t].m !in s.siteChecks
      && Distinct(codes)
    case ReadRegion(t, vote) =>
      && t in s.tasks && s.tasks[t].pc == Gathering
      && var r, k := s.tasks[t].reading, s.tasks[t].regionsRead;
         k < |r.codes| && IsLatestFresh(s.checks, s.tasks[t].m, r.codes[k], r.cutoff, vote)
    case Commit(t, channels) =>
      && t in s.tasks && s.tasks[t].pc == Gathering
      && s.tasks[t].regionsRead == |s.tasks[t].reading.codes|
      && s.tasks[t].m in s.tables.status && Distinct(channels)
    case Abort(t) => t in s.tasks && s.tasks[t].Active()
    case GiveUp(t) => t in s.tasks && s.tasks[t].pc != Finished
  }

  function VotesOf(r: Reading): map<Code, CheckStatus> {
    VotesFrom(map c | c in r.picks :: r.picks[c].vote)
  }

  function VerdictOf(r: Reading): Verdict {
    Consensus(VotesOf(r), r.codes).verdict
  }

  function WithTask(s: State, t: TaskId, task: Task): State {
    s.(tasks := s.tasks[t := task])
  }

  function Apply(s: State, step: Step): State {
    match step
    case Tick(d) => s.(clock := s.clock + d)
    case CreateMonitor(m, i, site) =>
      s.(tables := ApplyTxn(s.tables, Created(m)), interval := s.interval[m := i],
         siteChecks := if site then s.siteChecks + {m} else s.siteChecks, log := s.log + [Created(m)])
    case DeleteMonitor(m) =>
      s.(tables := ApplyTxn(s.tables, Deleted(m)), log := s.log + [Deleted(m)])
    case EditInterval(m, i) => s.(interval := s.interval[m := i])
    case CommitChecks(batch) =>
      var checks := s.checks + batch;
      s.(checks := checks, undispatched := s.undispatched + set x | x in batch :: (x.monitor, |checks|))
    case Dispatch(m, upTo, t) =>
      WithTask(s, t, Task(m, Queued, StatusUnknown, NO_READING, 0)).(undispatched := s.undispatched - {(m, upTo)})
    case LoseDispatch(m, upTo) => s.(undispatched := s.undispatched - {(m, upTo)}, lost := s.lost + {m})
    case Lock(t) =>
      if t !in s.tasks then s
      else WithTask(s, t, s.tasks[t].(pc := Locked, reading := Reading([], 0, |s.checks|, map[]), regionsRead := 0))
    case Skip(t) => if t !in s.tasks then s else WithTask(s, t, s.tasks[t].(pc := Finished))
    case ReadMonitor(t, codes) =>
      if t !in s.tasks || s.tasks[t].m !in s.tables.status || s.tasks[t].m !in s.interval then s
      else
        var task := s.tasks[t];
        WithTask(s, t, task.(pc := Gathering, oldStatus := s.tables.status[task.m],
                             reading := Reading(codes, FreshCutoff(s.interval[task.m], s.clock),
                                                task.reading.lockSeen, map[]),
                             regionsRead := 0))
    case ReadRegion(t, vote) =>
      if t !in s.tasks || s.tasks[t].regionsRead >= |s.tasks[t].reading.codes| then s
      else
        var task := s.tasks[t];
        var r := task.reading;
        WithTask(s, t, task.(reading := r.(picks := r.picks[r.codes[task.regionsRead] := Pick(vote, |s.checks|)]),
                             regionsRead := task.regionsRead + 1))
    case Commit(t, channels) =>
      if t !in s.tasks || s.tasks[t].m !in s.tables.status then s
      else
        var task := s.tasks[t];
        var round := Round(VerdictOf(task.reading), s.clock, channels, task.reading);
        WithTask(s, t, task.(pc := Finished))
          .(tables := WriteVerdict(s.tables, task.m, task.oldStatus, round), log := s.log + [Finalized(task.m, round)])
    case Abort(t) => if t !in s.tasks then s else WithTask(s, t, s.tasks[t].(pc := Queued))
    case GiveUp(t) =>
      if t !in s.tasks then s
      else WithTask(s, t, s.tasks[t].(pc := Finished)).(lost := s.lost + {s.tasks[t].m})
  }

  function Exec(s: State, steps: seq<Step>): State {
    if steps == [] then s else Apply(Exec(s, steps[..|steps| - 1]), steps[|steps| - 1])
  }

  /** A run: every step is enabled where it is taken. */
  predicate Runs(key: LockKey, s: State, steps: seq<Step>) {
    steps == [] ||
    (Runs(key, s, steps[..|steps| - 1]) && Enabled(key, Exec(s, steps[..|steps| - 1]), steps[|steps| - 1]))
  }
}
