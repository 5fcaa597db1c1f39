/**
 * The limit steps of the monitor routes (app/api/routes/dashboard.py, app/api/routes/monitors.py and the
 * checks of app/services/plans.py), and what they keep while the account's limits stay the same.
 */
module MonitorLimits {
  import opened Common
  import opened Plans
  import opened PlanFitting
  import BulkAdd

  datatype CreateReply = Created | Refused(detail: string) | MonitorLimitReached | IntervalTooShort
  datatype ResumeReply = Resumed | NotFound | ProjectNotCovered | AllSlotsRunning

  // ---- The requests --------------------------------------------------------------------------------

  function Append(f: Fleet, id: MonitorId, m: Monitor): Fleet {
    f.(order := f.order + [id], rows := f.rows[id := m])
  }

  function NewMonitor(project: ProjectId, interval: int, now: int): Monitor {
    Monitor(project, true, None, interval, Some(now))
  }

  /** check_monitor_limit counts all monitors, running or not; then check_interval_limit. */
  function CreateReplyOf(f: Fleet, limits: PlanLimits, interval: int): CreateReply {
    if |f.order| >= limits.maxMonitors then MonitorLimitReached
    else if interval < limits.minIntervalSeconds then IntervalTooShort
    else Created
  }

  function CreateMonitor(
    f: Fleet, limits: PlanLimits, id: MonitorId, project: ProjectId, interval: int, now: int): Fleet
  {
    if CreateReplyOf(f, limits, interval).Created? then Append(f, id, NewMonitor(project, interval, now)) else f
  }

  /** check_resume_allowed: the project must be covered, and a slot free among the running monitors. */
  function ResumeReplyOf(f: Fleet, limits: PlanLimits, id: MonitorId): ResumeReply {
    if id !in f.rows then NotFound
    else if f.rows[id].active then Resumed
    else if f.rows[id].project !in Allowed(f.projects, limits) then ProjectNotCovered
    else if |Running(f)| >= limits.maxMonitors then AllSlotsRunning
    else Resumed
  }

  function ResumedRow(m: Monitor, limits: PlanLimits, now: int): Monitor {
    m.(intervalSeconds := if m.active then m.intervalSeconds else Max(m.intervalSeconds, limits.minIntervalSeconds),
       active := true, pausedReason := None, nextCheckAt := Some(now))
  }

  function ResumeMonitor(f: Fleet, limits: PlanLimits, id: MonitorId, now: int): Fleet {
    if ResumeReplyOf(f, limits, id).Resumed? then f.(rows := f.rows[id := ResumedRow(f.rows[id], limits, now)]) else f
  }

  /** The user's own pause: no reason is recorded, so no plan change undoes it. */
  function PauseMonitor(f: Fleet, id: MonitorId): Fleet {
    if id in f.rows then f.(rows := f.rows[id := f.rows[id].(active := false, pausedReason := None)]) else f
  }

  function EditInterval(f: Fleet, limits: PlanLimits, id: MonitorId, interval: int): Fleet {
    if id in f.rows && interval >= limits.minIntervalSeconds
    then f.(rows := f.rows[id := f.rows[id].(intervalSeconds := interval)])
    else f
  }

  function DeleteMonitors(f: Fleet, gone: seq<MonitorId>): Fleet {
    f.(order := Without(f.order, gone), rows := map id | id in f.rows && id !in gone :: f.rows[id])
  }

  /** One item of a bulk-add plan, and the key its row will get. */
  datatype Planned = Planned(id: MonitorId, item: BulkAdd.Item)

  function PlannedMonitor(p: Planned, project: ProjectId, interval: int, now: int): Monitor {
    NewMonitor(project, BulkAdd.IntervalOf(p.item.kind, interval), now)
  }

  function AppendAll(f: Fleet, project: ProjectId, interval: int, planned: seq<Planned>, now: int): Fleet {
    if planned == [] then f
    else
      var p := planned[|planned| - 1];
      Append(AppendAll(f, project, interval, planned[..|planned| - 1], now), p.id,
             PlannedMonitor(p, project, interval, now))
  }

  function Room(f: Fleet, limits: PlanLimits): nat {
    Max(limits.maxMonitors - |f.order|, 0)
  }

  /** The limit steps of bulk add: the interval check, and the plan cut to the room there is. */
  function AddPlanned(
    f: Fleet, limits: PlanLimits, project: ProjectId, interval: int, planned: seq<Planned>, now: int): Fleet
  {
    if interval < limits.minIntervalSeconds then f
    else AppendAll(f, project, interval, Take(planned, Room(f, limits)), now)
  }

  // ---- Runs under constant limits ------------------------------------------------------------------

  datatype Request =
    | NewProject(p: ProjectId)
    | Create(id: MonitorId, project: ProjectId, interval: int)
    | Bulk(project: ProjectId, interval: int, planned: seq<Planned>)
    | Pause(id: MonitorId)
    | Resume(id: MonitorId)
    | Edit(id: MonitorId, interval: int)
    | Delete(gone: seq<MonitorId>)
    | PlanRefit(reason: string)

  predicate FreshIds(f: Fleet, planned: seq<Planned>) {
    && (forall i :: 0 <= i < |planned| ==> planned[i].id !in f.rows)
    && (forall i, j :: 0 <= i < j < |planned| ==> planned[i].id != planned[j].id)
  }

  /** New rows get new keys, and a refit gives one of the two plan reasons. */
  predicate Enabled(f: Fleet, r: Request) {
    match r
    case NewProject(p) => p !in f.projects
    case Create(id, _, _) => id !in f.rows
    case Bulk(_, _, planned) => FreshIds(f, planned)
    case PlanRefit(reason) => IsPlanReason(reason)
    case _ => true
  }

  function Apply(f: Fleet, limits: PlanLimits, r: Request, now: int): Fleet {
    match r
    case NewProject(p) => f.(projects := f.projects + [p])
    case Create(id, project, interval) => CreateMonitor(f, limits, id, project, interval, now)
    case Bulk(project, interval, planned) => AddPlanned(f, limits, project, interval, planned, now)
    case Pause(id) => PauseMonitor(f, id)
    case Resume(id) => ResumeMonitor(f, limits, id, now)
    case Edit(id, interval) => EditInterval(f, limits, id, interval)
    case Delete(gone) => DeleteMonitors(f, gone)
    case PlanRefit(reason) => Refit(f, limits, reason, now)
  }

  datatype Timed = Timed(request: Request, at: int)

  /** `g` is reached from `f` by serving the requests one at a time. */
  ghost predicate Runs(f: Fleet, limits: PlanLimits, requests: seq<Timed>, g: Fleet)
    decreases |requests|
  {
    if requests == [] then g == f
    else && Enabled(f, requests[0].request)
         && Runs(Apply(f, limits, requests[0].request, requests[0].at), limits, requests[1..], g)
  }

  // ---- Running monitors stay within the limits ------------------------------------------------------

  /** A running row is checked no faster than the plan allows, and carries no pause reason. */
  predicate RowWithin(m: Monitor, limits: PlanLimits) {
    m.active ==> m.pausedReason == None && m.intervalSeconds >= limits.minIntervalSeconds
  }

  predicate RowsWithin(f: Fleet, limits: PlanLimits) {
    forall id :: id in f.rows ==> RowWithin(f.rows[id], limits)
  }

  /** No more monitors run than the plan allows. */
  predicate CountWithin(f: Fleet, limits: PlanLimits) {
    f.Valid() && |Running(f)| <= limits.maxMonitors
  }

  lemma CountAll(f: Fleet)
    requires f.Valid()
    ensures |Running(f)| <= |f.order|
  {
    ElementsOfDistinct(f.order);
    SubsetSize(Running(f), f.rows.Keys);
  }

  lemma AppendKeeps(f: Fleet, id: MonitorId, m: Monitor)
    requires f.Valid() && id !in f.rows
    ensures var g := Append(f, id, m);
            && g.Valid() && g.rows.Keys == f.rows.Keys + {id}
            && forall limits :: RowsWithin(f, limits) && RowWithin(m, limits) ==> RowsWithin(g, limits)
  {
    ElementsSnoc(f.order, id);
    forall i | 0 <= i < |f.order| ensures f.order[i] != id {
      assert f.order[i] in Elements(f.order);
    }
  }

  predicate Unplanned(planned: seq<Planned>, id: MonitorId) {
    forall i :: 0 <= i < |planned| ==> planned[i].id != id
  }

  lemma {:induction false} AppendAllKeeps(
    f: Fleet, limits: PlanLimits, project: ProjectId, interval: int, planned: seq<Planned>, now: int)
    requires f.Valid() && FreshIds(f, planned) && interval >= limits.minIntervalSeconds
    ensures var g := AppendAll(f, project, interval, planned, now);
            && g.Valid() && |g.order| == |f.order| + |planned|
            && (RowsWithin(f, limits) ==> RowsWithin(g, limits))
            && forall id :: id !in f.rows && Unplanned(planned, id) ==> id !in g.rows
  {
    if planned != [] {
      var n := |planned| - 1;
      var init, p := planned[..n], planned[n];
      assert FreshIds(f, init);
      AppendAllKeeps(f, limits, project, interval, init, now);
      forall i | 0 <= i < |init| ensures init[i].id != p.id {
        assert planned[i].id != planned[n].id;
      }
      assert Unplanned(init, p.id) && p.id !in f.rows;
      AppendKeeps(AppendAll(f, project, interval, init, now), p.id, PlannedMonitor(p, project, interval, now));
    }
  }

  lemma DeleteKeeps(f: Fleet, gone: seq<MonitorId>)
    requires f.Valid()
    ensures var g := DeleteMonitors(f, gone); g.Valid() && |Running(g)| <= |Running(f)|
  {
    var g := DeleteMonitors(f, gone);
    SubsetSize(Running(g), Running(f));
    forall id ensures id in Elements(g.order) <==> id in g.rows {
      assert id in Elements(f.order) <==> id in f.rows;
    }
  }

  lemma RefitKeepsRows(f: Fleet, limits: PlanLimits, reason: string, now: int)
    requires f.Valid() && RowsWithin(f, limits) && IsPlanReason(reason)
    ensures RowsWithin(Refit(f, limits, reason, now), limits)
  {
    var g := Refit(f, limits, reason, now);
    forall id | id in g.rows ensures RowWithin(g.rows[id], limits) {
      RefitRowKind(f, limits, reason, now, id);
      RefitRowInterval(f, limits, reason, now, id);
    }
  }

  lemma OneRowKeeps(f: Fleet, limits: PlanLimits, id: MonitorId, m: Monitor)
    requires CountWithin(f, limits) && id in f.rows
    requires m.active ==> f.rows[id].active || |Running(f)| < limits.maxMonitors
    ensures CountWithin(f.(rows := f.rows[id := m]), limits)
  {
    var g := f.(rows := f.rows[id := m]);
    assert g.rows.Keys == f.rows.Keys;
    if m.active {
      assert Running(g) == Running(f) + {id};
    } else {
      assert Running(g) == Running(f) - {id};
    }
  }

  lemma BulkKeepsCount(f: Fleet, limits: PlanLimits, project: ProjectId, interval: int, planned: seq<Planned>, now: int)
    requires CountWithin(f, limits) && FreshIds(f, planned)
    ensures CountWithin(AddPlanned(f, limits, project, interval, planned, now), limits)
  {
    if interval >= limits.minIntervalSeconds {
      var made := Take(planned, Room(f, limits));
      AppendAllKeeps(f, limits, project, interval, made, now);
      var g := AppendAll(f, project, interval, made, now);
      if made == [] {
        assert g == f;
      } else {
        CountAll(g);
      }
    }
  }

  /** The count alone, from any state that has it, whatever the intervals of its monitors. */
  lemma RequestKeepsCount(f: Fleet, limits: PlanLimits, r: Request, now: int)
    requires CountWithin(f, limits) && Enabled(f, r)
    ensures CountWithin(Apply(f, limits, r, now), limits)
  {
    match r {
      case NewProject(p) =>
        assert Running(f.(projects := f.projects + [p])) == Running(f);
      case Create(id, project, interval) =>
        if CreateReplyOf(f, limits, interval).Created? {
          AppendKeeps(f, id, NewMonitor(project, interval, now));
          CountAll(Append(f, id, NewMonitor(project, interval, now)));
        }
      case Bulk(project, interval, planned) => BulkKeepsCount(f, limits, project, interval, planned, now);
      case Pause(id) =>
        if id in f.rows {
          OneRowKeeps(f, limits, id, f.rows[id].(active := false, pausedReason := None));
        }
      case Resume(id) =>
        if ResumeReplyOf(f, limits, id).Resumed? {
          OneRowKeeps(f, limits, id, ResumedRow(f.rows[id], limits, now));
        }
      case Edit(id, interval) =>
        if id in f.rows && interval >= limits.minIntervalSeconds {
          OneRowKeeps(f, limits, id, f.rows[id].(intervalSeconds := interval));
        }
      case Delete(gone) => DeleteKeeps(f, gone);
      case PlanRefit(reason) => RefitWithinLimit(f, limits, reason, now);
    }
  }

  lemma RequestKeepsValid(f: Fleet, limits: PlanLimits, r: Request, now: int)
    requires f.Valid() && Enabled(f, r)
    ensures Apply(f, limits, r, now).Valid()
  {
    match r {
      case Create(id, project, interval) => AppendKeeps(f, id, NewMonitor(project, interval, now));
      case Bulk(project, interval, planned) =>
        if interval >= limits.minIntervalSeconds {
          AppendAllKeeps(f, limits, project, interval, Take(planned, Room(f, limits)), now);
        }
      case Pause(id) => assert Apply(f, limits, r, now).rows.Keys == f.rows.Keys;
      case Resume(id) => assert Apply(f, limits, r, now).rows.Keys == f.rows.Keys;
      case Edit(id, interval) => assert Apply(f, limits, r, now).rows.Keys == f.rows.Keys;
      case Delete(gone) => DeleteKeeps(f, gone);
      case _ =>
    }
  }

  /** The intervals alone, whatever the count. */
  lemma RequestKeepsIntervals(f: Fleet, limits: PlanLimits, r: Request, now: int)
    requires f.Valid() && RowsWithin(f, limits) && Enabled(f, r)
    ensures RowsWithin(Apply(f, limits, r, now), limits)
  {
    match r {
      case Create(id, project, interval) => AppendKeeps(f, id, NewMonitor(project, interval, now));
      case Bulk(project, interval, planned) =>
        if interval >= limits.minIntervalSeconds {
          AppendAllKeeps(f, limits, project, interval, Take(planned, Room(f, limits)), now);
        }
      case PlanRefit(reason) => RefitKeepsRows(f, limits, reason, now);
      case _ =>
    }
  }

  /**
   * Under constant limits no sequence of requests gets more monitors running than the plan allows, although
   * creating counts every monitor and resuming only the running ones.
   */
  lemma {:induction false} LimitsHoldOverRuns(f: Fleet, limits: PlanLimits, requests: seq<Timed>, g: Fleet)
    requires CountWithin(f, limits) && Runs(f, limits, requests, g)
    ensures CountWithin(g, limits)
    decreases |requests|
  {
    if requests != [] {
      RequestKeepsCount(f, limits, requests[0].request, requests[0].at);
      LimitsHoldOverRuns(Apply(f, limits, requests[0].request, requests[0].at), limits, requests[1..], g);
    }
  }

  /** Nor does one get a monitor running faster than the plan allows, if none was. */
  lemma {:induction false} IntervalsHoldOverRuns(f: Fleet, limits: PlanLimits, requests: seq<Timed>, g: Fleet)
    requires f.Valid() && RowsWithin(f, limits) && Runs(f, limits, requests, g)
    ensures g.Valid() && RowsWithin(g, limits)
    decreases |requests|
  {
    if requests != [] {
      RequestKeepsValid(f, limits, requests[0].request, requests[0].at);
      RequestKeepsIntervals(f, limits, requests[0].request, requests[0].at);
      IntervalsHoldOverRuns(Apply(f, limits, requests[0].request, requests[0].at), limits, requests[1..], g);
    }
  }

  /** A user's pause outlives every refit: only a resume brings the monitor back. */
  lemma {:induction false} UserPauseOutlivesRefits(
    f: Fleet, id: MonitorId, fits: seq<PlanLimits>, reason: string, now: int)
    requires f.Valid() && id in f.rows && IsPlanReason(reason)
    ensures var g := RefitAll(PauseMonitor(f, id), fits, reason, now);
            id in g.rows && g.rows[id] == PauseMonitor(f, id).rows[id] && !g.rows[id].active
  {
    var paused := PauseMonitor(f, id);
    assert paused.rows.Keys == f.rows.Keys;
    StaysPaused(paused, id, fits, reason, now);
  }

  function RefitAll(f: Fleet, fits: seq<PlanLimits>, reason: string, now: int): Fleet {
    if fits == [] then f else Refit(RefitAll(f, fits[..|fits| - 1], reason, now), fits[|fits| - 1], reason, now)
  }

  lemma {:induction false} StaysPaused(f: Fleet, id: MonitorId, fits: seq<PlanLimits>, reason: string, now: int)
    requires f.Valid() && IsPlanReason(reason)
    requires id in f.rows && !f.rows[id].active && f.rows[id].pausedReason == None
    ensures var g := RefitAll(f, fits, reason, now); g.Valid() && id in g.rows && g.rows[id] == f.rows[id]
  {
    if fits != [] {
      var n := |fits| - 1;
      StaysPaused(f, id, fits[..n], reason, now);
      var g := RefitAll(f, fits[..n], reason, now);
      RefitPreserves(g, fits[n], reason, now);
      var h := Refit(g, fits[n], reason, now);
      assert RowPreserved(g.rows[id], h.rows[id], fits[n]);
    }
  }

  // ---- What single requests do -----------------------------------------------------------------------

  /** The plan covers project `p`: it is among the oldest, as many as the plan has. */
  predicate Covered(f: Fleet, limits: PlanLimits, p: ProjectId) {
    exists i :: 0 <= i < |f.projects| && f.projects[i] == p
                && (limits.maxProjects.Some? ==> i < limits.maxProjects.value)
  }

  /**
   * A monitor is created exactly if the account has fewer monitors, running or not, than the plan allows
   * and the interval is no less than its minimum. It runs at that interval from now on.
   */
  lemma CreatedIff(f: Fleet, limits: PlanLimits, id: MonitorId, project: ProjectId, interval: int, now: int)
    requires f.Valid() && id !in f.rows
    ensures var reply, g := CreateReplyOf(f, limits, interval), CreateMonitor(f, limits, id, project, interval, now);
            && (reply == Created <==> |f.rows| < limits.maxMonitors && limits.minIntervalSeconds <= interval)
            && (reply == IntervalTooShort <==> |f.rows| < limits.maxMonitors && interval < limits.minIntervalSeconds)
            && (reply == MonitorLimitReached <==> |f.rows| >= limits.maxMonitors)
            && (id in g.rows <==> reply == Created)
            && (reply == Created ==> g.rows[id] == Monitor(project, true, None, interval, Some(now)))
            && (forall x :: x in f.rows ==> x in g.rows && g.rows[x] == f.rows[x])
            && g.rows.Keys <= f.rows.Keys + {id}
  {
    ElementsOfDistinct(f.order);
    assert |f.rows.Keys| == |f.rows|;
  }

  /**
   * A paused monitor resumes exactly if the plan covers its project and fewer monitors run than it allows;
   * then it runs from now on, at its own interval or the plan minimum if that is more. A running one is
   * only checked at once.
   */
  lemma ResumedIff(f: Fleet, limits: PlanLimits, id: MonitorId, now: int)
    requires id in f.rows
    ensures var before, reply, g := f.rows[id], ResumeReplyOf(f, limits, id), ResumeMonitor(f, limits, id, now);
            && (reply == Resumed <==> before.active || (Covered(f, limits, before.project)
                                                        && |Running(f)| < limits.maxMonitors))
            && (reply == ProjectNotCovered <==> !before.active && !Covered(f, limits, before.project))
            && (reply != Resumed ==> g == f)
            && g.rows.Keys == f.rows.Keys && (forall x :: x in f.rows && x != id ==> g.rows[x] == f.rows[x])
            && (reply == Resumed ==>
                  && g.rows[id].active && g.rows[id].pausedReason == None && g.rows[id].nextCheckAt == Some(now)
                  && g.rows[id].project == before.project
                  && g.rows[id].intervalSeconds
                     == (if !before.active && before.intervalSeconds < limits.minIntervalSeconds
                         then limits.minIntervalSeconds else before.intervalSeconds))
  {
    var allowed, p := Allowed(f.projects, limits), f.rows[id].project;
    if p in allowed {
      var i :| 0 <= i < |allowed| && allowed[i] == p;
      assert f.projects[i] == p;
    }
    if Covered(f, limits, p) {
      var i :| 0 <= i < |f.projects| && f.projects[i] == p
               && (limits.maxProjects.Some? ==> i < limits.maxProjects.value);
      assert allowed[i] == p;
    }
  }

  /** An interval is changed exactly if it is no less than the plan minimum; a pause and a delete always work. */
  lemma EditPauseDelete(f: Fleet, limits: PlanLimits, id: MonitorId, interval: int, gone: seq<MonitorId>)
    requires id in f.rows
    ensures EditInterval(f, limits, id, interval)
            == f.(rows := f.rows[id := f.rows[id].(intervalSeconds := if limits.minIntervalSeconds <= interval
                                                                      then interval
                                                                      else f.rows[id].intervalSeconds)])
    ensures PauseMonitor(f, id) == f.(rows := f.rows[id := f.rows[id].(active := false, pausedReason := None)])
    ensures id in DeleteMonitors(f, gone).rows <==> id !in gone
    ensures id !in gone ==> DeleteMonitors(f, gone).rows[id] == f.rows[id]
  {
    assert f.rows[id := f.rows[id]] == f.rows;
  }

  lemma {:induction false} AppendAllRows(
    f: Fleet, project: ProjectId, interval: int, planned: seq<Planned>, now: int, i: nat)
    requires FreshIds(f, planned) && i < |planned|
    ensures var g := AppendAll(f, project, interval, planned, now);
            && planned[i].id in g.rows
            && g.rows[planned[i].id] == PlannedMonitor(planned[i], project, interval, now)
  {
    if i < |planned| - 1 {
      AppendAllRows(f, project, interval, planned[..|planned| - 1], now, i);
    }
  }

  /**
   * Bulk add creates as many of the planned monitors as the account has room for, the first ones, and none
   * at an interval below the plan minimum; an HTTP monitor is checked at the interval asked for, an SSL
   * monitor at least an hour apart.
   */
  lemma BulkAddsWhatFits(
    f: Fleet, limits: PlanLimits, project: ProjectId, interval: int, planned: seq<Planned>, now: int, i: nat)
    requires f.Valid() && FreshIds(f, planned) && i < |planned|
    ensures var g, id := AddPlanned(f, limits, project, interval, planned, now), planned[i].id;
            && (id in g.rows <==> limits.minIntervalSeconds <= interval && |f.rows| + i < limits.maxMonitors)
            && (id in g.rows ==>
                  && g.rows[id].active && g.rows[id].project == project
                  && g.rows[id].intervalSeconds
                     == if planned[i].item.kind == BulkAdd.Ssl && interval < 3600 then 3600 else interval)
  {
    ElementsOfDistinct(f.order);
    assert |f.rows.Keys| == |f.rows|;
    if interval >= limits.minIntervalSeconds {
      var made := Take(planned, Room(f, limits));
      if i < |made| {
        AppendAllRows(f, project, interval, made, now, i);
      } else {
        assert Unplanned(made, planned[i].id);
        AppendAllKeeps(f, limits, project, interval, made, now);
      }
    }
  }

  // ---- The routes on the table -----------------------------------------------------------------------

  /** A user's projects and monitors, changed by one request at a time. */
  class MonitorTable {
    var projects: seq<ProjectId>
    var order: seq<MonitorId>
    var rows: map<MonitorId, Monitor>

    function View(): Fleet
      reads this
    {
      Fleet(projects, order, rows)
    }

    constructor (projects: seq<ProjectId>)
      requires Distinct(projects)
      ensures View() == Fleet(projects, [], map[]) && View().Valid()
    {
      this.projects, order, rows := projects, [], map[];
    }

    /** create_monitor_submit; `objection` is what the field validators or the duplicate-name check raise first. */
    method Create(
      limits: PlanLimits, id: MonitorId, project: ProjectId, interval: int, now: int, objection: Option<string>)
      returns (reply: CreateReply)
      modifies this`order, this`rows
      ensures objection.Some? ==> reply == Refused(objection.value) && View() == old(View())
      ensures objection == None ==>
                && reply == CreateReplyOf(old(View()), limits, interval)
                && View() == CreateMonitor(old(View()), limits, id, project, interval, now)
    {
      if objection.Some? {
        return Refused(objection.value);
      }
      if |order| >= limits.maxMonitors {
        return MonitorLimitReached;
      }
      if interval < limits.minIntervalSeconds {
        return IntervalTooShort;
      }
      order := order + [id];
      rows := rows[id := Monitor(project, true, None, interval, Some(now))];
      reply := Created;
    }

    /** pause_monitor_submit. */
    method Pause(id: MonitorId) returns (found: bool)
      modifies this`rows
      ensures found == (id in rows) && View() == PauseMonitor(old(View()), id)
    {
      found := id in rows;
      if found {
        var m := rows[id];
        m := m.(active := false);
        m := m.(pausedReason := None);
        rows := rows[id := m];
      }
    }

    /** resume_monitor_submit: an already running monitor is not checked against the limits again. */
    method Resume(limits: PlanLimits, id: MonitorId, now: int) returns (reply: ResumeReply)
      modifies this`rows
      ensures reply == ResumeReplyOf(old(View()), limits, id)
      ensures View() == ResumeMonitor(old(View()), limits, id, now)
    {
      if id !in rows {
        return NotFound;
      }
      var m := rows[id];
      if !m.active {
        if m.project !in Allowed(projects, limits) {
          return ProjectNotCovered;
        }
        if |Running(View())| >= limits.maxMonitors {
          return AllSlotsRunning;
        }
        m := m.(intervalSeconds := Max(m.intervalSeconds, limits.minIntervalSeconds));
      }
      m := m.(active := true, pausedReason := None, nextCheckAt := Some(now));
      rows := rows[id := m];
      reply := Resumed;
    }
  }
}
