/** fit_to_limits (app/services/trial.py:132-162) as a transformation of a fleet, and its algebra. */
module PlanFitting {
  import opened Common
  import opened Plans

  const RESUME_STAGGER_SECONDS := 2
  const RESUME_STAGGER_CAP := 120

  function ResumedBefore(run: seq<MonitorId>, rows: map<MonitorId, Monitor>, i: nat): nat
    requires i <= |run|
  {
    if i == 0 then 0
    else ResumedBefore(run, rows, i - 1) + if run[i - 1] in rows && !rows[run[i - 1]].active then 1 else 0
  }

  function IndexOf(run: seq<MonitorId>, id: MonitorId): (i: nat)
    requires id in run
    ensures i < |run| && run[i] == id
  {
    if run[0] == id then 0 else 1 + IndexOf(run[1..], id)
  }

  /** A monitor on the run list: interval raised to the minimum, and resumed if it was paused. */
  function KeptRow(row: Monitor, limits: PlanLimits, resumed: nat, now: int): Monitor {
    var raised := row.(intervalSeconds := Max(row.intervalSeconds, limits.minIntervalSeconds));
    if row.active then raised
    else raised.(active := true, pausedReason := None,
                 nextCheckAt := Some(now + Min(resumed * RESUME_STAGGER_SECONDS, RESUME_STAGGER_CAP)))
  }

  function PausedRow(row: Monitor, reason: string): Monitor {
    if row.active then row.(active := false, pausedReason := Some(reason)) else row
  }

  function RefitRow(f: Fleet, fit: Fit, limits: PlanLimits, reason: string, now: int, id: MonitorId): Monitor
    requires id in f.rows
  {
    if id in fit.run then KeptRow(f.rows[id], limits, ResumedBefore(fit.run, f.rows, IndexOf(fit.run, id)), now)
    else if id in fit.pause then PausedRow(f.rows[id], reason)
    else f.rows[id]
  }

  function Refit(f: Fleet, limits: PlanLimits, reason: string, now: int): Fleet {
    var fit := PlanFit(f, limits);
    f.(rows := map id | id in f.rows :: RefitRow(f, fit, limits, reason, now, id))
  }

  function Running(f: Fleet): set<MonitorId> {
    set id | id in f.rows && f.rows[id].active
  }

  // ---- A refit keeps the candidates ---------------------------------------------------------------

  lemma RefitRowKind(f: Fleet, limits: PlanLimits, reason: string, now: int, id: MonitorId)
    requires f.Valid() && IsPlanReason(reason) && id in f.rows
    ensures var row := RefitRow(f, PlanFit(f, limits), limits, reason, now, id);
            && row.project == f.rows[id].project
            && (Candidate(row) <==> Candidate(f.rows[id]))
            && (row.active <==> id in RunList(f, limits))
            && (!Candidate(f.rows[id]) ==> row == f.rows[id])
  {
    FitPartitions(f, limits);
    assert id in Elements(f.order);
  }

  lemma {:induction false} SameCandidates(
    order: seq<MonitorId>, rows: map<MonitorId, Monitor>, rows': map<MonitorId, Monitor>)
    requires rows.Keys == rows'.Keys && forall id :: id in rows ==> (Candidate(rows[id]) <==> Candidate(rows'[id]))
    ensures Candidates(order, rows) == Candidates(order, rows')
  {
    if order != [] {
      SameCandidates(order[..|order| - 1], rows, rows');
    }
  }

  lemma {:induction false} SameProject(f: Fleet, g: Fleet, ids: seq<MonitorId>, p: ProjectId)
    requires f.rows.Keys == g.rows.Keys && forall id :: id in f.rows ==> f.rows[id].project == g.rows[id].project
    ensures OfProject(f, ids, p) == OfProject(g, ids, p)
  {
    if ids != [] {
      SameProject(f, g, ids[..|ids| - 1], p);
    }
  }

  lemma {:induction false} SameGroups(f: Fleet, g: Fleet, allowed: seq<ProjectId>, ids: seq<MonitorId>)
    requires f.rows.Keys == g.rows.Keys && forall id :: id in f.rows ==> f.rows[id].project == g.rows[id].project
    ensures Grouped(f, allowed, ids) == Grouped(g, allowed, ids)
  {
    if allowed != [] {
      SameGroups(f, g, allowed[..|allowed| - 1], ids);
      SameProject(f, g, ids, allowed[|allowed| - 1]);
    }
  }

  /** After a refit to any limits, every further plan_fit makes the same choice as before it. */
  lemma RefitKeepsChoice(f: Fleet, limits: PlanLimits, reason: string, now: int, next: PlanLimits)
    requires f.Valid() && IsPlanReason(reason)
    ensures var g := Refit(f, limits, reason, now); g.Valid() && RunList(g, next) == RunList(f, next)
  {
    var g := Refit(f, limits, reason, now);
    forall id | id in f.rows
      ensures g.rows[id].project == f.rows[id].project && (Candidate(g.rows[id]) <==> Candidate(f.rows[id]))
    {
      RefitRowKind(f, limits, reason, now, id);
    }
    SameCandidates(f.order, f.rows, g.rows);
    RankedIsGrouped(f, next);
    RankedIsGrouped(g, next);
    SameGroups(f, g, Allowed(f.projects, next), Candidates(f.order, f.rows));
  }

  /** After a refit exactly the run list is running. */
  lemma RefitRunsTheRunList(f: Fleet, limits: PlanLimits, reason: string, now: int)
    requires f.Valid() && IsPlanReason(reason)
    ensures Running(Refit(f, limits, reason, now)) == Elements(RunList(f, limits))
  {
    var g := Refit(f, limits, reason, now);
    forall id | id in f.rows ensures g.rows[id].active <==> id in RunList(f, limits) {
      RefitRowKind(f, limits, reason, now, id);
    }
    FitPartitions(f, limits);
    forall id | id in RunList(f, limits) ensures id in f.rows {
      assert id in Candidates(f.order, f.rows);
    }
  }

  /**
   * Path independence: refitting to L1 and then to L2 leaves the same monitors running as fitting
   * straight to L2, whatever the plan reasons and the times.
   */
  lemma RefitPathIndependent(
    f: Fleet, l1: PlanLimits, reason1: string, t1: int, l2: PlanLimits, reason2: string, t2: int,
    reason: string, t: int)
    requires f.Valid() && IsPlanReason(reason1) && IsPlanReason(reason2) && IsPlanReason(reason)
    ensures Running(Refit(Refit(f, l1, reason1, t1), l2, reason2, t2)) == Running(Refit(f, l2, reason, t))
  {
    RefitKeepsChoice(f, l1, reason1, t1, l2);
    RefitRunsTheRunList(Refit(f, l1, reason1, t1), l2, reason2, t2);
    RefitRunsTheRunList(f, l2, reason, t);
  }

  /** A fleet that already runs its run list at allowed intervals is a fixed point, row by row. */
  lemma SettledRow(g: Fleet, limits: PlanLimits, reason: string, now: int, id: MonitorId)
    requires g.Valid() && id in g.rows && (g.rows[id].active <==> id in RunList(g, limits))
    requires id in RunList(g, limits) ==> limits.minIntervalSeconds <= g.rows[id].intervalSeconds
    ensures RefitRow(g, PlanFit(g, limits), limits, reason, now, id) == g.rows[id]
  {
  }

  lemma RefitRowInterval(f: Fleet, limits: PlanLimits, reason: string, now: int, id: MonitorId)
    requires id in f.rows
    ensures var row := RefitRow(f, PlanFit(f, limits), limits, reason, now, id);
            && f.rows[id].intervalSeconds <= row.intervalSeconds
            && (id in RunList(f, limits) ==> limits.minIntervalSeconds <= row.intervalSeconds)
  {
  }

  lemma RefitRowAgain(
    f: Fleet, limits: PlanLimits, reason: string, t1: int, g: Fleet, reason2: string, t2: int, id: MonitorId)
    requires f.Valid() && IsPlanReason(reason) && g == Refit(f, limits, reason, t1) && id in f.rows
    requires g.Valid() && RunList(g, limits) == RunList(f, limits)
    ensures RefitRow(g, PlanFit(g, limits), limits, reason2, t2, id) == g.rows[id]
  {
    assert g.rows[id] == RefitRow(f, PlanFit(f, limits), limits, reason, t1, id);
    RefitRowKind(f, limits, reason, t1, id);
    RefitRowInterval(f, limits, reason, t1, id);
    SettledRow(g, limits, reason2, t2, id);
  }

  /** Refitting to the same limits again changes nothing at all. */
  lemma RefitIdempotent(f: Fleet, limits: PlanLimits, reason: string, t1: int, reason2: string, t2: int)
    requires f.Valid() && IsPlanReason(reason) && IsPlanReason(reason2)
    ensures var g := Refit(f, limits, reason, t1); Refit(g, limits, reason2, t2) == g
  {
    var g := Refit(f, limits, reason, t1);
    RefitKeepsChoice(f, limits, reason, t1, limits);
    var again := Refit(g, limits, reason2, t2);
    forall id | id in g.rows ensures again.rows[id] == g.rows[id] {
      RefitRowAgain(f, limits, reason, t1, g, reason2, t2, id);
    }
    assert again.rows == g.rows;
  }

  /** What a refit may change in one row. */
  ghost predicate RowPreserved(before: Monitor, after: Monitor, limits: PlanLimits) {
    && after.project == before.project
    && (!before.active && before.pausedReason == None ==> after == before)
    && before.intervalSeconds <= after.intervalSeconds
    && (after.active ==> limits.minIntervalSeconds <= after.intervalSeconds)
  }

  /** Nothing is deleted or moved, user-paused monitors are untouched, and intervals only go up. */
  lemma RefitPreserves(f: Fleet, limits: PlanLimits, reason: string, now: int)
    requires f.Valid() && IsPlanReason(reason)
    ensures var g := Refit(f, limits, reason, now);
            && g.rows.Keys == f.rows.Keys && g.order == f.order && g.projects == f.projects
            && (forall id :: id in f.rows ==> RowPreserved(f.rows[id], g.rows[id], limits))
  {
    forall id | id in f.rows
      ensures RowPreserved(f.rows[id], RefitRow(f, PlanFit(f, limits), limits, reason, now, id), limits)
    {
      RefitRowKind(f, limits, reason, now, id);
      RefitRowInterval(f, limits, reason, now, id);
    }
  }

  /** A refit never leaves more running than the limit, and as many as it allows. */
  lemma RefitWithinLimit(f: Fleet, limits: PlanLimits, reason: string, now: int)
    requires f.Valid() && IsPlanReason(reason)
    ensures |Running(Refit(f, limits, reason, now))| == |RunList(f, limits)| <= limits.maxMonitors
  {
    RefitRunsTheRunList(f, limits, reason, now);
    RunListDistinct(f, limits);
    ElementsOfDistinct(RunList(f, limits));
  }

  lemma RunListDistinct(f: Fleet, limits: PlanLimits)
    requires f.Valid()
    ensures Distinct(RunList(f, limits))
  {
    AllowedDistinct(f.projects, limits);
    RankedIsGrouped(f, limits);
    GroupedDistinct(f, Allowed(f.projects, limits), Candidates(f.order, f.rows));
  }

  lemma {:induction false} OfProjectDistinct(f: Fleet, ids: seq<MonitorId>, p: ProjectId)
    requires Distinct(ids)
    ensures Distinct(OfProject(f, ids, p))
  {
    if ids != [] {
      var n := |ids| - 1;
      assert ids == ids[..n] + [ids[n]] && ids[n] !in ids[..n];
      OfProjectDistinct(f, ids[..n], p);
    }
  }

  lemma {:induction false} GroupedDistinct(f: Fleet, allowed: seq<ProjectId>, ids: seq<MonitorId>)
    requires Distinct(allowed) && Distinct(ids)
    ensures Distinct(Grouped(f, allowed, ids))
  {
    if allowed != [] {
      var n := |allowed| - 1;
      var head, last := Grouped(f, allowed[..n], ids), OfProject(f, ids, allowed[n]);
      GroupedDistinct(f, allowed[..n], ids);
      OfProjectDistinct(f, ids, allowed[n]);
      GroupedMembers(f, allowed[..n], ids);
      forall i, j | 0 <= i < |head| && 0 <= j < |last| ensures head[i] != last[j] {
        assert head[i] in head && last[j] in last;
      }
    }
  }

  /** What a refit makes of each row: columns not named here are as before. */
  lemma RefitRowExactly(f: Fleet, limits: PlanLimits, reason: string, now: int, id: MonitorId)
    requires f.Valid() && IsPlanReason(reason) && id in f.rows
    ensures var before, after := f.rows[id], Refit(f, limits, reason, now).rows[id];
            if id in RunList(f, limits) then
              && after.project == before.project && after.active
              && after.intervalSeconds == (if before.intervalSeconds < limits.minIntervalSeconds
                                           then limits.minIntervalSeconds else before.intervalSeconds)
              && (before.active ==> after.pausedReason == before.pausedReason
                                    && after.nextCheckAt == before.nextCheckAt)
              && (!before.active ==> after.pausedReason == None && after.nextCheckAt.Some?)
            else if before.active then after == before.(active := false, pausedReason := Some(reason))
            else after == before
  {
    FitPartitions(f, limits);
    assert id in Elements(f.order);
  }

  // ---- Resuming in turn ----------------------------------------------------------------------------

  lemma {:induction false} IndexOfAt(ids: seq<MonitorId>, i: nat)
    requires Distinct(ids) && i < |ids|
    ensures IndexOf(ids, ids[i]) == i
  {
    if i > 0 {
      assert Distinct(ids[1..]) && ids[0] != ids[i];
      IndexOfAt(ids[1..], i - 1);
    }
  }

  lemma {:induction false} ResumedInTurn(run: seq<MonitorId>, rows: map<MonitorId, Monitor>, i: nat, j: nat)
    requires i < j <= |run| && run[i] in rows && !rows[run[i]].active
    ensures ResumedBefore(run, rows, i) < ResumedBefore(run, rows, j)
    decreases j
  {
    if i < j - 1 {
      ResumedInTurn(run, rows, i, j - 1);
    }
  }

  /** The positions before `i` of the monitors on the list that are not running. */
  function IdleBefore(run: seq<MonitorId>, rows: map<MonitorId, Monitor>, i: nat): set<nat>
    requires i <= |run|
  {
    set j: nat | j < i && run[j] in rows && !rows[run[j]].active
  }

  lemma {:induction false} ResumedBeforeCounts(run: seq<MonitorId>, rows: map<MonitorId, Monitor>, i: nat)
    requires i <= |run|
    ensures ResumedBefore(run, rows, i) == |IdleBefore(run, rows, i)|
  {
    if i == 0 {
      assert IdleBefore(run, rows, 0) == {};
    } else {
      ResumedBeforeCounts(run, rows, i - 1);
      var before := IdleBefore(run, rows, i - 1);
      assert IdleBefore(run, rows, i)
          == before + if run[i - 1] in rows && !rows[run[i - 1]].active then {i - 1} else {};
    }
  }

  lemma ResumedRowAt(f: Fleet, fit: Fit, limits: PlanLimits, reason: string, now: int, i: nat)
    requires Distinct(fit.run) && i < |fit.run| && fit.run[i] in f.rows && !f.rows[fit.run[i]].active
    ensures RefitRow(f, fit, limits, reason, now, fit.run[i]).nextCheckAt
            == Some(now + Min(2 * |IdleBefore(fit.run, f.rows, i)|, 120))
  {
    IndexOfAt(fit.run, i);
    ResumedBeforeCounts(fit.run, f.rows, i);
  }

  /** The k-th monitor to be resumed is first checked 2(k - 1) seconds from now, or two minutes if that is less. */
  lemma ResumedAtItsTurn(f: Fleet, limits: PlanLimits, reason: string, now: int, run: seq<MonitorId>, i: nat)
    requires f.Valid() && run == RunList(f, limits)
    requires i < |run| && run[i] in f.rows && !f.rows[run[i]].active
    ensures Refit(f, limits, reason, now).rows[run[i]].nextCheckAt
            == Some(now + Min(2 * |IdleBefore(run, f.rows, i)|, 120))
  {
    RunListDistinct(f, limits);
    ResumedRowAt(f, PlanFit(f, limits), limits, reason, now, i);
  }

  /**
   * Resumed monitors start in run-list order, no two at the same moment before the cap of two minutes is
   * reached.
   */
  lemma ResumesAreStaggered(f: Fleet, limits: PlanLimits, reason: string, now: int, i: nat, j: nat)
    requires f.Valid() && i < j < |RunList(f, limits)|
    requires var run := RunList(f, limits);
             run[i] in f.rows && run[j] in f.rows && !f.rows[run[i]].active && !f.rows[run[j]].active
    ensures var run, g := RunList(f, limits), Refit(f, limits, reason, now);
            var first, second := g.rows[run[i]].nextCheckAt, g.rows[run[j]].nextCheckAt;
            && first.Some? && second.Some?
            && now <= first.value <= second.value <= now + 120
            && (first.value == second.value ==> first.value == now + 120)
  {
    var run := RunList(f, limits);
    RunListDistinct(f, limits);
    IndexOfAt(run, i);
    IndexOfAt(run, j);
    ResumedInTurn(run, f.rows, i, j);
  }
}
