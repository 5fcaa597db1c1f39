/** app/services/plans.py and the selection rule plan_fit of app/services/trial.py. */
module Plans {
  import opened Common

  type ProjectId = nat

  datatype PlanType = Free | Starter | Pro

  /** `maxProjects` None means unlimited. */
  datatype PlanLimits = PlanLimits(maxProjects: Option<nat>, maxMonitors: nat, minIntervalSeconds: int)

  function PlanLimitsOf(plan: PlanType): PlanLimits {
    match plan
    case Free => PlanLimits(Some(1), 3, 300)
    case Starter => PlanLimits(Some(10), 40, 60)
    case Pro => PlanLimits(Some(50), 200, 30)
  }

  const TRIAL_DAYS := 14
  const TRIAL_LIMITS := PlanLimits(Some(50), 100, 60)

  const PAUSED_TRIAL_ENDED := "trial_ended"
  const PAUSED_PLAN_LIMIT := "plan_limit"

  predicate IsPlanReason(reason: string) {
    reason == PAUSED_TRIAL_ENDED || reason == PAUSED_PLAN_LIMIT
  }

  datatype Monitor = Monitor(
    project: ProjectId, active: bool, pausedReason: Option<string>, intervalSeconds: int, nextCheckAt: Option<int>)

  /** A user's projects and monitors, both oldest first, as `_load` returns them. */
  datatype Fleet = Fleet(projects: seq<ProjectId>, order: seq<MonitorId>, rows: map<MonitorId, Monitor>) {
    predicate Valid() {
      Distinct(projects) && Distinct(order) && Elements(order) == rows.Keys
    }
  }

  // ---- plan_fit ------------------------------------------------------------------------------------

  /** Python's `xs[:n]`. */
  function Take<T>(xs: seq<T>, n: nat): seq<T> {
    if n < |xs| then xs[..n] else xs
  }

  function Allowed(projects: seq<ProjectId>, limits: PlanLimits): seq<ProjectId> {
    match limits.maxProjects
    case None => projects
    case Some(n) => Take(projects, n)
  }

  /** Running, or paused by the plan; a monitor its user paused is not a candidate. */
  predicate Candidate(m: Monitor) {
    m.active || (m.pausedReason.Some? && IsPlanReason(m.pausedReason.value))
  }

  /** Monitors the plan decides about, oldest first. */
  function Candidates(order: seq<MonitorId>, rows: map<MonitorId, Monitor>): (ids: seq<MonitorId>)
    ensures forall id :: id in ids <==> id in order && id in rows && Candidate(rows[id])
    ensures Distinct(order) ==> Distinct(ids)
  {
    if order == [] then []
    else
      var n := |order| - 1;
      assert order == order[..n] + [order[n]];
      Candidates(order[..n], rows)
      + if order[n] in rows && Candidate(rows[order[n]]) then [order[n]] else []
  }

  /** The monitors of `ids` whose project is in `allowed`, in the same order. */
  function InProjects(f: Fleet, ids: seq<MonitorId>, allowed: seq<ProjectId>): seq<MonitorId> {
    if ids == [] then []
    else
      var n := |ids| - 1;
      InProjects(f, ids[..n], allowed)
      + if ids[n] in f.rows && f.rows[ids[n]].project in allowed then [ids[n]] else []
  }

  function Without(ids: seq<MonitorId>, gone: seq<MonitorId>): (kept: seq<MonitorId>)
    ensures forall id :: id in kept <==> id in ids && id !in gone
    ensures Distinct(ids) ==> Distinct(kept)
  {
    if ids == [] then []
    else
      var n := |ids| - 1;
      assert ids == ids[..n] + [ids[n]];
      Without(ids[..n], gone) + if ids[n] in gone then [] else [ids[n]]
  }

  function Rank(projects: seq<ProjectId>, p: ProjectId): (i: nat)
    ensures p in projects ==> i < |projects| && projects[i] == p
  {
    if projects == [] || projects[0] == p then 0 else 1 + Rank(projects[1..], p)
  }

  function RankOf(f: Fleet, allowed: seq<ProjectId>, id: MonitorId): nat {
    if id in f.rows then Rank(allowed, f.rows[id].project) else 0
  }

  /** Insert `x` after every element of the same or a lower rank. */
  function Insert(f: Fleet, allowed: seq<ProjectId>, sorted: seq<MonitorId>, x: MonitorId): seq<MonitorId> {
    if sorted == [] then [x]
    else
      var n := |sorted| - 1;
      if RankOf(f, allowed, sorted[n]) <= RankOf(f, allowed, x) then sorted + [x]
      else Insert(f, allowed, sorted[..n], x) + [sorted[n]]
  }

  /** A stable sort by project rank. */
  function StableSort(f: Fleet, allowed: seq<ProjectId>, xs: seq<MonitorId>): seq<MonitorId> {
    if xs == [] then [] else Insert(f, allowed, StableSort(f, allowed, xs[..|xs| - 1]), xs[|xs| - 1])
  }

  /** The candidates in allowed projects, by project rank and then by age. */
  function Ranked(f: Fleet, limits: PlanLimits): seq<MonitorId> {
    var allowed := Allowed(f.projects, limits);
    StableSort(f, allowed, InProjects(f, Candidates(f.order, f.rows), allowed))
  }

  datatype Fit = Fit(run: seq<MonitorId>, pause: seq<MonitorId>)

  function RunList(f: Fleet, limits: PlanLimits): seq<MonitorId> {
    Take(Ranked(f, limits), limits.maxMonitors)
  }

  function PlanFit(f: Fleet, limits: PlanLimits): Fit {
    var run := RunList(f, limits);
    Fit(run, Without(Candidates(f.order, f.rows), run))
  }

  // ---- The sort as a concatenation of projects ------------------------------------------------

  function OfProject(f: Fleet, ids: seq<MonitorId>, p: ProjectId): (mine: seq<MonitorId>)
    ensures forall id :: id in mine <==> id in ids && id in f.rows && f.rows[id].project == p
  {
    if ids == [] then []
    else
      var n := |ids| - 1;
      assert ids == ids[..n] + [ids[n]];
      OfProject(f, ids[..n], p) + if ids[n] in f.rows && f.rows[ids[n]].project == p then [ids[n]] else []
  }

  /** Project by project, oldest project first, oldest monitor first within each. */
  function Grouped(f: Fleet, allowed: seq<ProjectId>, ids: seq<MonitorId>): seq<MonitorId> {
    if allowed == [] then []
    else Grouped(f, allowed[..|allowed| - 1], ids) + OfProject(f, ids, allowed[|allowed| - 1])
  }

  lemma {:induction false} GroupedMembers(f: Fleet, allowed: seq<ProjectId>, ids: seq<MonitorId>)
    ensures forall id :: id in Grouped(f, allowed, ids) <==> id in ids && id in f.rows && f.rows[id].project in allowed
  {
    if allowed != [] {
      var n := |allowed| - 1;
      GroupedMembers(f, allowed[..n], ids);
      assert allowed == allowed[..n] + [allowed[n]];
    }
  }

  lemma {:induction false} GroupedSplit(f: Fleet, a: seq<ProjectId>, b: seq<ProjectId>, ids: seq<MonitorId>)
    ensures Grouped(f, a + b, ids) == Grouped(f, a, ids) + Grouped(f, b, ids)
  {
    if b == [] {
      assert a + b == a;
    } else {
      var n := |b| - 1;
      GroupedSplit(f, a, b[..n], ids);
      assert (a + b)[..|a| + n] == a + b[..n];
    }
  }

  lemma OfProjectSnoc(f: Fleet, ids: seq<MonitorId>, x: MonitorId, p: ProjectId)
    ensures OfProject(f, ids + [x], p)
            == OfProject(f, ids, p) + if x in f.rows && f.rows[x].project == p then [x] else []
  {
    assert (ids + [x])[..|ids|] == ids;
  }

  lemma {:induction false} GroupedWithout(f: Fleet, allowed: seq<ProjectId>, ids: seq<MonitorId>, x: MonitorId)
    requires x !in f.rows || f.rows[x].project !in allowed
    ensures Grouped(f, allowed, ids + [x]) == Grouped(f, allowed, ids)
  {
    if allowed != [] {
      var n := |allowed| - 1;
      assert allowed == allowed[..n] + [allowed[n]];
      GroupedWithout(f, allowed[..n], ids, x);
      OfProjectSnoc(f, ids, x, allowed[n]);
    }
  }

  lemma GroupedLastSnoc(f: Fleet, head: seq<ProjectId>, ids: seq<MonitorId>, x: MonitorId)
    requires head != [] && x in f.rows
    requires f.rows[x].project == head[|head| - 1] && f.rows[x].project !in head[..|head| - 1]
    ensures Grouped(f, head, ids + [x]) == Grouped(f, head, ids) + [x]
  {
    GroupedWithout(f, head[..|head| - 1], ids, x);
    OfProjectSnoc(f, ids, x, head[|head| - 1]);
  }

  /** A new youngest monitor goes to the end of its project's group. */
  lemma GroupedSnoc(f: Fleet, head: seq<ProjectId>, tail: seq<ProjectId>, ids: seq<MonitorId>, x: MonitorId)
    requires Distinct(head + tail) && x in f.rows && head != [] && head[|head| - 1] == f.rows[x].project
    ensures Grouped(f, head + tail, ids) == Grouped(f, head, ids) + Grouped(f, tail, ids)
    ensures Grouped(f, head + tail, ids + [x]) == Grouped(f, head, ids) + [x] + Grouped(f, tail, ids)
  {
    var all, n, p := head + tail, |head| - 1, f.rows[x].project;
    assert all[n] == p;
    GroupedSplit(f, head, tail, ids);
    GroupedSplit(f, head, tail, ids + [x]);
    forall k | 0 <= k < n ensures head[..n][k] != p {
      assert all[k] == head[k];
    }
    GroupedLastSnoc(f, head, ids, x);
    forall k | 0 <= k < |tail| ensures tail[k] != p {
      assert all[|head| + k] == tail[k];
    }
    GroupedWithout(f, tail, ids, x);
  }

  lemma {:induction false} RankOfIndex(projects: seq<ProjectId>, i: nat)
    requires Distinct(projects) && i < |projects|
    ensures Rank(projects, projects[i]) == i
  {
    if i > 0 {
      assert Distinct(projects[1..]);
      RankOfIndex(projects[1..], i - 1);
    }
  }

  lemma {:induction false} InsertBetween(
    f: Fleet, allowed: seq<ProjectId>, a: seq<MonitorId>, b: seq<MonitorId>, x: MonitorId)
    requires forall i :: 0 <= i < |a| ==> RankOf(f, allowed, a[i]) <= RankOf(f, allowed, x)
    requires forall i :: 0 <= i < |b| ==> RankOf(f, allowed, x) < RankOf(f, allowed, b[i])
    ensures Insert(f, allowed, a + b, x) == a + [x] + b
  {
    if b == [] {
      assert a + b == a;
    } else {
      var n := |b| - 1;
      InsertBetween(f, allowed, a, b[..n], x);
      assert (a + b)[..|a| + n] == a + b[..n];
      assert a + [x] + b == (a + [x] + b[..n]) + [b[n]];
    }
  }

  /** In a split project list, the members of the first part rank below those of the second. */
  lemma RanksOfHead(f: Fleet, head: seq<ProjectId>, tail: seq<ProjectId>, ids: seq<MonitorId>)
    requires Distinct(head + tail)
    ensures var g := Grouped(f, head, ids);
            forall j :: 0 <= j < |g| ==> RankOf(f, head + tail, g[j]) < |head|
  {
    var g := Grouped(f, head, ids);
    GroupedMembers(f, head, ids);
    forall j | 0 <= j < |g| ensures RankOf(f, head + tail, g[j]) < |head| {
      assert g[j] in g;
      var k :| 0 <= k < |head| && head[k] == f.rows[g[j]].project;
      assert (head + tail)[k] == head[k];
      RankOfIndex(head + tail, k);
    }
  }

  lemma RanksOfTail(f: Fleet, head: seq<ProjectId>, tail: seq<ProjectId>, ids: seq<MonitorId>)
    requires Distinct(head + tail)
    ensures var g := Grouped(f, tail, ids);
            forall j :: 0 <= j < |g| ==> |head| <= RankOf(f, head + tail, g[j])
  {
    var g := Grouped(f, tail, ids);
    GroupedMembers(f, tail, ids);
    forall j | 0 <= j < |g| ensures |head| <= RankOf(f, head + tail, g[j]) {
      assert g[j] in g;
      var k :| 0 <= k < |tail| && tail[k] == f.rows[g[j]].project;
      assert (head + tail)[|head| + k] == tail[k];
      RankOfIndex(head + tail, |head| + k);
    }
  }

  lemma InsertAtGroup(f: Fleet, head: seq<ProjectId>, tail: seq<ProjectId>, ids: seq<MonitorId>, x: MonitorId)
    requires Distinct(head + tail) && x in f.rows && head != [] && head[|head| - 1] == f.rows[x].project
    ensures Insert(f, head + tail, Grouped(f, head + tail, ids), x) == Grouped(f, head + tail, ids + [x])
  {
    GroupedSnoc(f, head, tail, ids, x);
    RanksOfHead(f, head, tail, ids);
    RanksOfTail(f, head, tail, ids);
    assert (head + tail)[|head| - 1] == f.rows[x].project;
    RankOfIndex(head + tail, |head| - 1);
    InsertBetween(f, head + tail, Grouped(f, head, ids), Grouped(f, tail, ids), x);
  }

  lemma SortOneMore(f: Fleet, allowed: seq<ProjectId>, ids: seq<MonitorId>, x: MonitorId)
    requires Distinct(allowed) && x in f.rows && f.rows[x].project in allowed
    ensures Insert(f, allowed, Grouped(f, allowed, ids), x) == Grouped(f, allowed, ids + [x])
  {
    var i := RankOf(f, allowed, x);
    assert allowed == allowed[..i + 1] + allowed[i + 1..];
    InsertAtGroup(f, allowed[..i + 1], allowed[i + 1..], ids, x);
  }

  lemma {:induction false} SortIsGrouping(f: Fleet, allowed: seq<ProjectId>, ids: seq<MonitorId>)
    requires Distinct(allowed)
    ensures StableSort(f, allowed, InProjects(f, ids, allowed)) == Grouped(f, allowed, ids)
  {
    if ids == [] {
      NothingGrouped(f, allowed);
    } else {
      var n := |ids| - 1;
      var init, x := ids[..n], ids[n];
      assert ids == init + [x];
      SortIsGrouping(f, allowed, init);
      var before := InProjects(f, init, allowed);
      if x in f.rows && f.rows[x].project in allowed {
        SortOneMore(f, allowed, init, x);
        assert (before + [x])[..|before|] == before;
      } else {
        assert InProjects(f, ids, allowed) == before;
        GroupedWithout(f, allowed, init, x);
      }
    }
  }

  lemma {:induction false} NothingGrouped(f: Fleet, allowed: seq<ProjectId>)
    ensures Grouped(f, allowed, []) == []
  {
    if allowed != [] {
      NothingGrouped(f, allowed[..|allowed| - 1]);
    }
  }

  // ---- What plan_fit guarantees ---------------------------------------------------------------

  predicate AtMost(a: PlanLimits, b: PlanLimits) {
    && a.maxMonitors <= b.maxMonitors
    && match (a.maxProjects, b.maxProjects)
       case (_, None) => true
       case (None, Some(_)) => false
       case (Some(m), Some(n)) => m <= n
  }

  lemma RankedIsGrouped(f: Fleet, limits: PlanLimits)
    requires Distinct(f.projects)
    ensures Ranked(f, limits) == Grouped(f, Allowed(f.projects, limits), Candidates(f.order, f.rows))
  {
    SortIsGrouping(f, Allowed(f.projects, limits), Candidates(f.order, f.rows));
  }

  lemma TakePrefix<T>(xs: seq<T>, ys: seq<T>, m: nat, n: nat)
    requires xs <= ys && m <= n
    ensures Take(xs, m) <= Take(ys, n)
  {
  }

  lemma AllowedGrows(projects: seq<ProjectId>, small: PlanLimits, large: PlanLimits)
    requires AtMost(small, large)
    ensures Allowed(projects, small) <= Allowed(projects, large)
  {
  }

  lemma GroupedGrows(f: Fleet, a: seq<ProjectId>, b: seq<ProjectId>, ids: seq<MonitorId>)
    requires a <= b
    ensures Grouped(f, a, ids) <= Grouped(f, b, ids)
  {
    assert b == a + b[|a|..];
    GroupedSplit(f, a, b[|a|..], ids);
  }

  lemma RankedGrows(f: Fleet, small: PlanLimits, large: PlanLimits)
    requires Distinct(f.projects) && AtMost(small, large)
    ensures Ranked(f, small) <= Ranked(f, large)
  {
    RankedIsGrouped(f, small);
    RankedIsGrouped(f, large);
    AllowedGrows(f.projects, small, large);
    GroupedGrows(f, Allowed(f.projects, small), Allowed(f.projects, large), Candidates(f.order, f.rows));
  }

  /** Larger limits run everything the smaller limits run, in the same order, and then possibly more. */
  lemma UpgradesNeverPause(f: Fleet, small: PlanLimits, large: PlanLimits)
    requires f.Valid() && AtMost(small, large)
    ensures RunList(f, small) <= RunList(f, large)
  {
    RankedGrows(f, small, large);
    TakePrefix(Ranked(f, small), Ranked(f, large), small.maxMonitors, large.maxMonitors);
  }

  /** In `order`, `a` stands before `b`. */
  predicate Older(order: seq<MonitorId>, a: MonitorId, b: MonitorId) {
    exists i, j :: 0 <= i < j < |order| && order[i] == a && order[j] == b
  }

  lemma {:induction false} OfProjectByAge(f: Fleet, ids: seq<MonitorId>, p: ProjectId, i: nat, j: nat)
    requires i < j < |OfProject(f, ids, p)|
    ensures Older(ids, OfProject(f, ids, p)[i], OfProject(f, ids, p)[j])
  {
    var n := |ids| - 1;
    var init := ids[..n];
    var before := OfProject(f, init, p);
    if j < |before| {
      OfProjectByAge(f, init, p, i, j);
      var a, b :| 0 <= a < b < |init| && init[a] == before[i] && init[b] == before[j];
      assert ids[a] == before[i] && ids[b] == before[j];
    } else {
      assert before[i] in before;
      var a :| 0 <= a < |init| && init[a] == before[i];
      assert ids[a] == before[i] && ids[n] == OfProject(f, ids, p)[j];
    }
  }

  /** By project rank first, by age within a project. */
  predicate RanksBefore(f: Fleet, allowed: seq<ProjectId>, ids: seq<MonitorId>, a: MonitorId, b: MonitorId) {
    RankOf(f, allowed, a) < RankOf(f, allowed, b)
    || (RankOf(f, allowed, a) == RankOf(f, allowed, b) && Older(ids, a, b))
  }

  lemma {:induction false} GroupedInOrder(
    f: Fleet, all: seq<ProjectId>, n: nat, ids: seq<MonitorId>, i: nat, j: nat)
    requires Distinct(all) && n <= |all| && i < j < |Grouped(f, all[..n], ids)|
    ensures var g := Grouped(f, all[..n], ids); RanksBefore(f, all, ids, g[i], g[j])
    decreases n
  {
    var front, back := all[..n - 1], all[n - 1..];
    var head, last := Grouped(f, front, ids), OfProject(f, ids, back[0]);
    assert all[..n][..n - 1] == front;
    assert Grouped(f, all[..n], ids) == head + last;
    if j < |head| {
      GroupedInOrder(f, all, n - 1, ids, i, j);
    } else {
      assert all == front + back;
      LastGroupInOrder(f, front, back, ids, head, last, i, j);
    }
  }

  lemma AcrossGroups(f: Fleet, head: seq<ProjectId>, tail: seq<ProjectId>, ids: seq<MonitorId>, i: nat, b: MonitorId)
    requires Distinct(head + tail) && tail != [] && i < |Grouped(f, head, ids)| && b in OfProject(f, ids, tail[0])
    ensures RankOf(f, head + tail, Grouped(f, head, ids)[i]) < RankOf(f, head + tail, b)
  {
    RanksOfHead(f, head, tail, ids);
    assert (head + tail)[|head|] == tail[0];
    RankOfIndex(head + tail, |head|);
  }

  lemma WithinGroup(f: Fleet, all: seq<ProjectId>, p: ProjectId, ids: seq<MonitorId>, i: nat, j: nat)
    requires i < j < |OfProject(f, ids, p)|
    ensures var mine := OfProject(f, ids, p);
            RankOf(f, all, mine[i]) == RankOf(f, all, mine[j]) && Older(ids, mine[i], mine[j])
  {
    var mine := OfProject(f, ids, p);
    assert mine[i] in mine && mine[j] in mine;
    OfProjectByAge(f, ids, p, i, j);
  }

  lemma LastGroupInOrder(
    f: Fleet, front: seq<ProjectId>, back: seq<ProjectId>, ids: seq<MonitorId>,
    head: seq<MonitorId>, last: seq<MonitorId>, i: nat, j: nat)
    requires Distinct(front + back) && back != []
    requires head == Grouped(f, front, ids) && last == OfProject(f, ids, back[0])
    requires i < j && |head| <= j < |head| + |last|
    ensures RanksBefore(f, front + back, ids, (head + last)[i], (head + last)[j])
  {
    var k := j - |head|;
    assert (head + last)[j] == last[k];
    if i < |head| {
      assert last[k] in last;
      AcrossGroups(f, front, back, ids, i, last[k]);
    } else {
      assert (head + last)[i] == last[i - |head|];
      WithinGroup(f, front + back, back[0], ids, i - |head|, k);
    }
  }

  /**
   * Who runs: the run list takes min(limit, candidates in allowed projects) monitors, nobody twice, and
   * everybody it takes ranks before every candidate of an allowed project it leaves out.
   */
  lemma RunListTakesTheFirst(f: Fleet, limits: PlanLimits)
    requires f.Valid()
    ensures var allowed := Allowed(f.projects, limits);
            var cands := Candidates(f.order, f.rows);
            var ranked, run := Ranked(f, limits), RunList(f, limits);
            && (forall id :: id in ranked <==> id in cands && f.rows[id].project in allowed)
            && |run| == Min(limits.maxMonitors, |ranked|)
            && (forall a, b :: a in run && b in ranked && b !in run ==> RanksBefore(f, allowed, cands, a, b))
  {
    RankedIsGrouped(f, limits);
    GroupedMembers(f, Allowed(f.projects, limits), Candidates(f.order, f.rows));
    var ranked, run := Ranked(f, limits), RunList(f, limits);
    forall a, b | a in run && b in ranked && b !in run
      ensures RanksBefore(f, Allowed(f.projects, limits), Candidates(f.order, f.rows), a, b)
    {
      var i :| 0 <= i < |run| && run[i] == a;
      var j :| 0 <= j < |ranked| && ranked[j] == b;
      RankedInOrder(f, limits, i, j);
    }
  }

  lemma RankedInOrder(f: Fleet, limits: PlanLimits, i: nat, j: nat)
    requires Distinct(f.projects) && i < j < |Ranked(f, limits)|
    ensures var ranked := Ranked(f, limits);
            RanksBefore(f, Allowed(f.projects, limits), Candidates(f.order, f.rows), ranked[i], ranked[j])
  {
    var allowed, cands := Allowed(f.projects, limits), Candidates(f.order, f.rows);
    AllowedDistinct(f.projects, limits);
    RankedIsGrouped(f, limits);
    var g := Grouped(f, allowed, cands);
    assert Ranked(f, limits) == g;
    AllGroupedInOrder(f, allowed, cands, i, j);
  }

  lemma AllowedDistinct(projects: seq<ProjectId>, limits: PlanLimits)
    requires Distinct(projects)
    ensures Distinct(Allowed(projects, limits))
  {
  }

  lemma AllGroupedInOrder(f: Fleet, all: seq<ProjectId>, ids: seq<MonitorId>, i: nat, j: nat)
    requires Distinct(all) && i < j < |Grouped(f, all, ids)|
    ensures var g := Grouped(f, all, ids); RanksBefore(f, all, ids, g[i], g[j])
  {
    assert all[..|all|] == all;
    GroupedInOrder(f, all, |all|, ids, i, j);
  }

  /** Run and pause lists split the candidates. */
  lemma FitPartitions(f: Fleet, limits: PlanLimits)
    requires f.Valid()
    ensures var fit := PlanFit(f, limits);
            && (forall id :: id in Candidates(f.order, f.rows) <==> id in fit.run || id in fit.pause)
            && (forall id :: id in fit.run ==> id !in fit.pause)
  {
    RankedIsGrouped(f, limits);
    GroupedMembers(f, Allowed(f.projects, limits), Candidates(f.order, f.rows));
    var ranked, run := Ranked(f, limits), RunList(f, limits);
    assert forall id :: id in run ==> id in ranked;
  }
}
