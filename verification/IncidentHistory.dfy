/**
 * What the tables of one monitor look like after any valid log: its incidents are the maximal
 * down-runs of its verdict history, and its alerts alternate.
 */
module IncidentHistory {
  import opened Common
  import opened Regions
  import opened Incidents

  function IncidentsOf(xs: seq<Incident>, m: MonitorId): seq<Incident> {
    if xs == [] then []
    else
      var init := IncidentsOf(xs[..|xs| - 1], m);
      var x := xs[|xs| - 1];
      if x.monitor == m then init + [x] else init
  }

  function SpansOf(xs: seq<Incident>): seq<Span> {
    seq(|xs|, i requires 0 <= i < |xs| => Span(xs[i].startedAt, xs[i].resolvedAt))
  }

  function StatusAfter(ms: seq<Mark>): MonitorStatus {
    if ms == [] then StatusUnknown else if EndsDown(ms) then StatusDown else StatusUp
  }

  /** Status and incidents of `m` are the ones its verdict history calls for. */
  predicate Tracks(t: Tables, m: MonitorId, rounds: seq<Round>) {
    && m in t.status
    && t.status[m] == StatusAfter(Marks(rounds))
    && SpansOf(IncidentsOf(t.incidents, m)) == DownRuns(Marks(rounds))
  }

  predicate IncreasingIds(xs: seq<Incident>) {
    forall i, j :: 0 <= i < j < |xs| ==> xs[i].id < xs[j].id
  }

  ghost predicate HasIncident(xs: seq<Incident>, id: nat) {
    exists x :: x in xs && x.id == id
  }

  /** Keys and foreign keys of the tables; an open incident has no resolved alert yet. */
  ghost predicate Consistent(t: Tables) {
    && IncreasingIds(t.incidents)
    && (forall x :: x in t.incidents ==> x.id < t.nextIncident && x.monitor in t.status)
    && (forall d :: d in t.deliveries ==> HasIncident(t.incidents, d.incident))
    && Distinct(t.deliveries)
    && (forall x, c :: x in t.incidents && x.resolvedAt == None ==> Delivery(x.id, c, ResolvedAlert) !in t.deliveries)
  }

  // ---- The per-monitor view under append, update and delete ----------------------------------

  lemma IncidentsOfSnoc(xs: seq<Incident>, x: Incident, m: MonitorId)
    ensures IncidentsOf(xs + [x], m) == IncidentsOf(xs, m) + (if x.monitor == m then [x] else [])
  {
    assert (xs + [x])[..|xs|] == xs;
  }

  lemma {:induction false} IncidentsOfMembers(xs: seq<Incident>, m: MonitorId)
    ensures forall x :: x in IncidentsOf(xs, m) <==> x in xs && x.monitor == m
  {
    if xs != [] {
      IncidentsOfMembers(xs[..|xs| - 1], m);
      assert xs == xs[..|xs| - 1] + [xs[|xs| - 1]];
    }
  }

  lemma {:induction false} NoIncidents(xs: seq<Incident>, m: MonitorId)
    requires forall x :: x in xs ==> x.monitor != m
    ensures IncidentsOf(xs, m) == []
  {
    if xs != [] {
      NoIncidents(xs[..|xs| - 1], m);
    }
  }

  /** Replacing row `i` replaces one row of its own monitor's view, at position `k`, and no other view. */
  lemma {:induction false} IncidentsOfUpdate(xs: seq<Incident>, i: nat, y: Incident, m: MonitorId) returns (k: nat)
    requires i < |xs| && y.monitor == xs[i].monitor
    ensures xs[i].monitor != m ==> IncidentsOf(xs[i := y], m) == IncidentsOf(xs, m)
    ensures xs[i].monitor == m ==>
              && k < |IncidentsOf(xs, m)| && IncidentsOf(xs, m)[k] == xs[i]
              && IncidentsOf(xs[i := y], m) == IncidentsOf(xs, m)[k := y]
    decreases |xs|
  {
    var n := |xs| - 1;
    var init := xs[..n];
    k := 0;
    if i == n {
      assert xs[i := y][..n] == init;
      k := |IncidentsOf(init, m)|;
    } else {
      k := IncidentsOfUpdate(init, i, y, m);
      assert xs[i := y][..n] == init[i := y];
    }
  }

  lemma {:induction false} IncidentsOfWithout(xs: seq<Incident>, gone: MonitorId, m: MonitorId)
    requires gone != m
    ensures IncidentsOf(Without(xs, gone), m) == IncidentsOf(xs, m)
  {
    if xs != [] {
      var init, x := xs[..|xs| - 1], xs[|xs| - 1];
      IncidentsOfWithout(init, gone, m);
      if x.monitor != gone {
        IncidentsOfSnoc(Without(init, gone), x, m);
      }
    }
  }

  lemma {:induction false} WithoutMembers(xs: seq<Incident>, gone: MonitorId)
    ensures forall x :: x in Without(xs, gone) <==> x in xs && x.monitor != gone
  {
    if xs != [] {
      WithoutMembers(xs[..|xs| - 1], gone);
      assert xs == xs[..|xs| - 1] + [xs[|xs| - 1]];
    }
  }

  lemma {:induction false} WithoutKeepsOrder(xs: seq<Incident>, gone: MonitorId)
    requires IncreasingIds(xs)
    ensures IncreasingIds(Without(xs, gone))
  {
    if xs != [] {
      var init, x := xs[..|xs| - 1], xs[|xs| - 1];
      var kept := Without(init, gone);
      WithoutKeepsOrder(init, gone);
      WithoutMembers(init, gone);
      forall i | 0 <= i < |kept| ensures kept[i].id < x.id {
        assert kept[i] in init;
      }
    }
  }

  lemma {:induction false} WithoutAlertsMembers(ds: seq<Delivery>, ids: set<nat>)
    ensures forall d :: d in WithoutAlerts(ds, ids) <==> d in ds && d.incident !in ids
  {
    if ds != [] {
      WithoutAlertsMembers(ds[..|ds| - 1], ids);
      assert ds == ds[..|ds| - 1] + [ds[|ds| - 1]];
    }
  }

  lemma {:induction false} EnqueueMembers(ds: seq<Delivery>, incident: nat, channels: seq<ChannelId>, kind: Kind)
    ensures forall d :: d in Enqueue(ds, incident, channels, kind)
                        <==> d in ds || (d.incident == incident && d.kind == kind && d.channel in channels)
  {
    if channels != [] {
      var init, c := channels[..|channels| - 1], channels[|channels| - 1];
      EnqueueMembers(ds, incident, init, kind);
      assert channels == init + [c];
    }
  }

  lemma {:induction false} EnqueueDistinct(ds: seq<Delivery>, incident: nat, channels: seq<ChannelId>, kind: Kind)
    requires Distinct(ds)
    ensures Distinct(Enqueue(ds, incident, channels, kind))
  {
    if channels != [] {
      EnqueueDistinct(ds, incident, channels[..|channels| - 1], kind);
    }
  }

  lemma {:induction false} WithoutAlertsDistinct(ds: seq<Delivery>, ids: set<nat>)
    requires Distinct(ds)
    ensures Distinct(WithoutAlerts(ds, ids))
  {
    if ds != [] {
      var init, d := ds[..|ds| - 1], ds[|ds| - 1];
      WithoutAlertsDistinct(init, ids);
      WithoutAlertsMembers(init, ids);
      assert d !in init;
    }
  }

  /** Replacing an incident by one with its id keeps every reference. */
  lemma HasIncidentAfterUpdate(xs: seq<Incident>, i: nat, y: Incident, id: nat)
    requires i < |xs| && y.id == xs[i].id && HasIncident(xs, id)
    ensures HasIncident(xs[i := y], id)
  {
    var x :| x in xs && x.id == id;
    var j :| 0 <= j < |xs| && xs[j] == x;
    assert xs[i := y][j].id == id && xs[i := y][j] in xs[i := y];
  }

  // ---- One finalize ----------------------------------------------------------------------------

  /** In a consistent state every open incident of a tracked monitor is the last one of its view. */
  lemma OpenIsLast(t: Tables, m: MonitorId, rounds: seq<Round>)
    requires Tracks(t, m, rounds)
    ensures var mine := IncidentsOf(t.incidents, m);
            && (forall k :: 0 <= k < |mine| - 1 ==> mine[k].resolvedAt != None)
            && (t.status[m] == StatusDown <==> mine != [] && mine[|mine| - 1].resolvedAt == None)
  {
    var mine := IncidentsOf(t.incidents, m);
    var ms := Marks(rounds);
    OpenIffEndsDown(ms);
    ClosedBeforeLast(ms);
    assert forall k :: 0 <= k < |mine| ==> SpansOf(mine)[k].end == mine[k].resolvedAt;
  }

  lemma {:induction false} ClosedBeforeLast(ms: seq<Mark>)
    ensures forall k :: 0 <= k < |DownRuns(ms)| - 1 ==> DownRuns(ms)[k].end != None
    decreases |ms|
  {
    if ms != [] {
      if ms[0].down {
        ClosedBeforeLast(ms[DownPrefix(ms)..]);
      } else {
        ClosedBeforeLast(ms[1..]);
      }
    }
  }

  /** The open incident found by the resolving query is the last one of the monitor's view. */
  lemma ResolvesTheLast(t: Tables, m: MonitorId, rounds: seq<Round>, i: nat, y: Incident)
    requires Tracks(t, m, rounds) && t.status[m] == StatusDown
    requires LatestOpen(t.incidents, m) == Some(i)
    requires y.monitor == m
    ensures var mine := IncidentsOf(t.incidents, m);
            && mine != [] && mine[|mine| - 1] == t.incidents[i]
            && IncidentsOf(t.incidents[i := y], m) == mine[|mine| - 1 := y]
  {
    OpenIsLast(t, m, rounds);
    var k := IncidentsOfUpdate(t.incidents, i, y, m);
  }

  lemma OpenExists(t: Tables, m: MonitorId, rounds: seq<Round>)
    requires Tracks(t, m, rounds) && t.status[m] == StatusDown
    ensures LatestOpen(t.incidents, m).Some?
  {
    OpenIsLast(t, m, rounds);
    var mine := IncidentsOf(t.incidents, m);
    IncidentsOfMembers(t.incidents, m);
    assert mine[|mine| - 1] in mine;
  }

  /** A finalize of `m` keeps every other monitor's rows. */
  lemma FinalizeLeavesOthers(t: Tables, m: MonitorId, r: Round, other: MonitorId)
    requires m in t.status && other in t.status && other != m
    ensures var t' := WriteVerdict(t, m, t.status[m], r);
            && other in t'.status && t'.status[other] == t.status[other]
            && IncidentsOf(t'.incidents, other) == IncidentsOf(t.incidents, other)
  {
    IncidentsOfSnoc(t.incidents, Incident(t.nextIncident, m, r.at, None), other);
    var i := LatestOpen(t.incidents, m);
    if i.Some? {
      var k := IncidentsOfUpdate(
        t.incidents, i.value, t.incidents[i.value].(resolvedAt := Some(r.at)), other);
    }
  }

  lemma OpenTracks(t: Tables, m: MonitorId, r: Round, rounds: seq<Round>)
    requires Tracks(t, m, rounds) && r.verdict == VerdictDown && t.status[m] != StatusDown
    ensures SpansOf(IncidentsOf(WriteVerdict(t, m, t.status[m], r).incidents, m))
            == DownRuns(Marks(rounds)) + [Span(r.at, None)]
  {
    var mine, newOne := IncidentsOf(t.incidents, m), Incident(t.nextIncident, m, r.at, None);
    IncidentsOfSnoc(t.incidents, newOne, m);
    assert SpansOf(mine + [newOne]) == SpansOf(mine) + [Span(r.at, None)];
  }

  lemma ResolveTracks(t: Tables, m: MonitorId, r: Round, rounds: seq<Round>)
    requires Tracks(t, m, rounds) && r.verdict == VerdictUp && t.status[m] == StatusDown
    ensures var runs := DownRuns(Marks(rounds));
            runs != [] &&
            SpansOf(IncidentsOf(WriteVerdict(t, m, t.status[m], r).incidents, m))
            == runs[..|runs| - 1] + [Span(runs[|runs| - 1].start, Some(r.at))]
  {
    OpenExists(t, m, rounds);
    var mine := IncidentsOf(t.incidents, m);
    var i := LatestOpen(t.incidents, m).value;
    var closed := t.incidents[i].(resolvedAt := Some(r.at));
    ResolvesTheLast(t, m, rounds, i, closed);
    assert SpansOf(mine)[|mine| - 1].start == mine[|mine| - 1].startedAt;
    assert SpansOf(mine[|mine| - 1 := closed])
        == SpansOf(mine)[..|mine| - 1] + [Span(mine[|mine| - 1].startedAt, Some(r.at))];
  }

  lemma FinalizeTracks(t: Tables, m: MonitorId, r: Round, rounds: seq<Round>)
    requires Tracks(t, m, rounds)
    ensures Tracks(WriteVerdict(t, m, t.status[m], r), m, rounds + [r])
  {
    assert (rounds + [r])[..|rounds|] == rounds;
    if r.verdict != Incomplete {
      DownRunsSnoc(Marks(rounds), Mark(r.verdict == VerdictDown, r.at));
      if t.status[m] != StatusDown && r.verdict == VerdictDown {
        OpenTracks(t, m, r, rounds);
      } else if t.status[m] == StatusDown && r.verdict == VerdictUp {
        ResolveTracks(t, m, r, rounds);
      }
    }
  }

  lemma OpenConsistent(t: Tables, m: MonitorId, at: int, channels: seq<ChannelId>)
    requires m in t.status && Consistent(t)
    ensures Consistent(Tables(t.status, t.incidents + [Incident(t.nextIncident, m, at, None)],
                              Enqueue(t.deliveries, t.nextIncident, channels, DownAlert), t.nextIncident + 1))
  {
    var x := Incident(t.nextIncident, m, at, None);
    var xs := t.incidents + [x];
    EnqueueMembers(t.deliveries, t.nextIncident, channels, DownAlert);
    EnqueueDistinct(t.deliveries, t.nextIncident, channels, DownAlert);
    forall d | d in Enqueue(t.deliveries, t.nextIncident, channels, DownAlert) ensures HasIncident(xs, d.incident) {
      if d in t.deliveries {
        var y :| y in t.incidents && y.id == d.incident;
        assert y in xs;
      } else {
        assert x in xs;
      }
    }
    NoAlertForNewId(t, t.nextIncident);
  }

  /** No delivery speaks of an incident id not given out yet. */
  lemma NoAlertForNewId(t: Tables, id: nat)
    requires Consistent(t) && t.nextIncident <= id
    ensures forall d :: d in t.deliveries ==> d.incident != id
  {
    forall d | d in t.deliveries ensures d.incident != id {
      assert HasIncident(t.incidents, d.incident);
    }
  }

  lemma CloseConsistent(t: Tables, i: nat, at: int, channels: seq<ChannelId>)
    requires i < |t.incidents| && Consistent(t)
    ensures var x := t.incidents[i];
            Consistent(t.(incidents := t.incidents[i := x.(resolvedAt := Some(at))],
                          deliveries := Enqueue(t.deliveries, x.id, channels, ResolvedAlert)))
  {
    var x := t.incidents[i];
    EnqueueMembers(t.deliveries, x.id, channels, ResolvedAlert);
    EnqueueDistinct(t.deliveries, x.id, channels, ResolvedAlert);
    var ys := t.incidents[i := x.(resolvedAt := Some(at))];
    forall d | d in Enqueue(t.deliveries, x.id, channels, ResolvedAlert) ensures HasIncident(ys, d.incident) {
      assert x in t.incidents;
      HasIncidentAfterUpdate(t.incidents, i, x.(resolvedAt := Some(at)), d.incident);
    }
    forall y | y in ys ensures y.id < t.nextIncident && y.monitor in t.status {
      var j :| 0 <= j < |ys| && ys[j] == y;
      assert t.incidents[j] in t.incidents;
    }
    forall y, c | y in ys && y.resolvedAt == None
      ensures Delivery(y.id, c, ResolvedAlert) !in Enqueue(t.deliveries, x.id, channels, ResolvedAlert)
    {
      var j :| 0 <= j < |ys| && ys[j] == y;
      assert j != i && t.incidents[j] in t.incidents;
    }
  }

  lemma FinalizeConsistent(t: Tables, m: MonitorId, r: Round)
    requires m in t.status && Consistent(t)
    ensures Consistent(WriteVerdict(t, m, t.status[m], r))
  {
    if r.verdict != Incomplete {
      var t1 := t.(status := t.status[m := if r.verdict == VerdictDown then StatusDown else StatusUp]);
      OpenConsistent(t1, m, r.at, r.channels);
      var i := LatestOpen(t.incidents, m);
      if i.Some? {
        CloseConsistent(t1, i.value, r.at, r.channels);
      }
    }
  }

  lemma DeleteConsistent(t: Tables, gone: MonitorId)
    requires Consistent(t)
    ensures Consistent(ApplyTxn(t, Deleted(gone)))
  {
    WithoutMembers(t.incidents, gone);
    WithoutKeepsOrder(t.incidents, gone);
    WithoutAlertsMembers(t.deliveries, IdsOf(t.incidents, gone));
    WithoutAlertsDistinct(t.deliveries, IdsOf(t.incidents, gone));
    forall d | d in t.deliveries && d.incident !in IdsOf(t.incidents, gone)
      ensures HasIncident(Without(t.incidents, gone), d.incident)
    {
      var x :| x in t.incidents && x.id == d.incident;
      assert x.monitor != gone;
    }
  }

  // ---- Every valid log --------------------------------------------------------------------------

  lemma {:induction false} NeverCreated(log: seq<Txn>, m: MonitorId)
    requires ValidLog(log) && Created(m) !in log
    ensures m !in Replay(log).status && Rounds(log, m) == []
  {
    if log != [] {
      var before := log[..|log| - 1];
      assert forall x :: x in before ==> x in log;
      NeverCreated(before, m);
      assert log[|log| - 1] in log;
    }
  }

  lemma {:induction false} LogConsistent(log: seq<Txn>)
    requires ValidLog(log)
    ensures Consistent(Replay(log))
  {
    if log != [] {
      var before, x := log[..|log| - 1], log[|log| - 1];
      LogConsistent(before);
      match x
      case Created(_) =>
      case Deleted(m) => DeleteConsistent(Replay(before), m);
      case Finalized(m, r) => FinalizeConsistent(Replay(before), m, r);
    }
  }

  /**
   * The incident table is a function of the verdict history: after any valid log the incidents of a
   * monitor are the maximal down-runs of its verdicts, and its status is its last complete verdict.
   */
  lemma {:induction false} IncidentsAreDownRuns(log: seq<Txn>, m: MonitorId)
    requires ValidLog(log) && m in Replay(log).status
    ensures Tracks(Replay(log), m, Rounds(log, m))
  {
    var before, x := log[..|log| - 1], log[|log| - 1];
    var t := Replay(before);
    match x
    case Created(m') =>
      if m' == m {
        NeverCreated(before, m);
        LogConsistent(before);
        NoIncidents(t.incidents, m);
      } else {
        IncidentsAreDownRuns(before, m);
      }
    case Deleted(m') =>
      IncidentsAreDownRuns(before, m);
      IncidentsOfWithout(t.incidents, m', m);
    case Finalized(m', r) =>
      IncidentsAreDownRuns(before, m);
      if m' == m {
        FinalizeTracks(t, m, r, Rounds(before, m));
      } else {
        FinalizeLeavesOthers(t, m', r, m);
      }
  }

  /** The count of deploy/sanity.sql: unresolved incidents of one monitor. */
  function OpenCount(xs: seq<Incident>, m: MonitorId): nat {
    if xs == [] then 0
    else
      var x := xs[|xs| - 1];
      OpenCount(xs[..|xs| - 1], m) + if x.monitor == m && x.resolvedAt == None then 1 else 0
  }

  lemma {:induction false} OpenCountOfView(xs: seq<Incident>, m: MonitorId)
    ensures OpenCount(xs, m) == OpenCount(IncidentsOf(xs, m), m)
  {
    if xs != [] {
      var init, x := xs[..|xs| - 1], xs[|xs| - 1];
      OpenCountOfView(init, m);
      var view := IncidentsOf(init, m);
      assert (view + [x])[..|view|] == view;
    }
  }

  lemma {:induction false} NoneOpen(xs: seq<Incident>, m: MonitorId)
    requires forall k :: 0 <= k < |xs| ==> xs[k].resolvedAt != None
    ensures OpenCount(xs, m) == 0
  {
    if xs != [] {
      NoneOpen(xs[..|xs| - 1], m);
    }
  }

  /** Exactly one open incident while a monitor is down, none otherwise. */
  lemma OpenIncidentIffDown(log: seq<Txn>, m: MonitorId)
    requires ValidLog(log) && m in Replay(log).status
    ensures var t := Replay(log);
            OpenCount(t.incidents, m) == if t.status[m] == StatusDown then 1 else 0
  {
    var t := Replay(log);
    IncidentsAreDownRuns(log, m);
    OpenIsLast(t, m, Rounds(log, m));
    OpenCountOfView(t.incidents, m);
    var mine := IncidentsOf(t.incidents, m);
    if t.status[m] == StatusDown {
      IncidentsOfMembers(t.incidents, m);
      assert mine[|mine| - 1] in mine;
      NoneOpen(mine[..|mine| - 1], m);
    } else {
      NoneOpen(mine, m);
    }
  }
}
