/** The alert deliveries of one monitor on one channel: down, resolved, down, ... and nothing swallowed. */
module AlertHistory {
  import opened Common
  import opened Regions
  import opened Incidents
  import opened IncidentHistory

  function AlertsOf(ds: seq<Delivery>, ids: set<nat>, ch: ChannelId): seq<Delivery> {
    if ds == [] then []
    else
      var init := AlertsOf(ds[..|ds| - 1], ids, ch);
      var d := ds[|ds| - 1];
      if d.channel == ch && d.incident in ids then init + [d] else init
  }

  function StoryOf(x: Incident, ch: ChannelId): seq<Delivery> {
    [Delivery(x.id, ch, DownAlert)]
    + if x.resolvedAt.Some? then [Delivery(x.id, ch, ResolvedAlert)] else []
  }

  /** The deliveries a list of incidents calls for: one down each, and one resolved per resolved incident. */
  function Story(xs: seq<Incident>, ch: ChannelId): seq<Delivery> {
    if xs == [] then [] else Story(xs[..|xs| - 1], ch) + StoryOf(xs[|xs| - 1], ch)
  }

  ghost predicate AlertsMatch(t: Tables, m: MonitorId, ch: ChannelId) {
    AlertsOf(t.deliveries, IdsOf(t.incidents, m), ch) == Story(IncidentsOf(t.incidents, m), ch)
  }

  // ---- Filters -----------------------------------------------------------------------------------

  lemma {:induction false} AlertsOfAppend(ds: seq<Delivery>, es: seq<Delivery>, ids: set<nat>, ch: ChannelId)
    ensures AlertsOf(ds + es, ids, ch) == AlertsOf(ds, ids, ch) + AlertsOf(es, ids, ch)
  {
    if es == [] {
      assert ds + es == ds;
    } else {
      var init := es[..|es| - 1];
      AlertsOfAppend(ds, init, ids, ch);
      assert (ds + es)[..|ds + es| - 1] == ds + init;
    }
  }

  lemma {:induction false} AlertsOfRows(
    incident: nat, channels: seq<ChannelId>, kind: Kind, ids: set<nat>, ch: ChannelId)
    requires Distinct(channels)
    ensures AlertsOf(RowsFor(incident, channels, kind), ids, ch)
            == if ch in channels && incident in ids then [Delivery(incident, ch, kind)] else []
  {
    if channels != [] {
      var n := |channels| - 1;
      var init, last := channels[..n], channels[n];
      AlertsOfRows(incident, init, kind, ids, ch);
      assert RowsFor(incident, channels, kind)[..n] == RowsFor(incident, init, kind);
      assert channels == init + [last] && last !in init;
      assert ch in channels <==> ch in init || ch == last;
    }
  }

  lemma {:induction false} AlertsOfSameIds(ds: seq<Delivery>, ids: set<nat>, ids': set<nat>, ch: ChannelId)
    requires forall d :: d in ds ==> (d.incident in ids <==> d.incident in ids')
    ensures AlertsOf(ds, ids, ch) == AlertsOf(ds, ids', ch)
  {
    if ds != [] {
      AlertsOfSameIds(ds[..|ds| - 1], ids, ids', ch);
      assert ds[|ds| - 1] in ds;
    }
  }

  lemma {:induction false} AlertsOfWithout(ds: seq<Delivery>, gone: set<nat>, ids: set<nat>, ch: ChannelId)
    requires gone !! ids
    ensures AlertsOf(WithoutAlerts(ds, gone), ids, ch) == AlertsOf(ds, ids, ch)
  {
    if ds != [] {
      var init, d := ds[..|ds| - 1], ds[|ds| - 1];
      AlertsOfWithout(init, gone, ids, ch);
      var kept := WithoutAlerts(init, gone);
      assert (kept + [d])[..|kept|] == kept;
    }
  }

  lemma IdsDisjoint(t: Tables, m: MonitorId, other: MonitorId)
    requires Consistent(t) && m != other
    ensures IdsOf(t.incidents, m) !! IdsOf(t.incidents, other)
  {
  }

  // ---- The two transitions -----------------------------------------------------------------------

  /** An up-to-down transition inserts exactly one down row per active channel. */
  lemma OpeningAlertsEveryChannel(t: Tables, m: MonitorId, r: Round)
    requires Consistent(t) && m in t.status && Distinct(r.channels)
    requires t.status[m] != StatusDown && r.verdict == VerdictDown
    ensures WriteVerdict(t, m, t.status[m], r).deliveries
            == t.deliveries + RowsFor(t.nextIncident, r.channels, DownAlert)
  {
    EnqueueAll(t.deliveries, t.nextIncident, r.channels, DownAlert);
  }

  /** A down-to-up transition inserts exactly one resolved row per active channel, for the open incident. */
  lemma ResolvingAlertsEveryChannel(t: Tables, m: MonitorId, r: Round)
    requires Consistent(t) && m in t.status && Distinct(r.channels)
    requires t.status[m] == StatusDown && r.verdict == VerdictUp && LatestOpen(t.incidents, m).Some?
    ensures WriteVerdict(t, m, t.status[m], r).deliveries
            == t.deliveries
               + RowsFor(t.incidents[LatestOpen(t.incidents, m).value].id, r.channels, ResolvedAlert)
  {
    var x := t.incidents[LatestOpen(t.incidents, m).value];
    assert x in t.incidents;
    EnqueueAll(t.deliveries, x.id, r.channels, ResolvedAlert);
  }

  lemma IdsAfterOpen(xs: seq<Incident>, x: Incident, m: MonitorId)
    ensures IdsOf(xs + [x], m) == IdsOf(xs, m) + (if x.monitor == m then {x.id} else {})
  {
    assert forall y :: y in xs + [x] <==> y in xs || y == x;
    assert x in xs + [x];
  }

  lemma IdsAfterUpdate(xs: seq<Incident>, i: nat, y: Incident, m: MonitorId)
    requires i < |xs| && y.id == xs[i].id && y.monitor == xs[i].monitor
    ensures IdsOf(xs[i := y], m) == IdsOf(xs, m)
  {
    var ys := xs[i := y];
    forall x | x in xs && x.monitor == m ensures x.id in IdsOf(ys, m) {
      var j :| 0 <= j < |xs| && xs[j] == x;
      assert ys[j] in ys && ys[j].monitor == m && ys[j].id == x.id;
    }
    forall x | x in ys && x.monitor == m ensures x.id in IdsOf(xs, m) {
      var j :| 0 <= j < |xs| && ys[j] == x;
      assert xs[j] in xs && xs[j].monitor == m && xs[j].id == x.id;
    }
  }

  lemma StoryAfterOpen(mine: seq<Incident>, x: Incident, ch: ChannelId)
    requires x.resolvedAt == None
    ensures Story(mine + [x], ch) == Story(mine, ch) + [Delivery(x.id, ch, DownAlert)]
  {
    assert (mine + [x])[..|mine|] == mine;
  }

  /** The channel's alerts after an opening: the ones before, and one down alert. */
  lemma AlertsAfterOpen(t: Tables, m: MonitorId, r: Round, ch: ChannelId)
    requires Consistent(t) && m in t.status && Distinct(r.channels) && ch in r.channels
    requires t.status[m] != StatusDown && r.verdict == VerdictDown
    ensures var ids := IdsOf(t.incidents, m);
            AlertsOf(WriteVerdict(t, m, t.status[m], r).deliveries, ids + {t.nextIncident}, ch)
            == AlertsOf(t.deliveries, ids, ch) + [Delivery(t.nextIncident, ch, DownAlert)]
  {
    var ids := IdsOf(t.incidents, m);
    var ids' := ids + {t.nextIncident};
    OpeningAlertsEveryChannel(t, m, r);
    NoAlertForNewId(t, t.nextIncident);
    AlertsOfSameIds(t.deliveries, ids, ids', ch);
    AlertsOfAppend(t.deliveries, RowsFor(t.nextIncident, r.channels, DownAlert), ids', ch);
    AlertsOfRows(t.nextIncident, r.channels, DownAlert, ids', ch);
  }

  lemma OpenMatches(t: Tables, m: MonitorId, r: Round, rounds: seq<Round>, ch: ChannelId)
    requires Consistent(t) && Tracks(t, m, rounds) && AlertsMatch(t, m, ch)
    requires Distinct(r.channels) && ch in r.channels
    requires t.status[m] != StatusDown && r.verdict == VerdictDown
    ensures AlertsMatch(WriteVerdict(t, m, t.status[m], r), m, ch)
  {
    var x := Incident(t.nextIncident, m, r.at, None);
    AlertsAfterOpen(t, m, r, ch);
    IdsAfterOpen(t.incidents, x, m);
    IncidentsOfSnoc(t.incidents, x, m);
    StoryAfterOpen(IncidentsOf(t.incidents, m), x, ch);
  }

  lemma StoryAfterResolve(mine: seq<Incident>, y: Incident, ch: ChannelId)
    requires mine != [] && mine[|mine| - 1].resolvedAt == None
    requires y.resolvedAt != None && y.id == mine[|mine| - 1].id
    ensures Story(mine[|mine| - 1 := y], ch) == Story(mine, ch) + [Delivery(y.id, ch, ResolvedAlert)]
  {
    var n := |mine| - 1;
    assert mine[n := y][..n] == mine[..n];
  }

  /** The channel's alerts after a resolve: the ones before, and one resolved alert. */
  lemma AlertsAfterResolve(t: Tables, m: MonitorId, r: Round, i: nat, ch: ChannelId)
    requires Consistent(t) && m in t.status && Distinct(r.channels) && ch in r.channels
    requires t.status[m] == StatusDown && r.verdict == VerdictUp && LatestOpen(t.incidents, m) == Some(i)
    ensures var ids, x := IdsOf(t.incidents, m), t.incidents[i];
            AlertsOf(WriteVerdict(t, m, t.status[m], r).deliveries, ids, ch)
            == AlertsOf(t.deliveries, ids, ch) + [Delivery(x.id, ch, ResolvedAlert)]
  {
    var ids, x := IdsOf(t.incidents, m), t.incidents[i];
    ResolvingAlertsEveryChannel(t, m, r);
    assert x in t.incidents && x.id in ids;
    AlertsOfAppend(t.deliveries, RowsFor(x.id, r.channels, ResolvedAlert), ids, ch);
    AlertsOfRows(x.id, r.channels, ResolvedAlert, ids, ch);
  }

  lemma ResolveMatches(t: Tables, m: MonitorId, r: Round, rounds: seq<Round>, ch: ChannelId)
    requires Consistent(t) && Tracks(t, m, rounds) && AlertsMatch(t, m, ch)
    requires Distinct(r.channels) && ch in r.channels
    requires t.status[m] == StatusDown && r.verdict == VerdictUp
    ensures AlertsMatch(WriteVerdict(t, m, t.status[m], r), m, ch)
  {
    OpenExists(t, m, rounds);
    OpenIsLast(t, m, rounds);
    var i := LatestOpen(t.incidents, m).value;
    var y := t.incidents[i].(resolvedAt := Some(r.at));
    AlertsAfterResolve(t, m, r, i, ch);
    IdsAfterUpdate(t.incidents, i, y, m);
    ResolvesTheLast(t, m, rounds, i, y);
    StoryAfterResolve(IncidentsOf(t.incidents, m), y, ch);
  }

  /** Rows for an incident outside `ids` do not show up in a view restricted to `ids`. */
  lemma ForeignRows(
    ds: seq<Delivery>, incident: nat, channels: seq<ChannelId>, kind: Kind, ids: set<nat>, ch: ChannelId)
    requires Distinct(channels) && incident !in ids
    ensures AlertsOf(ds + RowsFor(incident, channels, kind), ids, ch) == AlertsOf(ds, ids, ch)
  {
    AlertsOfAppend(ds, RowsFor(incident, channels, kind), ids, ch);
    AlertsOfRows(incident, channels, kind, ids, ch);
  }

  lemma OtherMonitorMatches(t: Tables, m: MonitorId, r: Round, other: MonitorId, ch: ChannelId)
    requires Consistent(t) && m in t.status && other in t.status && other != m
    requires Distinct(r.channels) && AlertsMatch(t, other, ch)
    ensures AlertsMatch(WriteVerdict(t, m, t.status[m], r), other, ch)
  {
    FinalizeLeavesOthers(t, m, r, other);
    var ids := IdsOf(t.incidents, other);
    if t.status[m] != StatusDown && r.verdict == VerdictDown {
      OpeningAlertsEveryChannel(t, m, r);
      IdsAfterOpen(t.incidents, Incident(t.nextIncident, m, r.at, None), other);
      assert IdsOf(WriteVerdict(t, m, t.status[m], r).incidents, other) == ids;
      assert t.nextIncident !in ids;
      ForeignRows(t.deliveries, t.nextIncident, r.channels, DownAlert, ids, ch);
    } else if t.status[m] == StatusDown && r.verdict == VerdictUp && LatestOpen(t.incidents, m).Some? {
      var i := LatestOpen(t.incidents, m).value;
      var x := t.incidents[i];
      ResolvingAlertsEveryChannel(t, m, r);
      IdsAfterUpdate(t.incidents, i, x.(resolvedAt := Some(r.at)), other);
      IdsDisjoint(t, m, other);
      assert x in t.incidents && x.id in IdsOf(t.incidents, m);
      ForeignRows(t.deliveries, x.id, r.channels, ResolvedAlert, ids, ch);
    }
  }

  lemma DeleteMatches(t: Tables, gone: MonitorId, m: MonitorId, ch: ChannelId)
    requires Consistent(t) && gone != m && AlertsMatch(t, m, ch)
    ensures AlertsMatch(ApplyTxn(t, Deleted(gone)), m, ch)
  {
    IncidentsOfWithout(t.incidents, gone, m);
    WithoutMembers(t.incidents, gone);
    assert IdsOf(Without(t.incidents, gone), m) == IdsOf(t.incidents, m);
    IdsDisjoint(t, gone, m);
    AlertsOfWithout(t.deliveries, IdsOf(t.incidents, gone), IdsOf(t.incidents, m), ch);
  }

  // ---- Every valid log ---------------------------------------------------------------------------

  lemma SameMonitorMatches(t: Tables, m: MonitorId, r: Round, rounds: seq<Round>, ch: ChannelId)
    requires Consistent(t) && Tracks(t, m, rounds) && AlertsMatch(t, m, ch)
    requires Distinct(r.channels) && ch in r.channels
    ensures AlertsMatch(WriteVerdict(t, m, t.status[m], r), m, ch)
  {
    if t.status[m] != StatusDown && r.verdict == VerdictDown {
      OpenMatches(t, m, r, rounds, ch);
    } else if t.status[m] == StatusDown && r.verdict == VerdictUp {
      ResolveMatches(t, m, r, rounds, ch);
    }
  }

  lemma NothingMatches(t: Tables, m: MonitorId, ch: ChannelId)
    requires forall x :: x in t.incidents ==> x.monitor != m
    ensures AlertsMatch(t, m, ch)
  {
    NoIncidents(t.incidents, m);
    assert IdsOf(t.incidents, m) == {};
    NoAlerts(t.deliveries, ch);
  }

  /** For a channel active at every finalize of `m`, its deliveries are exactly the story of the incidents. */
  lemma {:induction false} AlertsTellTheStory(log: seq<Txn>, m: MonitorId, ch: ChannelId)
    requires ValidLog(log) && m in Replay(log).status
    requires forall r :: r in Rounds(log, m) ==> ch in r.channels
    ensures AlertsMatch(Replay(log), m, ch)
  {
    var before, x := log[..|log| - 1], log[|log| - 1];
    var t := Replay(before);
    LogConsistent(before);
    match x
    case Created(m') =>
      if m' == m {
        NeverCreated(before, m);
        NothingMatches(t, m, ch);
      } else {
        AlertsTellTheStory(before, m, ch);
      }
    case Deleted(m') =>
      AlertsTellTheStory(before, m, ch);
      DeleteMatches(t, m', m, ch);
    case Finalized(m', r) =>
      var rounds := Rounds(before, m);
      if m' == m {
        assert Rounds(log, m) == rounds + [r];
        assert r in Rounds(log, m) && forall q :: q in rounds ==> q in Rounds(log, m);
        AlertsTellTheStory(before, m, ch);
        IncidentsAreDownRuns(before, m);
        SameMonitorMatches(t, m, r, rounds, ch);
      } else {
        AlertsTellTheStory(before, m, ch);
        OtherMonitorMatches(t, m', r, m, ch);
      }
  }

  lemma {:induction false} NoAlerts(ds: seq<Delivery>, ch: ChannelId)
    ensures AlertsOf(ds, {}, ch) == []
  {
    if ds != [] {
      NoAlerts(ds[..|ds| - 1], ch);
    }
  }

  /** Starts with down, alternates, and each resolved closes the incident of the down before it. */
  predicate Alternates(ds: seq<Delivery>) {
    && (forall i :: 0 <= i < |ds| ==> (ds[i].kind == DownAlert <==> i % 2 == 0))
    && (forall i :: 0 < i < |ds| && i % 2 == 1 ==> ds[i].incident == ds[i - 1].incident)
  }

  lemma {:induction false} StoryAlternates(xs: seq<Incident>, ch: ChannelId)
    requires forall k :: 0 <= k < |xs| - 1 ==> xs[k].resolvedAt != None
    ensures Alternates(Story(xs, ch))
    ensures (xs == [] || xs[|xs| - 1].resolvedAt != None) ==> |Story(xs, ch)| == 2 * |xs|
  {
    if xs != [] {
      var init := xs[..|xs| - 1];
      StoryAlternates(init, ch);
      assert init == [] || init[|init| - 1].resolvedAt != None;
    }
  }

  lemma AlertsAlternate(log: seq<Txn>, m: MonitorId, ch: ChannelId)
    requires ValidLog(log) && m in Replay(log).status
    requires forall r :: r in Rounds(log, m) ==> ch in r.channels
    ensures Alternates(AlertsOf(Replay(log).deliveries, IdsOf(Replay(log).incidents, m), ch))
  {
    AlertsTellTheStory(log, m, ch);
    IncidentsAreDownRuns(log, m);
    OpenIsLast(Replay(log), m, Rounds(log, m));
    StoryAlternates(IncidentsOf(Replay(log).incidents, m), ch);
  }
}
