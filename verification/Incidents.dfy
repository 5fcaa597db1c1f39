/**
 * The tables written by finalize_check_result (app/workers/tasks.py) and enqueue_alerts_sync
 * (app/services/alerts.py): monitor status, incidents, alert deliveries. A committed transaction
 * is a `Txn`; `Replay` runs a log of them one after the other.
 */
module Incidents {
  import opened Common
  import opened Regions
  import opened Checks

  type ChannelId = nat

  datatype MonitorStatus = StatusUp | StatusDown | StatusUnknown
  datatype Incident = Incident(id: nat, monitor: MonitorId, startedAt: int, resolvedAt: Option<int>)
  datatype Kind = DownAlert | ResolvedAlert
  datatype Delivery = Delivery(incident: nat, channel: ChannelId, kind: Kind)

  datatype Tables = Tables(
    status: map<MonitorId, MonitorStatus>, incidents: seq<Incident>, deliveries: seq<Delivery>, nextIncident: nat)

  /** One region's vote, and the length of the checks table when it was read. */
  datatype Pick = Pick(vote: Option<Check>, seen: nat)

  /** What one finalize task read: the voting list, its cutoff, the checks table length when it took the lock. */
  datatype Reading = Reading(codes: seq<Code>, cutoff: int, lockSeen: nat, picks: map<Code, Pick>)

  /** One finalize that reached its commit. `channels` are the project's active channels at that moment. */
  datatype Round = Round(verdict: Verdict, at: int, channels: seq<ChannelId>, reading: Reading)

  datatype Txn = Created(m: MonitorId) | Deleted(m: MonitorId) | Finalized(m: MonitorId, round: Round)

  // ---- enqueue_alerts_sync -----------------------------------------------------------------

  /** Insert one row per channel, skipping rows whose (incident, channel, kind) key exists. */
  function Enqueue(deliveries: seq<Delivery>, incident: nat, channels: seq<ChannelId>, kind: Kind): seq<Delivery> {
    if channels == [] then deliveries
    else
      var done := Enqueue(deliveries, incident, channels[..|channels| - 1], kind);
      var row := Delivery(incident, channels[|channels| - 1], kind);
      if row in done then done else done + [row]
  }

  function RowsFor(incident: nat, channels: seq<ChannelId>, kind: Kind): seq<Delivery> {
    seq(|channels|, i requires 0 <= i < |channels| => Delivery(incident, channels[i], kind))
  }

  lemma {:induction false} EnqueueAll(ds: seq<Delivery>, incident: nat, channels: seq<ChannelId>, kind: Kind)
    requires Distinct(channels)
    requires forall c :: c in channels ==> Delivery(incident, c, kind) !in ds
    ensures Enqueue(ds, incident, channels, kind) == ds + RowsFor(incident, channels, kind)
  {
    if channels != [] {
      var init := channels[..|channels| - 1];
      EnqueueAll(ds, incident, init, kind);
      var row := Delivery(incident, channels[|channels| - 1], kind);
      assert row !in ds && row !in RowsFor(incident, init, kind);
      assert RowsFor(incident, channels, kind) == RowsFor(incident, init, kind) + [row];
    }
  }

  // ---- finalize_check_result: the write part ----------------------------------------------------

  /** Index of an open incident of `m` with the greatest start, as the resolving query selects it. */
  function LatestOpen(incidents: seq<Incident>, m: MonitorId): (r: Option<nat>)
    ensures r.Some? ==> r.value < |incidents|
                        && incidents[r.value].monitor == m && incidents[r.value].resolvedAt == None
    ensures r.Some? ==> forall x :: x in incidents && x.monitor == m && x.resolvedAt == None
                                    ==> x.startedAt <= incidents[r.value].startedAt
    ensures r.None? ==> forall x :: x in incidents && x.monitor == m ==> x.resolvedAt != None
  {
    if incidents == [] then None
    else
      var n := |incidents| - 1;
      var before := LatestOpen(incidents[..n], m);
      var x := incidents[n];
      assert incidents == incidents[..n] + [x];
      if x.monitor == m && x.resolvedAt == None
         && (before == None || incidents[before.value].startedAt <= x.startedAt) then Some(n)
      else before
  }

  /** The writes of one finalize, given the status the task remembers from its earlier read. */
  function WriteVerdict(t: Tables, m: MonitorId, oldStatus: MonitorStatus, r: Round): Tables {
    if r.verdict == Incomplete then t
    else
      var newStatus := if r.verdict == VerdictDown then StatusDown else StatusUp;
      var t1 := t.(status := t.status[m := newStatus]);
      if oldStatus != StatusDown && newStatus == StatusDown then
        t1.(incidents := t.incidents + [Incident(t.nextIncident, m, r.at, None)],
            deliveries := Enqueue(t.deliveries, t.nextIncident, r.channels, DownAlert),
            nextIncident := t.nextIncident + 1)
      else if oldStatus == StatusDown && newStatus == StatusUp then
        match LatestOpen(t.incidents, m)
        case None => t1
        case Some(i) =>
          var x := t.incidents[i];
          t1.(incidents := t.incidents[i := x.(resolvedAt := Some(r.at))],
              deliveries := Enqueue(t.deliveries, x.id, r.channels, ResolvedAlert))
      else t1
  }

  // ---- Logs of transactions, one after the other ----------------------------------------------

  function Without(incidents: seq<Incident>, m: MonitorId): seq<Incident> {
    if incidents == [] then []
    else
      var init := Without(incidents[..|incidents| - 1], m);
      var x := incidents[|incidents| - 1];
      if x.monitor == m then init else init + [x]
  }

  function WithoutAlerts(deliveries: seq<Delivery>, ids: set<nat>): seq<Delivery> {
    if deliveries == [] then []
    else
      var init := WithoutAlerts(deliveries[..|deliveries| - 1], ids);
      var d := deliveries[|deliveries| - 1];
      if d.incident in ids then init else init + [d]
  }

  function IdsOf(incidents: seq<Incident>, m: MonitorId): set<nat> {
    set x | x in incidents && x.monitor == m :: x.id
  }

  /** One transaction run on its own. Deleting a monitor cascades to its incidents and their deliveries. */
  function ApplyTxn(t: Tables, x: Txn): Tables {
    match x
    case Created(m) => t.(status := t.status[m := StatusUnknown])
    case Deleted(m) =>
      Tables(t.status - {m}, Without(t.incidents, m), WithoutAlerts(t.deliveries, IdsOf(t.incidents, m)),
             t.nextIncident)
    case Finalized(m, r) => if m in t.status then WriteVerdict(t, m, t.status[m], r) else t
  }

  const EMPTY_TABLES := Tables(map[], [], [], 0)

  function Replay(log: seq<Txn>): Tables {
    if log == [] then EMPTY_TABLES else ApplyTxn(Replay(log[..|log| - 1]), log[|log| - 1])
  }

  /** Ids are never reused, and only existing monitors are deleted or finalized. */
  predicate TxnAllowed(log: seq<Txn>, x: Txn) {
    match x
    case Created(m) => Created(m) !in log
    case Deleted(m) => m in Replay(log).status
    case Finalized(m, r) => m in Replay(log).status && Distinct(r.channels)
  }

  predicate ValidLog(log: seq<Txn>) {
    log == [] || (ValidLog(log[..|log| - 1]) && TxnAllowed(log[..|log| - 1], log[|log| - 1]))
  }

  function Rounds(log: seq<Txn>, m: MonitorId): seq<Round> {
    if log == [] then []
    else
      var before := Rounds(log[..|log| - 1], m);
      var x := log[|log| - 1];
      if x.Finalized? && x.m == m then before + [x.round] else before
  }

  // ---- The verdict history of a monitor and its maximal down-runs -----------------------------

  datatype Mark = Mark(down: bool, at: int)
  datatype Span = Span(start: int, end: Option<int>)

  /** The history with incomplete verdicts dropped. */
  function Marks(rounds: seq<Round>): seq<Mark> {
    if rounds == [] then []
    else
      var before := Marks(rounds[..|rounds| - 1]);
      var r := rounds[|rounds| - 1];
      if r.verdict == Incomplete then before else before + [Mark(r.verdict == VerdictDown, r.at)]
  }

  /** Number of leading down marks. */
  function DownPrefix(ms: seq<Mark>): (j: nat)
    ensures j <= |ms|
    ensures forall i :: 0 <= i < j ==> ms[i].down
    ensures j < |ms| ==> !ms[j].down
  {
    if ms == [] || !ms[0].down then 0 else 1 + DownPrefix(ms[1..])
  }

  /** Every maximal run of down verdicts: from its first verdict to the up verdict that ends it, if any. */
  function DownRuns(ms: seq<Mark>): seq<Span>
    decreases |ms|
  {
    if ms == [] then []
    else if !ms[0].down then DownRuns(ms[1..])
    else
      var j := DownPrefix(ms);
      [Span(ms[0].at, if j < |ms| then Some(ms[j].at) else None)] + DownRuns(ms[j..])
  }

  predicate EndsDown(ms: seq<Mark>) {
    ms != [] && ms[|ms| - 1].down
  }

  lemma {:induction false} DownPrefixSnoc(ms: seq<Mark>, x: Mark)
    ensures DownPrefix(ms + [x])
            == if DownPrefix(ms) < |ms| then DownPrefix(ms) else if x.down then |ms| + 1 else |ms|
  {
    if ms == [] {
      assert ([] + [x])[1..] == [];
    } else if ms[0].down {
      DownPrefixSnoc(ms[1..], x);
      assert (ms + [x])[1..] == ms[1..] + [x];
    }
  }

  function Extended(runs: seq<Span>, open: bool, x: Mark): seq<Span>
    requires open ==> runs != []
  {
    if x.down then (if open then runs else runs + [Span(x.at, None)])
    else if open then runs[..|runs| - 1] + [Span(runs[|runs| - 1].start, Some(x.at))]
    else runs
  }

  lemma DownRunsOfDown(ms: seq<Mark>)
    requires ms != [] && ms[0].down
    ensures var j := DownPrefix(ms);
            && 1 <= j
            && DownRuns(ms) == [Span(ms[0].at, if j < |ms| then Some(ms[j].at) else None)] + DownRuns(ms[j..])
  {
  }

  /** The last run is open exactly after a down verdict. */
  lemma {:induction false} OpenIffEndsDown(ms: seq<Mark>)
    ensures EndsDown(ms) <==> DownRuns(ms) != [] && DownRuns(ms)[|DownRuns(ms)| - 1].end == None
    decreases |ms|
  {
    if ms != [] {
      if ms[0].down {
        DownRunsOfDown(ms);
        OpenIffEndsDown(ms[DownPrefix(ms)..]);
      } else {
        OpenIffEndsDown(ms[1..]);
      }
    }
  }

  lemma SingleMark(x: Mark)
    ensures DownRuns([x]) == if x.down then [Span(x.at, None)] else []
  {
    assert [x][1..] == [];
    assert DownPrefix([]) == 0;
    if x.down {
      assert [x][DownPrefix([x])..] == [];
    }
  }

  /** How one more verdict changes the runs. */
  lemma {:induction false} DownRunsSnoc(ms: seq<Mark>, x: Mark)
    ensures EndsDown(ms) ==> DownRuns(ms) != []
    ensures DownRuns(ms + [x]) == Extended(DownRuns(ms), EndsDown(ms), x)
    decreases |ms|
  {
    var all := ms + [x];
    OpenIffEndsDown(ms);
    if ms == [] {
      assert all == [x];
      SingleMark(x);
    } else if !ms[0].down {
      assert all[1..] == ms[1..] + [x];
      DownRunsSnoc(ms[1..], x);
    } else {
      SnocAfterDown(ms, x);
    }
  }

  lemma {:induction false} SnocAfterDown(ms: seq<Mark>, x: Mark)
    requires ms != [] && ms[0].down
    ensures EndsDown(ms) ==> DownRuns(ms) != []
    ensures DownRuns(ms + [x]) == Extended(DownRuns(ms), EndsDown(ms), x)
    decreases |ms|, 0
  {
    var all, j := ms + [x], DownPrefix(ms);
    DownPrefixSnoc(ms, x);
    DownRunsOfDown(ms);
    DownRunsOfDown(all);
    if j < |ms| {
      assert all[j..] == ms[j..] + [x];
      DownRunsSnoc(ms[j..], x);
      OpenIffEndsDown(ms[j..]);
    } else {
      assert ms[j..] == [];
      if x.down {
        assert all[DownPrefix(all)..] == [];
      } else {
        assert all[j..] == [x];
        SingleMark(x);
      }
    }
  }

  /** In order, without overlap, and only the last one can be open. */
  predicate OrderedSpans(spans: seq<Span>) {
    && (forall i :: 0 <= i < |spans| - 1 ==> spans[i].end.Some?)
    && (forall i :: 0 <= i < |spans| && spans[i].end.Some? ==> spans[i].start <= spans[i].end.value)
    && (forall i, j :: 0 <= i < j < |spans| ==> spans[i].end.value <= spans[j].start)
  }

  predicate InOrder(ms: seq<Mark>) {
    forall i, j :: 0 <= i <= j < |ms| ==> ms[i].at <= ms[j].at
  }

  lemma OrderedCons(first: Span, tail: seq<Span>)
    requires OrderedSpans(tail)
    requires first.end.Some? ==> first.start <= first.end.value
    requires tail != [] ==> first.end.Some?
    requires forall i :: 0 <= i < |tail| ==> first.end.value <= tail[i].start
    ensures OrderedSpans([first] + tail)
  {
    var all := [first] + tail;
    assert forall i :: 1 <= i < |all| ==> all[i] == tail[i - 1];
  }

  lemma {:induction false} DownRunsOrdered(ms: seq<Mark>)
    requires InOrder(ms)
    ensures OrderedSpans(DownRuns(ms))
    ensures forall i :: 0 <= i < |DownRuns(ms)| ==> ms != [] && ms[0].at <= DownRuns(ms)[i].start
    decreases |ms|
  {
    if ms == [] {
    } else if !ms[0].down {
      assert InOrder(ms[1..]);
      DownRunsOrdered(ms[1..]);
    } else {
      var j := DownPrefix(ms);
      var rest := ms[j..];
      assert InOrder(rest);
      DownRunsOrdered(rest);
      DownRunsOfDown(ms);
      var first := Span(ms[0].at, if j < |ms| then Some(ms[j].at) else None);
      OrderedCons(first, DownRuns(rest));
    }
  }
}
