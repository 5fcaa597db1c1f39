/**
 * finalize_check_result and enqueue_alerts_sync as they run inside one worker, statement by statement,
 * against the transaction they stand for in IncidentHistory and FinalizeProtocol.
 */
module FinalizeTask {
  import opened Common
  import opened Regions
  import opened Checks
  import opened Incidents

  datatype Outcome =
    | MonitorMissing
    | SiteCheck
    | NoQuorum(reported: nat, need: nat, down: nat)
    | Decided(oldStatus: MonitorStatus, newStatus: MonitorStatus, newDeliveries: nat)

  class Database {
    var now: int
    var interval: map<MonitorId, int>
    var siteChecks: set<MonitorId>
    var checks: seq<Check>
    var status: map<MonitorId, MonitorStatus>
    var incidents: seq<Incident>
    var deliveries: seq<Delivery>
    var nextIncident: nat

    constructor (now: int)
      ensures State() == EMPTY_TABLES && checks == [] && this.now == now
    {
      this.now := now;
      interval, siteChecks, checks := map[], {}, [];
      status, incidents, deliveries, nextIncident := map[], [], [], 0;
    }

    function State(): Tables
      reads this
    {
      Tables(status, incidents, deliveries, nextIncident)
    }

    /** Insert one row per channel unless its key exists; returns how many were inserted. */
    method EnqueueAlerts(incident: nat, channels: seq<ChannelId>, kind: Kind) returns (inserted: nat)
      modifies this`deliveries
      ensures deliveries == Enqueue(old(deliveries), incident, channels, kind)
      ensures inserted == |deliveries| - |old(deliveries)|
    {
      inserted := 0;
      for i := 0 to |channels|
        invariant deliveries == Enqueue(old(deliveries), incident, channels[..i], kind)
        invariant inserted == |deliveries| - |old(deliveries)|
      {
        assert channels[..i + 1][..i] == channels[..i];
        var row := Delivery(incident, channels[i], kind);
        if row !in deliveries {
          deliveries := deliveries + [row];
          inserted := inserted + 1;
        }
      }
      assert channels[..|channels|] == channels;
    }

    /** The `latest` loop: one vote query per voting region. */
    method ReadVotes(m: MonitorId, codes: seq<Code>, cutoff: int) returns (picks: map<Code, Option<Check>>)
      ensures Answers(checks, m, codes, cutoff, picks)
    {
      picks := map[];
      for i := 0 to |codes|
        invariant picks.Keys == Elements(codes[..i])
        invariant forall c :: c in picks ==> IsLatestFresh(checks, m, c, cutoff, picks[c])
      {
        var row := QueryLatest(checks, m, codes[i], cutoff);
        picks := picks[codes[i] := row];
        ElementsSnoc(codes[..i], codes[i]);
        assert codes[..i + 1] == codes[..i] + [codes[i]];
      }
      assert codes[..|codes|] == codes;
    }

    lemma RecentDecides(m: MonitorId, codes: seq<Code>, interval: int, picks: map<Code, Option<Check>>)
      requires Answers(checks, m, codes, FreshCutoff(interval, now), picks)
      ensures var verdict := Consensus(VotesFrom(picks), codes).verdict;
              && (Distinct(codes) && |codes| < 2 * |RecentVoters(checks, m, codes, now, Down)| ==>
                    verdict == VerdictDown)
              && (Distinct(codes) && |codes| < 2 * |RecentVoters(checks, m, codes, now, Up)| ==>
                    verdict == VerdictUp)
    {
      if Distinct(codes) && |codes| < 2 * |RecentVoters(checks, m, codes, now, Down)| {
        RecentMajorityDecides(checks, m, codes, interval, now, picks, Down);
      }
      if Distinct(codes) && |codes| < 2 * |RecentVoters(checks, m, codes, now, Up)| {
        RecentMajorityDecides(checks, m, codes, interval, now, picks, Up);
      }
    }

    /**
     * One whole task. It changes nothing for a missing monitor, a site check or an incomplete verdict;
     * otherwise it performs the finalize transaction of a consensus over the current table.
     */
    method FinalizeCheckResult(m: MonitorId, codes: seq<Code>, channels: seq<ChannelId>)
      returns (outcome: Outcome, picks: map<Code, Option<Check>>)
      requires m in status ==> m in interval
      modifies this`status, this`incidents, this`deliveries, this`nextIncident
      ensures m !in old(status) ==> outcome == MonitorMissing && State() == old(State())
      ensures m in old(status) && m in siteChecks ==> outcome == SiteCheck && State() == old(State())
      ensures m in old(status) && m !in siteChecks ==>
                var cutoff := FreshCutoff(interval[m], now);
                var tally := Consensus(VotesFrom(picks), codes);
                && Answers(checks, m, codes, cutoff, picks)
                && (forall reading :: State() == ApplyTxn(
                      old(State()), Finalized(m, Round(tally.verdict, now, channels, reading))))
                && (Distinct(codes) && |codes| < 2 * |RecentVoters(checks, m, codes, now, Down)| ==>
                      outcome.Decided? && outcome.newStatus == StatusDown)
                && (Distinct(codes) && |codes| < 2 * |RecentVoters(checks, m, codes, now, Up)| ==>
                      outcome.Decided? && outcome.newStatus == StatusUp)
                && (outcome.NoQuorum? <==> tally.verdict == Incomplete)
                && (outcome.Decided? <==> tally.verdict != Incomplete)
                && (outcome.NoQuorum? ==> outcome == NoQuorum(tally.reported, tally.need, tally.down))
                && (outcome.Decided? ==>
                      && outcome.oldStatus == old(status[m])
                      && m in status && outcome.newStatus == status[m]
                      && outcome.newDeliveries == |deliveries| - |old(deliveries)|)
    {
      picks := map[];
      if m !in status {
        return MonitorMissing, picks;
      }
      if m in siteChecks {
        return SiteCheck, picks;
      }
      var oldStatus := status[m];
      var cutoff := FreshCutoff(interval[m], now);
      picks := ReadVotes(m, codes, cutoff);
      var tally := Consensus(VotesFrom(picks), codes);
      RecentDecides(m, codes, interval[m], picks);
      if tally.verdict == Incomplete {
        return NoQuorum(tally.reported, tally.need, tally.down), picks;
      }
      var newStatus := if tally.verdict == VerdictDown then StatusDown else StatusUp;
      status := status[m := newStatus];
      var sent := 0;
      if oldStatus != StatusDown && newStatus == StatusDown {
        var id := nextIncident;
        incidents := incidents + [Incident(id, m, now, None)];
        nextIncident := nextIncident + 1;
        sent := EnqueueAlerts(id, channels, DownAlert);
      } else if oldStatus == StatusDown && newStatus == StatusUp {
        var open := LatestOpen(incidents, m);
        if open.Some? {
          var x := incidents[open.value];
          incidents := incidents[open.value := x.(resolvedAt := Some(now))];
          sent := EnqueueAlerts(x.id, channels, ResolvedAlert);
        }
      }
      outcome := Decided(oldStatus, newStatus, sent);
    }

    /** cleanup_old_checks: one delete per plan of the retention table, then the catch-all. */
    method CleanupOldChecks(owners: map<MonitorId, StoredPlan>)
      modifies this`checks
      ensures checks == Retained(old(checks), owners, now)
    {
      var plans := [Free, Starter, Pro, Legacy];
      ghost var before := checks;
      NothingDeleted(before, owners, now);
      for i := 0 to |plans|
        invariant checks == RetainedFor(before, owners, now, plans[..i])
      {
        checks := DeletePlan(checks, owners, now, plans[i]);
        DeleteOnePlan(before, owners, now, plans[..i], plans[i]);
        assert plans[..i + 1] == plans[..i] + [plans[i]];
      }
      assert plans[..|plans|] == plans;
      assert plans[0] in plans && plans[1] in plans && plans[2] in plans && plans[3] in plans;
      AllPlansDeleted(before, owners, now, plans);
    }
  }

  /** Rows left by one DELETE ... WHERE plan = :plan AND checked_at < :cutoff. */
  function DeletePlan(checks: seq<Check>, owners: map<MonitorId, StoredPlan>, now: int, plan: StoredPlan): seq<Check> {
    if checks == [] then []
    else
      var x, rest := checks[0], DeletePlan(checks[1..], owners, now, plan);
      if Expired(x, owners, now) && owners[x.monitor] == plan then rest else [x] + rest
  }

  function RetainedFor(
    checks: seq<Check>, owners: map<MonitorId, StoredPlan>, now: int, plans: seq<StoredPlan>): seq<Check>
  {
    if checks == [] then []
    else
      var x, rest := checks[0], RetainedFor(checks[1..], owners, now, plans);
      if Expired(x, owners, now) && owners[x.monitor] in plans then rest else [x] + rest
  }

  lemma {:induction false} DeleteOnePlan(
    checks: seq<Check>, owners: map<MonitorId, StoredPlan>, now: int, plans: seq<StoredPlan>, plan: StoredPlan)
    ensures DeletePlan(RetainedFor(checks, owners, now, plans), owners, now, plan)
            == RetainedFor(checks, owners, now, plans + [plan])
  {
    if checks != [] {
      DeleteOnePlan(checks[1..], owners, now, plans, plan);
      var kept := RetainedFor(checks[1..], owners, now, plans);
      assert ([checks[0]] + kept)[1..] == kept;
    }
  }

  lemma {:induction false} NothingDeleted(checks: seq<Check>, owners: map<MonitorId, StoredPlan>, now: int)
    ensures RetainedFor(checks, owners, now, []) == checks
  {
    if checks != [] {
      NothingDeleted(checks[1..], owners, now);
    }
  }

  lemma {:induction false} AllPlansDeleted(
    checks: seq<Check>, owners: map<MonitorId, StoredPlan>, now: int, plans: seq<StoredPlan>)
    requires Free in plans && Starter in plans && Pro in plans && Legacy in plans
    ensures RetainedFor(checks, owners, now, plans) == Retained(checks, owners, now)
  {
    if checks != [] {
      AllPlansDeleted(checks[1..], owners, now, plans);
      var x := checks[0];
      assert x.monitor in owners ==> owners[x.monitor].Free? || owners[x.monitor].Starter?
                                     || owners[x.monitor].Pro? || owners[x.monitor].Legacy?;
    }
  }
}
