/**
 * An account as the Python code updates it: user columns and monitor rows assigned in place, in the loops
 * of fit_to_limits and expire_due. Every method is tied to the event of Trial that it performs.
 */
module Accounts {
  import opened Common
  import opened Plans
  import opened PlanFitting
  import opened Trial

  /** What fit_to_limits reports. */
  datatype Counts = Counts(resumed: nat, paused: nat, raised: nat)

  // ---- The two loops of fit_to_limits, part way ------------------------------------------------------

  /** How many of the first `i` monitors of `ids` are in `hits`. */
  function CountIn(ids: seq<MonitorId>, hits: set<MonitorId>, i: nat): nat
    requires i <= |ids|
  {
    if i == 0 then 0 else CountIn(ids, hits, i - 1) + if ids[i - 1] in hits then 1 else 0
  }

  function Idle(f: Fleet): set<MonitorId> {
    f.rows.Keys - Running(f)
  }

  function TooFast(f: Fleet, limits: PlanLimits): set<MonitorId> {
    set id | id in f.rows && f.rows[id].intervalSeconds < limits.minIntervalSeconds
  }

  /** The monitors that CountIn counts. */
  ghost function Hits(ids: seq<MonitorId>, hits: set<MonitorId>, i: nat): set<MonitorId>
    requires i <= |ids|
  {
    if i == 0 then {}
    else if ids[i - 1] in hits then Hits(ids, hits, i - 1) + {ids[i - 1]}
    else Hits(ids, hits, i - 1)
  }

  lemma {:induction false} HitsMember(ids: seq<MonitorId>, hits: set<MonitorId>, i: nat, x: MonitorId)
    requires i <= |ids|
    ensures x in Hits(ids, hits, i) <==> x in hits && x in ids[..i]
  {
    if i > 0 {
      HitsMember(ids, hits, i - 1, x);
      assert ids[..i] == ids[..i - 1] + [ids[i - 1]];
    }
  }

  lemma {:induction false} CountInIsSize(ids: seq<MonitorId>, hits: set<MonitorId>, i: nat)
    requires Distinct(ids) && i <= |ids|
    ensures CountIn(ids, hits, i) == |Hits(ids, hits, i)|
  {
    if i > 0 {
      CountInIsSize(ids, hits, i - 1);
      HitsMember(ids, hits, i - 1, ids[i - 1]);
    }
  }

  lemma CountInAll(ids: seq<MonitorId>, hits: set<MonitorId>, found: set<MonitorId>)
    requires Distinct(ids) && forall x :: x in found <==> x in hits && x in ids
    ensures CountIn(ids, hits, |ids|) == |found|
  {
    CountInIsSize(ids, hits, |ids|);
    assert ids[..|ids|] == ids;
    forall x ensures x in found <==> x in Hits(ids, hits, |ids|) {
      HitsMember(ids, hits, |ids|, x);
    }
    assert found == Hits(ids, hits, |ids|);
  }

  function AfterRun(f: Fleet, run: seq<MonitorId>, limits: PlanLimits, now: int, i: nat, id: MonitorId): Monitor
    requires id in f.rows
  {
    if id in run && IndexOf(run, id) < i
    then KeptRow(f.rows[id], limits, ResumedBefore(run, f.rows, IndexOf(run, id)), now)
    else f.rows[id]
  }

  function AfterPause(f: Fleet, fit: Fit, limits: PlanLimits, reason: string, now: int, j: nat, id: MonitorId): Monitor
    requires id in f.rows
  {
    if id in fit.pause && IndexOf(fit.pause, id) < j then PausedRow(f.rows[id], reason)
    else AfterRun(f, fit.run, limits, now, |fit.run|, id)
  }

  lemma AfterRunStep(f: Fleet, run: seq<MonitorId>, limits: PlanLimits, now: int, i: nat, id: MonitorId)
    requires Distinct(run) && i < |run| && id in f.rows
    ensures AfterRun(f, run, limits, now, i + 1, id)
            == if id == run[i] then KeptRow(f.rows[id], limits, ResumedBefore(run, f.rows, i), now)
               else AfterRun(f, run, limits, now, i, id)
    ensures id == run[i] ==> AfterRun(f, run, limits, now, i, id) == f.rows[id]
  {
    IndexOfAt(run, i);
  }

  ghost predicate RowsAfterRun(
    rows: map<MonitorId, Monitor>, f: Fleet, run: seq<MonitorId>, limits: PlanLimits, now: int, i: nat)
  {
    rows.Keys == f.rows.Keys && forall id :: id in f.rows ==> rows[id] == AfterRun(f, run, limits, now, i, id)
  }

  ghost predicate RowsAfterPause(
    rows: map<MonitorId, Monitor>, f: Fleet, fit: Fit, limits: PlanLimits, reason: string, now: int, j: nat)
  {
    rows.Keys == f.rows.Keys && forall id :: id in f.rows ==> rows[id] == AfterPause(f, fit, limits, reason, now, j, id)
  }

  lemma RowsAfterOneMore(
    rows: map<MonitorId, Monitor>, f: Fleet, run: seq<MonitorId>, limits: PlanLimits, now: int, i: nat, m: Monitor)
    requires Distinct(run) && i < |run| && run[i] in f.rows && RowsAfterRun(rows, f, run, limits, now, i)
    requires m == KeptRow(f.rows[run[i]], limits, ResumedBefore(run, f.rows, i), now)
    ensures RowsAfterRun(rows[run[i] := m], f, run, limits, now, i + 1)
  {
    forall x | x in f.rows ensures rows[run[i] := m][x] == AfterRun(f, run, limits, now, i + 1, x) {
      AfterRunStep(f, run, limits, now, i, x);
    }
  }

  lemma LoopsMakeRefitRow(f: Fleet, limits: PlanLimits, reason: string, now: int, id: MonitorId)
    requires f.Valid() && id in f.rows
    ensures var fit := PlanFit(f, limits);
            AfterPause(f, fit, limits, reason, now, |fit.pause|, id) == RefitRow(f, fit, limits, reason, now, id)
  {
    FitPartitions(f, limits);
  }

  lemma LoopsMakeRefit(
    rows: map<MonitorId, Monitor>, f: Fleet, fit: Fit, limits: PlanLimits, reason: string, now: int)
    requires f.Valid() && fit == PlanFit(f, limits)
    requires RowsAfterPause(rows, f, fit, limits, reason, now, |fit.pause|)
    ensures rows == Refit(f, limits, reason, now).rows
  {
    var g := Refit(f, limits, reason, now);
    forall id | id in f.rows ensures rows[id] == g.rows[id] {
      LoopsMakeRefitRow(f, limits, reason, now, id);
    }
  }

  /** A choice the loops can follow: no repeats, known monitors, nobody both run and paused. */
  predicate ChoiceOf(f: Fleet, fit: Fit) {
    && Distinct(fit.run) && Distinct(fit.pause)
    && (forall id :: id in fit.run ==> id in f.rows)
    && (forall id :: id in fit.pause ==> id in f.rows && id !in fit.run)
  }

  /**
   * The counters count the monitors that started running, that stopped running, and that run now but were
   * checked too often before.
   */
  predicate Measures(counts: Counts, before: Fleet, after: Fleet, limits: PlanLimits) {
    && counts.resumed == |Running(after) - Running(before)|
    && counts.paused == |Running(before) - Running(after)|
    && counts.raised == |Running(after) * TooFast(before, limits)|
  }

  lemma FitLists(f: Fleet, limits: PlanLimits)
    requires f.Valid()
    ensures ChoiceOf(f, PlanFit(f, limits))
  {
    RunListDistinct(f, limits);
    FitPartitions(f, limits);
    var cands := Candidates(f.order, f.rows);
    forall id | id in PlanFit(f, limits).run ensures id in f.rows {
      assert id in cands;
    }
  }

  lemma CountersOfSplit(run: seq<MonitorId>, pause: seq<MonitorId>, all: set<MonitorId>, was: set<MonitorId>)
    requires Distinct(run) && Distinct(pause) && Elements(run) <= all && Elements(run) !! Elements(pause)
    requires was <= all && was <= Elements(run) + Elements(pause)
    ensures CountIn(run, all - was, |run|) == |Elements(run) - was|
    ensures CountIn(pause, was, |pause|) == |was - Elements(run)|
  {
    CountInAll(run, all - was, Elements(run) - was);
    CountInAll(pause, was, was - Elements(run));
  }

  /** What the counters of fit_to_limits count. */
  lemma CountersMeasureTheRefit(f: Fleet, limits: PlanLimits, reason: string, now: int)
    requires f.Valid() && IsPlanReason(reason)
    ensures var fit := PlanFit(f, limits);
            var was, after := Running(f), Running(Refit(f, limits, reason, now));
            && CountIn(fit.run, Idle(f), |fit.run|) == |after - was|
            && CountIn(fit.pause, was, |fit.pause|) == |was - after|
            && CountIn(fit.run, TooFast(f, limits), |fit.run|) == |after * TooFast(f, limits)|
  {
    var fit := PlanFit(f, limits);
    RefitRunsTheRunList(f, limits, reason, now);
    FitLists(f, limits);
    RunningIsSplit(f, limits);
    CountersOfSplit(fit.run, fit.pause, f.rows.Keys, Running(f));
    CountInAll(fit.run, TooFast(f, limits), Elements(fit.run) * TooFast(f, limits));
  }

  lemma RunningIsSplit(f: Fleet, limits: PlanLimits)
    requires f.Valid()
    ensures var fit := PlanFit(f, limits); Running(f) <= Elements(fit.run) + Elements(fit.pause)
  {
    FitPartitions(f, limits);
    forall id | id in Running(f) ensures id in Candidates(f.order, f.rows) {
      assert id in Elements(f.order);
    }
  }

  lemma FitDone(
    f: Fleet, fit: Fit, rows: map<MonitorId, Monitor>, limits: PlanLimits, reason: string, now: int, counts: Counts)
    requires f.Valid() && fit == PlanFit(f, limits)
    requires RowsAfterPause(rows, f, fit, limits, reason, now, |fit.pause|)
    requires counts.resumed == CountIn(fit.run, Idle(f), |fit.run|)
    requires counts.paused == CountIn(fit.pause, Running(f), |fit.pause|)
    requires counts.raised == CountIn(fit.run, TooFast(f, limits), |fit.run|)
    ensures f.(rows := rows) == Refit(f, limits, reason, now)
    ensures IsPlanReason(reason) ==> Measures(counts, f, f.(rows := rows), limits)
  {
    LoopsMakeRefit(rows, f, fit, limits, reason, now);
    if IsPlanReason(reason) {
      CountersMeasureTheRefit(f, limits, reason, now);
    }
  }

  class Account {
    var plan: PlanType
    var emailVerified: bool
    var trialUsed: bool
    var trialOffer: bool
    var trialEndsAt: Option<int>
    var trialReminderSentAt: Option<int>
    var trialExpiredAt: Option<int>
    var subscription: Option<SubscriptionStatus>
    var subscriptionId: Option<string>
    var periodEnd: Option<int>
    var projects: seq<ProjectId>
    var order: seq<MonitorId>
    var rows: map<MonitorId, Monitor>

    constructor (fromSiteCheck: bool)
      ensures forall now :: SignedUp(State(now)) && trialOffer == fromSiteCheck
    {
      plan, emailVerified, trialUsed, trialOffer := Free, false, false, fromSiteCheck;
      trialEndsAt, trialReminderSentAt, trialExpiredAt := None, None, None;
      subscription, subscriptionId, periodEnd := None, None, None;
      projects, order, rows := [], [], map[];
    }

    function User(): UserRow
      reads this
    {
      UserRow(plan, emailVerified, trialUsed, trialOffer, trialEndsAt, trialReminderSentAt, trialExpiredAt,
              subscription, subscriptionId, periodEnd)
    }

    function Monitors(): Fleet
      reads this
    {
      Fleet(projects, order, rows)
    }

    function State(now: int): AccountState
      reads this
    {
      AccountState(now, User(), Monitors())
    }

    /** start. */
    method Start(now: int) returns (outcome: StartOutcome)
      modifies this`trialUsed, this`trialOffer, this`trialEndsAt, this`trialReminderSentAt, this`trialExpiredAt
      ensures User() == StartTrial(old(User()), now) && outcome == StartOutcomeOf(old(User()), now)
      ensures outcome.Started? <==> old(Eligible(User()))
    {
      if plan != Free {
        return AlreadyPaid;
      }
      if !emailVerified {
        return Unverified;
      }
      if trialUsed {
        return AlreadyUsed;
      }
      trialUsed, trialOffer := true, false;
      trialEndsAt, trialReminderSentAt, trialExpiredAt := Some(now + TRIAL_SECONDS), None, None;
      outcome := Started(now + TRIAL_SECONDS);
    }

    /** One monitor on the run list. */
    static method KeepOne(row: Monitor, limits: PlanLimits, before: nat, now: int)
      returns (m: Monitor, raised: nat, resumed: nat)
      ensures m == KeptRow(row, limits, before, now)
      ensures raised == (if row.intervalSeconds < limits.minIntervalSeconds then 1 else 0)
      ensures resumed == (if row.active then 0 else 1)
    {
      m, raised, resumed := row, 0, 0;
      if m.intervalSeconds < limits.minIntervalSeconds {
        m := m.(intervalSeconds := limits.minIntervalSeconds);
        raised := 1;
      }
      if !m.active {
        m := m.(active := true, pausedReason := None,
                nextCheckAt := Some(now + Min(before * RESUME_STAGGER_SECONDS, RESUME_STAGGER_CAP)));
        resumed := 1;
      }
    }

    /** The first loop of fit_to_limits: raise intervals and resume. */
    method KeepRunning(run: seq<MonitorId>, limits: PlanLimits, now: int) returns (resumed: nat, raised: nat)
      requires Distinct(run) && forall id :: id in run ==> id in rows
      modifies this`rows
      ensures RowsAfterRun(rows, old(Monitors()), run, limits, now, |run|)
      ensures resumed == CountIn(run, Idle(old(Monitors())), |run|)
      ensures raised == CountIn(run, TooFast(old(Monitors()), limits), |run|)
    {
      ghost var f := Monitors();
      resumed, raised := 0, 0;
      for i := 0 to |run|
        invariant RowsAfterRun(rows, f, run, limits, now, i)
        invariant resumed == ResumedBefore(run, f.rows, i) == CountIn(run, Idle(f), i)
        invariant raised == CountIn(run, TooFast(f, limits), i)
      {
        AfterRunStep(f, run, limits, now, i, run[i]);
        var m, isRaised, isResumed := KeepOne(rows[run[i]], limits, resumed, now);
        RowsAfterOneMore(rows, f, run, limits, now, i, m);
        rows := rows[run[i] := m];
        raised, resumed := raised + isRaised, resumed + isResumed;
      }
    }

    /** The second loop: pause what does not fit. */
    method PauseRest(ghost f: Fleet, ghost limits: PlanLimits, fit: Fit, reason: string, ghost now: int)
      returns (paused: nat)
      requires Distinct(fit.pause) && forall id :: id in fit.pause ==> id in f.rows && id !in fit.run
      requires RowsAfterRun(rows, f, fit.run, limits, now, |fit.run|)
      modifies this`rows
      ensures RowsAfterPause(rows, f, fit, limits, reason, now, |fit.pause|)
      ensures paused == CountIn(fit.pause, Running(f), |fit.pause|)
    {
      paused := 0;
      for j := 0 to |fit.pause|
        invariant RowsAfterPause(rows, f, fit, limits, reason, now, j)
        invariant paused == CountIn(fit.pause, Running(f), j)
      {
        var id := fit.pause[j];
        IndexOfAt(fit.pause, j);
        assert rows[id] == f.rows[id];
        if rows[id].active {
          rows := rows[id := rows[id].(active := false, pausedReason := Some(reason))];
          paused := paused + 1;
        }
        forall x | x in f.rows ensures rows[x] == AfterPause(f, fit, limits, reason, now, j + 1, x) {
        }
      }
    }

    /** Both loops, for a given choice. */
    method Follow(fit: Fit, limits: PlanLimits, reason: string, now: int) returns (counts: Counts)
      requires ChoiceOf(Monitors(), fit)
      modifies this`rows
      ensures RowsAfterPause(rows, old(Monitors()), fit, limits, reason, now, |fit.pause|)
      ensures counts == Counts(CountIn(fit.run, Idle(old(Monitors())), |fit.run|),
                               CountIn(fit.pause, Running(old(Monitors())), |fit.pause|),
                               CountIn(fit.run, TooFast(old(Monitors()), limits), |fit.run|))
    {
      ghost var f := Monitors();
      var resumed, raised := KeepRunning(fit.run, limits, now);
      var paused := PauseRest(f, limits, fit, reason, now);
      counts := Counts(resumed, paused, raised);
    }

    /** fit_to_limits. */
    method FitMonitors(reason: string, now: int) returns (counts: Counts)
      requires Monitors().Valid()
      modifies this`rows
      ensures Monitors() == Refit(old(Monitors()), GetLimits(User(), now), reason, now)
      ensures IsPlanReason(reason) ==> Measures(counts, old(Monitors()), Monitors(), GetLimits(User(), now))
    {
      var limits := GetLimits(User(), now);
      var fit := PlanFit(Monitors(), limits);
      FitLists(Monitors(), limits);
      counts := Follow(fit, limits, reason, now);
      FitDone(old(Monitors()), fit, rows, limits, reason, now, counts);
    }

    /** paused_by_plan. */
    function PausedByPlanCount(): (n: nat)
      reads this
      ensures n == 0 <==> !AnyPausedByPlan(Monitors())
    {
      var paused := set id | id in rows && PausedByPlan(rows[id]);
      assert paused != {} ==> exists id :: id in paused && id in rows;
      assert forall id :: id in rows && PausedByPlan(rows[id]) ==> id in paused;
      |paused|
    }

    /** clear_for_paid_plan. */
    method ClearTrial(now: int) returns (changed: Option<Counts>)
      requires Monitors().Valid()
      modifies this`trialEndsAt, this`trialOffer, this`rows
      ensures State(now) == ClearForPaidPlan(old(State(now)))
      ensures changed == None ==> State(now) == old(State(now))
    {
      if plan == Free {
        return None;
      }
      var hadTrial := trialEndsAt.Some?;
      if hadTrial {
        trialEndsAt, trialOffer := None, false;
      }
      if !hadTrial && PausedByPlanCount() == 0 {
        return None;
      }
      var counts := FitMonitors(PAUSED_PLAN_LIMIT, now);
      changed := Some(counts);
    }

    /** _apply_subscription_to_user. */
    method ApplySubscription(c: Settings, sub: Subscription, now: int)
      requires Monitors().Valid()
      modifies this
      ensures State(now) == Apply(c, old(State(now)), Webhook(sub))
    {
      var bought := PlanForPrice(c, sub.priceId);
      subscriptionId, periodEnd := sub.id, sub.periodEnd;
      if sub.status == Some(Incomplete) && ActiveState(subscription) {
      } else {
        subscription := sub.status;
      }
      if bought.Some? && ActiveState(sub.status) {
        plan := bought.value;
      } else if EndedState(sub.status) {
        plan := Free;
      }
      var _ := ClearTrial(now);
    }

    /** The body of the expire_due loop, for an account the query may or may not select. */
    method ExpireOne(now: int) returns (due: bool)
      requires Monitors().Valid()
      modifies this`rows, this`trialExpiredAt
      ensures due == old(ExpiryDue(User(), now))
      ensures State(now) == Expire(old(State(now)))
    {
      due := ExpiryDue(User(), now);
      if due {
        var _ := FitMonitors(PAUSED_TRIAL_ENDED, now);
        trialExpiredAt := Some(now);
      }
    }

    /** The customer.subscription.deleted branch of the webhook. */
    method OnSubscriptionDeleted(c: Settings, now: int)
      modifies this`plan, this`subscription, this`subscriptionId, this`periodEnd
      ensures State(now) == Apply(c, old(State(now)), SubscriptionDeleted)
    {
      plan := Free;
      subscription := Some(Canceled);
      subscriptionId, periodEnd := None, None;
    }

    /** The invoice.payment_failed branch. */
    method OnPaymentFailed(c: Settings, now: int)
      modifies this`subscription
      ensures State(now) == Apply(c, old(State(now)), PaymentFailed)
    {
      subscription := Some(PastDue);
    }
  }

  /** The query of expire_due selects account `i`: it is due and no other session holds its row. */
  predicate Selected(accounts: seq<AccountState>, locked: set<nat>, i: nat)
    requires i < |accounts|
  {
    i !in locked && ExpiryDue(accounts[i].user, accounts[i].now)
  }

  /** How many of the first `n` accounts are selected. */
  function SelectedCount(accounts: seq<AccountState>, locked: set<nat>, n: nat): nat
    requires n <= |accounts|
  {
    if n == 0 then 0
    else SelectedCount(accounts, locked, n - 1) + if Selected(accounts, locked, n - 1) then 1 else 0
  }

  predicate AllValid(accounts: seq<AccountState>) {
    accounts == [] || (AllValid(accounts[..|accounts| - 1]) && accounts[|accounts| - 1].fleet.Valid())
  }

  lemma {:induction false} ValidAt(accounts: seq<AccountState>, i: nat)
    requires i < |accounts| && AllValid(accounts)
    ensures accounts[i].fleet.Valid()
  {
    if i < |accounts| - 1 {
      ValidAt(accounts[..|accounts| - 1], i);
    }
  }

  /** What a run of expire_due makes of account `i`. */
  function ExpiredAt(accounts: seq<AccountState>, locked: set<nat>, i: nat): AccountState
    requires i < |accounts|
  {
    if Selected(accounts, locked, i) then Expire(accounts[i]) else accounts[i]
  }

  function Expired(accounts: seq<AccountState>, locked: set<nat>, n: nat): (after: seq<AccountState>)
    requires n <= |accounts|
    ensures |after| == n
  {
    if n == 0 then [] else Expired(accounts, locked, n - 1) + [ExpiredAt(accounts, locked, n - 1)]
  }

  lemma {:induction false} ExpiredIndex(accounts: seq<AccountState>, locked: set<nat>, n: nat, i: nat)
    requires i < n <= |accounts|
    ensures Expired(accounts, locked, n)[i] == ExpiredAt(accounts, locked, i)
  {
    if i < n - 1 {
      ExpiredIndex(accounts, locked, n - 1, i);
    }
  }

  function States(accounts: seq<Account>, now: int): (states: seq<AccountState>)
    reads accounts
    ensures |states| == |accounts| && forall i :: 0 <= i < |accounts| ==> states[i] == accounts[i].State(now)
  {
    if accounts == [] then [] else States(accounts[..|accounts| - 1], now) + [accounts[|accounts| - 1].State(now)]
  }

  /** One turn of the expire_due loop; an account that is locked elsewhere is passed over. */
  method ExpireTurn(account: Account, now: int, locked: set<nat>, i: nat, ghost was: seq<AccountState>)
    returns (selected: bool)
    requires i < |was| && was[i].fleet.Valid() && account.State(now) == was[i]
    modifies account`rows, account`trialExpiredAt
    ensures account.State(now) == ExpiredAt(was, locked, i)
    ensures selected == Selected(was, locked, i)
  {
    assert account.Monitors() == was[i].fleet && account.User() == was[i].user;
    selected := false;
    if i !in locked {
      selected := account.ExpireOne(now);
    }
  }

  /** The loop of expire_due. */
  method ExpireEach(accounts: seq<Account>, now: int, locked: set<nat>, ghost was: seq<AccountState>)
    returns (ended: nat)
    requires Distinct(accounts) && |was| == |accounts|
    requires forall j :: 0 <= j < |accounts| ==> accounts[j].State(now) == was[j] && was[j].fleet.Valid()
    modifies accounts
    ensures forall j :: 0 <= j < |accounts| ==> accounts[j].State(now) == ExpiredAt(was, locked, j)
    ensures ended == SelectedCount(was, locked, |accounts|)
  {
    ended := 0;
    for i := 0 to |accounts|
      invariant forall j :: 0 <= j < i ==> accounts[j].State(now) == ExpiredAt(was, locked, j)
      invariant forall j :: i <= j < |accounts| ==> unchanged(accounts[j])
      invariant ended == SelectedCount(was, locked, i)
    {
      var account := accounts[i];
      assert account.State(now) == was[i];
      label Turn:
      var selected := ExpireTurn(account, now, locked, i, was);
      forall j | 0 <= j < |accounts| && j != i ensures unchanged@Turn(accounts[j]) {
        assert accounts[j] != account;
      }
      if selected {
        ended := ended + 1;
      }
    }
  }

  /** expire_due over all accounts; `locked` are the positions skipped because another session holds them. */
  method ExpireDue(accounts: seq<Account>, now: int, locked: set<nat>) returns (ended: nat)
    requires Distinct(accounts) && AllValid(States(accounts, now))
    modifies accounts
    ensures forall i :: 0 <= i < |accounts| ==>
              accounts[i].State(now) == Expired(old(States(accounts, now)), locked, |accounts|)[i]
    ensures ended == SelectedCount(old(States(accounts, now)), locked, |accounts|)
  {
    ghost var was := States(accounts, now);
    forall i | 0 <= i < |accounts| ensures was[i].fleet.Valid() {
      ValidAt(was, i);
    }
    ended := ExpireEach(accounts, now, locked, was);
    forall i | 0 <= i < |accounts| ensures Expired(was, locked, |accounts|)[i] == ExpiredAt(was, locked, i) {
      ExpiredIndex(was, locked, |accounts|, i);
    }
  }
}
