/**
 * The trial and billing lifecycle of one account (app/services/trial.py, app/services/plans.py,
 * app/api/routes/billing.py), and what holds over every sequence of its events. Times are in seconds.
 */
module Trial {
  import opened Common
  import opened Plans
  import opened PlanFitting

  const TRIAL_SECONDS := TRIAL_DAYS * 86400

  datatype SubscriptionStatus =
    | Active | Trialing | PastDue | Canceled | Incomplete | IncompleteExpired | Unpaid

  datatype UserRow = UserRow(
    plan: PlanType, emailVerified: bool, trialUsed: bool, trialOffer: bool,
    trialEndsAt: Option<int>, trialReminderSentAt: Option<int>, trialExpiredAt: Option<int>,
    subscription: Option<SubscriptionStatus>, subscriptionId: Option<string>, periodEnd: Option<int>)

  type GoodFleet = f: Fleet | f.Valid() witness Fleet([], [], map[])

  datatype AccountState = AccountState(now: int, user: UserRow, fleet: Fleet)

  /** A new account: Free, unverified, no trial used. */
  predicate SignedUp(a: AccountState) {
    a.fleet.Valid() && a.user == UserRow(Free, false, false, a.user.trialOffer, None, None, None, None, None, None)
  }

  // ---- Limits in force -------------------------------------------------------------------------

  predicate TrialActive(user: UserRow, now: int) {
    user.plan == Free && user.trialEndsAt.Some? && user.trialEndsAt.value > now
  }

  function GetLimits(user: UserRow, now: int): PlanLimits {
    if TrialActive(user, now) then TRIAL_LIMITS else PlanLimitsOf(user.plan)
  }

  predicate OnTrialLimits(user: UserRow, now: int) {
    GetLimits(user, now) == TRIAL_LIMITS
  }

  /** What every account may run: the paid plans, a running trial, and Free. */
  lemma LimitsInNumbers(user: UserRow, now: int)
    ensures GetLimits(user, now)
            == match user.plan {
                 case Pro => PlanLimits(Some(50), 200, 30)
                 case Starter => PlanLimits(Some(10), 40, 60)
                 case Free =>
                   if user.trialEndsAt.Some? && now < user.trialEndsAt.value then PlanLimits(Some(50), 100, 60)
                   else PlanLimits(Some(1), 3, 300)
               }
  {
  }

  // ---- Starting ----------------------------------------------------------------------------------

  datatype StartOutcome = Started(endsAt: int) | AlreadyPaid | Unverified | AlreadyUsed

  predicate Eligible(user: UserRow) {
    user.emailVerified && !user.trialUsed && user.plan == Free
  }

  function StartOutcomeOf(user: UserRow, now: int): StartOutcome {
    if user.plan != Free then AlreadyPaid
    else if !user.emailVerified then Unverified
    else if user.trialUsed then AlreadyUsed
    else Started(now + TRIAL_SECONDS)
  }

  function StartTrial(user: UserRow, now: int): UserRow {
    match StartOutcomeOf(user, now)
    case Started(endsAt) =>
      user.(trialUsed := true, trialOffer := false, trialEndsAt := Some(endsAt),
            trialReminderSentAt := None, trialExpiredAt := None)
    case _ => user
  }

  // ---- Subscription events -----------------------------------------------------------------------

  datatype Settings = Settings(starterPriceId: string, proPriceId: string)

  /** What a webhook reads from a Stripe subscription. */
  datatype Subscription = Subscription(
    id: Option<string>, periodEnd: Option<int>, priceId: Option<string>, status: Option<SubscriptionStatus>)

  function PlanForPrice(c: Settings, priceId: Option<string>): (plan: Option<PlanType>)
    ensures plan != Some(Free)
  {
    if priceId == None || priceId.value == "" then None
    else if priceId.value == c.starterPriceId then Some(Starter)
    else if priceId.value == c.proPriceId then Some(Pro)
    else None
  }

  predicate ActiveState(status: Option<SubscriptionStatus>) {
    status == Some(Active) || status == Some(Trialing)
  }

  predicate EndedState(status: Option<SubscriptionStatus>) {
    status == Some(Canceled) || status == Some(IncompleteExpired) || status == Some(Unpaid)
  }

  /** The plan and status part of _apply_subscription_to_user. */
  function Subscribed(c: Settings, user: UserRow, sub: Subscription): UserRow {
    var plan := PlanForPrice(c, sub.priceId);
    user.(
      subscriptionId := sub.id, periodEnd := sub.periodEnd,
      subscription := if sub.status == Some(Incomplete) && ActiveState(user.subscription) then user.subscription
                      else sub.status,
      plan := if plan.Some? && ActiveState(sub.status) then plan.value
              else if EndedState(sub.status) then Free
              else user.plan)
  }

  predicate PausedByPlan(m: Monitor) {
    !m.active && m.pausedReason.Some? && IsPlanReason(m.pausedReason.value)
  }

  predicate AnyPausedByPlan(f: Fleet) {
    exists id :: id in f.rows && PausedByPlan(f.rows[id])
  }

  function FitToLimits(a: AccountState, reason: string): Fleet {
    Refit(a.fleet, GetLimits(a.user, a.now), reason, a.now)
  }

  /** clear_for_paid_plan: end any trial on a paid account and fit its monitors, if there is a reason to. */
  function ClearForPaidPlan(a: AccountState): AccountState {
    var hadTrial := a.user.trialEndsAt.Some?;
    if a.user.plan == Free || (!hadTrial && !AnyPausedByPlan(a.fleet)) then a
    else
      var b := if hadTrial then a.(user := a.user.(trialEndsAt := None, trialOffer := false)) else a;
      b.(fleet := FitToLimits(b, PAUSED_PLAN_LIMIT))
  }

  // ---- Expiry ------------------------------------------------------------------------------------

  predicate ExpiryDue(user: UserRow, now: int) {
    user.plan == Free && user.trialEndsAt.Some? && user.trialEndsAt.value <= now && user.trialExpiredAt == None
  }

  function Expire(a: AccountState): AccountState {
    if ExpiryDue(a.user, a.now)
    then a.(fleet := FitToLimits(a, PAUSED_TRIAL_ENDED), user := a.user.(trialExpiredAt := Some(a.now)))
    else a
  }

  const REMINDER_BEFORE := 3 * 86400

  /** send_reminders picks the account: a running trial that ends within three days, not reminded yet. */
  predicate ReminderDue(user: UserRow, now: int) {
    && user.plan == Free && user.emailVerified
    && user.trialEndsAt.Some? && now < user.trialEndsAt.value <= now + REMINDER_BEFORE
    && user.trialReminderSentAt == None
  }

  function Reminded(a: AccountState): AccountState {
    if ReminderDue(a.user, a.now) then a.(user := a.user.(trialReminderSentAt := Some(a.now))) else a
  }

  // ---- Runs ----------------------------------------------------------------------------------------

  /** `EditFleet`: anything the user does to projects and monitors. */
  datatype Event =
    | Tick(seconds: nat)
    | VerifyEmail
    | ClickStart
    | DismissOffer
    | Webhook(sub: Subscription)
    | SubscriptionDeleted
    | PaymentFailed
    | Housekeeping
    | Remind(delivered: bool)
    | EditFleet(fleet: GoodFleet)

  function Apply(c: Settings, a: AccountState, e: Event): AccountState {
    match e
    case Tick(d) => a.(now := a.now + d)
    case VerifyEmail => a.(user := a.user.(emailVerified := true))
    case ClickStart => a.(user := StartTrial(a.user, a.now))
    case DismissOffer => a.(user := a.user.(trialOffer := false))
    case Webhook(sub) => ClearForPaidPlan(a.(user := Subscribed(c, a.user, sub)))
    case SubscriptionDeleted =>
      a.(user := a.user.(plan := Free, subscription := Some(Canceled), subscriptionId := None, periodEnd := None))
    case PaymentFailed => a.(user := a.user.(subscription := Some(PastDue)))
    case Housekeeping => Expire(a)
    case Remind(delivered) => if delivered then Reminded(a) else a
    case EditFleet(fleet) => a.(fleet := fleet)
  }

  function Final(c: Settings, a: AccountState, events: seq<Event>): AccountState
    decreases |events|
  {
    if events == [] then a else Final(c, Apply(c, a, events[0]), events[1..])
  }

  /** How many of the seconds [from, from + d) are spent under trial limits. */
  function ActiveSeconds(user: UserRow, from: int, d: nat): nat {
    if d == 0 then 0 else ActiveSeconds(user, from, d - 1) + if OnTrialLimits(user, from + d - 1) then 1 else 0
  }

  /** Seconds of the run spent under trial limits. */
  function TrialSeconds(c: Settings, a: AccountState, events: seq<Event>): nat
    decreases |events|
  {
    if events == [] then 0
    else (if events[0].Tick? then ActiveSeconds(a.user, a.now, events[0].seconds) else 0)
         + TrialSeconds(c, Apply(c, a, events[0]), events[1..])
  }

  /** How often a click starts a trial, and how often housekeeping ends one, over a run. */
  function Starts(c: Settings, a: AccountState, events: seq<Event>): nat
    decreases |events|
  {
    if events == [] then 0
    else (if events[0].ClickStart? && StartOutcomeOf(a.user, a.now).Started? then 1 else 0)
         + Starts(c, Apply(c, a, events[0]), events[1..])
  }

  function Expiries(c: Settings, a: AccountState, events: seq<Event>): nat
    decreases |events|
  {
    if events == [] then 0
    else (if events[0].Housekeeping? && ExpiryDue(a.user, a.now) then 1 else 0)
         + Expiries(c, Apply(c, a, events[0]), events[1..])
  }

  /** How many reminders are delivered over a run; one that fails is tried again later. */
  function Reminders(c: Settings, a: AccountState, events: seq<Event>): nat
    decreases |events|
  {
    if events == [] then 0
    else (if events[0] == Remind(true) && ReminderDue(a.user, a.now) then 1 else 0)
         + Reminders(c, Apply(c, a, events[0]), events[1..])
  }

  // ---- What single events do -------------------------------------------------------------------------

  /**
   * A start gives a verified Free account that never had a trial fourteen days. It changes no other account
   * and tells it why: paid first, then unverified, then used.
   */
  lemma StartGivesFourteenDays(c: Settings, a: AccountState)
    ensures var b := Apply(c, a, ClickStart);
            b == if a.user.plan == Free && a.user.emailVerified && !a.user.trialUsed
                 then a.(user := a.user.(trialUsed := true, trialOffer := false,
                                         trialEndsAt := Some(a.now + 14 * 24 * 3600),
                                         trialReminderSentAt := None, trialExpiredAt := None))
                 else a
    ensures var outcome := StartOutcomeOf(a.user, a.now);
            && (outcome == AlreadyPaid <==> a.user.plan != Free)
            && (outcome == Unverified <==> a.user.plan == Free && !a.user.emailVerified)
            && (outcome == AlreadyUsed <==> a.user.plan == Free && a.user.emailVerified && a.user.trialUsed)
            && (outcome.Started? ==> outcome.endsAt == a.now + 14 * 24 * 3600)
  {
  }

  /**
   * The next housekeeping after the end of a trial takes a Free account to one project, three monitors and
   * five minutes; it leaves every other account alone.
   */
  lemma EndedTrialIsExpired(c: Settings, a: AccountState)
    requires a.fleet.Valid()
    ensures var b := Apply(c, a, Housekeeping);
            if a.user.plan == Free && a.user.trialEndsAt.Some? && a.user.trialEndsAt.value <= a.now
               && a.user.trialExpiredAt == None
            then
              && b.user == a.user.(trialExpiredAt := Some(a.now))
              && Running(b.fleet) == Elements(RunList(a.fleet, PlanLimits(Some(1), 3, 300)))
              && (forall id :: id in b.fleet.rows && b.fleet.rows[id].active ==>
                    b.fleet.rows[id].intervalSeconds >= 300)
              && (forall id :: id in a.fleet.rows && id in b.fleet.rows
                               && a.fleet.rows[id].active && !b.fleet.rows[id].active ==>
                    b.fleet.rows[id].pausedReason == Some("trial_ended"))
            else b == a
  {
    if ExpiryDue(a.user, a.now) {
      var free := PlanLimits(Some(1), 3, 300);
      RefitRunsTheRunList(a.fleet, free, PAUSED_TRIAL_ENDED, a.now);
      RefitPreserves(a.fleet, free, PAUSED_TRIAL_ENDED, a.now);
      var b := Apply(c, a, Housekeeping);
      forall id | id in b.fleet.rows && b.fleet.rows[id].active ensures b.fleet.rows[id].intervalSeconds >= 300 {
        assert RowPreserved(a.fleet.rows[id], b.fleet.rows[id], free);
      }
      forall id | id in a.fleet.rows && id in b.fleet.rows && a.fleet.rows[id].active && !b.fleet.rows[id].active
        ensures b.fleet.rows[id].pausedReason == Some("trial_ended")
      {
        RefitRowExactly(a.fleet, free, PAUSED_TRIAL_ENDED, a.now, id);
      }
    }
  }

  /** A delivered reminder is recorded for a running trial in its last three days, once, and nothing else changes. */
  lemma RemindedInTheLastThreeDays(c: Settings, a: AccountState, delivered: bool)
    ensures var b := Apply(c, a, Remind(delivered));
            b == if delivered && a.user.plan == Free && a.user.emailVerified && a.user.trialReminderSentAt == None
                    && a.user.trialEndsAt.Some? && 0 < a.user.trialEndsAt.value - a.now <= 3 * 24 * 3600
                 then a.(user := a.user.(trialReminderSentAt := Some(a.now)))
                 else a
  {
  }

  // ---- What every event keeps ----------------------------------------------------------------------

  /** A trial date implies the one trial is spent; a paid plan has no trial date. */
  predicate Sound(a: AccountState) {
    && a.fleet.Valid()
    && (a.user.trialEndsAt.Some? ==> a.user.trialUsed)
    && (a.user.trialExpiredAt.Some? ==> a.user.trialUsed)
    && (a.user.trialReminderSentAt.Some? ==> a.user.trialUsed)
    && (a.user.plan != Free ==> a.user.trialEndsAt == None)
  }

  lemma RefitValid(f: Fleet, limits: PlanLimits, reason: string, now: int)
    requires f.Valid()
    ensures Refit(f, limits, reason, now).Valid()
  {
  }

  lemma ClearForPaidPlanSound(a: AccountState)
    requires a.fleet.Valid()
    ensures var b := ClearForPaidPlan(a);
            && b.fleet.Valid() && b.now == a.now
            && b.user == (if a.user.plan != Free && a.user.trialEndsAt.Some?
                          then a.user.(trialEndsAt := None, trialOffer := false) else a.user)
  {
    var b := a.(user := a.user.(trialEndsAt := None, trialOffer := false));
    RefitValid(a.fleet, GetLimits(a.user, a.now), PAUSED_PLAN_LIMIT, a.now);
    RefitValid(a.fleet, GetLimits(b.user, a.now), PAUSED_PLAN_LIMIT, a.now);
  }

  lemma EventKeepsSound(c: Settings, a: AccountState, e: Event)
    requires Sound(a)
    ensures Sound(Apply(c, a, e))
  {
    if e.Webhook? {
      ClearForPaidPlanSound(a.(user := Subscribed(c, a.user, e.sub)));
    } else if e.Housekeeping? {
      RefitValid(a.fleet, GetLimits(a.user, a.now), PAUSED_TRIAL_ENDED, a.now);
    }
  }

  /** Every reachable account on a paid plan has no trial end date, and a trial date means the trial is spent. */
  lemma {:induction false} PaidPlanHasNoTrialEnd(c: Settings, a: AccountState, events: seq<Event>)
    requires Sound(a)
    ensures Sound(Final(c, a, events))
    decreases |events|
  {
    if events != [] {
      EventKeepsSound(c, a, events[0]);
      PaidPlanHasNoTrialEnd(c, Apply(c, a, events[0]), events[1..]);
    }
  }

  // ---- At most fourteen days of trial ------------------------------------------------------------

  /** Trial time still to come: all of it, what is left of it, or none. */
  function Budget(a: AccountState): nat {
    if !a.user.trialUsed then TRIAL_SECONDS
    else if a.user.trialEndsAt.Some? then Max(0, a.user.trialEndsAt.value - a.now)
    else 0
  }

  lemma TrialLimitsIffActive(user: UserRow, now: int)
    ensures OnTrialLimits(user, now) <==> TrialActive(user, now)
  {
  }

  lemma {:induction false} TimePaysForTrial(a: AccountState, d: nat)
    requires Sound(a)
    ensures ActiveSeconds(a.user, a.now, d) + Budget(a.(now := a.now + d)) <= Budget(a)
  {
    if d > 0 {
      TimePaysForTrial(a, d - 1);
      TrialLimitsIffActive(a.user, a.now + d - 1);
    }
  }

  lemma NoEventAddsBudget(c: Settings, a: AccountState, e: Event)
    requires Sound(a) && !e.Tick?
    ensures Budget(Apply(c, a, e)) <= Budget(a)
  {
    if e.Webhook? {
      ClearForPaidPlanSound(a.(user := Subscribed(c, a.user, e.sub)));
    }
  }

  lemma {:induction false} TrialTimeWithinBudget(c: Settings, a: AccountState, events: seq<Event>)
    requires Sound(a)
    ensures TrialSeconds(c, a, events) + Budget(Final(c, a, events)) <= Budget(a)
    decreases |events|
  {
    if events != [] {
      var e := events[0];
      EventKeepsSound(c, a, e);
      TrialTimeWithinBudget(c, Apply(c, a, e), events[1..]);
      if e.Tick? {
        TimePaysForTrial(a, e.seconds);
      } else {
        NoEventAddsBudget(c, a, e);
      }
    }
  }

  /** Over every run of a new account: at most fourteen days under trial limits in total. */
  lemma TrialTimeBound(c: Settings, a: AccountState, events: seq<Event>)
    requires SignedUp(a)
    ensures TrialSeconds(c, a, events) <= 14 * 24 * 3600
  {
    TrialTimeWithinBudget(c, a, events);
  }

  lemma {:induction false} WholeTrialActive(user: UserRow, from: int, d: nat)
    requires user.plan == Free && user.trialEndsAt.Some? && from + d <= user.trialEndsAt.value
    ensures ActiveSeconds(user, from, d) == d
  {
    if d > 0 {
      WholeTrialActive(user, from, d - 1);
    }
  }

  /** The bound is reached: verify, start, wait. */
  lemma FourteenDaysAreReached(c: Settings, a: AccountState)
    requires SignedUp(a)
    ensures TrialSeconds(c, a, [VerifyEmail, ClickStart, Tick(TRIAL_SECONDS)]) == TRIAL_SECONDS
  {
    var events := [VerifyEmail, ClickStart, Tick(TRIAL_SECONDS)];
    var verified := Apply(c, a, VerifyEmail);
    var started := Apply(c, verified, ClickStart);
    assert events[1..] == [ClickStart, Tick(TRIAL_SECONDS)] && events[1..][1..] == [Tick(TRIAL_SECONDS)];
    WholeTrialActive(started.user, a.now, TRIAL_SECONDS);
    assert TrialSeconds(c, started, [Tick(TRIAL_SECONDS)]) == TRIAL_SECONDS;
    assert TrialSeconds(c, verified, events[1..]) == TRIAL_SECONDS;
  }

  // ---- One trial, one expiry -----------------------------------------------------------------------

  /** Over every run an account starts at most one trial, none once the trial is used. */
  lemma {:induction false} OneTrialEver(c: Settings, a: AccountState, events: seq<Event>)
    requires Sound(a)
    ensures Starts(c, a, events) <= if a.user.trialUsed then 0 else 1
    ensures Final(c, a, events).user.trialUsed <==> a.user.trialUsed || Starts(c, a, events) == 1
    decreases |events|
  {
    if events != [] {
      var b := Apply(c, a, events[0]);
      EventKeepsSound(c, a, events[0]);
      if events[0].Webhook? {
        ClearForPaidPlanSound(a.(user := Subscribed(c, a.user, events[0].sub)));
      }
      OneTrialEver(c, b, events[1..]);
    }
  }

  /** Housekeeping refits an account for an ended trial at most once in its life. */
  lemma {:induction false} OneExpiryEver(c: Settings, a: AccountState, events: seq<Event>)
    requires Sound(a)
    ensures Expiries(c, a, events) <= if a.user.trialExpiredAt.Some? then 0 else 1
    decreases |events|
  {
    if events != [] {
      var b := Apply(c, a, events[0]);
      EventKeepsSound(c, a, events[0]);
      if events[0].Webhook? {
        ClearForPaidPlanSound(a.(user := Subscribed(c, a.user, events[0].sub)));
      }
      OneExpiryEver(c, b, events[1..]);
    }
  }

  /** An account gets at most one reminder in its life. */
  lemma {:induction false} OneReminderEver(c: Settings, a: AccountState, events: seq<Event>)
    requires Sound(a)
    ensures Reminders(c, a, events) <= if a.user.trialReminderSentAt.Some? then 0 else 1
    decreases |events|
  {
    if events != [] {
      EventKeepsSound(c, a, events[0]);
      if events[0].Webhook? {
        ClearForPaidPlanSound(a.(user := Subscribed(c, a.user, events[0].sub)));
      }
      OneReminderEver(c, Apply(c, a, events[0]), events[1..]);
    }
  }

  /** The offer of a trial never comes back: not after it was dismissed, and not after a trial was started. */
  lemma {:induction false} OfferNeverReturns(c: Settings, a: AccountState, events: seq<Event>, k: nat)
    requires Sound(a) && k < |events|
    requires events[k].DismissOffer?
             || (events[k].ClickStart? && Starts(c, a, events[..k + 1]) > Starts(c, a, events[..k]))
    ensures !Final(c, a, events).user.trialOffer
    decreases |events|
  {
    var b, rest := Apply(c, a, events[0]), events[1..];
    EventKeepsSound(c, a, events[0]);
    if k > 0 {
      assert events[..k + 1][1..] == rest[..k] && events[..k][1..] == rest[..k - 1];
      OfferNeverReturns(c, b, rest, k - 1);
    } else {
      assert events[..1][1..] == [] && events[..0] == [];
      NoOfferStays(c, b, rest);
    }
  }

  lemma {:induction false} NoOfferStays(c: Settings, a: AccountState, events: seq<Event>)
    requires Sound(a) && !a.user.trialOffer
    ensures !Final(c, a, events).user.trialOffer
    decreases |events|
  {
    if events != [] {
      EventKeepsSound(c, a, events[0]);
      if events[0].Webhook? {
        ClearForPaidPlanSound(a.(user := Subscribed(c, a.user, events[0].sub)));
      }
      NoOfferStays(c, Apply(c, a, events[0]), events[1..]);
    }
  }

  // ---- After a paid plan -----------------------------------------------------------------------------

  /** Once the trial is spent and has no end date, trial limits are gone for good. */
  lemma {:induction false} SpentTrialStaysSpent(c: Settings, a: AccountState, events: seq<Event>)
    requires Sound(a) && a.user.trialUsed && a.user.trialEndsAt == None
    ensures var b := Final(c, a, events); b.user.trialEndsAt == None && !OnTrialLimits(b.user, b.now)
    decreases |events|
  {
    if events != [] {
      EventKeepsSound(c, a, events[0]);
      if events[0].Webhook? {
        ClearForPaidPlanSound(a.(user := Subscribed(c, a.user, events[0].sub)));
      }
      SpentTrialStaysSpent(c, Apply(c, a, events[0]), events[1..]);
    }
  }

  ghost predicate TrialNeverReturns(c: Settings, a: AccountState) {
    forall events :: !OnTrialLimits(Final(c, a, events).user, Final(c, a, events).now)
  }

  /**
   * On a paid account trial limits never return if and only if the trial was used before: an account
   * that paid without ever trying can cancel, click start, and be on trial.
   */
  lemma TrialNeverReturnsIffUsed(c: Settings, a: AccountState)
    requires Sound(a) && a.user.plan != Free
    ensures TrialNeverReturns(c, a) <==> a.user.trialUsed
  {
    if a.user.trialUsed {
      forall events ensures !OnTrialLimits(Final(c, a, events).user, Final(c, a, events).now) {
        SpentTrialStaysSpent(c, a, events);
      }
    } else {
      TrialAfterCancelling(c, a);
    }
  }

  lemma TrialAfterCancelling(c: Settings, a: AccountState)
    requires !a.user.trialUsed
    ensures var b := Final(c, a, [SubscriptionDeleted, VerifyEmail, ClickStart]); OnTrialLimits(b.user, b.now)
  {
    var events := [SubscriptionDeleted, VerifyEmail, ClickStart];
    var cancelled := Apply(c, a, SubscriptionDeleted);
    var verified := Apply(c, cancelled, VerifyEmail);
    assert events[1..] == [VerifyEmail, ClickStart] && events[1..][1..] == [ClickStart];
    assert Final(c, verified, [ClickStart]) == Apply(c, verified, ClickStart);
    assert Final(c, cancelled, events[1..]) == Apply(c, verified, ClickStart);
  }

  // ---- What the limits do to the monitors ------------------------------------------------------------

  /** Expiry leaves running exactly what fits the Free plan. */
  lemma ExpiryFitsFree(a: AccountState)
    requires a.fleet.Valid() && ExpiryDue(a.user, a.now)
    ensures var b := Expire(a);
            && Running(b.fleet) == Elements(RunList(a.fleet, PlanLimitsOf(Free)))
            && |Running(b.fleet)| <= 3
            && forall id :: id in Running(b.fleet) ==>
                 a.fleet.projects != [] && b.fleet.rows[id].project == a.fleet.projects[0]
  {
    var free := PlanLimitsOf(Free);
    RefitRunsTheRunList(a.fleet, free, PAUSED_TRIAL_ENDED, a.now);
    RefitWithinLimit(a.fleet, free, PAUSED_TRIAL_ENDED, a.now);
    RunListTakesTheFirst(a.fleet, free);
    RefitPreserves(a.fleet, free, PAUSED_TRIAL_ENDED, a.now);
    var b := Expire(a);
    forall id | id in Running(b.fleet)
      ensures a.fleet.projects != [] && b.fleet.rows[id].project == a.fleet.projects[0]
    {
      assert id in RunList(a.fleet, free) && id in Ranked(a.fleet, free);
      assert a.fleet.rows[id].project in Allowed(a.fleet.projects, free);
      assert RowPreserved(a.fleet.rows[id], b.fleet.rows[id], free);
    }
  }

  /**
   * A bought plan replaces a trial, and lifts every pause that the limits before it caused and its own do
   * not; what it stops is paused as over the plan's limit.
   */
  lemma PaidWebhookFits(c: Settings, a: AccountState, sub: Subscription, plan: PlanType)
    requires a.fleet.Valid() && ActiveState(sub.status) && PlanForPrice(c, sub.priceId) == Some(plan)
    requires a.user.trialEndsAt.Some?
             || exists id :: id in a.fleet.rows && !a.fleet.rows[id].active
                             && (a.fleet.rows[id].pausedReason == Some("trial_ended")
                                 || a.fleet.rows[id].pausedReason == Some("plan_limit"))
    ensures Running(Apply(c, a, Webhook(sub)).fleet) == Elements(RunList(a.fleet, PlanLimitsOf(plan)))
    ensures forall id :: id in a.fleet.rows && a.fleet.rows[id].active
                         && id !in RunList(a.fleet, PlanLimitsOf(plan)) ==>
              var g := Apply(c, a, Webhook(sub)).fleet;
              id in g.rows && g.rows[id] == a.fleet.rows[id].(active := false, pausedReason := Some("plan_limit"))
  {
    RefitRunsTheRunList(a.fleet, PlanLimitsOf(plan), PAUSED_PLAN_LIMIT, a.now);
    PaidWebhookRefits(c, a, sub, plan);
    forall id | id in a.fleet.rows && a.fleet.rows[id].active && id !in RunList(a.fleet, PlanLimitsOf(plan))
      ensures var g := Refit(a.fleet, PlanLimitsOf(plan), PAUSED_PLAN_LIMIT, a.now);
              g.rows[id] == a.fleet.rows[id].(active := false, pausedReason := Some("plan_limit"))
    {
      RefitRowExactly(a.fleet, PlanLimitsOf(plan), PAUSED_PLAN_LIMIT, a.now, id);
    }
  }

  lemma PaidWebhookRefits(c: Settings, a: AccountState, sub: Subscription, plan: PlanType)
    requires a.fleet.Valid() && ActiveState(sub.status) && PlanForPrice(c, sub.priceId) == Some(plan)
    requires a.user.trialEndsAt.Some? || AnyPausedByPlan(a.fleet)
    ensures Apply(c, a, Webhook(sub)).fleet == Refit(a.fleet, PlanLimitsOf(plan), PAUSED_PLAN_LIMIT, a.now)
  {
  }

  lemma ThreeEvents(c: Settings, a: AccountState, x: Event, y: Event, z: Event)
    ensures Final(c, a, [x, y, z]) == Apply(c, Apply(c, Apply(c, a, x), y), z)
  {
    var b := Apply(c, a, x);
    assert [x, y, z][1..] == [y, z] && [y, z][1..] == [z];
    assert Final(c, a, [x, y, z]) == Final(c, b, [y, z]);
    assert Final(c, b, [y, z]) == Final(c, Apply(c, b, y), [z]);
  }

  /** The housekeeping run leaves the choice for any other limits as it was. */
  lemma ExpireKeepsChoice(a: AccountState, next: PlanLimits)
    requires a.fleet.Valid()
    ensures Expire(a).fleet.Valid() && RunList(Expire(a).fleet, next) == RunList(a.fleet, next)
    ensures Expire(a).user.trialEndsAt == a.user.trialEndsAt
  {
    RefitKeepsChoice(a.fleet, GetLimits(a.user, a.now), PAUSED_TRIAL_ENDED, a.now, next);
  }

  /**
   * Upgrading before or after the trial was expired comes to the same: the same monitors run, and they
   * are the ones that fit the bought plan.
   */
  lemma UpgradeBeforeOrAfterExpiry(c: Settings, a: AccountState, wait: nat, sub: Subscription, plan: PlanType)
    requires a.fleet.Valid() && ActiveState(sub.status) && PlanForPrice(c, sub.priceId) == Some(plan)
    requires a.user.trialEndsAt.Some?
    ensures var late := Final(c, a, [Tick(wait), Housekeeping, Webhook(sub)]);
            && Running(late.fleet) == Running(Apply(c, a, Webhook(sub)).fleet)
            && Running(late.fleet) == Elements(RunList(a.fleet, PlanLimitsOf(plan)))
  {
    var b := Apply(c, Apply(c, a, Tick(wait)), Housekeeping);
    ThreeEvents(c, a, Tick(wait), Housekeeping, Webhook(sub));
    ExpireKeepsChoice(Apply(c, a, Tick(wait)), PlanLimitsOf(plan));
    PaidWebhookFits(c, b, sub, plan);
    PaidWebhookFits(c, a, sub, plan);
  }

  /** Whatever the Free plan ran after the expiry goes on running after an upgrade. */
  lemma UpgradeStopsNothing(c: Settings, a: AccountState, wait: nat, sub: Subscription, plan: PlanType)
    requires a.fleet.Valid() && ExpiryDue(a.user, a.now)
    requires ActiveState(sub.status) && PlanForPrice(c, sub.priceId) == Some(plan)
    ensures var free := Expire(a);
            Running(free.fleet) <= Running(Apply(c, Apply(c, free, Tick(wait)), Webhook(sub)).fleet)
  {
    var free := Expire(a);
    RefitKeepsChoice(a.fleet, PlanLimitsOf(Free), PAUSED_TRIAL_ENDED, a.now, PlanLimitsOf(plan));
    PaidWebhookFits(c, Apply(c, free, Tick(wait)), sub, plan);
    ExpiryFitsFree(a);
    UpgradesNeverPause(a.fleet, PlanLimitsOf(Free), PlanLimitsOf(plan));
  }

  /**
   * Limits follow the subscription: an active one of a known price gives its plan's limits, and an ended
   * one takes a paid account to Free limits; in both cases for good, whatever trial there was before.
   */
  lemma LimitsFollowTheSubscription(c: Settings, a: AccountState, sub: Subscription, later: int)
    requires Sound(a)
    ensures var b := Apply(c, a, Webhook(sub));
            && (ActiveState(sub.status) && PlanForPrice(c, sub.priceId).Some? ==>
                  GetLimits(b.user, later) == PlanLimitsOf(PlanForPrice(c, sub.priceId).value))
            && (EndedState(sub.status) && a.user.plan != Free ==> GetLimits(b.user, later) == PlanLimitsOf(Free))
  {
    ClearForPaidPlanSound(a.(user := Subscribed(c, a.user, sub)));
  }

  /** The price of a plan, as configured; a price that is neither is unknown. */
  predicate UnknownPrice(c: Settings, priceId: Option<string>) {
    priceId == None || priceId.value == "" || (priceId.value != c.starterPriceId && priceId.value != c.proPriceId)
  }

  /**
   * The plan after a webhook, for every status and price: an active or trialing subscription buys the plan
   * of its price, a canceled, unpaid or never completed one ends the plan, and everything else - no known
   * status, past due, incomplete, or an unknown price - keeps it.
   */
  lemma WebhookSetsThePlan(c: Settings, a: AccountState, sub: Subscription)
    requires Sound(a)
    ensures var b, status := Apply(c, a, Webhook(sub)).user, sub.status;
            var live := status == Some(Active) || status == Some(Trialing);
            && (status == None || status == Some(PastDue) || status == Some(Incomplete) ==> b.plan == a.user.plan)
            && (live && UnknownPrice(c, sub.priceId) ==> b.plan == a.user.plan)
            && (live && !UnknownPrice(c, sub.priceId) ==>
                  b.plan == if sub.priceId == Some(c.starterPriceId) then Starter else Pro)
            && (status == Some(Canceled) || status == Some(Unpaid) || status == Some(IncompleteExpired) ==>
                  b.plan == Free)
  {
    ClearForPaidPlanSound(a.(user := Subscribed(c, a.user, sub)));
  }

  /**
   * The other columns: the status is that of the event, except that a late incomplete does not undo an
   * active or trialing one; the id and period are those of the event; a paid plan ends the trial and its
   * offer, and what the account has used and when it was reminded or expired stays.
   */
  lemma WebhookSetsTheColumns(c: Settings, a: AccountState, sub: Subscription)
    requires Sound(a)
    ensures var before, after := a.user, Apply(c, a, Webhook(sub)).user;
            && after.subscription
               == (if sub.status == Some(Incomplete)
                      && (before.subscription == Some(Active) || before.subscription == Some(Trialing))
                   then before.subscription else sub.status)
            && after.subscriptionId == sub.id && after.periodEnd == sub.periodEnd
            && after.trialEndsAt == (if after.plan == Free then before.trialEndsAt else None)
            && after.trialOffer == (before.trialOffer && (after.plan == Free || before.trialEndsAt == None))
            && after.emailVerified == before.emailVerified && after.trialUsed == before.trialUsed
            && after.trialReminderSentAt == before.trialReminderSentAt
            && after.trialExpiredAt == before.trialExpiredAt
  {
    ClearForPaidPlanSound(a.(user := Subscribed(c, a.user, sub)));
  }

  /** A paid account keeps the limits of its plan for good through every event that keeps the plan. */
  lemma KeptPlanKeepsItsLimits(c: Settings, a: AccountState, sub: Subscription, later: int)
    requires Sound(a) && a.user.plan != Free
    requires sub.status == None || sub.status == Some(PastDue) || sub.status == Some(Incomplete)
             || (ActiveState(sub.status) && UnknownPrice(c, sub.priceId))
    ensures GetLimits(Apply(c, a, Webhook(sub)).user, later)
            == if a.user.plan == Pro then PlanLimits(Some(50), 200, 30) else PlanLimits(Some(10), 40, 60)
  {
    WebhookSetsThePlan(c, a, sub);
    LimitsInNumbers(Apply(c, a, Webhook(sub)).user, later);
  }

  /**
   * A deleted subscription puts a paid account on Free limits for good, and a failed payment changes no
   * limit; neither touches a monitor or a trial.
   */
  lemma DeletionEndsThePlan(c: Settings, a: AccountState, later: int)
    requires Sound(a)
    ensures var b := Apply(c, a, SubscriptionDeleted);
            && b == a.(user := a.user.(plan := Free, subscription := Some(Canceled), subscriptionId := None,
                                       periodEnd := None))
            && (a.user.plan != Free ==> GetLimits(b.user, later) == PlanLimits(Some(1), 3, 300))
    ensures var b := Apply(c, a, PaymentFailed);
            && b == a.(user := a.user.(subscription := Some(PastDue)))
            && GetLimits(b.user, later) == GetLimits(a.user, later)
  {
  }

  predicate HasSomethingToDo(a: AccountState) {
    a.user.plan != Free && (a.user.trialEndsAt.Some? || AnyPausedByPlan(a.fleet))
  }

  lemma ClearForPaidPlanFleet(a: AccountState)
    ensures ClearForPaidPlan(a).fleet
            == if HasSomethingToDo(a) then Refit(a.fleet, PlanLimitsOf(a.user.plan), PAUSED_PLAN_LIMIT, a.now)
               else a.fleet
  {
  }

  /** A paid account without a trial is left alone, or refitted to what it has already been fitted to. */
  lemma ClearedAgain(b: AccountState, f: Fleet, now: int)
    requires f.Valid() && b.user.trialEndsAt == None
    requires b.fleet == Refit(f, PlanLimitsOf(b.user.plan), PAUSED_PLAN_LIMIT, now)
    ensures ClearForPaidPlan(b) == b
  {
    RefitValid(f, PlanLimitsOf(b.user.plan), PAUSED_PLAN_LIMIT, now);
    ClearForPaidPlanSound(b);
    ClearForPaidPlanFleet(b);
    RefitIdempotent(f, PlanLimitsOf(b.user.plan), PAUSED_PLAN_LIMIT, now, PAUSED_PLAN_LIMIT, b.now);
  }

  lemma ClearedOnce(a: AccountState, b: AccountState, later: int)
    requires a.fleet.Valid() && b == ClearForPaidPlan(a).(now := later)
    ensures ClearForPaidPlan(b) == b
  {
    ClearForPaidPlanSound(a);
    ClearForPaidPlanFleet(a);
    if HasSomethingToDo(a) {
      ClearedAgain(b, a.fleet, a.now);
    }
  }

  /** A webhook delivered again, at any later time, changes nothing. */
  lemma WebhookRedeliveryIsHarmless(c: Settings, a: AccountState, sub: Subscription, wait: nat)
    requires a.fleet.Valid()
    ensures var b := Apply(c, Apply(c, a, Webhook(sub)), Tick(wait)); Apply(c, b, Webhook(sub)) == b
  {
    var subscribed := a.(user := Subscribed(c, a.user, sub));
    var b := Apply(c, Apply(c, a, Webhook(sub)), Tick(wait));
    ClearForPaidPlanSound(subscribed);
    ClearedOnce(subscribed, b, b.now);
    assert Subscribed(c, b.user, sub) == b.user;
  }
}
