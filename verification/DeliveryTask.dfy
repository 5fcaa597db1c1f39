/**
 * send_alert_delivery (app/workers/tasks.py:171-240): the life of one alert delivery under Celery retries,
 * duplicated enqueues, crashes and lost commits. Runs of the task follow one another.
 */
module DeliveryTask {
  import opened Common

  const MAX_RETRIES := 4
  const SENDS_PER_ENQUEUE := MAX_RETRIES + 1

  datatype RowState = Pending | Sent | Failed
  datatype LastError = ChannelGone | IncidentGone | MonitorGone | SendError

  datatype Row = Row(state: RowState, attempts: nat, lastError: Option<LastError>, sentAt: Option<int>)

  const NEW_ROW := Row(Pending, 0, None, None)

  /** What the task finds around the delivery. */
  datatype World = World(channelActive: bool, incidentExists: bool, monitorExists: bool)

  /**
   * What befalls one run: an error before anything is written; a crash after the attempt is counted, with
   * or without the message going out; or a send that fails or succeeds, its outcome stored or not.
   */
  datatype Fate =
    | LoadFails
    | KilledBeforeSend
    | KilledAfterSend(ok: bool)
    | SendFails(stored: bool)
    | SendSucceeds(stored: bool)

  /** The row after a run, whether it sent and got the message out, and whether it raised. */
  datatype Outcome = Outcome(row: Option<Row>, called: bool, ok: bool, raised: bool)

  predicate Terminal(row: Row) {
    row.state == Sent || row.state == Failed
  }

  predicate AllThere(world: World) {
    world.channelActive && world.incidentExists && world.monitorExists
  }

  function Fail(row: Row, error: LastError): Row {
    row.(state := Failed, lastError := Some(error))
  }

  function Attempt(tried: Row, retries: nat, fate: Fate, now: int): Outcome
    requires !fate.LoadFails?
  {
    match fate
    case KilledBeforeSend => Outcome(Some(tried), false, false, false)
    case KilledAfterSend(ok) => Outcome(Some(tried), true, ok, false)
    case SendFails(stored) =>
      if retries >= MAX_RETRIES then
        if stored then Outcome(Some(Fail(tried, SendError)), true, false, false)
        else Outcome(Some(tried), true, false, true)
      else Outcome(Some(if stored then tried.(lastError := Some(SendError)) else tried), true, false, true)
    case SendSucceeds(stored) =>
      if stored then Outcome(Some(tried.(state := Sent, sentAt := Some(now), lastError := None)), true, true, false)
      else Outcome(Some(tried), true, true, true)
  }

  function RunTask(row: Option<Row>, world: World, retries: nat, fate: Fate, now: int): Outcome {
    if fate.LoadFails? then Outcome(row, false, false, true)
    else if row == None || Terminal(row.value) then Outcome(row, false, false, false)
    else if !world.channelActive then Outcome(Some(Fail(row.value, ChannelGone)), false, false, false)
    else if !world.incidentExists then Outcome(Some(Fail(row.value, IncidentGone)), false, false, false)
    else if !world.monitorExists then Outcome(Some(Fail(row.value, MonitorGone)), false, false, false)
    else Attempt(row.value.(attempts := row.value.attempts + 1), retries, fate, now)
  }

  // ---- The task as statements ------------------------------------------------------------------------

  class Worker {
    var row: Option<Row>

    constructor ()
      ensures row == Some(NEW_ROW)
    {
      row := Some(NEW_ROW);
    }

    method SendAlertDelivery(world: World, retries: nat, fate: Fate, now: int)
      returns (called: bool, ok: bool, raised: bool)
      modifies this`row
      ensures Outcome(row, called, ok, raised) == RunTask(old(row), world, retries, fate, now)
    {
      called, ok, raised := false, false, false;
      if fate.LoadFails? {
        raised := true;
        return;
      }
      if row == None {
        return;
      }
      var delivery := row.value;
      if delivery.state == Sent || delivery.state == Failed {
        return;
      }
      if !world.channelActive {
        row := Some(delivery.(state := Failed, lastError := Some(ChannelGone)));
        return;
      }
      if !world.incidentExists {
        row := Some(delivery.(state := Failed, lastError := Some(IncidentGone)));
        return;
      }
      if !world.monitorExists {
        row := Some(delivery.(state := Failed, lastError := Some(MonitorGone)));
        return;
      }
      delivery := delivery.(attempts := delivery.attempts + 1);
      row := Some(delivery);
      if fate.KilledBeforeSend? {
        return;
      }
      called := true;
      if fate.KilledAfterSend? {
        ok := fate.ok;
        return;
      }
      if fate.SendFails? {
        delivery := delivery.(lastError := Some(SendError));
        if retries >= MAX_RETRIES {
          delivery := delivery.(state := Failed);
        }
        if fate.stored {
          row := Some(delivery);
        }
        raised := retries < MAX_RETRIES || !fate.stored;
        return;
      }
      ok := true;
      delivery := delivery.(state := Sent);
      delivery := delivery.(sentAt := Some(now));
      delivery := delivery.(lastError := None);
      if fate.stored {
        row := Some(delivery);
      } else {
        raised := true;
      }
    }
  }

  // ---- Runs ------------------------------------------------------------------------------------------

  /**
   * One delivery and the runs still queued for it, by retry number. The rest is a ledger: enqueues, send
   * calls, messages that got out, of these the ones never recorded as sent, and attempts counted without
   * a send.
   */
  datatype Life = Life(
    row: Option<Row>, queue: seq<nat>, enqueues: nat, sends: nat, delivered: nat, unrecorded: nat, wasted: nat)

  const BORN := Life(Some(NEW_ROW), [], 0, 0, 0, 0, 0)

  datatype Step =
    | Enqueue
    | RunOne(i: nat, world: World, fate: Fate, now: int)
    | DeleteRow

  predicate Enabled(l: Life, step: Step) {
    step.RunOne? ==> step.i < |l.queue|
  }

  /** Celery: a run that raised is queued again with the next retry number, up to the maximum. */
  function Requeued(queue: seq<nat>, i: nat, raised: bool): seq<nat>
    requires i < |queue|
  {
    queue[..i] + (if raised && queue[i] < MAX_RETRIES then [queue[i] + 1] else []) + queue[i + 1..]
  }

  function Count(b: bool): nat {
    if b then 1 else 0
  }

  predicate JustSent(before: Option<Row>, after: Option<Row>) {
    before.Some? && before.value.state == Pending && after.Some? && after.value.state == Sent
  }

  predicate JustAttempted(before: Option<Row>, after: Option<Row>) {
    before.Some? && after.Some? && after.value.attempts == before.value.attempts + 1
  }

  function Apply(l: Life, step: Step): Life
    requires Enabled(l, step)
  {
    match step
    case Enqueue => l.(queue := l.queue + [0], enqueues := l.enqueues + 1)
    case RunOne(i, world, fate, now) =>
      var o := RunTask(l.row, world, l.queue[i], fate, now);
      l.(row := o.row, queue := Requeued(l.queue, i, o.raised),
         sends := l.sends + Count(o.called), delivered := l.delivered + Count(o.ok),
         unrecorded := l.unrecorded + Count(o.ok && !JustSent(l.row, o.row)),
         wasted := l.wasted + Count(!o.called && JustAttempted(l.row, o.row)))
    case DeleteRow => l.(row := None)
  }

  ghost predicate Runs(l: Life, steps: seq<Step>, l': Life)
    decreases |steps|
  {
    if steps == [] then l' == l
    else Enabled(l, steps[0]) && Runs(Apply(l, steps[0]), steps[1..], l')
  }

  // ---- Sent and failed are final ---------------------------------------------------------------------

  predicate Done(l: Life) {
    l.row == None || Terminal(l.row.value)
  }

  lemma DoneStep(l: Life, step: Step)
    requires Enabled(l, step) && Done(l)
    ensures var m := Apply(l, step);
            && Done(m) && m.sends == l.sends && m.delivered == l.delivered
            && (m.row == l.row || m.row == None)
  {
  }

  /** Once sent, failed or deleted, no run sends again and the row never changes, whatever is enqueued. */
  lemma {:induction false} TerminalIsForever(l: Life, steps: seq<Step>, m: Life)
    requires Done(l) && Runs(l, steps, m)
    ensures m.sends == l.sends && m.delivered == l.delivered && (m.row == l.row || m.row == None)
    decreases |steps|
  {
    if steps != [] {
      DoneStep(l, steps[0]);
      TerminalIsForever(Apply(l, steps[0]), steps[1..], m);
    }
  }

  // ---- What is counted -------------------------------------------------------------------------------

  /** Sends the queued runs may still make. */
  function Credit(queue: seq<nat>): nat {
    if queue == [] then 0
    else
      var last := queue[|queue| - 1];
      Credit(queue[..|queue| - 1]) + if last <= MAX_RETRIES then SENDS_PER_ENQUEUE - last else 0
  }

  lemma {:induction false} CreditSplit(a: seq<nat>, b: seq<nat>)
    ensures Credit(a + b) == Credit(a) + Credit(b)
  {
    if b == [] {
      assert a + b == a;
    } else {
      var n := |b| - 1;
      assert (a + b)[..|a| + n] == a + b[..n];
      CreditSplit(a, b[..n]);
    }
  }

  lemma CreditOne(r: nat)
    ensures Credit([r]) == if r <= MAX_RETRIES then SENDS_PER_ENQUEUE - r else 0
  {
    assert [r][..0] == [];
  }

  lemma RequeueCost(queue: seq<nat>, i: nat, raised: bool)
    requires i < |queue| && forall k :: 0 <= k < |queue| ==> queue[k] <= MAX_RETRIES
    ensures Credit(Requeued(queue, i, raised)) + 1 <= Credit(queue)
    ensures forall k :: 0 <= k < |Requeued(queue, i, raised)| ==> Requeued(queue, i, raised)[k] <= MAX_RETRIES
  {
    var again: seq<nat> := if raised && queue[i] < MAX_RETRIES then [queue[i] + 1] else [];
    assert queue == queue[..i] + [queue[i]] + queue[i + 1..];
    CreditSplit(queue[..i] + [queue[i]], queue[i + 1..]);
    CreditSplit(queue[..i], [queue[i]]);
    CreditSplit(queue[..i] + again, queue[i + 1..]);
    CreditSplit(queue[..i], again);
    CreditOne(queue[i]);
    CreditOne(queue[i] + 1);
  }

  /** The ledger adds up. */
  predicate Balanced(l: Life) {
    && (forall k :: 0 <= k < |l.queue| ==> l.queue[k] <= MAX_RETRIES)
    && l.sends + Credit(l.queue) <= SENDS_PER_ENQUEUE * l.enqueues
    && (l.row.Some? ==> l.row.value.attempts == l.sends + l.wasted)
    && l.unrecorded <= l.delivered <= l.unrecorded + 1
    && (l.row.Some? ==> (l.row.value.state == Sent <==> l.delivered == l.unrecorded + 1))
    && (l.row.Some? ==> (l.row.value.sentAt.Some? <==> l.row.value.state == Sent))
  }

  lemma RunKeepsRowLedger(l: Life, step: Step)
    requires step.RunOne? && Enabled(l, step) && Balanced(l)
    ensures var m := Apply(l, step);
            && (m.row.Some? ==> m.row.value.attempts == m.sends + m.wasted)
            && m.unrecorded <= m.delivered <= m.unrecorded + 1
            && (m.row.Some? ==> (m.row.value.state == Sent <==> m.delivered == m.unrecorded + 1))
            && (m.row.Some? ==> (m.row.value.sentAt.Some? <==> m.row.value.state == Sent))
            && m.sends <= l.sends + 1 && m.enqueues == l.enqueues
  {
  }

  lemma StepKeepsBalance(l: Life, step: Step)
    requires Enabled(l, step) && Balanced(l)
    ensures Balanced(Apply(l, step))
  {
    match step {
      case Enqueue =>
        CreditSplit(l.queue, [0]);
        CreditOne(0);
      case RunOne(i, world, fate, now) =>
        RunKeepsRowLedger(l, step);
        RequeueCost(l.queue, i, RunTask(l.row, world, l.queue[i], fate, now).raised);
      case DeleteRow =>
    }
  }

  lemma {:induction false} BalanceOverRuns(l: Life, steps: seq<Step>, m: Life)
    requires Balanced(l) && Runs(l, steps, m)
    ensures Balanced(m)
    decreases |steps|
  {
    if steps != [] {
      StepKeepsBalance(l, steps[0]);
      BalanceOverRuns(Apply(l, steps[0]), steps[1..], m);
    }
  }

  /**
   * Over every run of a new delivery: at most five sends per enqueue; the attempts column counts the sends
   * and the crashes between counting and sending; and the messages that got out are the one recorded as
   * sent plus those whose record was lost, so at most one if no record is lost.
   */
  lemma DeliveryLedger(steps: seq<Step>, l: Life)
    requires Runs(BORN, steps, l)
    ensures l.sends <= 5 * l.enqueues
    ensures l.row.Some? ==> l.row.value.attempts == l.sends + l.wasted
    ensures l.row.Some? ==> l.delivered == l.unrecorded + Count(l.row.value.state == Sent)
    ensures l.unrecorded == 0 ==> l.delivered <= 1
  {
    assert Balanced(BORN);
    BalanceOverRuns(BORN, steps, l);
  }

  // ---- What a run leaves ------------------------------------------------------------------------------

  predicate StillPending(row: Option<Row>) {
    row.Some? && row.value.state == Pending
  }

  predicate FailedBySending(row: Option<Row>) {
    row.Some? && row.value.state == Failed && row.value.lastError == Some(SendError)
  }

  /** The run of a pending delivery writes a terminal state. */
  predicate Settles(world: World, retries: nat, fate: Fate) {
    && !fate.LoadFails?
    && (!AllThere(world) || fate == SendSucceeds(true) || (fate == SendFails(true) && retries >= MAX_RETRIES))
  }

  /**
   * The run of a pending delivery leaves it pending and is not queued again: the process dies once the
   * attempt is counted, or the last retry ends in an error that it cannot store.
   */
  predicate Strands(world: World, retries: nat, fate: Fate) {
    if fate.LoadFails? then retries >= MAX_RETRIES
    else
      && AllThere(world)
      && (   fate.KilledBeforeSend? || fate.KilledAfterSend?
          || (retries >= MAX_RETRIES && (fate == SendFails(false) || fate == SendSucceeds(false))))
  }

  /** One run of a pending delivery settles it, strands it or is queued again with the next retry number. */
  lemma RunOfPending(l: Life, i: nat, world: World, fate: Fate, now: int)
    requires StillPending(l.row) && i < |l.queue| && l.queue[i] <= MAX_RETRIES
    ensures var m, r := Apply(l, RunOne(i, world, fate, now)), l.queue[i];
            && (StillPending(m.row) <==> !Settles(world, r, fate))
            && (FailedBySending(m.row) <==> AllThere(world) && fate == SendFails(true) && r == MAX_RETRIES)
            && m.queue == l.queue[..i]
                          + (if Settles(world, r, fate) || Strands(world, r, fate) then [] else [r + 1])
                          + l.queue[i + 1..]
            && (!Settles(world, r, fate) && !Strands(world, r, fate) ==> r < MAX_RETRIES)
  {
  }

  /** The run makes the send call. */
  predicate Calls(world: World, fate: Fate) {
    AllThere(world) && !fate.LoadFails? && !fate.KilledBeforeSend?
  }

  /**
   * What one run of a pending delivery writes: the attempt is counted once everything is there; a send is
   * recorded with its time, a missing channel, incident or monitor fails the delivery with that reason, and
   * a stored send error is kept, as failed exactly after the last retry.
   */
  lemma WhatARunWrites(row: Row, world: World, retries: nat, fate: Fate, now: int)
    requires row.state == Pending
    ensures var o := RunTask(Some(row), world, retries, fate, now);
            && o.row.Some? && o.called == Calls(world, fate)
            && var after := o.row.value;
               && after.attempts == row.attempts + (if AllThere(world) && !fate.LoadFails? then 1 else 0)
               && (fate.LoadFails? ==> after == row && o.raised)
               && (!fate.LoadFails? && !AllThere(world) ==>
                     && !o.raised && after.state == Failed && after.sentAt == row.sentAt
                     && after.lastError == Some(if !world.channelActive then ChannelGone
                                                else if !world.incidentExists then IncidentGone else MonitorGone))
               && (Calls(world, fate) && fate == SendSucceeds(true) ==>
                     !o.raised && after == Row(Sent, row.attempts + 1, None, Some(now)))
               && (Calls(world, fate) && fate == SendFails(true) ==>
                     && after == Row(if retries < 4 then Pending else Failed, row.attempts + 1, Some(SendError),
                                     row.sentAt)
                     && (o.raised <==> retries < 4))
               && (AllThere(world) && (fate.KilledBeforeSend? || fate.KilledAfterSend?) ==>
                     !o.raised && after == row.(attempts := row.attempts + 1))
               && (Calls(world, fate) && (fate == SendFails(false) || fate == SendSucceeds(false)) ==>
                     o.raised && after == row.(attempts := row.attempts + 1))
  {
  }

  // ---- When a delivery is left behind -------------------------------------------------------------------

  /** Pending with no run queued: nothing will ever send it. */
  predicate Stranded(l: Life) {
    StillPending(l.row) && l.queue == []
  }

  predicate Retriable(l: Life) {
    forall k :: 0 <= k < |l.queue| ==> l.queue[k] <= MAX_RETRIES
  }

  /** No step of the run deletes the row or settles the delivery. */
  ghost predicate NeverSettled(l: Life, steps: seq<Step>)
    decreases |steps|
  {
    steps == [] || (
      && Enabled(l, steps[0]) && !steps[0].DeleteRow?
      && (steps[0].RunOne? ==> !Settles(steps[0].world, l.queue[steps[0].i], steps[0].fate))
      && NeverSettled(Apply(l, steps[0]), steps[1..]))
  }

  /** How many runs strand. */
  ghost function Strandings(l: Life, steps: seq<Step>): nat
    decreases |steps|
  {
    if steps == [] || !Enabled(l, steps[0]) then 0
    else
      Count(steps[0].RunOne? && Strands(steps[0].world, l.queue[steps[0].i], steps[0].fate))
      + Strandings(Apply(l, steps[0]), steps[1..])
  }

  lemma PendingStep(l: Life, step: Step)
    requires StillPending(l.row) && Retriable(l) && Enabled(l, step)
    ensures var m := Apply(l, step);
            && Retriable(m)
            && (StillPending(m.row) <==>
                  !step.DeleteRow? && (step.RunOne? ==> !Settles(step.world, l.queue[step.i], step.fate)))
            && (StillPending(m.row) ==>
                  |m.queue| + Count(step.RunOne? && Strands(step.world, l.queue[step.i], step.fate)) + l.enqueues
                  == |l.queue| + m.enqueues)
  {
    if step.RunOne? {
      RunOfPending(l, step.i, step.world, step.fate, step.now);
    }
  }

  lemma {:induction false} DoneOverRuns(l: Life, steps: seq<Step>, m: Life)
    requires Runs(l, steps, m) && Done(l)
    ensures Done(m)
    decreases |steps|
  {
    if steps != [] {
      DoneStep(l, steps[0]);
      DoneOverRuns(Apply(l, steps[0]), steps[1..], m);
    }
  }

  /** A delivery stays pending exactly while nothing settles it; each run still queued or stranded is one enqueue. */
  lemma {:induction false} PendingOverRuns(l: Life, steps: seq<Step>, m: Life)
    requires StillPending(l.row) && Retriable(l) && Runs(l, steps, m)
    ensures StillPending(m.row) <==> NeverSettled(l, steps)
    ensures StillPending(m.row) ==> |m.queue| + Strandings(l, steps) + l.enqueues == |l.queue| + m.enqueues
    decreases |steps|
  {
    if steps != [] {
      var mid := Apply(l, steps[0]);
      PendingStep(l, steps[0]);
      if StillPending(mid.row) {
        PendingOverRuns(mid, steps[1..], m);
      } else {
        DoneOverRuns(mid, steps[1..], m);
      }
    }
  }

  /**
   * Over every run of a new delivery, with any enqueues, crashes, errors and deletions: it is left pending
   * with nothing queued exactly if it was never settled and every enqueue ended in a stranding run.
   */
  lemma StrandedIffEveryEnqueueStrands(steps: seq<Step>, l: Life)
    requires Runs(BORN, steps, l)
    ensures Stranded(l) <==> NeverSettled(BORN, steps) && Strandings(BORN, steps) == l.enqueues
  {
    PendingOverRuns(BORN, steps, l);
  }

  /** For one queued run, in closed form: exactly if the last run strands, at its retry number. */
  lemma {:induction false} OneEnqueueStrandedIff(l: Life, r: nat, steps: seq<Step>, m: Life)
    requires StillPending(l.row) && l.queue == [r] && r <= MAX_RETRIES && Runs(l, steps, m)
    requires forall k :: 0 <= k < |steps| ==> steps[k].RunOne?
    ensures |steps| <= SENDS_PER_ENQUEUE - r
    ensures var n := |steps| - 1;
            Stranded(m) <==> steps != [] && Strands(steps[n].world, r + n, steps[n].fate)
    decreases |steps|
  {
    if steps != [] {
      var mid, step := Apply(l, steps[0]), steps[0];
      RunOfPending(l, 0, step.world, step.fate, step.now);
      if Settles(step.world, r, step.fate) || Strands(step.world, r, step.fate) {
        assert steps[1..] == [];
      } else {
        OneEnqueueStrandedIff(mid, r + 1, steps[1..], m);
      }
    }
  }

  /** Nothing crashes, every outcome is stored, and channel, incident and monitor stay. */
  predicate Clean(step: Step) {
    step.RunOne? && AllThere(step.world) && (step.fate == SendFails(true) || step.fate == SendSucceeds(true))
  }

  /** One enqueue, undisturbed: attempts counts the runs, and the queue is empty exactly when it is over. */
  predicate OnTrack(l: Life) {
    && l.row.Some? && l.row.value.attempts == l.sends <= SENDS_PER_ENQUEUE
    && (l.row.value.state == Pending ==> l.queue == [l.sends] && l.sends <= MAX_RETRIES)
    && (l.row.value.state == Sent ==> l.queue == [] && 1 <= l.sends)
    && (l.row.value.state == Failed ==> l.queue == [] && l.sends == SENDS_PER_ENQUEUE && FailedBySending(l.row))
  }

  lemma CleanStep(l: Life, step: Step)
    requires OnTrack(l) && Enabled(l, step) && Clean(step)
    ensures OnTrack(Apply(l, step)) && Apply(l, step).sends == l.sends + 1
  {
  }

  predicate SendsOk(step: Step) {
    step.RunOne? && step.fate.SendSucceeds?
  }

  lemma {:induction false} CleanRun(l: Life, steps: seq<Step>, m: Life)
    requires OnTrack(l) && Runs(l, steps, m)
    requires forall k :: 0 <= k < |steps| ==> Clean(steps[k])
    ensures OnTrack(m) && m.sends == l.sends + |steps| <= SENDS_PER_ENQUEUE
    ensures m.row.value.state == Sent <==>
              if steps == [] then l.row.value.state == Sent else SendsOk(steps[|steps| - 1])
    decreases |steps|
  {
    if steps != [] {
      CleanStep(l, steps[0]);
      CleanRun(Apply(l, steps[0]), steps[1..], m);
    }
  }

  /**
   * A delivery enqueued once and run undisturbed is sent exactly if its last send succeeded, fails exactly
   * at its fifth failed send, and is never given up before: while it is pending another run is queued.
   */
  lemma FailsExactlyAtTheFifthSend(steps: seq<Step>, m: Life)
    requires Runs(Apply(BORN, Enqueue), steps, m)
    requires forall k :: 0 <= k < |steps| ==> Clean(steps[k])
    ensures m.row.Some? && m.row.value.attempts == m.sends == |steps| <= 5
    ensures m.row.value.state == Sent <==> steps != [] && SendsOk(steps[|steps| - 1])
    ensures m.row.value.state == Failed <==>
              |steps| == 5 && !SendsOk(steps[|steps| - 1])
    ensures m.row.value.state == Failed ==> FailedBySending(m.row)
    ensures m.row.value.state == Pending ==> m.queue == [|steps|]
  {
    CleanRun(Apply(BORN, Enqueue), steps, m);
  }

  // ---- What the retries do not save ------------------------------------------------------------------

  /** A message can go out twice when the record of the first is lost. */
  lemma LostRecordSendsTwice()
    ensures exists steps, l :: Runs(BORN, steps, l) && l.enqueues == 1 && l.delivered == 2
  {
    var world := World(true, true, true);
    var steps := [Enqueue, RunOne(0, world, SendSucceeds(false), 0), RunOne(0, world, SendSucceeds(true), 1)];
    var a := Apply(BORN, Enqueue);
    var b := Apply(a, steps[1]);
    assert b.queue == [1];
    var c := Apply(b, steps[2]);
    assert steps[1..][1..] == [steps[2]] && steps[1..][1..][1..] == [];
    assert Runs(c, [], c);
    assert Runs(b, [steps[2]], c);
    assert Runs(a, steps[1..], c);
    assert Runs(BORN, steps, c);
  }

  /** A crash can leave a delivery pending with nothing queued for it. */
  lemma CrashLeavesItPending()
    ensures exists steps, l :: Runs(BORN, steps, l) && l.enqueues == 1 && Stranded(l)
  {
    var steps := [Enqueue, RunOne(0, World(true, true, true), KilledBeforeSend, 0)];
    var a := Apply(BORN, Enqueue);
    var b := Apply(a, steps[1]);
    assert steps[1..] == [steps[1]] && steps[1..][1..] == [];
    assert Runs(b, [], b);
    assert Runs(a, steps[1..], b);
    assert Runs(BORN, steps, b);
  }

  /** An outage through all retries: every run fails before it can count its attempt. */
  lemma {:induction false} Outage(l: Life, r: nat) returns (steps: seq<Step>, m: Life)
    requires l.queue == [r] && r <= MAX_RETRIES
    ensures Runs(l, steps, m) && |steps| == SENDS_PER_ENQUEUE - r
    ensures forall k :: 0 <= k < |steps| ==> steps[k].RunOne? && steps[k].fate.LoadFails?
    ensures m == l.(queue := [])
    decreases MAX_RETRIES - r
  {
    var step := RunOne(0, World(true, true, true), LoadFails, 0);
    var mid := Apply(l, step);
    if r == MAX_RETRIES {
      steps, m := [], mid;
    } else {
      steps, m := Outage(mid, r + 1);
    }
    assert ([step] + steps)[1..] == steps;
    steps := [step] + steps;
  }

  /** So can a database outage, with no crash at all: the retries run out before the row is ever touched. */
  lemma OutageLeavesItPending() returns (steps: seq<Step>, l: Life)
    ensures Runs(BORN, [Enqueue] + steps, l) && Stranded(l)
    ensures l.row == Some(NEW_ROW) && l.enqueues == 1 && l.sends == 0 && |steps| == 5
    ensures forall k :: 0 <= k < |steps| ==> steps[k].RunOne? && steps[k].fate.LoadFails?
  {
    steps, l := Outage(Apply(BORN, Enqueue), 0);
    assert ([Enqueue] + steps)[1..] == steps;
  }
}
