/**
 * What single transactions of the queue do, row by row, with the numbers of the source written out. The
 * invariants of LeaseSafety say what never goes wrong; here is what does happen.
 */
module QueueEffects {
  import opened Common
  import opened Regions
  import opened PendingChecks
  import opened LeaseSafety

  // ---- Enqueueing ----------------------------------------------------------------------------------------

  /** A row nobody has touched yet, scheduled at `now`. */
  predicate Untouched(row: Row, now: int) {
    && !row.dead && row.attempts == 0 && row.scheduledAt == now
    && row.leasedAt == None && row.leaseExpiresAt == None && row.workerId == None
  }

  /** Ids are handed out in order. */
  predicate IdsBelow(q: Queue) {
    forall id :: id in q.rows ==> id < q.nextRow
  }

  /** `q'` is `q` with untouched rows added, each for one of `ms` and `regions`, and no other row changed. */
  predicate OnlyAdds(q: Queue, q': Queue, ms: seq<MonitorId>, regions: seq<Code>) {
    && IdsBelow(q') && q.nextRow <= q'.nextRow && q'.now == q.now
    && (forall id :: id in q.rows ==> id in q'.rows && q'.rows[id] == q.rows[id])
    && (forall id :: id in q'.rows && id !in q.rows ==>
          && q.nextRow <= id && Untouched(q'.rows[id], q.now)
          && q'.rows[id].monitor in ms && q'.rows[id].region in regions)
  }

  /** Some row waits for a check of `m` from `r`, or is being worked on. */
  predicate Waiting(q: Queue, m: MonitorId, r: Code) {
    exists id :: id in q.rows && !q.rows[id].dead && q.rows[id].monitor == m && q.rows[id].region == r
  }

  lemma EnqueueOneServes(q: Queue, m: MonitorId, r: Code)
    requires IdsBelow(q)
    ensures OnlyAdds(q, EnqueueOne(q, m, r), [m], [r]) && Waiting(EnqueueOne(q, m, r), m, r)
  {
    var q' := EnqueueOne(q, m, r);
    if HasLive(q.rows, m, r) {
      var id :| id in q.rows && IsLive(q.rows[id], m, r);
      assert q' == q;
    } else {
      assert q.nextRow in q'.rows;
    }
  }

  lemma WaitingStays(q: Queue, q': Queue, ms: seq<MonitorId>, regions: seq<Code>)
    requires OnlyAdds(q, q', ms, regions)
    ensures forall m, r :: Waiting(q, m, r) ==> Waiting(q', m, r)
  {
    forall m, r | Waiting(q, m, r) ensures Waiting(q', m, r) {
      var id :| id in q.rows && !q.rows[id].dead && q.rows[id].monitor == m && q.rows[id].region == r;
      assert q'.rows[id] == q.rows[id];
    }
  }

  /** Check-now: afterwards a row waits in every region listed. */
  lemma {:induction false} EnqueueServes(q: Queue, m: MonitorId, regions: seq<Code>)
    requires IdsBelow(q)
    ensures var q' := EnqueueRegions(q, m, regions);
            && OnlyAdds(q, q', [m], regions)
            && forall r :: r in regions ==> Waiting(q', m, r)
  {
    if regions != [] {
      var n := |regions| - 1;
      var init := EnqueueRegions(q, m, regions[..n]);
      EnqueueServes(q, m, regions[..n]);
      EnqueueOneServes(init, m, regions[n]);
      WaitingStays(init, EnqueueOne(init, m, regions[n]), [m], [regions[n]]);
      assert regions == regions[..n] + [regions[n]];
    }
  }

  /** Whether and when monitor `m` is next due, by what its row says. */
  predicate NextCheckMoved(q: Queue, q': Queue, m: MonitorId)
    requires m in q.monitors && m in q'.monitors
  {
    var before, after := q.monitors[m], q'.monitors[m];
    after == before.(nextCheckAt := Some(q.now + before.interval), rounds := before.rounds + [q.now])
  }

  lemma {:induction false} ScheduleServes(q: Queue, due: seq<MonitorId>, regions: seq<Code>)
    requires IdsBelow(q) && Distinct(due) && forall m :: m in due ==> m in q.monitors
    ensures var q' := Schedule(q, due, regions);
            && OnlyAdds(q, q', due, regions)
            && (forall m, r :: m in due && r in regions ==> Waiting(q', m, r))
            && q'.monitors.Keys == q.monitors.Keys
            && (forall m :: m in q.monitors && m !in due ==> q'.monitors[m] == q.monitors[m])
            && (forall m :: m in due ==> NextCheckMoved(q, q', m))
  {
    if due != [] {
      var n := |due| - 1;
      var init := Schedule(q, due[..n], regions);
      ScheduleServes(q, due[..n], regions);
      assert due == due[..n] + [due[n]] && due[n] !in due[..n];
      ScheduleOneMore(q, init, due[..n], due[n], regions);
    }
  }

  lemma ScheduleOneMore(q: Queue, init: Queue, done: seq<MonitorId>, m: MonitorId, regions: seq<Code>)
    requires OnlyAdds(q, init, done, regions) && m in q.monitors && m !in done
    requires init.monitors.Keys == q.monitors.Keys && init.monitors[m] == q.monitors[m]
    ensures var q' := ScheduleMonitor(init, m, regions);
            && OnlyAdds(q, q', done + [m], regions)
            && (forall r :: r in regions ==> Waiting(q', m, r))
            && (forall x, r :: Waiting(init, x, r) ==> Waiting(q', x, r))
            && q'.monitors.Keys == q.monitors.Keys && NextCheckMoved(q, q', m)
            && (forall x :: x in q.monitors && x != m ==> q'.monitors[x] == init.monitors[x])
  {
    EnqueueServes(init, m, regions);
    var enqueued, q' := EnqueueRegions(init, m, regions), ScheduleMonitor(init, m, regions);
    assert q'.rows == enqueued.rows;
    WaitingStays(init, enqueued, [m], regions);
    forall x, r | Waiting(enqueued, x, r) ensures Waiting(q', x, r) {
    }
  }

  /**
   * A scheduling round: afterwards a row waits in every scheduled region for every active monitor whose
   * next check has come; each of these is next due one interval from now. Nothing else changes: every new
   * row is untouched and of such a monitor and region, and other rows and monitors are as before.
   */
  lemma EveryDueMonitorIsServed(c: Config, q: Queue, due: seq<MonitorId>, regions: seq<Code>)
    requires RowsOk(c, q) && Enabled(c, q, ScheduleDue(due, regions))
    ensures var q' := Apply(c, q, ScheduleDue(due, regions));
            && OnlyAdds(q, q', due, regions)
            && (forall m :: m in q.monitors ==>
                  var row := q.monitors[m];
                  if row.active && row.nextCheckAt.Some? && row.nextCheckAt.value <= q.now then
                    m in q'.monitors && NextCheckMoved(q, q', m) && forall r :: r in regions ==> Waiting(q', m, r)
                  else
                    m !in due && m in q'.monitors && q'.monitors[m] == row)
  {
    forall m ensures m in due <==> m in q.monitors && Due(q.monitors[m], q.now) {
      assert m in due <==> m in Elements(due);
    }
    ScheduleServes(q, due, regions);
  }

  /** Check-now leaves the schedule alone. */
  lemma CheckNowServesEveryRegion(c: Config, q: Queue, m: MonitorId, regions: seq<Code>)
    requires RowsOk(c, q) && Enabled(c, q, CheckNow(m, regions))
    ensures var q' := Apply(c, q, CheckNow(m, regions));
            && OnlyAdds(q, q', [m], regions) && q'.monitors == q.monitors
            && forall r :: r in regions ==> Waiting(q', m, r)
  {
    EnqueueServes(q, m, regions);
  }

  // ---- Leasing ---------------------------------------------------------------------------------------------

  /** Every row can be leased three times, and while it is not leased. */
  lemma EligibleIff(row: Row, claimed: nat, now: int)
    requires RowOk(row, claimed, now)
    ensures Eligible(row, MAX_ATTEMPTS, now)
            <==> !row.dead && row.attempts < 3 && (row.attempts == 0 || row.leaseExpiresAt.value < now)
  {
  }

  /**
   * What a claim makes of a row: the monitor's timeout and 30 seconds it belongs to the worker, and only
   * then, if it has been leased less than three times, can it be leased again. Other rows are as before.
   */
  lemma ClaimKeepsOthersOut(c: Config, q: Queue, region: Code, worker: WorkerId, ids: seq<RowId>, id: RowId, t: int)
    requires RowsOk(c, q) && Enabled(c, q, ClaimJobs(region, worker, ids)) && id in q.rows
    ensures var q' := Apply(c, q, ClaimJobs(region, worker, ids));
            && q'.monitors == q.monitors && id in q'.rows
            && (id !in ids ==> q'.rows[id] == q.rows[id])
            && (id in ids ==>
                  var before, after := q.rows[id], q'.rows[id];
                  && after.workerId == Some(worker) && after.leasedAt == Some(q.now)
                  && after.attempts == before.attempts + 1 && !after.dead
                  && after.monitor == before.monitor && after.region == before.region
                  && after.scheduledAt == before.scheduledAt
                  && (Eligible(after, MAX_ATTEMPTS, t)
                      <==> before.attempts < 2 && q.now + q.monitors[before.monitor].timeout + 30 < t))
  {
  }

  // ---- Retiring --------------------------------------------------------------------------------------------

  /**
   * A reap kills a row exactly if its third lease has run out, or it was never leased in more than ten
   * minutes, and changes nothing else.
   */
  lemma ReapedIff(c: Config, q: Queue, id: RowId)
    requires RowsOk(c, q) && id in q.rows
    ensures var before, q' := q.rows[id], Reap(q, MAX_ATTEMPTS);
            && q'.rows.Keys == q.rows.Keys && q'.monitors == q.monitors && q'.claims == q.claims
            && q'.rows[id] == before.(dead := q'.rows[id].dead)
            && (q'.rows[id].dead
                <==> || before.dead
                     || (before.attempts >= 3 && before.leaseExpiresAt.value < q.now)
                     || (before.attempts == 0 && before.scheduledAt + 600 < q.now))
  {
  }

  /** Cleanup removes exactly the dead rows scheduled more than seven days ago. */
  lemma CleanedUpIff(q: Queue, id: RowId)
    requires id in q.rows
    ensures var q' := CleanupDead(q);
            && (id in q'.rows <==> !q.rows[id].dead || q.rows[id].scheduledAt + 7 * 24 * 3600 >= q.now)
            && (id in q'.rows ==> q'.rows[id] == q.rows[id])
            && q'.monitors == q.monitors && q'.claims == q.claims && q'.recorded == q.recorded
  {
  }

  /** Deleting a monitor removes its rows and no other. */
  lemma DeletedWithMonitor(q: Queue, m: MonitorId, id: RowId)
    requires id in q.rows
    ensures var q' := DeleteMonitor(q, m);
            && (id in q'.rows <==> q.rows[id].monitor != m)
            && (id in q'.rows ==> q'.rows[id] == q.rows[id])
            && q'.monitors == q.monitors - {m}
  {
  }

  // ---- Handing in ------------------------------------------------------------------------------------------

  /** `at` lists, in order, the positions of the claims whose monitor exists, and `kept` these claims. */
  predicate SurvivorsAt(q: Queue, ks: seq<nat>, kept: seq<nat>, at: seq<nat>)
    requires ValidClaims(q, ks)
  {
    && |at| == |kept|
    && (forall i :: 0 <= i < |at| ==> at[i] < |ks| && kept[i] == ks[at[i]])
    && (forall i, j :: 0 <= i < j < |at| ==> at[i] < at[j])
    && (forall k: nat :: k < |ks| ==> (k in at <==> q.claims[ks[k]].monitor in q.monitors))
  }

  lemma SurvivorsSnoc(q: Queue, init: seq<nat>, k: nat, kept: seq<nat>, at: seq<nat>)
    requires ValidClaims(q, init) && k < |q.claims| && SurvivorsAt(q, init, kept, at)
    ensures ValidClaims(q, init + [k])
    ensures if q.claims[k].monitor in q.monitors then SurvivorsAt(q, init + [k], kept + [k], at + [|init|])
            else SurvivorsAt(q, init + [k], kept, at)
  {
    assert |init| !in at;
  }

  /** The surviving claims are those of existing monitors, in the order they were handed in. */
  lemma {:induction false} SurvivorsInOrder(q: Queue, ks: seq<nat>) returns (at: seq<nat>)
    requires ValidClaims(q, ks)
    ensures SurvivorsAt(q, ks, Surviving(q, ks), at)
  {
    if ks == [] {
      at := [];
    } else {
      var n := |ks| - 1;
      at := SurvivorsInOrder(q, ks[..n]);
      assert ks == ks[..n] + [ks[n]];
      SurvivorsSnoc(q, ks[..n], ks[n], Surviving(q, ks[..n]), at);
      at := if q.claims[ks[n]].monitor in q.monitors then at + [n] else at;
    }
  }

  /** A post records the surviving claims and removes exactly those of their rows that the poster holds. */
  lemma PostedIff(q: Queue, worker: WorkerId, ks: seq<nat>, id: RowId)
    requires ValidClaims(q, ks) && id in q.rows
    ensures var q' := Post(q, worker, ks);
            && (id !in q'.rows <==> q.rows[id].workerId == Some(worker)
                                    && exists k :: k in ks && k < |q.claims| && q.claims[k].row == id
                                                   && q.claims[k].monitor in q.monitors)
            && (id in q'.rows ==> q'.rows[id] == q.rows[id])
            && q'.recorded == q.recorded + Surviving(q, ks)
            && q'.monitors == q.monitors && q'.claims == q.claims
  {
    var kept := Surviving(q, ks);
    if k :| k in ks && k < |q.claims| && q.claims[k].row == id && q.claims[k].monitor in q.monitors {
      assert k in kept;
    }
  }

  /** The blocked branch records every blocked claim and removes exactly their rows. */
  lemma BlockedIff(q: Queue, ks: seq<nat>, id: RowId)
    requires ValidClaims(q, ks) && id in q.rows
    ensures var q' := Block(q, ks);
            && (id !in q'.rows <==> exists k :: k in ks && k < |q.claims| && q.claims[k].row == id)
            && (id in q'.rows ==> q'.rows[id] == q.rows[id])
            && q'.recorded == q.recorded + ks && q'.monitors == q.monitors && q'.claims == q.claims
  {
    if k :| k in ks && k < |q.claims| && q.claims[k].row == id {
      assert id in RowsOfClaims(q, ks);
    }
  }
}
