/** What every run of the queue keeps: unique live rows, bounded attempts, disjoint leases. */
module LeaseSafety {
  import opened Common
  import opened Regions
  import opened PendingChecks

  // ---- Rows ----------------------------------------------------------------------------------------

  /** Lease columns move together, attempts count leases, and the claim cap holds. */
  predicate RowOk(row: Row, cap: nat, now: int) {
    && (row.attempts == 0 <==> row.leasedAt == None)
    && (row.leasedAt == None <==> row.leaseExpiresAt == None)
    && (row.leasedAt == None <==> row.workerId == None)
    && row.attempts <= cap
    && (row.leasedAt.Some? ==> row.leasedAt.value <= now)
  }

  predicate RowsOk(c: Config, q: Queue) {
    forall id :: id in q.rows ==>
      && id < q.nextRow
      && q.rows[id].monitor in q.monitors
      && q.rows[id].region in c.regions
      && RowOk(q.rows[id], c.caps.claim, q.now)
  }

  /** The partial unique index: one live row per (monitor, region). */
  predicate LiveUnique(q: Queue) {
    forall a, b :: a in q.rows && b in q.rows && a != b && !q.rows[a].dead && !q.rows[b].dead
                   ==> q.rows[a].monitor != q.rows[b].monitor || q.rows[a].region != q.rows[b].region
  }

  lemma {:induction false} EnqueueKeepsRows(c: Config, q: Queue, m: MonitorId, regions: seq<Code>)
    requires RowsOk(c, q) && LiveUnique(q) && m in q.monitors
    requires forall r :: r in regions ==> r in c.regions
    ensures var q' := EnqueueRegions(q, m, regions);
            && RowsOk(c, q') && LiveUnique(q') && q.nextRow <= q'.nextRow
            && (forall id :: id in q.rows ==> id in q'.rows && q'.rows[id] == q.rows[id])
            && (forall id :: id in q'.rows && id !in q.rows ==> q.nextRow <= id && q'.rows[id].leasedAt == None)
  {
    if regions != [] {
      var init, r := regions[..|regions| - 1], regions[|regions| - 1];
      EnqueueKeepsRows(c, q, m, init);
    }
  }

  lemma {:induction false} ScheduleKeepsRows(c: Config, q: Queue, due: seq<MonitorId>, regions: seq<Code>)
    requires RowsOk(c, q) && LiveUnique(q)
    requires forall r :: r in regions ==> r in c.regions
    ensures var q' := Schedule(q, due, regions);
            && RowsOk(c, q') && LiveUnique(q') && q.nextRow <= q'.nextRow
            && q'.monitors.Keys == q.monitors.Keys && q'.now == q.now
            && q'.claims == q.claims && q'.spent == q.spent && q'.recorded == q.recorded
            && (forall id :: id in q.rows ==> id in q'.rows && q'.rows[id] == q.rows[id])
            && (forall id :: id in q'.rows && id !in q.rows ==> q.nextRow <= id && q'.rows[id].leasedAt == None)
  {
    if due != [] {
      var init, m := due[..|due| - 1], due[|due| - 1];
      ScheduleKeepsRows(c, q, init, regions);
      if m in q.monitors {
        EnqueueKeepsRows(c, Schedule(q, init, regions), m, regions);
      }
    }
  }

  lemma RowsStep(c: Config, q: Queue, step: Step)
    requires RowsOk(c, q) && LiveUnique(q) && Enabled(c, q, step)
    ensures RowsOk(c, Apply(c, q, step)) && LiveUnique(Apply(c, q, step))
  {
    match step
    case ScheduleDue(due, regions) => ScheduleKeepsRows(c, q, due, regions);
    case CheckNow(m, regions) => EnqueueKeepsRows(c, q, m, regions);
    case _ =>
  }

  // ---- Claims --------------------------------------------------------------------------------------

  function ClaimsOf(claims: seq<Claim>, r: RowId): set<nat> {
    set k | 0 <= k < |claims| && claims[k].row == r
  }

  /** Claims name rows that were enqueued; a row in the table has been claimed `attempts` times. */
  predicate ClaimsCounted(c: Config, q: Queue) {
    && (forall k :: 0 <= k < |q.claims| ==> q.claims[k].row < q.nextRow)
    && (forall r: nat :: r < q.nextRow ==> |ClaimsOf(q.claims, r)| <= c.caps.claim)
    && (forall r :: r in q.rows ==> |ClaimsOf(q.claims, r)| == q.rows[r].attempts)
  }

  /** Leases of one row are disjoint in time; the row's columns show its last lease. */
  predicate LeasesDisjoint(q: Queue) {
    && (forall i, k :: 0 <= i < k < |q.claims| && q.claims[i].row == q.claims[k].row
                       ==> q.claims[i].until < q.claims[k].from)
    && (forall k :: 0 <= k < |q.claims| ==> q.claims[k].from <= q.now)
  }

  predicate IsLast(claims: seq<Claim>, k: nat) {
    k < |claims| && forall i :: k < i < |claims| ==> claims[i].row != claims[k].row
  }

  predicate ShowsClaim(row: Row, claim: Claim) {
    && row.leasedAt == Some(claim.from) && row.leaseExpiresAt == Some(claim.until)
    && row.workerId == Some(claim.worker) && row.monitor == claim.monitor && row.region == claim.region
  }

  predicate RowsShowLastClaim(q: Queue) {
    && (forall k: nat :: k < |q.claims| && IsLast(q.claims, k) && q.claims[k].row in q.rows
                         ==> ShowsClaim(q.rows[q.claims[k].row], q.claims[k]))
    && (forall k :: 0 <= k < |q.claims| && q.claims[k].row in q.rows ==>
          && q.rows[q.claims[k].row].monitor == q.claims[k].monitor
          && q.rows[q.claims[k].row].leaseExpiresAt.Some?
          && q.claims[k].until <= q.rows[q.claims[k].row].leaseExpiresAt.value)
  }

  /** Results handed in: each claim at most once, and at most one check per claim. */
  predicate HandedInOnce(q: Queue) {
    && Distinct(q.recorded) && ValidClaims(q, q.recorded)
    && (forall k :: k in q.recorded ==> k in q.spent)
    && (forall k :: k in q.spent ==> k < |q.claims|)
  }

  lemma NewClaim(q: Queue, ids: seq<RowId>, worker: WorkerId, r: RowId)
    requires (forall id :: id in ids ==> id in q.rows) && Distinct(ids)
    ensures |ClaimsOf(ClaimRows(q, ids, worker).claims, r)|
            == |ClaimsOf(q.claims, r)| + (if r in ids then 1 else 0)
  {
    var claims' := ClaimRows(q, ids, worker).claims;
    var n := |q.claims|;
    assert forall k :: 0 <= k < n ==> claims'[k] == q.claims[k];
    assert forall k :: n <= k < |claims'| ==> claims'[k].row == ids[k - n];
    if r in ids {
      var i :| 0 <= i < |ids| && ids[i] == r;
      assert ClaimsOf(claims', r) == ClaimsOf(q.claims, r) + {n + i};
    } else {
      assert ClaimsOf(claims', r) == ClaimsOf(q.claims, r);
    }
  }

  lemma NoClaimsYet(c: Config, q: Queue, r: RowId)
    requires ClaimsCounted(c, q) && q.nextRow <= r
    ensures ClaimsOf(q.claims, r) == {}
  {
  }

  lemma CountedStep(c: Config, q: Queue, step: Step)
    requires RowsOk(c, q) && LiveUnique(q) && ClaimsCounted(c, q) && Enabled(c, q, step)
    ensures ClaimsCounted(c, Apply(c, q, step))
  {
    var q' := Apply(c, q, step);
    match step
    case ScheduleDue(due, regions) =>
      ScheduleKeepsRows(c, q, due, regions);
      EnqueueCounted(c, q, q');
    case CheckNow(m, regions) =>
      EnqueueKeepsRows(c, q, m, regions);
      EnqueueCounted(c, q, q');
    case ClaimJobs(_, worker, ids) =>
      forall r: nat | r < q'.nextRow
        ensures |ClaimsOf(q'.claims, r)| <= c.caps.claim
        ensures r in q'.rows ==> |ClaimsOf(q'.claims, r)| == q'.rows[r].attempts
      {
        NewClaim(q, ids, worker, r);
      }
    case _ =>
  }

  lemma EnqueueCounted(c: Config, q: Queue, q': Queue)
    requires ClaimsCounted(c, q) && RowsOk(c, q') && q'.claims == q.claims && q.nextRow <= q'.nextRow
    requires forall id :: id in q.rows ==> id in q'.rows && q'.rows[id] == q.rows[id]
    requires forall id :: id in q'.rows && id !in q.rows ==> q.nextRow <= id && q'.rows[id].leasedAt == None
    ensures ClaimsCounted(c, q')
  {
    forall r: nat | r < q'.nextRow
      ensures |ClaimsOf(q'.claims, r)| <= c.caps.claim
      ensures r in q'.rows ==> |ClaimsOf(q'.claims, r)| == q'.rows[r].attempts
    {
      if q.nextRow <= r {
        NoClaimsYet(c, q, r);
      }
    }
  }

  /** An eligible row's earlier leases all ended before now. */
  lemma EligibleIsFree(c: Config, q: Queue, k: nat)
    requires RowsOk(c, q) && RowsShowLastClaim(q)
    requires k < |q.claims| && q.claims[k].row in q.rows
    requires Eligible(q.rows[q.claims[k].row], c.caps.claim, q.now)
    ensures q.claims[k].until < q.now
  {
    assert RowOk(q.rows[q.claims[k].row], c.caps.claim, q.now);
  }

  lemma ClaimDisjoint(c: Config, q: Queue, ids: seq<RowId>, worker: WorkerId)
    requires RowsOk(c, q) && RowsShowLastClaim(q) && LeasesDisjoint(q)
    requires Distinct(ids) && forall id :: id in ids ==> id in q.rows && Eligible(q.rows[id], c.caps.claim, q.now)
    ensures LeasesDisjoint(ClaimRows(q, ids, worker))
  {
    var claims', n := ClaimRows(q, ids, worker).claims, |q.claims|;
    assert forall k :: 0 <= k < n ==> claims'[k] == q.claims[k];
    assert forall k :: n <= k < |claims'| ==> claims'[k].row == ids[k - n] && ids[k - n] in ids;
    forall i, k | 0 <= i < k < |claims'| && claims'[i].row == claims'[k].row
      ensures claims'[i].until < claims'[k].from
    {
      if i < n <= k {
        EligibleIsFree(c, q, i);
      }
    }
  }

  lemma DisjointStep(c: Config, q: Queue, step: Step)
    requires RowsOk(c, q) && RowsShowLastClaim(q) && LeasesDisjoint(q) && Enabled(c, q, step)
    ensures LeasesDisjoint(Apply(c, q, step))
  {
    match step
    case ScheduleDue(due, regions) => ScheduleKeepsHistory(q, due, regions);
    case ClaimJobs(_, worker, ids) => ClaimDisjoint(c, q, ids, worker);
    case _ =>
  }

  lemma ShowsStep(c: Config, q: Queue, step: Step)
    requires RowsOk(c, q) && LiveUnique(q) && ClaimsCounted(c, q) && RowsShowLastClaim(q) && Enabled(c, q, step)
    requires LeasesDisjoint(q)
    ensures RowsShowLastClaim(Apply(c, q, step))
  {
    match step
    case ScheduleDue(due, regions) => ScheduleKeepsRows(c, q, due, regions);
    case CheckNow(m, regions) => EnqueueKeepsRows(c, q, m, regions);
    case ClaimJobs(_, worker, ids) => ClaimShows(c, q, ids, worker);
    case _ =>
  }

  lemma ClaimShows(c: Config, q: Queue, ids: seq<RowId>, worker: WorkerId)
    requires RowsOk(c, q) && RowsShowLastClaim(q) && LeasesDisjoint(q)
    requires Distinct(ids) && forall id :: id in ids ==> id in q.rows && Eligible(q.rows[id], c.caps.claim, q.now)
    ensures RowsShowLastClaim(ClaimRows(q, ids, worker))
  {
    var q' := ClaimRows(q, ids, worker);
    var n := |q.claims|;
    assert forall k :: 0 <= k < n ==> q'.claims[k] == q.claims[k];
    assert forall k :: n <= k < |q'.claims| ==> q'.claims[k].row == ids[k - n] && ids[k - n] in ids;
    forall k: nat | IsLast(q'.claims, k) && q'.claims[k].row in q'.rows
      ensures ShowsClaim(q'.rows[q'.claims[k].row], q'.claims[k])
    {
      if k < n {
        var r := q.claims[k].row;
        forall i | 0 <= i < |ids| ensures ids[i] != r {
          assert q'.claims[n + i].row == ids[i];
        }
        assert IsLast(q.claims, k) by {
          forall i | k < i < n ensures q.claims[i].row != r {
            assert q'.claims[i].row != r;
          }
        }
      }
    }
    forall k | 0 <= k < |q'.claims| && q'.claims[k].row in q'.rows
      ensures q'.rows[q'.claims[k].row].monitor == q'.claims[k].monitor
      ensures q'.rows[q'.claims[k].row].leaseExpiresAt.Some?
      ensures q'.claims[k].until <= q'.rows[q'.claims[k].row].leaseExpiresAt.value
    {
      if k < n && q.claims[k].row in ids {
        EligibleIsFree(c, q, k);
      }
    }
  }

  lemma HandInKeeps(q: Queue, ks: seq<nat>, kept: seq<nat>)
    requires HandedInOnce(q) && HandInAllowed(q, ks) && Distinct(kept) && forall k :: k in kept ==> k in ks
    ensures Distinct(q.recorded + kept)
  {
    var all := q.recorded + kept;
    forall i, j | 0 <= i < j < |all| ensures all[i] != all[j] {
      if i < |q.recorded| <= j {
        assert q.recorded[i] in q.recorded && kept[j - |q.recorded|] in kept;
      }
    }
  }

  lemma ClaimNumbersInRange(q: Queue, ks: seq<nat>)
    requires ValidClaims(q, ks)
    ensures forall k :: k in Elements(ks) ==> k < |q.claims|
  {
    forall k | k in Elements(ks) ensures k < |q.claims| {
      var i :| 0 <= i < |ks| && ks[i] == k;
    }
  }

  lemma HandedInStep(c: Config, q: Queue, step: Step)
    requires HandedInOnce(q) && Enabled(c, q, step)
    ensures HandedInOnce(Apply(c, q, step))
  {
    match step
    case ScheduleDue(due, regions) => ScheduleKeepsHistory(q, due, regions);
    case PostResults(worker, ks) =>
      HandInKeeps(q, ks, Surviving(q, ks));
      ClaimNumbersInRange(q, ks);
    case BlockJobs(ks) =>
      HandInKeeps(q, ks, ks);
      ClaimNumbersInRange(q, ks);
    case _ =>
  }

  lemma {:induction false} ScheduleKeepsHistory(q: Queue, due: seq<MonitorId>, regions: seq<Code>)
    ensures var q' := Schedule(q, due, regions);
            q'.claims == q.claims && q'.spent == q.spent && q'.recorded == q.recorded && q'.now == q.now
  {
    if due != [] {
      ScheduleKeepsHistory(q, due[..|due| - 1], regions);
    }
  }

  // ---- Scheduler spacing ---------------------------------------------------------------------------

  /** The enqueue rounds of a monitor are at least an interval apart, and so is the next one. */
  predicate RoundsSpaced(row: MonitorRow) {
    && (forall i :: 0 <= i < |row.rounds| - 1 ==> row.rounds[i] + row.interval <= row.rounds[i + 1])
    && (row.rounds != [] ==> row.nextCheckAt == Some(row.rounds[|row.rounds| - 1] + row.interval))
  }

  predicate AllSpaced(q: Queue) {
    forall m :: m in q.monitors ==> RoundsSpaced(q.monitors[m])
  }

  lemma RoundSpaced(q: Queue, m: MonitorId, regions: seq<Code>)
    requires AllSpaced(q) && m in q.monitors && Due(q.monitors[m], q.now)
    ensures AllSpaced(ScheduleMonitor(q, m, regions))
    ensures forall x :: x in q.monitors && x != m ==>
              ScheduleMonitor(q, m, regions).monitors[x] == q.monitors[x]
  {
  }

  lemma {:induction false} ScheduleUntouched(q: Queue, due: seq<MonitorId>, regions: seq<Code>, x: MonitorId)
    requires x in q.monitors && x !in due
    ensures x in Schedule(q, due, regions).monitors && Schedule(q, due, regions).monitors[x] == q.monitors[x]
  {
    if due != [] {
      var n := |due| - 1;
      assert due == due[..n] + [due[n]];
      ScheduleUntouched(q, due[..n], regions, x);
    }
  }

  lemma {:induction false} ScheduleSpaced(q: Queue, due: seq<MonitorId>, regions: seq<Code>)
    requires AllSpaced(q) && Distinct(due)
    requires forall i :: 0 <= i < |due| ==> due[i] in q.monitors && Due(q.monitors[due[i]], q.now)
    ensures AllSpaced(Schedule(q, due, regions))
  {
    if due != [] {
      var n := |due| - 1;
      var init, m := due[..n], due[n];
      forall i | 0 <= i < n ensures init[i] != m {
      }
      ScheduleSpaced(q, init, regions);
      ScheduleKeepsHistory(q, init, regions);
      ScheduleUntouched(q, init, regions, m);
      RoundSpaced(Schedule(q, init, regions), m, regions);
    }
  }

  lemma SpacedStep(c: Config, q: Queue, step: Step)
    requires AllSpaced(q) && Enabled(c, q, step)
    ensures AllSpaced(Apply(c, q, step))
  {
    match step
    case ScheduleDue(due, regions) =>
      forall i | 0 <= i < |due| ensures due[i] in q.monitors && Due(q.monitors[due[i]], q.now) {
        assert due[i] in Elements(due);
      }
      ScheduleSpaced(q, due, regions);
    case _ =>
  }

  // ---- All of it, over runs ------------------------------------------------------------------------

  predicate Inv(c: Config, q: Queue) {
    && RowsOk(c, q) && LiveUnique(q)
    && ClaimsCounted(c, q) && LeasesDisjoint(q) && RowsShowLastClaim(q) && HandedInOnce(q)
    && AllSpaced(q)
  }

  lemma InvStep(c: Config, q: Queue, step: Step)
    requires Inv(c, q) && Enabled(c, q, step)
    ensures Inv(c, Apply(c, q, step))
  {
    RowsStep(c, q, step);
    CountedStep(c, q, step);
    DisjointStep(c, q, step);
    ShowsStep(c, q, step);
    HandedInStep(c, q, step);
    SpacedStep(c, q, step);
  }

  lemma {:induction false} InvRun(c: Config, q: Queue, steps: seq<Step>, q': Queue)
    requires Inv(c, q) && Runs(c, q, steps, q')
    ensures Inv(c, q')
    decreases |steps|
  {
    if steps != [] {
      InvStep(c, q, steps[0]);
      InvRun(c, Apply(c, q, steps[0]), steps[1..], q');
    }
  }

  lemma InvReachable(c: Config, steps: seq<Step>, q: Queue)
    requires Runs(c, EMPTY_QUEUE, steps, q)
    ensures Inv(c, q)
  {
    assert forall r: nat :: ClaimsOf([], r) == {};
    InvRun(c, EMPTY_QUEUE, steps, q);
  }
}
