/**
 * worker/run.py: a worker runs a fetched batch in sequence, each job under a hard ceiling, and posts
 * once at the end. When the batch fits its leases, nobody else can touch its rows before the post.
 */
module WorkerLoop {
  import opened Common
  import opened Regions
  import opened PendingChecks
  import opened LeaseSafety
  import opened LeaseTheorems

  const HARD_TIMEOUT_SLACK_SECONDS := 10

  datatype Job = Job(claim: nat, timeoutSeconds: nat)

  /**
   * How a checker behaves when run: it answers, raises, or is still running; `took` is its own time. Python
   * 3.11 and later have one TimeoutError, so a checker that raises it looks like the ceiling being hit.
   */
  datatype CheckerRun =
    | NoChecker
    | Answered(status: CheckStatus, took: nat)
    | Raised(took: nat, timeoutError: bool)
    | Overran

  datatype Note = Plain | HardTimeout(seconds: nat) | CheckerError | UnknownType
  datatype Result = Result(claim: nat, status: CheckStatus, note: Note)

  /** `int(job.get("timeout_seconds") or 10) * 2 + slack`. */
  function CheckCeiling(job: Job): nat {
    (if job.timeoutSeconds == 0 then 10 else job.timeoutSeconds) * 2 + HARD_TIMEOUT_SLACK_SECONDS
  }

  /** The longest a whole batch can take. */
  function BatchCeiling(jobs: seq<Job>): nat {
    if jobs == [] then 0 else BatchCeiling(jobs[..|jobs| - 1]) + CheckCeiling(jobs[|jobs| - 1])
  }

  predicate CeilingHit(job: Job, run: CheckerRun) {
    run.Overran? || ((run.Answered? || run.Raised?) && run.took >= CheckCeiling(job))
  }

  /**
   * What a result says about its run: up exactly for an up answer in time; otherwise down, with a note that
   * tells a down answer, the ceiling (or a TimeoutError), another error and an unknown type apart.
   */
  predicate Reports(job: Job, run: CheckerRun, result: Result) {
    && result.claim == job.claim
    && (result.status == Up <==> run.Answered? && run.status == Up && !CeilingHit(job, run))
    && (result.note == Plain <==> run.Answered? && !CeilingHit(job, run))
    && (result.note.HardTimeout? <==> CeilingHit(job, run) || (run.Raised? && run.timeoutError))
    && (result.note.HardTimeout? ==> result.note.seconds == CheckCeiling(job))
    && (result.note == CheckerError <==> run.Raised? && !run.timeoutError && !CeilingHit(job, run))
    && (result.note == UnknownType <==> run.NoChecker?)
  }

  class Worker {
    var clock: int
    var results: seq<Result>

    constructor (now: int)
      ensures clock == now && results == []
    {
      clock := now;
      results := [];
    }

    /** execute_check: a job that has not answered by its ceiling is reported down and abandoned. */
    method ExecuteCheck(job: Job, run: CheckerRun) returns (result: Result)
      modifies this`clock
      ensures Reports(job, run, result)
      ensures old(clock) <= clock <= old(clock) + CheckCeiling(job)
      ensures CheckCeiling(job) == if job.timeoutSeconds == 0 then 30 else 2 * job.timeoutSeconds + 10
      ensures CeilingHit(job, run) ==> clock == old(clock) + CheckCeiling(job)
      ensures !CeilingHit(job, run) && !run.NoChecker? ==> clock == old(clock) + run.took
    {
      var ceiling := CheckCeiling(job);
      match run
      case NoChecker =>
        result := Result(job.claim, Down, UnknownType);
      case Answered(status, took) =>
        if took < ceiling {
          clock := clock + took;
          result := Result(job.claim, status, Plain);
        } else {
          clock := clock + ceiling;
          result := Result(job.claim, Down, HardTimeout(ceiling));
        }
      case Raised(took, timeoutError) =>
        if took >= ceiling {
          clock := clock + ceiling;
          result := Result(job.claim, Down, HardTimeout(ceiling));
        } else if timeoutError {
          clock := clock + took;
          result := Result(job.claim, Down, HardTimeout(ceiling));
        } else {
          clock := clock + took;
          result := Result(job.claim, Down, CheckerError);
        }
      case Overran =>
        clock := clock + ceiling;
        result := Result(job.claim, Down, HardTimeout(ceiling));
    }

    /** The body of main's loop after a fetch: every job in order, one result each, within the ceiling. */
    method RunBatch(jobs: seq<Job>, runs: seq<CheckerRun>)
      requires |runs| == |jobs|
      modifies this
      ensures |results| == |jobs|
      ensures forall i :: 0 <= i < |jobs| ==> Reports(jobs[i], runs[i], results[i])
      ensures old(clock) <= clock <= old(clock) + BatchCeiling(jobs)
    {
      results := [];
      for i := 0 to |jobs|
        invariant |results| == i
        invariant forall k :: 0 <= k < i ==> Reports(jobs[k], runs[k], results[k])
        invariant old(clock) <= clock <= old(clock) + BatchCeiling(jobs[..i])
      {
        assert jobs[..i + 1][..i] == jobs[..i];
        var r := ExecuteCheck(jobs[i], runs[i]);
        results := results + [r];
      }
      assert jobs[..|jobs|] == jobs;
    }
  }

  // ---- The rest of the world while a batch runs ----------------------------------------------------

  /**
   * A step of the rest of the world: no post under the same worker name that reports one of the batch's
   * rows, no blocked branch for one of its own leases, and none of its monitors is deleted. Other workers
   * may claim, post late results, reap, schedule and clean up freely. `late` says whether the blocked
   * branches of earlier polls may come after their lease has ended.
   */
  predicate Foreign(q: Queue, step: Step, worker: WorkerId, ids: set<RowId>, late: bool) {
    match step
    case PostResults(w, ks) =>
      w == worker ==> forall i :: 0 <= i < |ks| && ks[i] < |q.claims| ==> q.claims[ks[i]].row !in ids
    case BlockJobs(ks) =>
      forall i :: 0 <= i < |ks| && ks[i] < |q.claims| && q.claims[ks[i]].row in ids ==>
        !IsLast(q.claims, ks[i]) && (late || q.now <= q.claims[ks[i]].until)
    case RemoveMonitor(m) => forall id :: id in ids && id in q.rows ==> q.rows[id].monitor != m
    case _ => true
  }

  /** Every earlier lease of the rows has had its result handed in, so no blocked branch of it is to come. */
  predicate NoStaleClaims(q: Queue, ids: set<RowId>) {
    forall k :: 0 <= k < |q.claims| && q.claims[k].row in ids && !IsLast(q.claims, k) ==> k in q.spent
  }

  ghost predicate ForeignRun(
    c: Config, q: Queue, steps: seq<Step>, q': Queue, worker: WorkerId, ids: set<RowId>, late: bool)
    decreases |steps|
  {
    if steps == [] then q' == q
    else
      && Enabled(c, q, steps[0]) && Foreign(q, steps[0], worker, ids, late)
      && ForeignRun(c, Apply(c, q, steps[0]), steps[1..], q', worker, ids, late)
  }

  predicate Held(q: Queue, q': Queue, ids: set<RowId>) {
    forall id :: id in ids ==> id in q.rows && id in q'.rows && q'.rows[id] == q.rows[id]
  }

  /** Rows untouched, no new lease of them, and none of this worker's claims on them handed in. */
  predicate StillOurs(q: Queue, q': Queue, worker: WorkerId, ids: set<RowId>) {
    && Held(q, q', ids)
    && |q.claims| <= |q'.claims|
    && (forall k :: 0 <= k < |q.claims| ==> q'.claims[k] == q.claims[k])
    && (forall k :: 0 <= k < |q.claims| && q.claims[k].row in ids && q.claims[k].worker == worker ==>
          (k in q'.spent <==> k in q.spent))
    && (forall id :: id in ids ==> ClaimsOf(q'.claims, id) == ClaimsOf(q.claims, id))
  }

  predicate LeasesLast(q: Queue, ids: set<RowId>, worker: WorkerId, until: int) {
    forall id :: id in ids ==>
      && id in q.rows && !q.rows[id].dead && q.rows[id].workerId == Some(worker)
      && q.rows[id].leaseExpiresAt.Some? && until <= q.rows[id].leaseExpiresAt.value
  }

  lemma {:induction false} ClockMonotone(
    c: Config, q: Queue, steps: seq<Step>, q': Queue, worker: WorkerId, ids: set<RowId>, late: bool)
    requires ForeignRun(c, q, steps, q', worker, ids, late)
    ensures q.now <= q'.now
    decreases |steps|
  {
    if steps != [] {
      if steps[0].ScheduleDue? {
        ScheduleKeepsHistory(q, steps[0].due, steps[0].regions);
      }
      ClockMonotone(c, Apply(c, q, steps[0]), steps[1..], q', worker, ids, late);
    }
  }

  lemma HeldClaim(c: Config, q: Queue, claim: Step, worker: WorkerId, ids: set<RowId>, until: int)
    requires claim.ClaimJobs? && Enabled(c, q, claim) && RowsOk(c, q)
    requires LeasesLast(q, ids, worker, until) && q.now <= until
    ensures Held(q, ClaimRows(q, claim.ids, claim.worker), ids)
    ensures forall id :: id in ids ==>
              ClaimsOf(ClaimRows(q, claim.ids, claim.worker).claims, id) == ClaimsOf(q.claims, id)
  {
    var claimed := claim.ids;
    var claims' := ClaimRows(q, claimed, claim.worker).claims;
    forall id | id in ids ensures id !in claimed && RowOk(q.rows[id], c.caps.claim, q.now) {
    }
    forall id | id in ids ensures ClaimsOf(claims', id) == ClaimsOf(q.claims, id) {
      forall k | |q.claims| <= k < |claims'| ensures claims'[k].row != id {
        assert claimed[k - |q.claims|] in claimed;
      }
    }
  }

  /** Under the lease no foreign blocked branch is about a row of the batch. */
  lemma ForeignBlock(c: Config, q: Queue, ks: seq<nat>, worker: WorkerId, ids: set<RowId>, late: bool)
    requires Inv(c, q) && Enabled(c, q, BlockJobs(ks)) && Foreign(q, BlockJobs(ks), worker, ids, late)
    requires late ==> NoStaleClaims(q, ids)
    ensures forall i :: 0 <= i < |ks| ==> q.claims[ks[i]].row !in ids
  {
    forall i | 0 <= i < |ks| ensures q.claims[ks[i]].row !in ids {
      assert ks[i] in ks;
      if q.now <= q.claims[ks[i]].until {
        UnexpiredClaimHolds(c, q, ks[i]);
      }
    }
  }

  lemma HeldStep(c: Config, q: Queue, step: Step, worker: WorkerId, ids: set<RowId>, until: int, late: bool)
    requires Inv(c, q) && Enabled(c, q, step) && Foreign(q, step, worker, ids, late)
    requires late ==> NoStaleClaims(q, ids)
    requires LeasesLast(q, ids, worker, until) && q.now <= until
    ensures StillOurs(q, Apply(c, q, step), worker, ids)
  {
    match step
    case ScheduleDue(due, regions) => ScheduleKeepsRows(c, q, due, regions);
    case CheckNow(m, regions) => EnqueueKeepsRows(c, q, m, regions);
    case ClaimJobs(_, _, _) => HeldClaim(c, q, step, worker, ids, until);
    case PostResults(w, ks) => HeldPost(c, q, w, ks, worker, ids, late);
    case BlockJobs(ks) =>
      ForeignBlock(c, q, ks, worker, ids, late);
      HeldBlock(q, ks, ids);
    case _ =>
      assert forall id :: id in ids ==> RowOk(q.rows[id], c.caps.claim, q.now);
  }

  lemma HeldPost(c: Config, q: Queue, w: WorkerId, ks: seq<nat>, worker: WorkerId, ids: set<RowId>, late: bool)
    requires Enabled(c, q, PostResults(w, ks)) && Foreign(q, PostResults(w, ks), worker, ids, late)
    requires forall id :: id in ids ==> id in q.rows && q.rows[id].workerId == Some(worker)
    ensures Held(q, Post(q, w, ks), ids)
    ensures forall k :: 0 <= k < |q.claims| && q.claims[k].row in ids && q.claims[k].worker == worker ==>
              (k in Post(q, w, ks).spent <==> k in q.spent)
  {
    forall k | 0 <= k < |q.claims| && q.claims[k].row in ids && q.claims[k].worker == worker
      ensures k !in ks
    {
      forall i | 0 <= i < |ks| ensures ks[i] != k {
      }
    }
    if w == worker {
      var kept := Surviving(q, ks);
      forall k | k in kept && k < |q.claims| ensures q.claims[k].row !in ids {
        var i :| 0 <= i < |ks| && ks[i] == k;
      }
    }
  }

  lemma HeldBlock(q: Queue, ks: seq<nat>, ids: set<RowId>)
    requires ValidClaims(q, ks) && forall i :: 0 <= i < |ks| ==> q.claims[ks[i]].row !in ids
    requires forall id :: id in ids ==> id in q.rows
    ensures Held(q, Block(q, ks), ids)
    ensures forall k :: 0 <= k < |q.claims| && q.claims[k].row in ids ==>
              (k in Block(q, ks).spent <==> k in q.spent)
  {
    forall k | k in ks && k < |q.claims| ensures q.claims[k].row !in ids {
      var i :| 0 <= i < |ks| && ks[i] == k;
    }
  }

  lemma SpentGrows(c: Config, q: Queue, step: Step)
    requires Enabled(c, q, step)
    ensures q.spent <= Apply(c, q, step).spent
  {
    if step.ScheduleDue? {
      ScheduleKeepsHistory(q, step.due, step.regions);
    }
  }

  lemma NoStaleClaimsKept(q: Queue, q': Queue, worker: WorkerId, ids: set<RowId>)
    requires NoStaleClaims(q, ids) && StillOurs(q, q', worker, ids) && q.spent <= q'.spent
    ensures NoStaleClaims(q', ids)
  {
    forall k | 0 <= k < |q'.claims| && q'.claims[k].row in ids && !IsLast(q'.claims, k) ensures k in q'.spent {
      var r := q'.claims[k].row;
      var i :| k < i < |q'.claims| && q'.claims[i].row == r;
      assert k in ClaimsOf(q'.claims, r) && i in ClaimsOf(q'.claims, r);
      assert k in ClaimsOf(q.claims, r) && i in ClaimsOf(q.claims, r);
    }
  }

  lemma {:induction false} HeldRun(
    c: Config, q: Queue, steps: seq<Step>, q': Queue, worker: WorkerId, ids: set<RowId>, until: int, late: bool)
    requires Inv(c, q) && ForeignRun(c, q, steps, q', worker, ids, late)
    requires LeasesLast(q, ids, worker, until) && q'.now <= until
    requires late ==> NoStaleClaims(q, ids)
    ensures Inv(c, q') && StillOurs(q, q', worker, ids)
    decreases |steps|
  {
    if steps != [] {
      var mid := Apply(c, q, steps[0]);
      ClockMonotone(c, q, steps, q', worker, ids, late);
      InvStep(c, q, steps[0]);
      HeldStep(c, q, steps[0], worker, ids, until, late);
      SpentGrows(c, q, steps[0]);
      if late {
        NoStaleClaimsKept(q, mid, worker, ids);
      }
      HeldRun(c, mid, steps[1..], q', worker, ids, until, late);
    }
  }

  // ---- Exactly once --------------------------------------------------------------------------------

  /** No foreign run up to `deadline` touches the rows. */
  ghost predicate BatchSafe(c: Config, q: Queue, worker: WorkerId, ids: set<RowId>, deadline: int, late: bool) {
    forall steps, q' | ForeignRun(c, q, steps, q', worker, ids, late) && q'.now <= deadline :: Held(q, q', ids)
  }

  lemma TwoSteps(c: Config, q: Queue, a: Step, b: Step, worker: WorkerId, ids: set<RowId>, late: bool)
    requires Enabled(c, q, a) && Foreign(q, a, worker, ids, late)
    requires Enabled(c, Apply(c, q, a), b) && Foreign(Apply(c, q, a), b, worker, ids, late)
    ensures ForeignRun(c, q, [a, b], Apply(c, Apply(c, q, a), b), worker, ids, late)
  {
    var q1 := Apply(c, q, a);
    var q2 := Apply(c, q1, b);
    assert [a, b][1..] == [b] && [b][1..] == [];
    assert ForeignRun(c, q2, [], q2, worker, ids, late);
    assert ForeignRun(c, q1, [b], q2, worker, ids, late);
  }

  /** How an expired row is taken: by a poll if it has attempts left, else by the reaper. */
  function Taking(c: Config, row: Row, id: RowId, now: int): Step {
    if Eligible(row, c.caps.claim, now) then ClaimJobs(row.region, "other", [id]) else ReapRows
  }

  lemma TakenRowChanges(c: Config, q: Queue, id: RowId)
    requires RowsOk(c, q) && id in q.rows && !q.rows[id].dead
    requires 1 <= c.caps.claim && c.caps.reap <= c.caps.claim
    requires q.rows[id].leaseExpiresAt.Some? && q.rows[id].leaseExpiresAt.value < q.now
    ensures var take := Taking(c, q.rows[id], id, q.now);
            && Enabled(c, q, take) && id in Apply(c, q, take).rows && Apply(c, q, take).rows[id] != q.rows[id]
            && Apply(c, q, take).now == q.now
  {
    assert RowOk(q.rows[id], c.caps.claim, q.now);
  }

  /** An expired lease is always there for the taking: another poll or the reaper changes the row. */
  lemma ExpiredCanBeTaken(
    c: Config, q: Queue, worker: WorkerId, ids: set<RowId>, id: RowId, deadline: int, late: bool)
    requires Inv(c, q) && id in ids && id in q.rows && !q.rows[id].dead
    requires 1 <= c.caps.claim && c.caps.reap <= c.caps.claim
    requires q.rows[id].leaseExpiresAt.Some? && q.rows[id].leaseExpiresAt.value < deadline && q.now <= deadline
    ensures !BatchSafe(c, q, worker, ids, deadline, late)
  {
    var wait := Tick(deadline - q.now);
    var q1 := Apply(c, q, wait);
    RowsStep(c, q, wait);
    TakenRowChanges(c, q1, id);
    var take := Taking(c, q1.rows[id], id, q1.now);
    TwoSteps(c, q, wait, take, worker, ids, late);
    assert !Held(q, Apply(c, q1, take), ids);
  }

  /** A blocked branch still to come for an earlier lease deletes the row. */
  lemma StaleClaimCanBlock(c: Config, q: Queue, worker: WorkerId, ids: set<RowId>, k: nat)
    requires RowsOk(c, q) && RowsShowLastClaim(q)
    requires k < |q.claims| && q.claims[k].row in ids && q.claims[k].row in q.rows
    requires !IsLast(q.claims, k) && k !in q.spent
    ensures Enabled(c, q, BlockJobs([k])) && Foreign(q, BlockJobs([k]), worker, ids, true)
    ensures ForeignRun(c, q, [BlockJobs([k])], Block(q, [k]), worker, ids, true)
    ensures q.claims[k].row !in Block(q, [k]).rows
  {
    assert q.rows[q.claims[k].row].monitor == q.claims[k].monitor;
    assert [BlockJobs([k])][1..] == [];
    assert ForeignRun(c, Block(q, [k]), [], Block(q, [k]), worker, ids, true);
    assert k in [k];
  }

  lemma SafeWhileLeased(c: Config, q: Queue, worker: WorkerId, ids: set<RowId>, deadline: int, late: bool)
    requires Inv(c, q) && LeasesLast(q, ids, worker, deadline) && (late ==> NoStaleClaims(q, ids))
    ensures BatchSafe(c, q, worker, ids, deadline, late)
  {
    forall steps, q' | ForeignRun(c, q, steps, q', worker, ids, late) && q'.now <= deadline
      ensures Held(q, q', ids)
    {
      HeldRun(c, q, steps, q', worker, ids, deadline, late);
    }
  }

  lemma UnsafeWhenStale(c: Config, q: Queue, worker: WorkerId, ids: set<RowId>, deadline: int)
    requires RowsOk(c, q) && RowsShowLastClaim(q)
    requires q.now <= deadline && (forall id :: id in ids ==> id in q.rows) && !NoStaleClaims(q, ids)
    ensures !BatchSafe(c, q, worker, ids, deadline, true)
  {
    var k :| 0 <= k < |q.claims| && q.claims[k].row in ids && !IsLast(q.claims, k) && k !in q.spent;
    StaleClaimCanBlock(c, q, worker, ids, k);
    assert !Held(q, Block(q, [k]), ids);
  }

  /**
   * Nobody can take, retire or delete a row of the batch before the deadline, exactly if every lease lasts
   * that long and, where blocked branches may come late, no earlier lease of a row can still bring one.
   */
  lemma BatchSafeIffLeasesLast(
    c: Config, q: Queue, worker: WorkerId, ids: set<RowId>, deadline: int, late: bool)
    requires Inv(c, q) && 1 <= c.caps.claim && c.caps.reap <= c.caps.claim && q.now <= deadline
    requires LeasesLast(q, ids, worker, q.now)
    ensures BatchSafe(c, q, worker, ids, deadline, late)
            <==> LeasesLast(q, ids, worker, deadline) && (late ==> NoStaleClaims(q, ids))
  {
    if !LeasesLast(q, ids, worker, deadline) {
      var id :| id in ids && q.rows[id].leaseExpiresAt.value < deadline;
      ExpiredCanBeTaken(c, q, worker, ids, id, deadline, late);
    } else if late && !NoStaleClaims(q, ids) {
      UnsafeWhenStale(c, q, worker, ids, deadline);
    } else {
      SafeWhileLeased(c, q, worker, ids, deadline, late);
    }
  }

  predicate JobsOf(q: Queue, ids: seq<RowId>, jobs: seq<Job>) {
    && |jobs| == |ids|
    && forall i :: 0 <= i < |ids| ==>
         && ids[i] in q.rows && q.rows[ids[i]].monitor in q.monitors
         && jobs[i] == Job(|q.claims| + i, q.monitors[q.rows[ids[i]].monitor].timeout)
  }

  /** The condition under which a batch with network delay `delay` fits the shortest of its leases. */
  predicate BatchFits(jobs: seq<Job>, delay: nat) {
    forall i :: 0 <= i < |jobs| ==> BatchCeiling(jobs) + delay <= jobs[i].timeoutSeconds + LEASE_SLACK_SECONDS
  }

  /** A batch of one with no delay fits exactly up to 20 seconds of timeout. */
  lemma SingleJobFits(timeout: nat, claim: nat)
    requires timeout >= 1
    ensures BatchFits([Job(claim, timeout)], 0) <==> timeout <= 20
  {
    var jobs := [Job(claim, timeout)];
    assert jobs[..|jobs| - 1] == [];
    assert BatchCeiling(jobs) == 2 * timeout + HARD_TIMEOUT_SLACK_SECONDS;
    if BatchFits(jobs, 0) {
      assert jobs[0].timeoutSeconds == timeout;
    }
  }

  function ClaimNumbers(first: nat, n: nat): seq<nat> {
    seq(n, i requires 0 <= i < n => first + i)
  }

  lemma ClaimedLease(c: Config, q: Queue, region: Code, worker: WorkerId, ids: seq<RowId>, jobs: seq<Job>, i: nat)
    requires Enabled(c, q, ClaimJobs(region, worker, ids)) && JobsOf(q, ids, jobs) && i < |ids|
    ensures var q1 := ClaimRows(q, ids, worker);
            && ids[i] in Elements(ids) && ids[i] in q1.rows
            && !q1.rows[ids[i]].dead && q1.rows[ids[i]].workerId == Some(worker)
            && q1.rows[ids[i]].leaseExpiresAt == Some(q.now + jobs[i].timeoutSeconds + LEASE_SLACK_SECONDS)
  {
    assert ids[i] in ids;
  }

  /** The claim leases exactly until the moment BatchFits compares with. */
  lemma ClaimLeases(c: Config, q: Queue, region: Code, worker: WorkerId, ids: seq<RowId>, jobs: seq<Job>, delay: nat)
    requires Enabled(c, q, ClaimJobs(region, worker, ids)) && JobsOf(q, ids, jobs)
    ensures BatchFits(jobs, delay)
            <==> LeasesLast(ClaimRows(q, ids, worker), Elements(ids), worker, q.now + BatchCeiling(jobs) + delay)
  {
    var q1, until := ClaimRows(q, ids, worker), q.now + BatchCeiling(jobs) + delay;
    if BatchFits(jobs, delay) {
      forall id | id in Elements(ids)
        ensures id in q1.rows && !q1.rows[id].dead && q1.rows[id].workerId == Some(worker)
        ensures q1.rows[id].leaseExpiresAt.Some? && until <= q1.rows[id].leaseExpiresAt.value
      {
        var i :| 0 <= i < |ids| && ids[i] == id;
        ClaimedLease(c, q, region, worker, ids, jobs, i);
      }
    } else {
      var i :| 0 <= i < |jobs| && jobs[i].timeoutSeconds + LEASE_SLACK_SECONDS < BatchCeiling(jobs) + delay;
      ClaimedLease(c, q, region, worker, ids, jobs, i);
    }
  }

  /** Every lease taken before of the rows being claimed has had its result handed in. */
  predicate EarlierClaimsSpent(q: Queue, ids: seq<RowId>) {
    forall k :: 0 <= k < |q.claims| && q.claims[k].row in ids ==> k in q.spent
  }

  lemma NewClaimIsLast(q: Queue, worker: WorkerId, ids: seq<RowId>, k: nat)
    requires (forall id :: id in ids ==> id in q.rows) && Distinct(ids)
    requires |q.claims| <= k < |ClaimRows(q, ids, worker).claims|
    ensures IsLast(ClaimRows(q, ids, worker).claims, k)
  {
    var claims', n := ClaimRows(q, ids, worker).claims, |q.claims|;
    forall i | k < i < |claims'| ensures claims'[i].row != claims'[k].row {
      assert claims'[k].row == ids[k - n] && claims'[i].row == ids[i - n];
    }
  }

  lemma FreshBatchHasNoStaleClaims(q: Queue, worker: WorkerId, ids: seq<RowId>)
    requires (forall id :: id in ids ==> id in q.rows) && Distinct(ids) && EarlierClaimsSpent(q, ids)
    ensures NoStaleClaims(ClaimRows(q, ids, worker), Elements(ids))
  {
    var q1 := ClaimRows(q, ids, worker);
    forall k | 0 <= k < |q1.claims| && q1.claims[k].row in Elements(ids) && !IsLast(q1.claims, k)
      ensures k in q1.spent
    {
      if |q.claims| <= k {
        NewClaimIsLast(q, worker, ids, k);
      }
    }
  }

  lemma BatchRun(
    c: Config, q: Queue, region: Code, worker: WorkerId, ids: seq<RowId>, jobs: seq<Job>, delay: nat,
    steps: seq<Step>, q2: Queue, late: bool)
    requires Inv(c, q) && Enabled(c, q, ClaimJobs(region, worker, ids)) && JobsOf(q, ids, jobs)
    requires ForeignRun(c, ClaimRows(q, ids, worker), steps, q2, worker, Elements(ids), late)
    requires q2.now <= q.now + BatchCeiling(jobs) + delay
    requires BatchFits(jobs, delay) && (late ==> EarlierClaimsSpent(q, ids))
    ensures Inv(c, q2) && StillOurs(ClaimRows(q, ids, worker), q2, worker, Elements(ids))
  {
    InvStep(c, q, ClaimJobs(region, worker, ids));
    ClaimLeases(c, q, region, worker, ids, jobs, delay);
    if late {
      FreshBatchHasNoStaleClaims(q, worker, ids);
    }
    HeldRun(c, ClaimRows(q, ids, worker), steps, q2, worker, Elements(ids),
            q.now + BatchCeiling(jobs) + delay, late);
  }

  lemma ClaimedRow(q: Queue, worker: WorkerId, ids: seq<RowId>, i: nat)
    requires i < |ids| && forall id :: id in ids ==> id in q.rows
    ensures var q1 := ClaimRows(q, ids, worker);
            && |q1.claims| == |q.claims| + |ids| && q1.spent == q.spent
            && q1.claims[|q.claims| + i].row == ids[i] && q1.claims[|q.claims| + i].worker == worker
            && q1.claims[|q.claims| + i].monitor == q.rows[ids[i]].monitor
            && ids[i] in q1.rows && q1.rows[ids[i]].workerId == Some(worker)
            && q1.rows[ids[i]].monitor == q.rows[ids[i]].monitor
  {
    assert ids[i] in ids;
  }

  /** The state at the post: the rows still carry the batch's lease and its claims are unspent. */
  lemma BatchStillHeld(c: Config, q: Queue, worker: WorkerId, ids: seq<RowId>, q2: Queue, i: nat)
    requires HandedInOnce(q) && RowsOk(c, q2) && i < |ids| && forall id :: id in ids ==> id in q.rows
    requires StillOurs(ClaimRows(q, ids, worker), q2, worker, Elements(ids))
    ensures var k := |q.claims| + i;
            && k < |q2.claims| && k !in q2.spent
            && q2.claims[k].row == ids[i] && q2.claims[k].worker == worker && q2.claims[k].monitor in q2.monitors
    ensures ids[i] in q2.rows && q2.rows[ids[i]].workerId == Some(worker)
    ensures ClaimsOf(q2.claims, ids[i]) == ClaimsOf(ClaimRows(q, ids, worker).claims, ids[i])
  {
    ClaimedRow(q, worker, ids, i);
    var q1, k, id := ClaimRows(q, ids, worker), |q.claims| + i, ids[i];
    assert id in Elements(ids);
    assert q2.claims[k] == q1.claims[k];
    assert q2.rows[id] == q1.rows[id];
    assert k !in q1.spent;
  }

  /** Claim `ks[i]` is this worker's unspent lease of row `ids[i]`, which the row still shows. */
  predicate ReadyToPost(q: Queue, worker: WorkerId, ids: seq<RowId>, ks: seq<nat>) {
    && |ks| == |ids|
    && forall i :: 0 <= i < |ids| ==>
         && ks[i] < |q.claims| && ks[i] !in q.spent
         && q.claims[ks[i]].row == ids[i] && q.claims[ks[i]].worker == worker
         && q.claims[ks[i]].monitor in q.monitors
         && ids[i] in q.rows && q.rows[ids[i]].workerId == Some(worker)
  }

  /** A post of held rows deletes each of them and records each claim. */
  lemma PostOfHeldRows(q: Queue, worker: WorkerId, ids: seq<RowId>, ks: seq<nat>)
    requires ReadyToPost(q, worker, ids, ks)
    ensures var q' := Post(q, worker, ks);
            (forall id :: id in ids ==> id !in q'.rows) && q'.recorded == q.recorded + ks
  {
    AllSurvive(q, ks);
    forall id | id in ids ensures id in RowsOfClaims(q, ks) && q.rows[id].workerId == Some(worker) {
      var i :| 0 <= i < |ids| && ids[i] == id;
      assert ks[i] in ks;
    }
  }

  lemma BatchReady(c: Config, q: Queue, worker: WorkerId, ids: seq<RowId>, q2: Queue)
    requires HandedInOnce(q) && RowsOk(c, q2) && forall id :: id in ids ==> id in q.rows
    requires StillOurs(ClaimRows(q, ids, worker), q2, worker, Elements(ids))
    ensures ReadyToPost(q2, worker, ids, ClaimNumbers(|q.claims|, |ids|))
    ensures forall id :: id in ids ==>
              ClaimsOf(q2.claims, id) == ClaimsOf(ClaimRows(q, ids, worker).claims, id)
  {
    var ks := ClaimNumbers(|q.claims|, |ids|);
    forall i | 0 <= i < |ids|
      ensures ks[i] < |q2.claims| && ks[i] !in q2.spent
      ensures q2.claims[ks[i]].row == ids[i] && q2.claims[ks[i]].worker == worker
      ensures q2.claims[ks[i]].monitor in q2.monitors
      ensures ids[i] in q2.rows && q2.rows[ids[i]].workerId == Some(worker)
      ensures ClaimsOf(q2.claims, ids[i]) == ClaimsOf(ClaimRows(q, ids, worker).claims, ids[i])
    {
      BatchStillHeld(c, q, worker, ids, q2, i);
    }
  }

  /**
   * Conditional exactly-once. A worker claims `ids`, the rest of the world does what it likes, and the
   * worker posts no later than the batch ceiling plus the delay. If the batch fits, and no blocked branch of
   * an earlier lease comes late or none is still to come, the post deletes every row and adds exactly one
   * check per row, and no other lease of those rows was taken meanwhile.
   */
  lemma BatchExactlyOnce(
    c: Config, q: Queue, region: Code, worker: WorkerId, ids: seq<RowId>, jobs: seq<Job>, delay: nat,
    steps: seq<Step>, q2: Queue, late: bool)
    requires Inv(c, q) && Enabled(c, q, ClaimJobs(region, worker, ids)) && JobsOf(q, ids, jobs)
    requires ForeignRun(c, ClaimRows(q, ids, worker), steps, q2, worker, Elements(ids), late)
    requires q2.now <= q.now + BatchCeiling(jobs) + delay
    requires BatchFits(jobs, delay) && (late ==> EarlierClaimsSpent(q, ids))
    ensures var ks := ClaimNumbers(|q.claims|, |ids|);
            && ReadyToPost(q2, worker, ids, ks) && Enabled(c, q2, PostResults(worker, ks))
            && (forall id :: id in ids ==> id !in Post(q2, worker, ks).rows)
            && Post(q2, worker, ks).recorded == q2.recorded + ks
    ensures forall id :: id in ids ==>
              ClaimsOf(q2.claims, id) == ClaimsOf(ClaimRows(q, ids, worker).claims, id)
  {
    var ks := ClaimNumbers(|q.claims|, |ids|);
    BatchRun(c, q, region, worker, ids, jobs, delay, steps, q2, late);
    BatchReady(c, q, worker, ids, q2);
    PostOfHeldRows(q2, worker, ids, ks);
    assert Distinct(ks) && forall k :: k in ks ==> k !in q2.spent;
  }

  lemma {:induction false} AllSurvive(q: Queue, ks: seq<nat>)
    requires ValidClaims(q, ks) && forall i :: 0 <= i < |ks| ==> q.claims[ks[i]].monitor in q.monitors
    ensures Surviving(q, ks) == ks
  {
    if ks != [] {
      var n := |ks| - 1;
      AllSurvive(q, ks[..n]);
      assert ks == ks[..n] + [ks[n]];
    }
  }

  /**
   * Without that, the arithmetic alone is not enough: a row is leased a second time, as a batch of one that
   * fits, and the blocked branch of its first lease comes late. It deletes the row under the running lease
   * and records a check, and the batch's own post records another.
   */
  lemma LateBlockBreaksExactlyOnce(c: Config, region: Code)
    returns (steps: seq<Step>, q: Queue, jobs: seq<Job>, k: nat, q2: Queue)
    requires region in c.regions && 2 <= c.caps.claim
    ensures Runs(c, EMPTY_QUEUE, steps, q) && Inv(c, q)
    ensures Enabled(c, q, ClaimJobs(region, "v", [0])) && JobsOf(q, [0], jobs) && BatchFits(jobs, 0)
    ensures ForeignRun(c, ClaimRows(q, [0], "v"), [BlockJobs([k])], q2, "v", {0}, true) && q2.now == q.now
    ensures 0 !in q2.rows && Enabled(c, q2, PostResults("v", [|q.claims|]))
    ensures k < |q.claims| && {k, |q.claims|} <= RecordedOf(Post(q2, "v", [|q.claims|]), 0)
  {
    steps, q := AbandonedRun(c, region, 1);
    InvReachable(c, steps, q);
    jobs := SecondBatch(q, region);
    k := FirstLease(c, q, region);
    SecondLease(c, q, region, k);
    var q1 := ClaimRows(q, [0], "v");
    q2 := Block(q1, [k]);
    SecondLeaseBlocked(c, q1, k, |q.claims|);
    BothRecorded(q2, k, |q.claims|);
  }

  /** Row 0, leased once and let run out, is leased again by "v". */
  lemma SecondLease(c: Config, q: Queue, region: Code, k: nat)
    requires Inv(c, q) && Abandoned(q, region, 1) && 2 <= c.caps.claim && k < |q.claims| && q.claims[k].row == 0
    ensures Enabled(c, q, ClaimJobs(region, "v", [0]))
    ensures var q1, n := ClaimRows(q, [0], "v"), |q.claims|;
            && RowsOk(c, q1) && RowsShowLastClaim(q1)
            && q1.now == q.now && q1.spent == {} && q1.monitors == q.monitors && |q1.claims| == n + 1
            && q1.claims[k].row == 0 && q1.claims[n].row == 0 && q1.claims[n].worker == "v"
            && q1.claims[n].monitor == 0 && 0 in q1.rows && !IsLast(q1.claims, k)
  {
    RowsStep(c, q, ClaimJobs(region, "v", [0]));
    ClaimShows(c, q, [0], "v");
    var q1, n := ClaimRows(q, [0], "v"), |q.claims|;
    assert q1.claims[k] == q.claims[k] && q1.claims[n].row == [0][0];
  }

  /** Then the first lease's blocked branch comes. */
  lemma SecondLeaseBlocked(c: Config, q1: Queue, k: nat, n: nat)
    requires RowsOk(c, q1) && RowsShowLastClaim(q1) && q1.spent == {} && 0 in q1.monitors
    requires k < n && |q1.claims| == n + 1 && q1.claims[k].row == 0 && q1.claims[n].row == 0
    requires q1.claims[n].worker == "v" && q1.claims[n].monitor == 0 && 0 in q1.rows && !IsLast(q1.claims, k)
    ensures var q2 := Block(q1, [k]);
            && ForeignRun(c, q1, [BlockJobs([k])], q2, "v", {0}, true) && q2.now == q1.now
            && 0 !in q2.rows && Enabled(c, q2, PostResults("v", [n]))
            && k in q2.recorded && q2.claims == q1.claims && q2.monitors == q1.monitors
  {
    StaleClaimCanBlock(c, q1, "v", {0}, k);
    assert k in [k] && n !in [k];
  }

  lemma SecondBatch(q: Queue, region: Code) returns (jobs: seq<Job>)
    requires Abandoned(q, region, 1)
    ensures JobsOf(q, [0], jobs) && BatchFits(jobs, 0)
  {
    jobs := [Job(|q.claims|, 1)];
    SingleJobFits(1, |q.claims|);
  }

  lemma FirstLease(c: Config, q: Queue, region: Code) returns (k: nat)
    requires Inv(c, q) && Abandoned(q, region, 1)
    ensures k < |q.claims| && q.claims[k].row == 0
  {
    assert |ClaimsOf(q.claims, 0)| == 1;
    k :| k in ClaimsOf(q.claims, 0);
  }

  lemma BothRecorded(q: Queue, k: nat, last: nat)
    requires k < last < |q.claims| && k in q.recorded
    requires q.claims[k].row == 0 && q.claims[last].row == 0 && q.claims[last].monitor in q.monitors
    ensures {k, last} <= RecordedOf(Post(q, "v", [last]), 0)
  {
    assert last in [last] && last in Surviving(q, [last]);
  }
}
