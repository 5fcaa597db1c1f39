/**
 * The blocked branch of get_jobs deletes by row id alone (app/api/routes/internal.py:154-161). Exactly when
 * can it, coming late, delete a row that has been leased again?
 */
module LateBlocks {
  import opened Common
  import opened Regions
  import opened PendingChecks
  import opened LeaseSafety
  import opened LeaseTheorems

  // ---- What no run undoes ------------------------------------------------------------------------------

  lemma ClaimsGrow(c: Config, q: Queue, step: Step)
    requires Enabled(c, q, step)
    ensures q.claims <= Apply(c, q, step).claims
  {
    if step.ScheduleDue? {
      ScheduleKeepsHistory(q, step.due, step.regions);
    }
  }

  lemma {:induction false} ClaimsGrowRun(c: Config, q: Queue, steps: seq<Step>, q': Queue)
    requires Runs(c, q, steps, q')
    ensures q.claims <= q'.claims
    decreases |steps|
  {
    if steps != [] {
      ClaimsGrow(c, q, steps[0]);
      ClaimsGrowRun(c, Apply(c, q, steps[0]), steps[1..], q');
    }
  }

  /** A row that is gone or dead. */
  predicate Retired(q: Queue, id: RowId) {
    id < q.nextRow && (id in q.rows ==> q.rows[id].dead)
  }

  lemma RetiredStep(c: Config, q: Queue, step: Step, id: RowId)
    requires RowsOk(c, q) && LiveUnique(q) && Enabled(c, q, step) && Retired(q, id)
    ensures Retired(Apply(c, q, step), id)
    ensures id !in q.rows ==> id !in Apply(c, q, step).rows
    ensures ClaimsOf(Apply(c, q, step).claims, id) == ClaimsOf(q.claims, id)
  {
    match step
    case ScheduleDue(due, regions) => ScheduleKeepsRows(c, q, due, regions);
    case CheckNow(m, regions) => EnqueueKeepsRows(c, q, m, regions);
    case ClaimJobs(_, worker, ids) => UnclaimedRow(q, ids, worker, id);
    case _ =>
  }

  lemma UnclaimedRow(q: Queue, ids: seq<RowId>, worker: WorkerId, id: RowId)
    requires (forall x :: x in ids ==> x in q.rows) && id !in ids
    ensures ClaimsOf(ClaimRows(q, ids, worker).claims, id) == ClaimsOf(q.claims, id)
  {
    var claims' := ClaimRows(q, ids, worker).claims;
    forall k | |q.claims| <= k < |claims'| ensures claims'[k].row != id {
      assert ids[k - |q.claims|] in ids;
    }
  }

  /** A retired row is never leased again, and a deleted one never comes back. */
  lemma {:induction false} RetiredRun(c: Config, q: Queue, steps: seq<Step>, q': Queue, id: RowId)
    requires Inv(c, q) && Runs(c, q, steps, q') && Retired(q, id)
    ensures id !in q.rows ==> id !in q'.rows
    ensures ClaimsOf(q'.claims, id) == ClaimsOf(q.claims, id)
    decreases |steps|
  {
    if steps != [] {
      InvStep(c, q, steps[0]);
      RetiredStep(c, q, steps[0], id);
      RetiredRun(c, Apply(c, q, steps[0]), steps[1..], q', id);
    }
  }

  // ---- The exact condition -----------------------------------------------------------------------------

  /**
   * However the queue goes on until `deadline`, a blocked branch for claim `k` finds `k` still the last
   * lease of its row, or the row gone.
   */
  ghost predicate BlockSafe(c: Config, q: Queue, k: nat, deadline: int)
    requires k < |q.claims|
  {
    forall steps, q' | Runs(c, q, steps, q') && q'.now <= deadline && Enabled(c, q', BlockJobs([k])) ::
      q.claims[k].row in q'.rows ==> IsLast(q'.claims, k)
  }

  /** Nobody can lease the row of claim `k` again by `deadline`. */
  predicate Unleasable(c: Config, q: Queue, k: nat, deadline: int)
    requires k < |q.claims| && q.claims[k].row in q.rows
  {
    var row := q.rows[q.claims[k].row];
    row.dead || deadline <= q.claims[k].until || row.attempts >= c.caps.claim
  }

  lemma LastStaysLast(claims: seq<Claim>, claims': seq<Claim>, k: nat)
    requires claims <= claims' && IsLast(claims, k)
    requires ClaimsOf(claims', claims[k].row) == ClaimsOf(claims, claims[k].row)
    ensures IsLast(claims', k)
  {
    forall i | k < i < |claims'| ensures claims'[i].row != claims'[k].row {
      assert i in ClaimsOf(claims', claims[k].row) <==> i in ClaimsOf(claims, claims[k].row);
    }
  }

  lemma CapReached(c: Config, q: Queue, steps: seq<Step>, q': Queue, r: RowId)
    requires Inv(c, q) && Runs(c, q, steps, q')
    requires r in q.rows && q.rows[r].attempts >= c.caps.claim
    ensures q.claims <= q'.claims && ClaimsOf(q'.claims, r) == ClaimsOf(q.claims, r)
  {
    InvRun(c, q, steps, q');
    ClaimsGrowRun(c, q, steps, q');
    var before, after := ClaimsOf(q.claims, r), ClaimsOf(q'.claims, r);
    assert before <= after;
    if r >= q'.nextRow {
      NoClaimsYet(c, q', r);
    }
    EqualBySize(before, after);
  }

  lemma EqualBySize<T>(a: set<T>, b: set<T>)
    requires a <= b && |b| <= |a|
    ensures a == b
  {
    if x :| x in b && x !in a {
      SubsetSize(a + {x}, b);
    }
  }

  lemma SafeWhenUnleasable(c: Config, q: Queue, k: nat, deadline: int)
    requires Inv(c, q) && k < |q.claims| && q.claims[k].row in q.rows && IsLast(q.claims, k)
    requires Unleasable(c, q, k, deadline)
    ensures BlockSafe(c, q, k, deadline)
  {
    var r := q.claims[k].row;
    forall steps, q' | Runs(c, q, steps, q') && q'.now <= deadline ensures IsLast(q'.claims, k) {
      InvRun(c, q, steps, q');
      ClaimsGrowRun(c, q, steps, q');
      if q.rows[r].dead {
        RetiredRun(c, q, steps, q', r);
        LastStaysLast(q.claims, q'.claims, k);
      } else if q.rows[r].attempts >= c.caps.claim {
        CapReached(c, q, steps, q', r);
        LastStaysLast(q.claims, q'.claims, k);
      } else {
        UnexpiredClaimHolds(c, q', k);
      }
    }
  }

  /** Otherwise another poll leases the row just before the blocked branch commits. */
  lemma UnsafeWhenLeasable(c: Config, q: Queue, k: nat, deadline: int)
    requires Inv(c, q) && k < |q.claims| && q.claims[k].row in q.rows && IsLast(q.claims, k) && k !in q.spent
    requires q.now <= deadline && !Unleasable(c, q, k, deadline)
    ensures !BlockSafe(c, q, k, deadline)
  {
    var r := q.claims[k].row;
    var row := q.rows[r];
    assert ShowsClaim(row, q.claims[k]) && RowOk(row, c.caps.claim, q.now);
    var wait, lease := Tick(deadline - q.now), ClaimJobs(row.region, "another", [r]);
    var q1 := Apply(c, q, wait);
    assert Enabled(c, q1, lease);
    var q2 := Apply(c, q1, lease);
    assert [wait, lease][1..] == [lease] && [lease][1..] == [];
    assert Runs(c, q2, [], q2);
    assert Runs(c, q1, [lease], q2);
    assert Runs(c, q, [wait, lease], q2);
    assert q2.claims[k] == q.claims[k] && q2.claims[|q.claims|].row == r;
    assert Enabled(c, q2, BlockJobs([k]));
    assert !IsLast(q2.claims, k);
  }

  /**
   * A blocked branch handed in by `deadline` can only ever delete the row under its own lease exactly if
   * its row is gone already, or its claim is the last of the row and the row is dead, or the lease lasts
   * until then, or the row has no attempt left.
   */
  lemma BlockSafeIffUnleasable(c: Config, q: Queue, k: nat, deadline: int)
    requires Inv(c, q) && k < |q.claims| && k !in q.spent && q.now <= deadline
    ensures var r := q.claims[k].row;
            BlockSafe(c, q, k, deadline)
            <==> r !in q.rows || (IsLast(q.claims, k) && Unleasable(c, q, k, deadline))
  {
    var r := q.claims[k].row;
    if r !in q.rows {
      forall steps, q' | Runs(c, q, steps, q') && q'.now <= deadline ensures r !in q'.rows {
        RetiredRun(c, q, steps, q', r);
      }
    } else if !IsLast(q.claims, k) {
      assert q.rows[r].monitor == q.claims[k].monitor;
      assert Runs(c, q, [], q) && Enabled(c, q, BlockJobs([k]));
    } else if Unleasable(c, q, k, deadline) {
      SafeWhenUnleasable(c, q, k, deadline);
    } else {
      UnsafeWhenLeasable(c, q, k, deadline);
    }
  }

  // ---- Silent rows ---------------------------------------------------------------------------------------

  /**
   * A live row that nobody touches any more is reaped at some time, exactly if it was never leased or has
   * no attempt left under the reaper's cap; from then on every reap would kill it.
   */
  lemma SilentRowDiesIff(row: Row, claimCap: nat, reapCap: nat, from: int)
    requires RowOk(row, claimCap, from) && !row.dead
    ensures (exists now :: from <= now && ReapKills(row, reapCap, now))
            <==> row.attempts == 0 || row.attempts >= reapCap
    ensures forall now, later :: now <= later && ReapKills(row, reapCap, now) ==> ReapKills(row, reapCap, later)
  {
    if row.attempts == 0 {
      assert ReapKills(row, reapCap, Max(from, row.scheduledAt + ORPHAN_SECONDS + 1));
    } else if row.attempts >= reapCap {
      assert ReapKills(row, reapCap, Max(from, row.leaseExpiresAt.value + 1));
    }
  }

  /**
   * So the docstring of the reaper promises more than it does: a reachable row, leased once, expired and
   * never reclaimed, that no later reap kills.
   */
  lemma SilentRowOutlivesEveryReap(c: Config, region: Code) returns (steps: seq<Step>, q: Queue)
    requires region in c.regions && 1 <= c.caps.claim && 2 <= c.caps.reap
    ensures Runs(c, EMPTY_QUEUE, steps, q)
    ensures 0 in q.rows && !q.rows[0].dead && !Unexpired(q.rows[0], q.now)
    ensures forall now :: !ReapKills(q.rows[0], c.caps.reap, now)
  {
    steps, q := AbandonedRun(c, region, 1);
  }
}
