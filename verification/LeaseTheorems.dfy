/** Claims about whole runs of the pending_checks queue. */
module LeaseTheorems {
  import opened Common
  import opened Regions
  import opened PendingChecks
  import opened LeaseSafety

  // ---- Leases --------------------------------------------------------------------------------------

  /**
   * Leases of one row never overlap, a row is claimed at most `caps.claim` times, and so at most that
   * many checks are recorded for it. Hence two polls inside one lease got different rows.
   */
  lemma LeaseDiscipline(c: Config, steps: seq<Step>, q: Queue)
    requires Runs(c, EMPTY_QUEUE, steps, q)
    ensures forall i, k :: 0 <= i < k < |q.claims| && q.claims[k].from <= q.claims[i].until
              ==> q.claims[i].row != q.claims[k].row
    ensures forall r: RowId :: |ClaimsOf(q.claims, r)| <= c.caps.claim
    ensures forall r: RowId :: |RecordedOf(q, r)| <= c.caps.claim
    ensures Distinct(q.recorded)
  {
    InvReachable(c, steps, q);
    forall r: RowId
      ensures |RecordedOf(q, r)| <= |ClaimsOf(q.claims, r)| <= c.caps.claim
    {
      if q.nextRow <= r {
        NoClaimsYet(c, q, r);
      }
      SubsetSize(RecordedOf(q, r), ClaimsOf(q.claims, r));
    }
  }

  /** The recorded checks that came from row `r`, as claim numbers (`recorded` has no duplicates). */
  function RecordedOf(q: Queue, r: RowId): set<nat> {
    set k | 0 <= k < |q.claims| && k in q.recorded && q.claims[k].row == r
  }

  /** A claim whose lease has not expired is the last claim of its row, and the row still shows it. */
  lemma UnexpiredClaimHolds(c: Config, q: Queue, k: nat)
    requires Inv(c, q) && k < |q.claims| && q.now <= q.claims[k].until
    ensures IsLast(q.claims, k)
    ensures q.claims[k].row in q.rows ==> ShowsClaim(q.rows[q.claims[k].row], q.claims[k])
  {
    forall i | k < i < |q.claims| ensures q.claims[i].row != q.claims[k].row {
      assert q.claims[i].from <= q.now;
    }
  }

  /**
   * A post removes a reported row exactly when the row's last lease is the poster's: a worker that lost
   * its lease to another one cannot remove the new holder's row.
   */
  lemma PostRemovesOnlyOwnLeases(c: Config, q: Queue, worker: WorkerId, ks: seq<nat>, last: nat)
    requires Inv(c, q) && Enabled(c, q, PostResults(worker, ks))
    requires IsLast(q.claims, last) && q.claims[last].row in q.rows
    ensures var r := q.claims[last].row;
            r !in Post(q, worker, ks).rows
            <==> q.claims[last].worker == worker && exists k :: k in ks && k < |q.claims| && q.claims[k].row == r
  {
    var r := q.claims[last].row;
    assert ShowsClaim(q.rows[r], q.claims[last]);
    if k :| k in ks && k < |q.claims| && q.claims[k].row == r {
      var kept := Surviving(q, ks);
      assert q.claims[k].monitor == q.rows[r].monitor && k in kept;
      assert r in RowsOfClaims(q, kept);
    }
  }

  // ---- No wedged row -------------------------------------------------------------------------------

  predicate Unexpired(row: Row, now: int) {
    row.leaseExpiresAt.Some? && now <= row.leaseExpiresAt.value
  }

  /** A live row that no lease protects, no poll can claim and no reap will kill. */
  predicate Wedged(c: Config, row: Row, now: int) {
    && !row.dead && !Unexpired(row, now)
    && !Eligible(row, c.caps.claim, now) && !ReapKills(row, c.caps.reap, now)
  }

  lemma NotWedged(c: Config, q: Queue, id: RowId)
    requires Inv(c, q) && id in q.rows && 1 <= c.caps.claim && c.caps.reap <= c.caps.claim
    ensures !Wedged(c, q.rows[id], q.now)
  {
    assert RowOk(q.rows[id], c.caps.claim, q.now);
  }

  ghost predicate NeverWedged(c: Config) {
    forall steps, q | Runs(c, EMPTY_QUEUE, steps, q) :: forall id :: id in q.rows ==> !Wedged(c, q.rows[id], q.now)
  }

  lemma {:induction false} RunsAppend(c: Config, q: Queue, a: seq<Step>, mid: Queue, b: seq<Step>, q': Queue)
    requires Runs(c, q, a, mid) && Runs(c, mid, b, q')
    ensures Runs(c, q, a + b, q')
    decreases |a|
  {
    if a == [] {
      assert a + b == b;
    } else {
      RunsAppend(c, Apply(c, q, a[0]), a[1..], mid, b, q');
      assert (a + b)[1..] == a[1..] + b;
    }
  }

  /** One row, claimed `n` times, with every lease expired: the state a silent region drives a row into. */
  predicate Abandoned(q: Queue, region: Code, n: nat) {
    && 0 in q.rows && 0 in q.monitors && q.monitors[0].timeout == 1 && q.spent == {}
    && var row := q.rows[0];
       && !row.dead && row.region == region && row.monitor == 0 && row.attempts == n && row.scheduledAt == 0
       && (n == 0 ==> row.leasedAt == None && row.leaseExpiresAt == None)
       && (n > 0 ==> row.workerId == Some("w") && row.leasedAt.Some?
                     && row.leaseExpiresAt.Some? && row.leaseExpiresAt.value < q.now)
  }

  lemma {:induction false} AbandonedRun(c: Config, region: Code, n: nat) returns (steps: seq<Step>, q: Queue)
    requires region in c.regions && n <= c.caps.claim
    ensures Runs(c, EMPTY_QUEUE, steps, q) && Abandoned(q, region, n)
  {
    if n == 0 {
      var monitor := MonitorRow(1, 60, true, None, []);
      var q1 := Apply(c, EMPTY_QUEUE, CreateMonitor(0, monitor));
      q := Apply(c, q1, CheckNow(0, [region]));
      assert [region][..|[region]| - 1] == [] && EnqueueRegions(q1, 0, []) == q1;
      assert q == EnqueueOne(q1, 0, region);
      steps := [CreateMonitor(0, monitor), CheckNow(0, [region])];
      assert steps[1..] == [CheckNow(0, [region])] && steps[1..][1..] == [];
      assert Runs(c, q, [], q);
      assert Runs(c, q1, steps[1..], q);
    } else {
      var before, mid := AbandonedRun(c, region, n - 1);
      var claim := ClaimJobs(region, "w", [0]);
      var q1 := Apply(c, mid, claim);
      var wait := Tick(q1.rows[0].leaseExpiresAt.value - mid.now + 1);
      q := Apply(c, q1, wait);
      var more := [claim, wait];
      assert more[1..] == [wait] && more[1..][1..] == [];
      assert Runs(c, q, [], q);
      assert Runs(c, q1, more[1..], q);
      assert Runs(c, mid, more, q);
      RunsAppend(c, EMPTY_QUEUE, before, mid, more, q);
      steps := before + more;
    }
  }

  /**
   * No reachable row is ever wedged exactly when the reap cap does not exceed the claim cap; the source
   * keeps the two equal by hand.
   */
  lemma NeverWedgedIffCapsAgree(c: Config)
    requires 1 <= c.caps.claim && c.regions != {}
    ensures NeverWedged(c) <==> c.caps.reap <= c.caps.claim
  {
    if c.caps.reap <= c.caps.claim {
      forall steps, q | Runs(c, EMPTY_QUEUE, steps, q)
        ensures forall id :: id in q.rows ==> !Wedged(c, q.rows[id], q.now)
      {
        InvReachable(c, steps, q);
        forall id | id in q.rows ensures !Wedged(c, q.rows[id], q.now) {
          NotWedged(c, q, id);
        }
      }
    } else {
      var region :| region in c.regions;
      var steps, q := AbandonedRun(c, region, c.caps.claim);
      assert Wedged(c, q.rows[0], q.now);
    }
  }

  // ---- The blocked branch and lost leases ----------------------------------------------------------

  /**
   * The blocked branch deletes by row id alone. Committed late, after its lease ran out and the row went
   * to another worker, it drops that worker's running lease, where a post of the same claim would not.
   */
  lemma LateBlockDropsAnotherLease(c: Config, region: Code) returns (steps: seq<Step>, q: Queue, k: nat)
    requires region in c.regions && 2 <= c.caps.claim
    ensures Runs(c, EMPTY_QUEUE, steps, q)
    ensures Enabled(c, q, BlockJobs([k])) && Enabled(c, q, PostResults("w", [k]))
    ensures 0 in q.rows && q.rows[0].workerId == Some("v") && Unexpired(q.rows[0], q.now)
    ensures 0 !in Block(q, [k]).rows && 0 in Post(q, "w", [k]).rows
  {
    var before, mid := AbandonedRun(c, region, 1);
    InvReachable(c, before, mid);
    var claim := ClaimJobs(region, "v", [0]);
    k := ReclaimedByAnother(c, mid, region);
    q := Apply(c, mid, claim);
    assert [claim][1..] == [] && Runs(c, q, [], q);
    assert Runs(c, mid, [claim], q);
    RunsAppend(c, EMPTY_QUEUE, before, mid, [claim], q);
    steps := before + [claim];
  }

  lemma ReclaimedByAnother(c: Config, mid: Queue, region: Code) returns (k: nat)
    requires Inv(c, mid) && Abandoned(mid, region, 1) && 2 <= c.caps.claim
    ensures Enabled(c, mid, ClaimJobs(region, "v", [0]))
    ensures var q := ClaimRows(mid, [0], "v");
            && Enabled(c, q, BlockJobs([k])) && Enabled(c, q, PostResults("w", [k]))
            && 0 in q.rows && q.rows[0].workerId == Some("v") && Unexpired(q.rows[0], q.now)
            && 0 !in Block(q, [k]).rows && 0 in Post(q, "w", [k]).rows
  {
    assert |ClaimsOf(mid.claims, 0)| == 1;
    k :| k in ClaimsOf(mid.claims, 0);
    LoneClaimIsLast(mid.claims, k);
    assert ShowsClaim(mid.rows[0], mid.claims[k]);
    var q := ClaimRows(mid, [0], "v");
    assert q.claims[k] == mid.claims[k] && [k][0] in [k];
    assert 0 in RowsOfClaims(q, [k]);
  }

  lemma LoneClaimIsLast(claims: seq<Claim>, k: nat)
    requires |ClaimsOf(claims, 0)| == 1 && k in ClaimsOf(claims, 0)
    ensures IsLast(claims, k)
  {
    forall i | k < i < |claims| ensures claims[i].row != 0 {
      if claims[i].row == 0 {
        SubsetSize({k, i}, ClaimsOf(claims, 0));
        assert false;
      }
    }
  }

  // ---- Bounded backlog and spacing ---------------------------------------------------------------

  function LiveIds(q: Queue): set<RowId> {
    set id | id in q.rows && !q.rows[id].dead
  }

  function Pairs<A, B>(xs: set<A>, ys: set<B>): set<(A, B)> {
    set x, y | x in xs && y in ys :: (x, y)
  }

  lemma {:induction false} PairsWithOne<A, B>(x: A, ys: set<B>)
    ensures |Pairs({x}, ys)| == |ys|
  {
    if ys != {} {
      var y :| y in ys;
      PairsWithOne(x, ys - {y});
      assert Pairs({x}, ys) == Pairs({x}, ys - {y}) + {(x, y)};
    } else {
      assert Pairs({x}, ys) == {};
    }
  }

  lemma PairsSplit<A, B>(x: A, rest: set<A>, ys: set<B>)
    requires x !in rest
    ensures |Pairs(rest + {x}, ys)| == |Pairs(rest, ys)| + |ys|
  {
    PairsWithOne(x, ys);
    var a, b := Pairs(rest, ys), Pairs({x}, ys);
    assert Pairs(rest + {x}, ys) == a + b;
    assert a !! b;
  }

  lemma {:induction false} PairsSize<A, B>(xs: set<A>, ys: set<B>)
    ensures |Pairs(xs, ys)| == |xs| * |ys|
  {
    if xs == {} {
      assert Pairs(xs, ys) == {};
    } else {
      var x :| x in xs;
      var rest := xs - {x};
      PairsSize(rest, ys);
      PairsSplit(x, rest, ys);
      assert rest + {x} == xs;
      assert (|rest| + 1) * |ys| == |rest| * |ys| + |ys|;
    }
  }

  function SlotsOf(q: Queue, ids: set<RowId>): set<(MonitorId, Code)>
    requires ids <= q.rows.Keys
  {
    set id | id in ids :: (q.rows[id].monitor, q.rows[id].region)
  }

  lemma {:induction false} SlotsInjective(q: Queue, ids: set<RowId>)
    requires LiveUnique(q) && ids <= LiveIds(q)
    ensures |SlotsOf(q, ids)| == |ids|
  {
    if ids == {} {
      assert SlotsOf(q, ids) == {};
    } else {
      var id :| id in ids;
      var rest := ids - {id};
      SlotsInjective(q, rest);
      var slot := (q.rows[id].monitor, q.rows[id].region);
      assert SlotsOf(q, ids) == SlotsOf(q, rest) + {slot};
      assert slot !in SlotsOf(q, rest);
    }
  }

  /** Live rows stay unique per (monitor, region), so there are never more than monitors times regions. */
  lemma BacklogBounded(c: Config, steps: seq<Step>, q: Queue)
    requires Runs(c, EMPTY_QUEUE, steps, q)
    ensures LiveUnique(q)
    ensures |LiveIds(q)| <= |q.monitors| * |c.regions|
  {
    InvReachable(c, steps, q);
    var slots := SlotsOf(q, LiveIds(q));
    SlotsInjective(q, LiveIds(q));
    assert slots <= Pairs(q.monitors.Keys, c.regions);
    SubsetSize(slots, Pairs(q.monitors.Keys, c.regions));
    PairsSize(q.monitors.Keys, c.regions);
  }

  lemma {:induction false} RoundsSpan(row: MonitorRow, i: nat, j: nat)
    requires RoundsSpaced(row) && i <= j < |row.rounds|
    ensures (j - i) * row.interval <= row.rounds[j] - row.rounds[i]
    decreases j - i
  {
    if i < j {
      RoundsSpan(row, i, j - 1);
      assert row.rounds[j - 1] + row.interval <= row.rounds[j];
      assert (j - i) * row.interval == (j - 1 - i) * row.interval + row.interval;
    }
  }

  /** Since its last edit or resume, `k` enqueue rounds of a monitor span at least `(k - 1)` intervals. */
  lemma SchedulerSpacing(c: Config, steps: seq<Step>, q: Queue, m: MonitorId)
    requires Runs(c, EMPTY_QUEUE, steps, q) && m in q.monitors && q.monitors[m].rounds != []
    ensures var row := q.monitors[m];
            (|row.rounds| - 1) * row.interval <= row.rounds[|row.rounds| - 1] - row.rounds[0]
  {
    InvReachable(c, steps, q);
    RoundsSpan(q.monitors[m], 0, |q.monitors[m].rounds| - 1);
  }
}
