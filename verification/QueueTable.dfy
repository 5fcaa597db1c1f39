/**
 * The pending_checks table as the Python code drives it: the scheduler's nested loops, the reaper, the
 * regional poll with its jobs and blocked lists, and the result post. Every method is tied to the
 * transaction of PendingChecks that it performs.
 */
module QueueTable {
  import opened Common
  import opened Regions
  import opened PendingChecks

  /** One posted result: the claim it answers, if its row id was ever leased, and its monitor. */
  datatype Posted = Posted(claim: Option<nat>, monitor: MonitorId, region: Code, status: CheckStatus)

  datatype PostReply = Saved(count: nat) | UnknownRegion

  predicate Exhausted(row: Row, now: int) {
    !row.dead && row.leaseExpiresAt.Some? && row.leaseExpiresAt.value < now && row.attempts >= MAX_ATTEMPTS
  }

  predicate Orphaned(row: Row, now: int) {
    !row.dead && row.leasedAt == None && row.scheduledAt < now - ORPHAN_SECONDS
  }

  function MarkedDead(rows: map<RowId, Row>, ids: set<RowId>): map<RowId, Row> {
    map id | id in rows :: if id in ids then rows[id].(dead := true) else rows[id]
  }

  function ExhaustedIds(rows: map<RowId, Row>, now: int): set<RowId> {
    set id | id in rows && Exhausted(rows[id], now)
  }

  function OrphanedIds(rows: map<RowId, Row>, now: int): set<RowId> {
    set id | id in rows && Orphaned(rows[id], now)
  }

  /**
   * The second update of the reaper finds the orphans the first has not killed; together the two kill
   * exactly the rows that one of the two rules names.
   */
  lemma ReapInTwoUpdates(rows: map<RowId, Row>, now: int)
    ensures var hit := ExhaustedIds(rows, now);
            var first := MarkedDead(rows, hit);
            var stale := OrphanedIds(first, now);
            && stale == OrphanedIds(rows, now) - hit
            && MarkedDead(first, stale) == ReapedRows(rows, MAX_ATTEMPTS, now)
  {
    var hit := ExhaustedIds(rows, now);
    var first := MarkedDead(rows, hit);
    assert forall id :: id in rows ==> (ReapKills(rows[id], MAX_ATTEMPTS, now)
                                        <==> id in hit || id in OrphanedIds(rows, now));
  }

  class Table {
    var now: int
    var monitors: map<MonitorId, MonitorRow>
    var rows: map<RowId, Row>
    var nextRow: RowId
    var claims: seq<Claim>
    var spent: set<nat>
    var recorded: seq<nat>

    constructor ()
      ensures State() == EMPTY_QUEUE
    {
      now, monitors, rows, nextRow, claims, spent, recorded := 0, map[], map[], 0, [], {}, [];
    }

    function State(): Queue
      reads this
    {
      Queue(now, monitors, rows, nextRow, claims, spent, recorded)
    }

    /** Insert on the live (monitor, region) key; tells whether a row was created. */
    method InsertPending(m: MonitorId, region: Code) returns (created: bool)
      modifies this`rows, this`nextRow
      ensures State() == EnqueueOne(old(State()), m, region)
      ensures created <==> nextRow == old(nextRow) + 1
      ensures !created ==> nextRow == old(nextRow)
    {
      created := !HasLive(rows, m, region);
      if created {
        rows := rows[nextRow := Row(m, region, now, None, None, None, 0, false)];
        nextRow := nextRow + 1;
      }
    }

    /** The due monitors, in some order. */
    method DueMonitors() returns (due: seq<MonitorId>)
      ensures Distinct(due)
      ensures Elements(due) == set m | m in monitors && Due(monitors[m], now)
    {
      var rest := set m | m in monitors && Due(monitors[m], now);
      due := [];
      while rest != {}
        invariant Distinct(due) && Elements(due) !! rest
        invariant Elements(due) + rest == set m | m in monitors && Due(monitors[m], now)
        decreases rest
      {
        var m :| m in rest;
        ElementsSnoc(due, m);
        assert m !in Elements(due);
        due := due + [m];
        rest := rest - {m};
      }
    }

    /** schedule_pending_checks: per due monitor one row per scheduled region, then the next due time. */
    method SchedulePendingChecks(regions: seq<Code>) returns (due: seq<MonitorId>, created: nat)
      modifies this`rows, this`nextRow, this`monitors
      ensures Distinct(due) && Elements(due) == old(set m | m in monitors && Due(monitors[m], now))
      ensures State() == Schedule(old(State()), due, regions)
      ensures created == nextRow - old(nextRow)
    {
      due := DueMonitors();
      created := 0;
      ghost var q0 := State();
      for i := 0 to |due|
        invariant State() == Schedule(q0, due[..i], regions)
        invariant monitors.Keys == old(monitors.Keys)
        invariant created == nextRow - old(nextRow)
      {
        var m := due[i];
        assert m in Elements(due);
        assert due[..i + 1][..i] == due[..i];
        ghost var q := State();
        for j := 0 to |regions|
          invariant State() == EnqueueRegions(q, m, regions[..j])
          invariant created == nextRow - old(nextRow)
        {
          assert regions[..j + 1][..j] == regions[..j];
          var isNew := InsertPending(m, regions[j]);
          if isNew {
            created := created + 1;
          }
        }
        assert regions[..|regions|] == regions;
        var row := monitors[m];
        monitors := monitors[m := row.(nextCheckAt := Some(now + row.interval), rounds := row.rounds + [now])];
      }
      assert due[..|due|] == due;
    }

    /** The enqueue part of check-now. */
    method EnqueueCheckNow(m: MonitorId, regions: seq<Code>)
      modifies this`rows, this`nextRow
      ensures State() == EnqueueRegions(old(State()), m, regions)
    {
      for j := 0 to |regions|
        invariant State() == EnqueueRegions(old(State()), m, regions[..j])
      {
        assert regions[..j + 1][..j] == regions[..j];
        var _ := InsertPending(m, regions[j]);
      }
      assert regions[..|regions|] == regions;
    }

    /** One bulk update: mark the given rows dead. */
    method MarkDead(ids: set<RowId>)
      modifies this`rows
      ensures rows == MarkedDead(old(rows), ids)
    {
      rows := map id | id in rows :: if id in ids then rows[id].(dead := true) else rows[id];
    }

    /** reap_dead_pending_checks: the exhausted rows first, then the orphans that are still alive. */
    method ReapDeadPendingChecks() returns (exhausted: nat, orphans: nat)
      modifies this`rows
      ensures State() == Reap(old(State()), MAX_ATTEMPTS)
      ensures exhausted == |ExhaustedIds(old(rows), now)|
      ensures orphans == |OrphanedIds(old(rows), now) - ExhaustedIds(old(rows), now)|
    {
      ReapInTwoUpdates(rows, now);
      var hit := ExhaustedIds(rows, now);
      MarkDead(hit);
      var stale := OrphanedIds(rows, now);
      MarkDead(stale);
      exhausted, orphans := |hit|, |stale|;
    }

    predicate Claimable(region: Code, id: RowId)
      reads this
    {
      id in rows && rows[id].region == region && Eligible(rows[id], MAX_ATTEMPTS, now)
    }

    /** The oldest of a nonempty set of rows. */
    method Oldest(ids: set<RowId>) returns (best: RowId)
      requires ids != {} && ids <= rows.Keys
      ensures best in ids && forall id :: id in ids ==> rows[best].scheduledAt <= rows[id].scheduledAt
    {
      best :| best in ids;
      var rest := ids - {best};
      while rest != {}
        invariant rest <= ids && best in ids
        invariant forall id :: id in ids && id !in rest ==> rows[best].scheduledAt <= rows[id].scheduledAt
        decreases rest
      {
        var id :| id in rest;
        if rows[id].scheduledAt < rows[best].scheduledAt {
          best := id;
        }
        rest := rest - {id};
      }
    }

    /**
     * The `candidates` query: up to `limit` claimable rows of the region, oldest first. Only rows that another
     * poll has `locked` are skipped.
     */
    method Candidates(region: Code, limit: nat, locked: set<RowId>) returns (ids: seq<RowId>)
      ensures Distinct(ids) && |ids| <= limit
      ensures forall i :: 0 <= i < |ids| ==> ids[i] in rows && Claimable(region, ids[i]) && ids[i] !in locked
      ensures forall i, j :: 0 <= i < j < |ids| ==> rows[ids[i]].scheduledAt <= rows[ids[j]].scheduledAt
      ensures forall id :: id in rows && Claimable(region, id) && id !in locked && id !in ids ==>
                |ids| == limit && forall i :: 0 <= i < |ids| ==> rows[ids[i]].scheduledAt <= rows[id].scheduledAt
    {
      var rest := set id | id in rows && Claimable(region, id) && id !in locked;
      ghost var all := rest;
      ids := [];
      while rest != {} && |ids| < limit
        invariant Distinct(ids) && |ids| <= limit && rest == all - Elements(ids)
        invariant forall i :: 0 <= i < |ids| ==> ids[i] in all
        invariant forall i, j :: 0 <= i < j < |ids| ==> rows[ids[i]].scheduledAt <= rows[ids[j]].scheduledAt
        invariant forall i, id :: 0 <= i < |ids| && id in rest ==> rows[ids[i]].scheduledAt <= rows[id].scheduledAt
        decreases rest
      {
        var id := Oldest(rest);
        ElementsSnoc(ids, id);
        assert id !in Elements(ids);
        ids := ids + [id];
        rest := rest - {id};
      }
      forall id | id in rows && Claimable(region, id) && id !in locked && id !in ids ensures id in rest {
        assert id in all && id !in Elements(ids);
      }
    }

    /** The update part of the claim statement. */
    method LeaseRows(ids: seq<RowId>, worker: WorkerId)
      requires forall id :: id in ids ==> id in rows
      modifies this`rows, this`claims
      ensures State() == ClaimRows(old(State()), ids, worker)
    {
      var q := State();
      claims := claims + seq(|ids|, i requires 0 <= i < |ids| && ids[i] in q.rows =>
        Claim(ids[i], worker, q.rows[ids[i]].monitor, q.rows[ids[i]].region, q.now, LeaseUntil(q, q.rows[ids[i]])));
      rows := map id | id in q.rows :: if id in ids then Leased(q, q.rows[id], worker) else q.rows[id];
    }

    /** The jobs loop: claims from `first` on, split by the dispatch guard. */
    method SplitBlocked(first: nat, blockedMonitor: MonitorId -> bool) returns (jobs: seq<nat>, blocked: seq<nat>)
      requires first <= |claims|
      ensures Distinct(blocked) && ValidClaims(State(), blocked)
      ensures forall k :: k in jobs <==> first <= k < |claims| && !blockedMonitor(claims[k].monitor)
      ensures forall k :: k in blocked <==> first <= k < |claims| && blockedMonitor(claims[k].monitor)
    {
      jobs, blocked := [], [];
      for k := first to |claims|
        invariant forall x :: x in jobs <==> first <= x < k && !blockedMonitor(claims[x].monitor)
        invariant forall x :: x in blocked <==> first <= x < k && blockedMonitor(claims[x].monitor)
        invariant Distinct(blocked) && ValidClaims(State(), blocked)
      {
        if blockedMonitor(claims[k].monitor) {
          blocked := blocked + [k];
        } else {
          jobs := jobs + [k];
        }
      }
    }

    /**
     * get_jobs up to its first commit, and the jobs loop: the candidates are leased, and each leased row
     * becomes a job or, if the dispatch guard objects to its monitor, a blocked row. Until that commit the
     * row locks hold up the deletion of a leased row's monitor, which cascades to the row, so every leased
     * row still has one. The second transaction, RecordBlocked, may come any time later.
     */
    method GetJobs(
      region: Code, limit: nat, worker: WorkerId, blockedMonitor: MonitorId -> bool, locked: set<RowId>)
      returns (ids: seq<RowId>, jobs: seq<nat>, blocked: seq<nat>)
      modifies this`rows, this`claims
      ensures Distinct(ids) && |ids| <= limit
      ensures forall id :: id in ids ==> id !in locked
      ensures forall i, j :: 0 <= i < j < |ids| ==>
                ids[i] in old(rows) && ids[j] in old(rows)
                && old(rows)[ids[i]].scheduledAt <= old(rows)[ids[j]].scheduledAt
      ensures forall id :: id in old(rows) && old(rows)[id].region == region
                           && Eligible(old(rows)[id], MAX_ATTEMPTS, now) && id !in locked && id !in ids ==>
                |ids| == limit
                && forall x :: x in ids ==> x in old(rows) && old(rows)[x].scheduledAt <= old(rows)[id].scheduledAt
      ensures forall id :: id in ids ==>
                id in old(rows) && old(rows)[id].region == region && Eligible(old(rows)[id], MAX_ATTEMPTS, now)
      ensures State() == ClaimRows(old(State()), ids, worker)
      ensures Distinct(blocked) && ValidClaims(State(), blocked)
      ensures |claims| == |old(claims)| + |ids|
      ensures forall k :: k in jobs <==> |old(claims)| <= k < |claims| && !blockedMonitor(claims[k].monitor)
      ensures forall k :: k in blocked <==> |old(claims)| <= k < |claims| && blockedMonitor(claims[k].monitor)
    {
      ids := Candidates(region, limit, locked);
      forall id | id in ids ensures id in rows && Claimable(region, id) && id !in locked {
        var i :| 0 <= i < |ids| && ids[i] == id;
      }
      forall id, x | id in rows && Claimable(region, id) && id !in locked && id !in ids && x in ids
        ensures rows[x].scheduledAt <= rows[id].scheduledAt
      {
        var i :| 0 <= i < |ids| && ids[i] == x;
      }
      var first := |claims|;
      LeaseRows(ids, worker);
      jobs, blocked := SplitBlocked(first, blockedMonitor);
    }

    /**
     * The second transaction of get_jobs, whatever was committed since the first. A check for a monitor
     * deleted meanwhile breaks its foreign key, and then nothing is stored.
     */
    method RecordBlocked(blocked: seq<nat>) returns (stored: bool)
      requires ValidClaims(State(), blocked)
      modifies this`rows, this`spent, this`recorded
      ensures stored <==> forall k :: k in blocked ==> claims[k].monitor in monitors
      ensures State() == if stored then Block(old(State()), blocked) else old(State())
    {
      for i := 0 to |blocked|
        invariant State() == old(State())
        invariant forall k :: 0 <= k < i ==> claims[blocked[k]].monitor in monitors
      {
        if claims[blocked[i]].monitor !in monitors {
          return false;
        }
      }
      stored := true;
      if blocked != [] {
        recorded := recorded + blocked;
        rows := rows - RowsOfClaims(State(), blocked);
        spent := spent + Elements(blocked);
      }
    }

    /** The results whose monitor still exists, their claims, and whether one names an unscheduled region. */
    method SiftResults(results: seq<Posted>, scheduled: set<Code>)
      returns (alive: seq<Posted>, kept: seq<nat>, refused: bool)
      requires WellNamed(results, claims)
      ensures ValidClaims(State(), ClaimsIn(results)) && kept == Surviving(State(), ClaimsIn(results))
      ensures alive == Alive(results, monitors) && kept == ClaimsIn(alive)
      ensures refused <==> exists r :: r in results && r.region !in scheduled && r.monitor in monitors
    {
      alive, kept, refused := [], [], false;
      for i := 0 to |results|
        invariant ValidClaims(State(), ClaimsIn(results[..i])) && kept == Surviving(State(), ClaimsIn(results[..i]))
        invariant alive == Alive(results[..i], monitors) && kept == ClaimsIn(alive)
        invariant refused <==> exists r :: r in results[..i] && r.region !in scheduled && r.monitor in monitors
      {
        var r := results[i];
        assert results[..i + 1] == results[..i] + [r];
        SurvivingOneMore(results[..i], r);
        if r.monitor in monitors {
          ClaimsInSnoc(alive, r);
          alive := alive + [r];
          kept := kept + ClaimsIn([r]);
          refused := refused || r.region !in scheduled;
        }
      }
      assert results[..|results|] == results;
    }

    lemma SurvivingOneMore(results: seq<Posted>, r: Posted)
      requires ValidClaims(State(), ClaimsIn(results)) && WellNamed([r], claims)
      ensures ValidClaims(State(), ClaimsIn(results + [r]))
      ensures Surviving(State(), ClaimsIn(results + [r]))
              == Surviving(State(), ClaimsIn(results)) + if r.monitor in monitors then ClaimsIn([r]) else []
      ensures Alive(results + [r], monitors)
              == Alive(results, monitors) + if r.monitor in monitors then [r] else []
    {
      assert (results + [r])[..|results|] == results && [r][..0] == [];
      assert [r][0] == r;
      if r.claim.Some? {
        var ks := ClaimsIn(results);
        assert (ks + [r.claim.value])[..|ks|] == ks;
      }
    }

    /** The recording transaction: checks inserted, owned rows deleted. */
    method RecordResults(worker: WorkerId, ks: seq<nat>, kept: seq<nat>)
      requires ValidClaims(State(), ks) && kept == Surviving(State(), ks)
      modifies this`rows, this`spent, this`recorded
      ensures State() == Post(old(State()), worker, ks)
    {
      recorded := recorded + kept;
      var ids := RowsOfClaims(State(), kept);
      rows := map id | id in rows && !(id in ids && rows[id].workerId == Some(worker)) :: rows[id];
      spent := spent + Elements(ks);
    }

    /**
     * post_results: results for deleted monitors are dropped, an unscheduled region refuses the batch,
     * otherwise every remaining result is stored as a check and the rows this worker still owns are deleted.
     */
    method PostResults(worker: WorkerId, results: seq<Posted>, scheduled: set<Code>)
      returns (reply: PostReply, stored: seq<Posted>)
      requires WellNamed(results, claims)
      modifies this`rows, this`spent, this`recorded
      ensures var ks := ClaimsIn(results);
              && ValidClaims(old(State()), ks)
              && (reply.UnknownRegion? <==> exists r :: r in results && r.region !in scheduled
                                                        && r.monitor in monitors)
              && (reply.UnknownRegion? ==> stored == [] && State() == old(State()))
              && (reply.Saved? ==> stored == Alive(results, monitors) && reply.count == |stored|
                                   && State() == Post(old(State()), worker, ks)
                                   && recorded == old(recorded) + ClaimsIn(stored))
    {
      var alive, kept, refused := SiftResults(results, scheduled);
      if refused {
        return UnknownRegion, [];
      }
      RecordResults(worker, ClaimsIn(results), kept);
      reply, stored := Saved(|alive|), alive;
    }
  }

  /** A result that answers a claim names the claimed row's monitor. */
  predicate WellNamed(results: seq<Posted>, claims: seq<Claim>) {
    forall i :: 0 <= i < |results| && results[i].claim.Some? ==>
      results[i].claim.value < |claims| && claims[results[i].claim.value].monitor == results[i].monitor
  }

  function ClaimsIn(results: seq<Posted>): seq<nat> {
    if results == [] then []
    else
      var init, r := ClaimsIn(results[..|results| - 1]), results[|results| - 1];
      if r.claim.Some? then init + [r.claim.value] else init
  }

  lemma ClaimsInSnoc(results: seq<Posted>, r: Posted)
    ensures ClaimsIn(results + [r]) == ClaimsIn(results) + ClaimsIn([r])
  {
    assert (results + [r])[..|results|] == results && [r][..0] == [] && [r][0] == r;
  }

  /** The results whose monitor still exists, in order. */
  function Alive(results: seq<Posted>, monitors: map<MonitorId, MonitorRow>): seq<Posted> {
    if results == [] then []
    else
      var init, r := Alive(results[..|results| - 1], monitors), results[|results| - 1];
      if r.monitor in monitors then init + [r] else init
  }
}
