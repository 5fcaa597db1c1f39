/**
 * The pending_checks queue as a table that transactions change: the scheduler and reaper
 * (app/workers/tasks.py), the regional claim and the result post (app/api/routes/internal.py), and
 * check-now (app/api/routes/monitors.py). Each function is one committed transaction.
 */
module PendingChecks {
  import opened Common
  import opened Regions
  import opened Checks

  type RowId = nat
  type WorkerId = string

  const LEASE_SLACK_SECONDS := 30
  const MAX_ATTEMPTS := 3
  const ORPHAN_SECONDS := 10 * 60
  const DEAD_ROW_SECONDS := 7 * DAY

  /** The two attempt caps, kept in sync by hand in the source: claim in internal.py, reap in tasks.py. */
  datatype Caps = Caps(claim: nat, reap: nat)

  datatype Row = Row(
    monitor: MonitorId, region: Code, scheduledAt: int,
    leasedAt: Option<int>, leaseExpiresAt: Option<int>, workerId: Option<WorkerId>,
    attempts: nat, dead: bool)

  /** `rounds`: enqueue times since the last edit or resume; an auxiliary history, not a column. */
  datatype MonitorRow = MonitorRow(
    timeout: nat, interval: nat, active: bool, nextCheckAt: Option<int>, rounds: seq<int>)

  /** One lease taken by one poll: who, which row, from when until when. */
  datatype Claim = Claim(row: RowId, worker: WorkerId, monitor: MonitorId, region: Code, from: int, until: int)

  /**
   * `claims` is the history of leases; `spent` are the claims whose result has been handed in (each is
   * handed in at most once), `recorded` the claims that have a row in `checks`, in commit order.
   */
  datatype Queue = Queue(
    now: int, monitors: map<MonitorId, MonitorRow>, rows: map<RowId, Row>, nextRow: RowId,
    claims: seq<Claim>, spent: set<nat>, recorded: seq<nat>)

  const EMPTY_QUEUE := Queue(0, map[], map[], 0, [], {}, [])

  // ---- Enqueueing --------------------------------------------------------------------------------

  predicate IsLive(row: Row, m: MonitorId, region: Code) {
    !row.dead && row.monitor == m && row.region == region
  }

  predicate HasLive(rows: map<RowId, Row>, m: MonitorId, region: Code) {
    exists id :: id in rows && IsLive(rows[id], m, region)
  }

  /** Insert with "on conflict do nothing" on the live (monitor, region) key. */
  function EnqueueOne(q: Queue, m: MonitorId, region: Code): Queue {
    if HasLive(q.rows, m, region) then q
    else q.(rows := q.rows[q.nextRow := Row(m, region, q.now, None, None, None, 0, false)], nextRow := q.nextRow + 1)
  }

  function EnqueueRegions(q: Queue, m: MonitorId, regions: seq<Code>): (q': Queue)
    ensures q'.monitors == q.monitors && q'.now == q.now && q'.claims == q.claims
    ensures q'.spent == q.spent && q'.recorded == q.recorded
  {
    if regions == [] then q
    else EnqueueOne(EnqueueRegions(q, m, regions[..|regions| - 1]), m, regions[|regions| - 1])
  }

  predicate Due(row: MonitorRow, now: int) {
    row.active && row.nextCheckAt.Some? && row.nextCheckAt.value <= now
  }

  function ScheduleMonitor(q: Queue, m: MonitorId, regions: seq<Code>): Queue {
    if m !in q.monitors then q
    else
      var row := q.monitors[m];
      EnqueueRegions(q, m, regions)
        .(monitors := q.monitors[m := row.(nextCheckAt := Some(q.now + row.interval), rounds := row.rounds + [q.now])])
  }

  /** schedule_pending_checks over the due monitors in the order the query returned them. */
  function Schedule(q: Queue, due: seq<MonitorId>, regions: seq<Code>): Queue {
    if due == [] then q
    else ScheduleMonitor(Schedule(q, due[..|due| - 1], regions), due[|due| - 1], regions)
  }

  // ---- Claiming ----------------------------------------------------------------------------------

  predicate Eligible(row: Row, cap: nat, now: int) {
    && !row.dead
    && row.attempts < cap
    && (row.leasedAt == None || (row.leaseExpiresAt.Some? && row.leaseExpiresAt.value < now))
  }

  function LeaseUntil(q: Queue, row: Row): int {
    q.now + (if row.monitor in q.monitors then q.monitors[row.monitor].timeout else 0) + LEASE_SLACK_SECONDS
  }

  function Leased(q: Queue, row: Row, worker: WorkerId): Row {
    row.(leasedAt := Some(q.now), leaseExpiresAt := Some(LeaseUntil(q, row)), workerId := Some(worker),
         attempts := row.attempts + 1)
  }

  /** The claim of get_jobs: lease the selected rows to `worker`. */
  function ClaimRows(q: Queue, ids: seq<RowId>, worker: WorkerId): Queue
    requires forall id :: id in ids ==> id in q.rows
  {
    q.(rows := map id | id in q.rows :: if id in ids then Leased(q, q.rows[id], worker) else q.rows[id],
       claims := q.claims + seq(|ids|, i requires 0 <= i < |ids| =>
         var row := q.rows[ids[i]];
         Claim(ids[i], worker, row.monitor, row.region, q.now, LeaseUntil(q, row))))
  }

  // ---- Handing in results ------------------------------------------------------------------------

  predicate ValidClaims(q: Queue, ks: seq<nat>) {
    forall i :: 0 <= i < |ks| ==> ks[i] < |q.claims|
  }

  function RowsOfClaims(q: Queue, ks: seq<nat>): set<RowId>
    requires ValidClaims(q, ks)
  {
    set k | k in ks :: q.claims[k].row
  }

  /** The claims among `ks` whose monitor still exists; results for the others are dropped. */
  function Surviving(q: Queue, ks: seq<nat>): (kept: seq<nat>)
    requires ValidClaims(q, ks)
    ensures ValidClaims(q, kept)
    ensures forall k :: k in kept <==> k in ks && q.claims[k].monitor in q.monitors
    ensures Distinct(ks) ==> Distinct(kept)
  {
    if ks == [] then []
    else
      assert ks == ks[..|ks| - 1] + [ks[|ks| - 1]];
      var init := Surviving(q, ks[..|ks| - 1]);
      var k := ks[|ks| - 1];
      if q.claims[k].monitor in q.monitors then init + [k] else init
  }

  /** post_results: record one check per surviving result, delete the rows this worker still owns. */
  function Post(q: Queue, worker: WorkerId, ks: seq<nat>): Queue
    requires ValidClaims(q, ks)
  {
    var kept := Surviving(q, ks);
    var ids := RowsOfClaims(q, kept);
    q.(rows := map id | id in q.rows && !(id in ids && q.rows[id].workerId == Some(worker)) :: q.rows[id],
       spent := q.spent + Elements(ks), recorded := q.recorded + kept)
  }

  /** The blocked branch of get_jobs: record a down check and delete the row, whoever leases it by now. */
  function Block(q: Queue, ks: seq<nat>): Queue
    requires ValidClaims(q, ks)
  {
    q.(rows := q.rows - RowsOfClaims(q, ks), spent := q.spent + Elements(ks), recorded := q.recorded + ks)
  }

  // ---- Retiring rows -----------------------------------------------------------------------------

  predicate ReapKills(row: Row, cap: nat, now: int) {
    && !row.dead
    && (   (row.leaseExpiresAt.Some? && row.leaseExpiresAt.value < now && row.attempts >= cap)
        || (row.leasedAt == None && row.scheduledAt < now - ORPHAN_SECONDS))
  }

  function ReapedRows(rows: map<RowId, Row>, cap: nat, now: int): map<RowId, Row> {
    map id | id in rows :: if ReapKills(rows[id], cap, now) then rows[id].(dead := true) else rows[id]
  }

  function Reap(q: Queue, cap: nat): Queue {
    q.(rows := ReapedRows(q.rows, cap, q.now))
  }

  function CleanupDead(q: Queue): Queue {
    q.(rows := map id | id in q.rows && !(q.rows[id].dead && q.rows[id].scheduledAt < q.now - DEAD_ROW_SECONDS) ::
         q.rows[id])
  }

  function DeleteMonitor(q: Queue, m: MonitorId): Queue {
    q.(monitors := q.monitors - {m}, rows := map id | id in q.rows && q.rows[id].monitor != m :: q.rows[id])
  }

  // ---- Runs ----------------------------------------------------------------------------------------

  /** `regions` is the whole regions table; only its codes are ever enqueued. */
  datatype Config = Config(caps: Caps, regions: set<Code>)

  datatype Step =
    | Tick(seconds: nat)
    | ScheduleDue(due: seq<MonitorId>, regions: seq<Code>)
    | CheckNow(m: MonitorId, regions: seq<Code>)
    | ClaimJobs(region: Code, worker: WorkerId, ids: seq<RowId>)
    | PostResults(worker: WorkerId, ks: seq<nat>)
    | BlockJobs(ks: seq<nat>)
    | ReapRows
    | Cleanup
    | CreateMonitor(m: MonitorId, row: MonitorRow)
    | EditMonitor(m: MonitorId, row: MonitorRow)
    | RemoveMonitor(m: MonitorId)

  predicate HandInAllowed(q: Queue, ks: seq<nat>) {
    Distinct(ks) && ValidClaims(q, ks) && forall k :: k in ks ==> k !in q.spent
  }

  predicate Enabled(c: Config, q: Queue, step: Step) {
    match step
    case Tick(_) => true
    case ScheduleDue(due, regions) =>
      && Distinct(due) && (forall r :: r in regions ==> r in c.regions)
      && Elements(due) == set m | m in q.monitors && Due(q.monitors[m], q.now)
    case CheckNow(m, regions) => m in q.monitors && forall r :: r in regions ==> r in c.regions
    case ClaimJobs(region, _, ids) =>
      Distinct(ids) && forall id :: id in ids ==>
        id in q.rows && q.rows[id].region == region && Eligible(q.rows[id], c.caps.claim, q.now)
    case PostResults(worker, ks) =>
      HandInAllowed(q, ks) && forall i :: 0 <= i < |ks| ==> q.claims[ks[i]].worker == worker
    case BlockJobs(ks) => HandInAllowed(q, ks) && forall i :: 0 <= i < |ks| ==> q.claims[ks[i]].monitor in q.monitors
    case ReapRows => true
    case Cleanup => true
    case CreateMonitor(m, row) => m !in q.monitors && row.rounds == []
    case EditMonitor(m, row) => m in q.monitors && row.rounds == []
    case RemoveMonitor(m) => m in q.monitors
  }

  function Apply(c: Config, q: Queue, step: Step): Queue
    requires Enabled(c, q, step)
  {
    match step
    case Tick(d) => q.(now := q.now + d)
    case ScheduleDue(due, regions) => Schedule(q, due, regions)
    case CheckNow(m, regions) => EnqueueRegions(q, m, regions)
    case ClaimJobs(_, worker, ids) => ClaimRows(q, ids, worker)
    case PostResults(worker, ks) => Post(q, worker, ks)
    case BlockJobs(ks) => Block(q, ks)
    case ReapRows => Reap(q, c.caps.reap)
    case Cleanup => CleanupDead(q)
    case CreateMonitor(m, row) => q.(monitors := q.monitors[m := row])
    case EditMonitor(m, row) => q.(monitors := q.monitors[m := row])
    case RemoveMonitor(m) => DeleteMonitor(q, m)
  }

  /** `q'` is reached from `q` by taking `steps` in order, each where it is enabled. */
  ghost predicate Runs(c: Config, q: Queue, steps: seq<Step>, q': Queue)
    decreases |steps|
  {
    if steps == [] then q' == q
    else Enabled(c, q, steps[0]) && Runs(c, Apply(c, q, steps[0]), steps[1..], q')
  }
}
