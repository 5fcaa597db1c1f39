/** The `checks` table, the latest-fresh-vote query of finalize_check_result, and history retention. */
module Checks {
  import opened Common
  import opened Regions

  datatype Check = Check(monitor: MonitorId, region: Code, status: CheckStatus, checkedAt: int)

  /** A row that the query for monitor `m` and region `c` with lower bound `cutoff` selects. */
  predicate Fresh(x: Check, m: MonitorId, c: Code, cutoff: int) {
    x.monitor == m && x.region == c && cutoff <= x.checkedAt
  }

  /** A check counts for three intervals, and in any case for 15 minutes. */
  lemma FreshIffRecent(x: Check, m: MonitorId, c: Code, interval: int, now: int)
    ensures Fresh(x, m, c, FreshCutoff(interval, now))
            <==> && x.monitor == m && x.region == c
                 && (now - x.checkedAt <= 3 * interval || now - x.checkedAt <= 15 * 60)
  {
  }

  /** `pick` is a possible answer of "order by checked_at desc limit 1"; equal timestamps leave a choice. */
  predicate IsLatestFresh(checks: seq<Check>, m: MonitorId, c: Code, cutoff: int, pick: Option<Check>) {
    match pick
    case None => forall x :: x in checks ==> !Fresh(x, m, c, cutoff)
    case Some(p) =>
      && p in checks && Fresh(p, m, c, cutoff)
      && forall x :: x in checks && Fresh(x, m, c, cutoff) ==> x.checkedAt <= p.checkedAt
  }

  /** Some answer always exists. */
  method QueryLatest(checks: seq<Check>, m: MonitorId, c: Code, cutoff: int) returns (pick: Option<Check>)
    ensures IsLatestFresh(checks, m, c, cutoff, pick)
  {
    pick := None;
    for i := 0 to |checks|
      invariant IsLatestFresh(checks[..i], m, c, cutoff, pick)
    {
      assert checks[..i + 1] == checks[..i] + [checks[i]];
      if Fresh(checks[i], m, c, cutoff) && (pick == None || pick.value.checkedAt < checks[i].checkedAt) {
        pick := Some(checks[i]);
      }
    }
    assert checks[..|checks|] == checks;
  }

  /** Appending rows that are not about (m, c) leaves the answer alone. */
  lemma LatestUnaffectedByOthers(
    checks: seq<Check>, more: seq<Check>, m: MonitorId, c: Code, cutoff: int, pick: Option<Check>)
    requires forall x :: x in more ==> x.monitor != m || x.region != c
    ensures IsLatestFresh(checks, m, c, cutoff, pick) <==> IsLatestFresh(checks + more, m, c, cutoff, pick)
  {
    assert forall x :: x in checks + more <==> x in checks || x in more;
  }

  /** An up row that outranks an earlier down answer was not in the table then, unless the two are tied. */
  lemma FlipNeedsANewRow(
    before: seq<Check>, after: seq<Check>, m: MonitorId, c: Code, cutoffThen: int, cutoffNow: int, d: Check, u: Check)
    requires forall x :: x in before ==> x in after
    requires IsLatestFresh(before, m, c, cutoffThen, Some(d)) && d.status == Down
    requires IsLatestFresh(after, m, c, cutoffNow, Some(u)) && u.status == Up
    ensures u in before ==> u.checkedAt == d.checkedAt
  {
    if u in before && u.checkedAt != d.checkedAt {
      if d.checkedAt < u.checkedAt {
        assert Fresh(u, m, c, cutoffThen);
      } else {
        assert Fresh(d, m, c, cutoffNow);
      }
      assert false;
    }
  }

  /** The query has two different answers on one table exactly when both are rows tied at the latest fresh time. */
  lemma TwoAnswersIffTied(
    checks: seq<Check>, m: MonitorId, c: Code, cutoff: int, p: Option<Check>, q: Option<Check>)
    requires p != q
    ensures IsLatestFresh(checks, m, c, cutoff, p) && IsLatestFresh(checks, m, c, cutoff, q)
            <==> && p.Some? && q.Some? && p.value in checks && q.value in checks
                 && Fresh(p.value, m, c, cutoff) && Fresh(q.value, m, c, cutoff)
                 && p.value.checkedAt == q.value.checkedAt
                 && forall x :: x in checks && Fresh(x, m, c, cutoff) ==> x.checkedAt <= p.value.checkedAt
  {
  }

  /** One answer per voting region, as the `latest` loop of finalize_check_result gathers them. */
  predicate Answers(
    checks: seq<Check>, m: MonitorId, codes: seq<Code>, cutoff: int, picks: map<Code, Option<Check>>)
  {
    && picks.Keys == Elements(codes)
    && forall c :: c in picks ==> IsLatestFresh(checks, m, c, cutoff, picks[c])
  }

  function VotesFrom(picks: map<Code, Option<Check>>): map<Code, CheckStatus> {
    map c | c in picks && picks[c].Some? :: picks[c].value.status
  }

  ghost predicate PossibleVerdict(checks: seq<Check>, m: MonitorId, codes: seq<Code>, cutoff: int, v: Verdict) {
    exists picks :: Answers(checks, m, codes, cutoff, picks) && Consensus(VotesFrom(picks), codes).verdict == v
  }

  // ---- Which verdicts a table allows -------------------------------------------------------

  /** Region `c` can vote `status`: a row of its latest fresh time has that status. */
  predicate CanVote(checks: seq<Check>, m: MonitorId, c: Code, cutoff: int, status: CheckStatus) {
    exists x :: x in checks && x.status == status && IsLatestFresh(checks, m, c, cutoff, Some(x))
  }

  function AbleToVote(checks: seq<Check>, m: MonitorId, codes: seq<Code>, cutoff: int, status: CheckStatus): set<Code> {
    set c | c in codes && CanVote(checks, m, c, cutoff, status)
  }

  /** The answer a table gives when ties go to `status`. */
  lemma {:induction false} FavouringAnswer(checks: seq<Check>, m: MonitorId, c: Code, cutoff: int, status: CheckStatus)
    returns (pick: Option<Check>)
    ensures IsLatestFresh(checks, m, c, cutoff, pick)
    ensures CanVote(checks, m, c, cutoff, status) ==> pick.Some? && pick.value.status == status
  {
    if x :| x in checks && x.status == status && IsLatestFresh(checks, m, c, cutoff, Some(x)) {
      pick := Some(x);
    } else {
      pick := SomeAnswer(checks, m, c, cutoff);
    }
  }

  lemma {:induction false} SomeAnswer(checks: seq<Check>, m: MonitorId, c: Code, cutoff: int)
    returns (pick: Option<Check>)
    ensures IsLatestFresh(checks, m, c, cutoff, pick)
  {
    if checks == [] {
      pick := None;
    } else {
      var n := |checks| - 1;
      pick := SomeAnswer(checks[..n], m, c, cutoff);
      assert checks == checks[..n] + [checks[n]];
      if Fresh(checks[n], m, c, cutoff) && (pick == None || pick.value.checkedAt < checks[n].checkedAt) {
        pick := Some(checks[n]);
      }
    }
  }

  /** Answers of all regions in which ties go to `status`. */
  lemma {:induction false} FavouringAnswers(
    checks: seq<Check>, m: MonitorId, codes: seq<Code>, cutoff: int, status: CheckStatus)
    returns (picks: map<Code, Option<Check>>)
    ensures Answers(checks, m, codes, cutoff, picks)
    ensures AbleToVote(checks, m, codes, cutoff, status) <= Voters(VotesFrom(picks), codes, status)
  {
    if codes == [] {
      picks := map[];
    } else {
      var n := |codes| - 1;
      var rest := FavouringAnswers(checks, m, codes[..n], cutoff, status);
      var pick := FavouringAnswer(checks, m, codes[n], cutoff, status);
      picks := rest[codes[n] := pick];
      assert codes == codes[..n] + [codes[n]];
      forall c | c in AbleToVote(checks, m, codes, cutoff, status)
        ensures c in Voters(VotesFrom(picks), codes, status)
      {
        if c != codes[n] {
          assert c in AbleToVote(checks, m, codes[..n], cutoff, status);
        }
      }
    }
  }

  lemma VotersAreAble(
    checks: seq<Check>, m: MonitorId, codes: seq<Code>, cutoff: int, status: CheckStatus,
    picks: map<Code, Option<Check>>)
    requires Answers(checks, m, codes, cutoff, picks)
    ensures Voters(VotesFrom(picks), codes, status) <= AbleToVote(checks, m, codes, cutoff, status)
  {
    forall c | c in Voters(VotesFrom(picks), codes, status)
      ensures c in AbleToVote(checks, m, codes, cutoff, status)
    {
      assert picks[c].value in checks;
    }
  }

  /** Region `c` last reported `status`, at most 15 minutes ago. */
  predicate LastReported(checks: seq<Check>, m: MonitorId, c: Code, now: int, status: CheckStatus) {
    exists x :: x in checks && x.monitor == m && x.region == c && x.status == status && now - x.checkedAt <= 15 * 60
                && forall y :: y in checks && y.monitor == m && y.region == c && x.checkedAt <= y.checkedAt
                               ==> y.status == status
  }

  function RecentVoters(checks: seq<Check>, m: MonitorId, codes: seq<Code>, now: int, status: CheckStatus): set<Code> {
    set c | c in codes && LastReported(checks, m, c, now, status)
  }

  /**
   * At every check interval: if a strict majority of the voting regions last reported `status` at most 15
   * minutes ago, that is the verdict, however the votes are read.
   */
  lemma RecentMajorityDecides(
    checks: seq<Check>, m: MonitorId, codes: seq<Code>, interval: int, now: int, picks: map<Code, Option<Check>>,
    status: CheckStatus)
    requires Distinct(codes) && Answers(checks, m, codes, FreshCutoff(interval, now), picks)
    requires |codes| < 2 * |RecentVoters(checks, m, codes, now, status)|
    ensures Consensus(VotesFrom(picks), codes).verdict == if status == Down then VerdictDown else VerdictUp
  {
    var recent, voters := RecentVoters(checks, m, codes, now, status), Voters(VotesFrom(picks), codes, status);
    forall c | c in recent ensures c in voters {
      RecentVoteIsRead(checks, m, c, interval, now, picks[c], status);
    }
    ConsensusIsStrictMajority(VotesFrom(picks), codes);
    SubsetSize(recent, voters);
  }

  lemma RecentVoteIsRead(
    checks: seq<Check>, m: MonitorId, c: Code, interval: int, now: int, pick: Option<Check>, status: CheckStatus)
    requires IsLatestFresh(checks, m, c, FreshCutoff(interval, now), pick)
    requires LastReported(checks, m, c, now, status)
    ensures pick.Some? && pick.value.status == status
  {
    var x :| x in checks && x.monitor == m && x.region == c && x.status == status && now - x.checkedAt <= 15 * 60
             && forall y :: y in checks && y.monitor == m && y.region == c && x.checkedAt <= y.checkedAt
                            ==> y.status == status;
    FreshIffRecent(x, m, c, interval, now);
  }

  function StatusOf(v: Verdict): CheckStatus
    requires v != Incomplete
  {
    if v == VerdictDown then Down else Up
  }

  /** A table allows a verdict exactly if a strict majority of the voting regions can vote for it. */
  lemma PossibleIffAbleMajority(checks: seq<Check>, m: MonitorId, codes: seq<Code>, cutoff: int, v: Verdict)
    requires Distinct(codes) && v != Incomplete
    ensures PossibleVerdict(checks, m, codes, cutoff, v)
            <==> |codes| < 2 * |AbleToVote(checks, m, codes, cutoff, StatusOf(v))|
  {
    var able := AbleToVote(checks, m, codes, cutoff, StatusOf(v));
    forall picks | Answers(checks, m, codes, cutoff, picks) && Consensus(VotesFrom(picks), codes).verdict == v
      ensures |codes| < 2 * |able|
    {
      ConsensusIsStrictMajority(VotesFrom(picks), codes);
      VotersAreAble(checks, m, codes, cutoff, StatusOf(v), picks);
      SubsetSize(Voters(VotesFrom(picks), codes, StatusOf(v)), able);
    }
    if |codes| < 2 * |able| {
      var picks := FavouringAnswers(checks, m, codes, cutoff, StatusOf(v));
      ConsensusIsStrictMajority(VotesFrom(picks), codes);
      SubsetSize(able, Voters(VotesFrom(picks), codes, StatusOf(v)));
    }
  }

  /**
   * One table allows a down verdict and, at the same or a later cutoff, an up verdict, exactly if a strict
   * majority can vote down at the first and a strict majority up at the second; some region can then do
   * both, so has two rows of different status tied at its latest fresh time.
   */
  lemma ReversibleIffBothMajorities(checks: seq<Check>, m: MonitorId, codes: seq<Code>, cutoff: int, later: int)
    returns (tied: Code)
    requires Distinct(codes) && cutoff <= later
    ensures PossibleVerdict(checks, m, codes, cutoff, VerdictDown)
            && PossibleVerdict(checks, m, codes, later, VerdictUp)
            <==> |codes| < 2 * |AbleToVote(checks, m, codes, cutoff, Down)|
                 && |codes| < 2 * |AbleToVote(checks, m, codes, later, Up)|
    ensures PossibleVerdict(checks, m, codes, cutoff, VerdictDown)
            && PossibleVerdict(checks, m, codes, later, VerdictUp)
            ==> tied in codes && CanVote(checks, m, tied, cutoff, Down) && CanVote(checks, m, tied, cutoff, Up)
  {
    PossibleIffAbleMajority(checks, m, codes, cutoff, VerdictDown);
    PossibleIffAbleMajority(checks, m, codes, later, VerdictUp);
    tied := "";
    var d, u := AbleToVote(checks, m, codes, cutoff, Down), AbleToVote(checks, m, codes, later, Up);
    if |codes| < 2 * |d| && |codes| < 2 * |u| {
      tied := SharedByMajorities(codes, d, u);
      StillLatestBefore(checks, m, tied, cutoff, later, Up);
    }
  }

  lemma SharedByMajorities(codes: seq<Code>, a: set<Code>, b: set<Code>) returns (c: Code)
    requires Distinct(codes) && a <= Elements(codes) && b <= Elements(codes)
    requires |codes| < 2 * |a| && |codes| < 2 * |b|
    ensures c in a && c in b
  {
    ElementsOfDistinct(codes);
    SubsetSize(a + b, Elements(codes));
    assert |a + b| == |a| + |b| - |a * b|;
    c :| c in a * b;
  }

  /** A vote that a region can give at a later cutoff it can give at an earlier one. */
  lemma StillLatestBefore(checks: seq<Check>, m: MonitorId, c: Code, cutoff: int, later: int, status: CheckStatus)
    requires cutoff <= later && CanVote(checks, m, c, later, status)
    ensures CanVote(checks, m, c, cutoff, status)
  {
    var x :| x in checks && x.status == status && IsLatestFresh(checks, m, c, later, Some(x));
    assert IsLatestFresh(checks, m, c, cutoff, Some(x));
  }

  // ---- cleanup_old_checks ----------------------------------------------------------------

  /** users.plan as stored; `Legacy` is any value outside the retention table. */
  datatype StoredPlan = Free | Starter | Pro | Legacy

  const DAY := 86400

  function RetentionSeconds(plan: StoredPlan): int {
    match plan
    case Free => 7 * DAY
    case Starter => 90 * DAY
    case Pro => 365 * DAY
    case Legacy => 7 * DAY
  }

  predicate Expired(x: Check, owners: map<MonitorId, StoredPlan>, now: int) {
    x.monitor in owners && x.checkedAt < now - RetentionSeconds(owners[x.monitor])
  }

  /** What cleanup removes: checks older than 7, 90 or 365 days by plan, and 7 for any other value. */
  lemma ExpiredByPlan(x: Check, owners: map<MonitorId, StoredPlan>, now: int)
    ensures Expired(x, owners, now)
            <==> && x.monitor in owners
                 && var days := if owners[x.monitor] == Starter then 90
                                else if owners[x.monitor] == Pro then 365
                                else 7;
                    days * 24 * 3600 < now - x.checkedAt
  {
  }

  function Retained(checks: seq<Check>, owners: map<MonitorId, StoredPlan>, now: int): (kept: seq<Check>)
    ensures forall x :: x in kept <==> x in checks && !Expired(x, owners, now)
  {
    if checks == [] then []
    else
      var rest := Retained(checks[1..], owners, now);
      if Expired(checks[0], owners, now) then rest else [checks[0]] + rest
  }

  /** The cleanup at `cleanAt` changes no verdict that a finalize with the cutoff of `finalizeAt` can reach. */
  ghost predicate CleanupNeutral(
    checks: seq<Check>, owners: map<MonitorId, StoredPlan>, cleanAt: int, finalizeAt: int,
    m: MonitorId, interval: int)
  {
    forall codes, v ::
      PossibleVerdict(checks, m, codes, FreshCutoff(interval, finalizeAt), v)
      <==> PossibleVerdict(Retained(checks, owners, cleanAt), m, codes, FreshCutoff(interval, finalizeAt), v)
  }

  /**
   * Neutral for every table and every pair of times, where a finalize reads its last vote at most `lag`
   * seconds after it set its cutoff, so that a cleanup it still notices is no later than that.
   */
  ghost predicate RetentionSafe(plan: StoredPlan, interval: int, lag: nat) {
    forall checks, owners, cleanAt, finalizeAt, m |
      m in owners && owners[m] == plan && cleanAt <= finalizeAt + lag ::
      CleanupNeutral(checks, owners, cleanAt, finalizeAt, m, interval)
  }

  lemma CleanupKeepsAnswers(
    checks: seq<Check>, owners: map<MonitorId, StoredPlan>, cleanAt: int, finalizeAt: int,
    m: MonitorId, interval: int, lag: nat, codes: seq<Code>, picks: map<Code, Option<Check>>)
    requires m in owners && cleanAt <= finalizeAt + lag
    requires FreshWindow(interval) + lag <= RetentionSeconds(owners[m])
    ensures var cutoff := FreshCutoff(interval, finalizeAt);
            Answers(checks, m, codes, cutoff, picks)
            <==> Answers(Retained(checks, owners, cleanAt), m, codes, cutoff, picks)
  {
    var cutoff := FreshCutoff(interval, finalizeAt);
    var kept := Retained(checks, owners, cleanAt);
    assert forall x, c :: Fresh(x, m, c, cutoff) ==> !Expired(x, owners, cleanAt);
    forall c | c in picks
      ensures IsLatestFresh(checks, m, c, cutoff, picks[c]) <==> IsLatestFresh(kept, m, c, cutoff, picks[c])
    {
    }
  }

  lemma CleanupNeutralWhenWindowFits(
    checks: seq<Check>, owners: map<MonitorId, StoredPlan>, cleanAt: int, finalizeAt: int,
    m: MonitorId, interval: int, lag: nat)
    requires m in owners && cleanAt <= finalizeAt + lag
    requires FreshWindow(interval) + lag <= RetentionSeconds(owners[m])
    ensures CleanupNeutral(checks, owners, cleanAt, finalizeAt, m, interval)
  {
    var cutoff := FreshCutoff(interval, finalizeAt);
    var kept := Retained(checks, owners, cleanAt);
    forall codes, v
      ensures PossibleVerdict(checks, m, codes, cutoff, v) <==> PossibleVerdict(kept, m, codes, cutoff, v)
    {
      forall picks
        ensures Answers(checks, m, codes, cutoff, picks) <==> Answers(kept, m, codes, cutoff, picks)
      {
        CleanupKeepsAnswers(checks, owners, cleanAt, finalizeAt, m, interval, lag, codes, picks);
      }
    }
  }

  lemma SingleVoter(latest: map<Code, CheckStatus>, c: Code)
    ensures Consensus(latest, [c]).verdict
            == if c !in latest then Incomplete else if latest[c] == Down then VerdictDown else VerdictUp
  {
    assert [c][1..] == [];
    if c in latest {
      assert Votes(latest, [c]) == [latest[c]];
      assert [latest[c]][1..] == [];
    } else {
      assert Votes(latest, [c]) == [];
    }
  }

  /** One down check at the far edge of a window longer than the retention: the verdict is lost. */
  lemma CleanupLosesAVerdict(plan: StoredPlan, interval: int, lag: nat)
    requires RetentionSeconds(plan) < FreshWindow(interval) + lag
    ensures !RetentionSafe(plan, interval, lag)
  {
    var cutoff := FreshCutoff(interval, 0);
    var row := Check(0, "us", Down, cutoff);
    var owners: map<MonitorId, StoredPlan> := map[0 := plan];
    var kept := Retained([row], owners, lag);
    var picks := map["us" := Some(row)];
    assert PossibleVerdict([row], 0, ["us"], cutoff, VerdictDown) by {
      assert Answers([row], 0, ["us"], cutoff, picks);
      SingleVoter(VotesFrom(picks), "us");
    }
    assert Expired(row, owners, lag);
    NothingLeft(kept, cutoff);
    assert !CleanupNeutral([row], owners, lag, 0, 0, interval);
  }

  lemma NothingLeft(kept: seq<Check>, cutoff: int)
    requires forall x :: x !in kept
    ensures !PossibleVerdict(kept, 0, ["us"], cutoff, VerdictDown)
  {
    forall picks | Answers(kept, 0, ["us"], cutoff, picks)
      ensures Consensus(VotesFrom(picks), ["us"]).verdict != VerdictDown
    {
      SingleVoter(VotesFrom(picks), "us");
    }
  }

  /**
   * Cleanup never changes a verdict exactly if the freshness window, and the time a finalize may take to
   * read its votes, fit in the plan's retention. For Free that is three intervals and the lag in 7 days, and
   * what is safe on Free is safe on every plan.
   */
  lemma RetentionSafeIffWindowFits(plan: StoredPlan, interval: int, lag: nat)
    ensures RetentionSafe(plan, interval, lag) <==> FreshWindow(interval) + lag <= RetentionSeconds(plan)
    ensures lag <= 7 * DAY - FRESH_MIN_SECONDS ==>
              && (RetentionSafe(Free, interval, lag) <==> 3 * interval + lag <= 7 * DAY)
              && (RetentionSafe(Free, interval, lag) ==> RetentionSafe(plan, interval, lag))
  {
    WindowFits(plan, interval, lag);
    WindowFits(Free, interval, lag);
  }

  lemma WindowFits(plan: StoredPlan, interval: int, lag: nat)
    ensures RetentionSafe(plan, interval, lag) <==> FreshWindow(interval) + lag <= RetentionSeconds(plan)
  {
    if FreshWindow(interval) + lag <= RetentionSeconds(plan) {
      forall checks, owners, cleanAt, finalizeAt, m |
        m in owners && owners[m] == plan && cleanAt <= finalizeAt + lag
        ensures CleanupNeutral(checks, owners, cleanAt, finalizeAt, m, interval)
      {
        CleanupNeutralWhenWindowFits(checks, owners, cleanAt, finalizeAt, m, interval, lag);
      }
    } else {
      CleanupLosesAVerdict(plan, interval, lag);
    }
  }
}
