/**
 * A finalize task reads its votes one region at a time, so they need not be the votes of any one moment.
 * This module says exactly when they are, and shows a run in which they are not.
 */
module FinalizeSnapshots {
  import opened Common
  import opened Regions
  import opened Checks
  import opened Incidents
  import opened FinalizeReads

  // ---- One region's answer over time -----------------------------------------------------------------

  /** Region `c`'s answer in `r` is right for the table of the first `n` checks. */
  predicate RightAt(checks: seq<Check>, m: MonitorId, r: Reading, c: Code, n: nat)
    requires c in r.picks && n <= |checks|
  {
    IsLatestFresh(checks[..n], m, c, r.cutoff, r.picks[c].vote)
  }

  /** The votes of `r` are those of one table: the first `n` checks, no fewer than at the lock. */
  predicate AtMoment(checks: seq<Check>, m: MonitorId, r: Reading, n: nat) {
    r.lockSeen <= n <= |checks| && Answers(checks[..n], m, r.codes, r.cutoff, VoteRows(r))
  }

  ghost predicate AtOneMoment(checks: seq<Check>, m: MonitorId, r: Reading) {
    exists n: nat :: AtMoment(checks, m, r, n)
  }

  /** Row `x` would have been read instead of `c`'s answer in `r`. */
  predicate Newer(x: Check, m: MonitorId, r: Reading, c: Code)
    requires c in r.picks
  {
    && Fresh(x, m, c, r.cutoff)
    && (r.picks[c].vote.Some? ==> r.picks[c].vote.value.checkedAt < x.checkedAt)
  }

  /**
   * After `c` was read and before `d` was, check `a` landed and made `c`'s answer old, and the row that `d`
   * was to answer with came later still.
   */
  predicate OvertakenAt(checks: seq<Check>, m: MonitorId, r: Reading, c: Code, d: Code, a: nat) {
    && c in r.picks && d in r.picks
    && r.picks[c].seen <= a < r.picks[d].seen && a < |checks|
    && Newer(checks[a], m, r, c)
    && r.picks[d].vote.Some? && r.picks[d].vote.value !in checks[..a + 1]
  }

  ghost predicate Overtaken(checks: seq<Check>, m: MonitorId, r: Reading) {
    exists c, d, a: nat :: OvertakenAt(checks, m, r, c, d, a)
  }

  /** Between reading `c` and reading `d` there was a table for which neither answer was right. */
  predicate BothWrongAt(checks: seq<Check>, m: MonitorId, r: Reading, c: Code, d: Code, n: nat) {
    && c in r.picks && d in r.picks
    && r.picks[c].seen <= n <= r.picks[d].seen && n <= |checks|
    && !RightAt(checks, m, r, c, n) && !RightAt(checks, m, r, d, n)
  }

  ghost predicate BothWrong(checks: seq<Check>, m: MonitorId, r: Reading) {
    exists c, d, n: nat :: BothWrongAt(checks, m, r, c, d, n)
  }

  // ---- The same in tables --------------------------------------------------------------------------------

  lemma NoneNewer(checks: seq<Check>, m: MonitorId, r: Reading, c: Code, n: nat, i: nat)
    requires c in r.picks && i < n <= |checks| && RightAt(checks, m, r, c, n)
    ensures !Newer(checks[i], m, r, c)
  {
    assert checks[i] in checks[..n];
  }

  /** An answer goes wrong by a newer row. */
  lemma WrongByANewerRow(checks: seq<Check>, m: MonitorId, r: Reading, c: Code, n: nat) returns (a: nat)
    requires c in r.picks && r.picks[c].seen <= n <= |checks|
    requires RightAt(checks, m, r, c, r.picks[c].seen) && !RightAt(checks, m, r, c, n)
    ensures r.picks[c].seen <= a < n && Newer(checks[a], m, r, c)
  {
    var seen := r.picks[c].seen;
    assert forall x :: x in checks[..seen] ==> x in checks[..n];
    var x :| x in checks[..n] && Newer(x, m, r, c);
    a :| 0 <= a < n && checks[a] == x;
    if a < seen {
      NoneNewer(checks, m, r, c, seen, a);
    }
  }

  /** An answer not yet right waits for its row. */
  lemma WrongBeforeItsRow(checks: seq<Check>, m: MonitorId, r: Reading, d: Code, n: nat)
    requires d in r.picks && n <= r.picks[d].seen <= |checks| && RightAt(checks, m, r, d, r.picks[d].seen)
    ensures RightAt(checks, m, r, d, n) <==> r.picks[d].vote.Some? ==> r.picks[d].vote.value in checks[..n]
  {
    assert forall x :: x in checks[..n] ==> x in checks[..r.picks[d].seen];
  }

  lemma OvertakenIffBothWrong(checks: seq<Check>, m: MonitorId, r: Reading)
    requires Gathered(checks, m, r, |r.codes|)
    ensures Overtaken(checks, m, r) <==> BothWrong(checks, m, r)
  {
    if Overtaken(checks, m, r) {
      var c, d, a: nat :| OvertakenAt(checks, m, r, c, d, a);
      WrongBeforeItsRow(checks, m, r, d, a + 1);
      assert checks[..a + 1][a] == checks[a];
      assert BothWrongAt(checks, m, r, c, d, a + 1);
    }
    if BothWrong(checks, m, r) {
      var c, d, n: nat :| BothWrongAt(checks, m, r, c, d, n);
      var a := WrongByANewerRow(checks, m, r, c, n);
      WrongBeforeItsRow(checks, m, r, d, n);
      assert forall x :: x in checks[..a + 1] ==> x in checks[..n];
      assert OvertakenAt(checks, m, r, c, d, a);
    }
  }

  /** An answer that is right for two tables is right for every table between them. */
  lemma RightBetween(checks: seq<Check>, m: MonitorId, r: Reading, c: Code, a: nat, x: nat, b: nat)
    requires c in r.picks && a <= x <= b <= |checks|
    requires RightAt(checks, m, r, c, a) && RightAt(checks, m, r, c, b)
    ensures RightAt(checks, m, r, c, x)
  {
    assert checks[..a] <= checks[..x] <= checks[..b];
    forall y | y in checks[..x] ensures y in checks[..b] {
    }
    forall y | y in checks[..a] ensures y in checks[..x] {
    }
  }

  /** One more check changes only its own region's answer. */
  lemma OthersStayRight(checks: seq<Check>, m: MonitorId, r: Reading, c: Code, n: nat)
    requires c in r.picks && n < |checks| && checks[n].region != c
    ensures RightAt(checks, m, r, c, n) <==> RightAt(checks, m, r, c, n + 1)
  {
    LatestUnaffectedByOthers(checks[..n], [checks[n]], m, c, r.cutoff, r.picks[c].vote);
    assert checks[..n + 1] == checks[..n] + [checks[n]];
  }

  // ---- When the votes are those of one moment ---------------------------------------------------------

  lemma MomentFromRight(checks: seq<Check>, m: MonitorId, r: Reading, n: nat)
    requires Gathered(checks, m, r, |r.codes|) && r.lockSeen <= n <= |checks|
    ensures AtMoment(checks, m, r, n) <==> forall c :: c in r.picks ==> RightAt(checks, m, r, c, n)
  {
    assert r.codes[..|r.codes|] == r.codes;
    assert VoteRows(r).Keys == r.picks.Keys;
    if AtMoment(checks, m, r, n) {
      forall c | c in r.picks ensures RightAt(checks, m, r, c, n) {
        assert VoteRows(r)[c] == r.picks[c].vote;
      }
    }
  }

  /** Up to `n` every answer not yet read is right or still to come. */
  predicate RightOrToCome(checks: seq<Check>, m: MonitorId, r: Reading, n: nat)
    requires n <= |checks|
  {
    forall c :: c in r.picks ==> n < r.picks[c].seen || RightAt(checks, m, r, c, n)
  }

  /** While some answer is still to come, an answer that stops being right has been overtaken. */
  lemma OneCheckLater(checks: seq<Check>, m: MonitorId, r: Reading, n: nat, d: Code)
    requires Gathered(checks, m, r, |r.codes|) && r.lockSeen <= n < |checks|
    requires RightOrToCome(checks, m, r, n) && !BothWrong(checks, m, r)
    requires d in r.picks && !RightAt(checks, m, r, d, n)
    ensures RightOrToCome(checks, m, r, n + 1)
  {
    forall c | c in r.picks && r.picks[c].seen <= n + 1 ensures RightAt(checks, m, r, c, n + 1) {
      if r.picks[c].seen <= n && !RightAt(checks, m, r, c, n + 1) {
        OthersStayRight(checks, m, r, if checks[n].region == c then d else c, n);
        assert BothWrongAt(checks, m, r, c, d, n + 1);
      }
    }
  }

  /** Walking from the lock towards the last read, the first table for which nothing is still to come. */
  lemma {:induction false} MomentFrom(checks: seq<Check>, m: MonitorId, r: Reading, n: nat) returns (moment: nat)
    requires Gathered(checks, m, r, |r.codes|) && r.lockSeen <= n <= |checks|
    requires RightOrToCome(checks, m, r, n) && !BothWrong(checks, m, r)
    requires n == r.lockSeen || exists c :: c in r.picks && n <= r.picks[c].seen
    ensures AtMoment(checks, m, r, moment)
    ensures forall k: nat :: ReadBy(r, k) ==> moment <= k
    decreases |checks| - n
  {
    MomentFromRight(checks, m, r, n);
    if d :| d in r.picks && !RightAt(checks, m, r, d, n) {
      OneCheckLater(checks, m, r, n, d);
      moment := MomentFrom(checks, m, r, n + 1);
    } else {
      moment := n;
    }
  }

  /**
   * The votes of a finalize are those of one table, some time between its lock and its last read, exactly
   * if no read was overtaken: made old by a check that landed before the row of a later answer did.
   */
  lemma OneMomentIffNotOvertaken(checks: seq<Check>, m: MonitorId, r: Reading)
    requires Gathered(checks, m, r, |r.codes|)
    ensures AtOneMoment(checks, m, r) <==> !Overtaken(checks, m, r)
  {
    OvertakenIffBothWrong(checks, m, r);
    if BothWrong(checks, m, r) {
      var c, d, n :| BothWrongAt(checks, m, r, c, d, n);
      forall k | AtMoment(checks, m, r, k) ensures false {
        MomentFromRight(checks, m, r, k);
        if k <= n {
          RightBetween(checks, m, r, d, k, n, r.picks[d].seen);
        } else {
          RightBetween(checks, m, r, c, r.picks[c].seen, n, k);
        }
      }
    } else {
      var moment := MomentOf(checks, m, r);
    }
  }

  lemma MomentOf(checks: seq<Check>, m: MonitorId, r: Reading) returns (moment: nat)
    requires Gathered(checks, m, r, |r.codes|) && !Overtaken(checks, m, r)
    ensures AtMoment(checks, m, r, moment)
    ensures forall k: nat :: ReadBy(r, k) ==> moment <= k
  {
    OvertakenIffBothWrong(checks, m, r);
    RightAtTheLock(checks, m, r);
    moment := MomentFrom(checks, m, r, r.lockSeen);
  }

  lemma RightAtTheLock(checks: seq<Check>, m: MonitorId, r: Reading)
    requires Gathered(checks, m, r, |r.codes|)
    ensures RightOrToCome(checks, m, r, r.lockSeen)
  {
    forall c | c in r.picks && r.picks[c].seen <= r.lockSeen ensures RightAt(checks, m, r, c, r.lockSeen) {
      assert r.picks[c].seen == r.lockSeen;
    }
  }

  /** Checks of the monitor that landed between the lock and the last read, in voting regions, are all of `e`. */
  predicate OnlyFrom(checks: seq<Check>, m: MonitorId, r: Reading, e: Code) {
    forall i: nat, d :: r.lockSeen <= i < |checks| && d in r.picks && i < r.picks[d].seen
                        && checks[i].monitor == m && checks[i].region in r.codes
                        ==> checks[i].region == e
  }

  /** Overtaking is by checks of two regions, both landed after the lock and before a read. */
  lemma OvertakingTakesTwo(checks: seq<Check>, m: MonitorId, r: Reading, c: Code, d: Code, a: nat) returns (i: nat)
    requires Gathered(checks, m, r, |r.codes|) && OvertakenAt(checks, m, r, c, d, a)
    ensures r.lockSeen <= a < i < r.picks[d].seen <= |checks|
    ensures checks[a].monitor == m && checks[i].monitor == m
    ensures checks[a].region == c && checks[i].region == d && c in r.codes && d in r.codes && c != d
  {
    assert r.codes[..|r.codes|] == r.codes;
    var seen, row := r.picks[d].seen, r.picks[d].vote.value;
    i :| 0 <= i < seen && checks[..seen][i] == row;
    assert forall k :: 0 <= k <= a ==> checks[k] in checks[..a + 1];
  }

  /** So it takes two regions reporting between the lock and the last read to mix moments. */
  lemma OneReportingRegionIsOneMoment(checks: seq<Check>, m: MonitorId, r: Reading, e: Code)
    requires Gathered(checks, m, r, |r.codes|) && OnlyFrom(checks, m, r, e)
    ensures AtOneMoment(checks, m, r)
  {
    OneMomentIffNotOvertaken(checks, m, r);
    forall c, d, a: nat | OvertakenAt(checks, m, r, c, d, a) ensures false {
      var i := OvertakingTakesTwo(checks, m, r, c, d, a);
    }
  }
}
