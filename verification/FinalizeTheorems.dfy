/** The claims about whole runs of the check pipeline's finalize stage. */
module FinalizeTheorems {
  import opened Common
  import opened Regions
  import opened Checks
  import opened Incidents
  import opened IncidentHistory
  import opened AlertHistory
  import opened FinalizeProtocol
  import opened FinalizeSafety
  import opened FinalizeReads
  import opened FinalizeSnapshots

  /**
   * Any interleaving ends in the tables that its finalizes produce when they write one after the other, in
   * the order they held the lock. Each verdict is the consensus of votes that were each the latest fresh
   * one when they were read, and all of them the votes of one table exactly if no read was overtaken.
   */
  lemma InterleavingIsSerial(key: LockKey, steps: seq<Step>)
    requires Runs(key, INIT, steps)
    ensures var s := Exec(INIT, steps);
            && ValidLog(s.log) && s.tables == Replay(s.log)
            && forall i: nat :: i < |s.log| && s.log[i].Finalized? ==>
                 var r := s.log[i].round;
                 && r.verdict == Consensus(VotesFrom(VoteRows(r.reading)), r.reading.codes).verdict
                 && r.reading.picks.Keys == Elements(r.reading.codes)
                 && (forall c :: c in r.reading.picks ==>
                       && r.reading.lockSeen <= r.reading.picks[c].seen <= |s.checks|
                       && IsLatestFresh(s.checks[..r.reading.picks[c].seen], s.log[i].m, c, r.reading.cutoff,
                                        r.reading.picks[c].vote))
                 && (AtOneMoment(s.checks, s.log[i].m, r.reading) <==> !Overtaken(s.checks, s.log[i].m, r.reading))
  {
    OrderlyRun(key, steps);
    var s := Exec(INIT, steps);
    forall i: nat | i < |s.log| && s.log[i].Finalized?
      ensures Gathered(s.checks, s.log[i].m, s.log[i].round.reading, |s.log[i].round.reading.codes|)
      ensures s.log[i].round.reading.picks.Keys == Elements(s.log[i].round.reading.codes)
      ensures AtOneMoment(s.checks, s.log[i].m, s.log[i].round.reading)
              <==> !Overtaken(s.checks, s.log[i].m, s.log[i].round.reading)
    {
      var codes := s.log[i].round.reading.codes;
      assert codes[..|codes|] == codes;
      OneMomentIffNotOvertaken(s.checks, s.log[i].m, s.log[i].round.reading);
    }
  }

  // ---- Atomic finalizes ----------------------------------------------------------------------------------

  /**
   * `moments` turns every finalize of the log into an atomic one: all its votes are those of the table at
   * its moment, its verdict is their consensus, and finalizes of one monitor come in lock order.
   */
  predicate Atomically(checks: seq<Check>, log: seq<Txn>, moments: seq<nat>) {
    && |moments| == |log|
    && (forall i: nat :: i < |log| && log[i].Finalized? ==> AtomicAt(checks, log[i], moments[i]))
    && (forall i: nat, j: nat :: i < j < |log| && log[i].Finalized? && FinalizedAt(log, j, log[i].m)
          ==> moments[i] <= moments[j])
  }

  predicate AtomicAt(checks: seq<Check>, x: Txn, n: nat)
    requires x.Finalized?
  {
    var r := x.round.reading;
    AtMoment(checks, x.m, r, n) && x.round.verdict == Consensus(VotesFrom(VoteRows(r)), r.codes).verdict
  }

  ghost predicate NoneOvertaken(checks: seq<Check>, log: seq<Txn>) {
    forall i: nat :: i < |log| && log[i].Finalized? ==> !Overtaken(checks, log[i].m, log[i].round.reading)
  }

  /** A moment that makes transaction `i` atomic, if it is a finalize, and is no later than its last read. */
  ghost predicate MomentFor(s: State, i: nat, n: nat) {
    i < |s.log| && (s.log[i].Finalized? ==>
      AtomicAt(s.checks, s.log[i], n) && forall k: nat :: ReadBy(s.log[i].round.reading, k) ==> n <= k)
  }

  lemma MomentExists(s: State, i: nat) returns (n: nat)
    requires LogRead(s) && NoneOvertaken(s.checks, s.log) && i < |s.log|
    ensures MomentFor(s, i, n)
  {
    n := 0;
    if s.log[i].Finalized? {
      n := MomentOf(s.checks, s.log[i].m, s.log[i].round.reading);
    }
  }

  lemma {:induction false} MomentsUpTo(s: State, k: nat) returns (moments: seq<nat>)
    requires LogRead(s) && NoneOvertaken(s.checks, s.log) && k <= |s.log|
    ensures |moments| == k && forall i: nat :: i < k ==> MomentFor(s, i, moments[i])
  {
    moments := [];
    if k > 0 {
      moments := MomentsUpTo(s, k - 1);
      var n := MomentExists(s, k - 1);
      moments := moments + [n];
    }
  }

  /**
   * A run is one of atomic finalizes, each reading all its votes from one table and in lock order per
   * monitor, exactly if none of its finalizes was overtaken between two of its reads.
   */
  lemma AtomicIffNoneOvertaken(key: LockKey, steps: seq<Step>)
    requires Runs(key, INIT, steps)
    ensures var s := Exec(INIT, steps);
            && s.tables == Replay(s.log)
            && ((exists moments :: Atomically(s.checks, s.log, moments)) <==> NoneOvertaken(s.checks, s.log))
  {
    OrderlyRun(key, steps);
    var s := Exec(INIT, steps);
    if NoneOvertaken(s.checks, s.log) {
      var moments := MomentsUpTo(s, |s.log|);
      forall i: nat | i < |s.log| && s.log[i].Finalized? ensures AtomicAt(s.checks, s.log[i], moments[i]) {
        assert MomentFor(s, i, moments[i]);
      }
      forall i: nat, j: nat | i < j < |s.log| && s.log[i].Finalized? && FinalizedAt(s.log, j, s.log[i].m)
        ensures moments[i] <= moments[j]
      {
        assert MomentFor(s, i, moments[i]);
        assert ReadBy(s.log[i].round.reading, s.log[j].round.reading.lockSeen);
        assert AtomicAt(s.checks, s.log[j], moments[j]);
      }
      assert Atomically(s.checks, s.log, moments);
    }
    forall moments, i: nat | Atomically(s.checks, s.log, moments) && i < |s.log| && s.log[i].Finalized?
      ensures !Overtaken(s.checks, s.log[i].m, s.log[i].round.reading)
    {
      assert AtomicAt(s.checks, s.log[i], moments[i]);
      OneMomentIffNotOvertaken(s.checks, s.log[i].m, s.log[i].round.reading);
    }
  }

  /** The expectation of deploy/sanity.sql: never two open incidents, and one exactly while the monitor is down. */
  lemma OneOpenIncidentWhileDown(key: LockKey, steps: seq<Step>, m: MonitorId)
    requires Runs(key, INIT, steps) && m in Exec(INIT, steps).tables.status
    ensures var t := Exec(INIT, steps).tables;
            OpenCount(t.incidents, m) == if t.status[m] == StatusDown then 1 else 0
  {
    SerialRun(key, steps);
    OpenIncidentIffDown(Exec(INIT, steps).log, m);
  }

  /** A hash collision only makes tasks wait: every run under a colliding key is a run under distinct keys. */
  lemma {:induction false} CollisionsChangeNothing(key: LockKey, steps: seq<Step>)
    requires Runs(key, INIT, steps)
    ensures Runs((m: MonitorId) => m, INIT, steps)
  {
    if steps != [] {
      var before, step := steps[..|steps| - 1], steps[|steps| - 1];
      CollisionsChangeNothing(key, before);
      var s := Exec(INIT, before);
      if step.Lock? {
        assert forall u :: u in s.tasks && s.tasks[u].Active() && s.tasks[u].m == s.tasks[step.t].m
                           ==> key(s.tasks[u].m) == key(s.tasks[step.t].m);
      }
    }
  }

  // ---- The incident table of a run -------------------------------------------------------------

  predicate RoundsTimed(log: seq<Txn>, m: MonitorId) {
    forall i, j :: 0 <= i < j < |log| && FinalizedAt(log, i, m) && FinalizedAt(log, j, m)
                   ==> log[i].round.at <= log[j].round.at
  }

  lemma {:induction false} RoundFromLog(log: seq<Txn>, m: MonitorId)
    ensures forall r :: r in Rounds(log, m) ==> exists i: nat :: FinalizedAt(log, i, m) && log[i].round == r
  {
    if log != [] {
      var before, x := log[..|log| - 1], log[|log| - 1];
      RoundFromLog(before, m);
      forall r | r in Rounds(log, m) ensures exists i: nat :: FinalizedAt(log, i, m) && log[i].round == r {
        if r in Rounds(before, m) {
          var i: nat :| FinalizedAt(before, i, m) && before[i].round == r;
          assert FinalizedAt(log, i, m);
        } else {
          assert FinalizedAt(log, |log| - 1, m);
        }
      }
    }
  }

  lemma {:induction false} MarksFromRounds(rounds: seq<Round>)
    ensures forall k :: k in Marks(rounds) ==> exists r :: r in rounds && r.at == k.at
  {
    if rounds != [] {
      var before, r := rounds[..|rounds| - 1], rounds[|rounds| - 1];
      MarksFromRounds(before);
      assert rounds == before + [r];
      forall k | k in Marks(rounds) ensures exists q :: q in rounds && q.at == k.at {
        if k in Marks(before) {
          var q :| q in before && q.at == k.at;
          assert q in rounds;
        } else {
          assert r in rounds;
        }
      }
    }
  }

  lemma {:induction false} MarksInOrder(log: seq<Txn>, m: MonitorId)
    requires RoundsTimed(log, m)
    ensures InOrder(Marks(Rounds(log, m)))
  {
    if log != [] {
      var n := |log| - 1;
      var before, x := log[..n], log[n];
      assert RoundsTimed(before, m) by {
        forall i, j | 0 <= i < j < |before| && FinalizedAt(before, i, m) && FinalizedAt(before, j, m)
          ensures before[i].round.at <= before[j].round.at
        {
          assert FinalizedAt(log, i, m) && FinalizedAt(log, j, m);
        }
      }
      MarksInOrder(before, m);
      if x.Finalized? && x.m == m {
        var rounds := Rounds(before, m);
        assert Rounds(log, m)[..|rounds|] == rounds;
        MarksFromRounds(rounds);
        RoundFromLog(before, m);
        forall k | k in Marks(rounds) ensures k.at <= x.round.at {
          var r :| r in rounds && r.at == k.at;
          var i: nat :| FinalizedAt(before, i, m) && before[i].round == r;
          assert FinalizedAt(log, i, m) && FinalizedAt(log, n, m);
        }
      }
    }
  }

  /**
   * After any run the incidents of a monitor are the maximal down-runs of its verdict history with
   * incomplete verdicts dropped; in order, without overlap, and only the last can be open.
   */
  lemma IncidentTableIsHistory(key: LockKey, steps: seq<Step>, m: MonitorId)
    requires Runs(key, INIT, steps) && m in Exec(INIT, steps).tables.status
    ensures var s := Exec(INIT, steps);
            var marks := Marks(Rounds(s.log, m));
            && SpansOf(IncidentsOf(s.tables.incidents, m)) == DownRuns(marks)
            && s.tables.status[m] == StatusAfter(marks)
            && OrderedSpans(DownRuns(marks))
  {
    OrderlyRun(key, steps);
    var s := Exec(INIT, steps);
    IncidentsAreDownRuns(s.log, m);
    assert RoundsTimed(s.log, m);
    MarksInOrder(s.log, m);
    DownRunsOrdered(Marks(Rounds(s.log, m)));
  }

  /** On a channel active at every finalize of the monitor, alerts go down, resolved, down, ... */
  lemma AlertsOfRunAlternate(key: LockKey, steps: seq<Step>, m: MonitorId, ch: ChannelId)
    requires Runs(key, INIT, steps) && m in Exec(INIT, steps).tables.status
    requires forall r :: r in Rounds(Exec(INIT, steps).log, m) ==> ch in r.channels
    ensures var t := Exec(INIT, steps).tables;
            var alerts := AlertsOf(t.deliveries, IdsOf(t.incidents, m), ch);
            alerts == Story(IncidentsOf(t.incidents, m), ch) && Alternates(alerts)
  {
    SerialRun(key, steps);
    AlertsTellTheStory(Exec(INIT, steps).log, m, ch);
    AlertsAlternate(Exec(INIT, steps).log, m, ch);
  }

  // ---- Quiescent agreement ---------------------------------------------------------------------

  /** Nothing about `m` is waiting: no dispatch to make, no task queued or running. */
  predicate Quiet(s: State, m: MonitorId) {
    && (forall d :: d in s.undispatched ==> d.0 != m)
    && (forall t :: t in s.tasks && s.tasks[t].m == m ==> s.tasks[t].pc == Finished)
  }

  predicate LastFinalize(log: seq<Txn>, j: nat, m: MonitorId) {
    FinalizedAt(log, j, m) && forall i: nat :: j < i < |log| ==> !FinalizedAt(log, i, m)
  }

  lemma {:induction false} LastExists(log: seq<Txn>, m: MonitorId, i: nat) returns (j: nat)
    requires FinalizedAt(log, i, m)
    ensures LastFinalize(log, j, m) && i <= j
    decreases |log| - i
  {
    if k: nat :| i < k < |log| && FinalizedAt(log, k, m) {
      j := LastExists(log, m, k);
    } else {
      j := i;
    }
  }

  lemma {:induction false} RoundsEndWithLast(log: seq<Txn>, m: MonitorId, j: nat)
    requires LastFinalize(log, j, m)
    ensures Rounds(log, m) == Rounds(log[..j], m) + [log[j].round]
  {
    var n := |log| - 1;
    if j < n {
      var before := log[..n];
      assert before[..j] == log[..j];
      assert !FinalizedAt(log, n, m);
      forall i: nat | j < i < |before| ensures !FinalizedAt(before, i, m) {
        assert !FinalizedAt(log, i, m);
      }
      RoundsEndWithLast(before, m, j);
    }
  }

  /** The last finalize took the lock after every check of its monitor was in the table. */
  lemma LastSawEverything(key: LockKey, s: State, m: MonitorId, j: nat)
    requires Orderly(key, s) && AllCovered(s) && Quiet(s, m) && Tracked(s, m) && LastFinalize(s.log, j, m)
    ensures forall i :: 0 <= i < |s.checks| && s.checks[i].monitor == m
                        ==> i < s.log[j].round.reading.lockSeen
  {
    forall i: nat | i < |s.checks| && s.checks[i].monitor == m ensures i < s.log[j].round.reading.lockSeen {
      assert Covered(s, m, i);
      assert InLog(s, m, i);
      var k: nat :| FinalizedAt(s.log, k, m) && i < s.log[k].round.reading.lockSeen;
      if k != j {
        assert k < j;
      }
    }
  }

  /** So its votes are the latest fresh ones of the full table. */
  lemma LastVotesAreCurrent(key: LockKey, s: State, m: MonitorId, j: nat)
    requires Orderly(key, s) && AllCovered(s) && Quiet(s, m) && Tracked(s, m) && LastFinalize(s.log, j, m)
    ensures var r := s.log[j].round.reading; Answers(s.checks, m, r.codes, r.cutoff, VoteRows(r))
  {
    LastSawEverything(key, s, m, j);
    var r := s.log[j].round.reading;
    assert r.codes[..|r.codes|] == r.codes;
    forall c | c in r.picks ensures IsLatestFresh(s.checks, m, c, r.cutoff, r.picks[c].vote) {
      PrefixHoldsAll(s.checks, r.picks[c].seen, m, c, r.cutoff, r.picks[c].vote);
    }
  }

  function StatusFor(verdict: Verdict, before: MonitorStatus): MonitorStatus {
    match verdict
    case VerdictDown => StatusDown
    case VerdictUp => StatusUp
    case Incomplete => before
  }

  lemma StatusFromLast(log: seq<Txn>, m: MonitorId, j: nat)
    requires ValidLog(log) && m in Replay(log).status && LastFinalize(log, j, m)
    ensures Replay(log).status[m]
            == StatusFor(log[j].round.verdict, StatusAfter(Marks(Rounds(log[..j], m))))
  {
    IncidentsAreDownRuns(log, m);
    RoundsEndWithLast(log, m, j);
    var rounds := Rounds(log[..j], m);
    assert (rounds + [log[j].round])[..|rounds|] == rounds;
  }

  lemma PrefixHoldsAll(checks: seq<Check>, n: nat, m: MonitorId, c: Code, cutoff: int, pick: Option<Check>)
    requires n <= |checks|
    requires forall i :: n <= i < |checks| ==> checks[i].monitor != m
    requires IsLatestFresh(checks[..n], m, c, cutoff, pick)
    ensures IsLatestFresh(checks, m, c, cutoff, pick)
  {
    LatestUnaffectedByOthers(checks[..n], checks[n..], m, c, cutoff, pick);
    assert checks[..n] + checks[n..] == checks;
  }

  /**
   * Once everything dispatched for a monitor has finished and nothing was lost, its status is the
   * consensus over the full check table at the last finalize's cutoff, or, when that verdict is
   * incomplete, the status it had before.
   */
  lemma QuiescentAgreement(key: LockKey, steps: seq<Step>, m: MonitorId) returns (j: nat)
    requires Runs(key, INIT, steps)
    requires Quiet(Exec(INIT, steps), m) && Tracked(Exec(INIT, steps), m)
    requires exists x :: x in Exec(INIT, steps).checks && x.monitor == m
    ensures LastFinalize(Exec(INIT, steps).log, j, m)
    ensures var s := Exec(INIT, steps);
            var r := s.log[j].round.reading;
            && Answers(s.checks, m, r.codes, r.cutoff, VoteRows(r))
            && s.tables.status[m] == StatusFor(Consensus(VotesFrom(VoteRows(r)), r.codes).verdict,
                                               StatusAfter(Marks(Rounds(s.log[..j], m))))
  {
    OrderlyRun(key, steps);
    CoveredRun(key, steps);
    var s := Exec(INIT, steps);
    var i: nat :| i < |s.checks| && s.checks[i].monitor == m;
    assert Covered(s, m, i);
    assert InLog(s, m, i);
    var k: nat :| FinalizedAt(s.log, k, m) && i < s.log[k].round.reading.lockSeen;
    j := LastExists(s.log, m, k);
    LastVotesAreCurrent(key, s, m, j);
    StatusFromLast(s.log, m, j);
  }

  // ---- No reversal without a change of mind ----------------------------------------------------

  /** No two rows of one region share a timestamp, unless they are equal. */
  predicate NoTies(checks: seq<Check>) {
    forall x, y | x in checks && y in checks ::
      x.monitor == y.monitor && x.region == y.region && x.checkedAt == y.checkedAt ==> x == y
  }

  /**
   * Between a down verdict and a later up verdict of one monitor, with the same voting list, some region
   * that voted down has an up row that was not in the table when its down vote was read; the one
   * exception is an up row with exactly the timestamp of the down row.
   */
  lemma ReversalNeedsANewUpCheck(key: LockKey, steps: seq<Step>, m: MonitorId, i: nat, j: nat)
    returns (c: Code, d: Check, u: Check)
    requires Runs(key, INIT, steps)
    requires Reversal(Exec(INIT, steps).log, m, i, j)
    ensures var s := Exec(INIT, steps);
            ChangedMind(s.checks, m, s.log[i].round.reading, s.log[j].round.reading, c, d, u)
  {
    OrderlyRun(key, steps);
    var s := Exec(INIT, steps);
    var before, after := s.log[i].round.reading, s.log[j].round.reading;
    c := ReversalNeedsAChangedVote(VotesOf(before), VotesOf(after), before.codes);
    d := before.picks[c].vote.value;
    u := after.picks[c].vote.value;
    assert ReadBy(before, after.lockSeen);
    PicksChanged(s.checks, m, before, after, c, d, u);
  }

  /** Region `c` voted down with row `d` and later up with row `u`, which is new (or tied with `d`). */
  predicate ChangedMind(
    checks: seq<Check>, m: MonitorId, before: Reading, after: Reading, c: Code, d: Check, u: Check)
  {
    && c in before.codes
    && c in before.picks && before.picks[c].vote == Some(d) && d.status == Down
    && c in after.picks && after.picks[c].vote == Some(u) && u.status == Up
    && u in checks && u.monitor == m && u.region == c
    && before.picks[c].seen <= |checks|
    && (u in checks[..before.picks[c].seen] ==> u.checkedAt == d.checkedAt)
    && (NoTies(checks) ==> u !in checks[..before.picks[c].seen])
  }

  lemma PicksChanged(
    checks: seq<Check>, m: MonitorId, before: Reading, after: Reading, c: Code, d: Check, u: Check)
    requires Gathered(checks, m, before, |before.codes|) && Gathered(checks, m, after, |after.codes|)
    requires ReadBy(before, after.lockSeen)
    requires c in before.codes && c in before.picks && before.picks[c].vote == Some(d) && d.status == Down
    requires c in after.picks && after.picks[c].vote == Some(u) && u.status == Up
    ensures ChangedMind(checks, m, before, after, c, d, u)
  {
    var p, q := before.picks[c].seen, after.picks[c].seen;
    var past, present := checks[..p], checks[..q];
    assert past <= present <= checks;
    assert forall x :: x in past ==> x in present;
    FlipNeedsANewRow(past, present, m, c, before.cutoff, after.cutoff, d, u);
    assert d in past && u in present;
    assert d in checks && u in checks;
  }
}
