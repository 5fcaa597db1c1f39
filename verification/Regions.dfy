/** app/services/regions.py: quorum, freshness window and the verdict rule. */
module Regions {
  import opened Common

  type Code = string

  datatype CheckStatus = Up | Down
  datatype Verdict = VerdictDown | VerdictUp | Incomplete
  datatype Tally = Tally(verdict: Verdict, down: nat, reported: nat, need: nat)

  const FRESH_INTERVALS := 3
  const FRESH_MIN_SECONDS := 15 * 60

  /** Votes needed for a verdict. */
  function Quorum(voting: nat): (need: nat)
    ensures voting < 2 * need && 2 * (need - 1) <= voting
  {
    voting / 2 + 1
  }

  function FreshWindow(intervalSeconds: int): int {
    Max(FRESH_INTERVALS * intervalSeconds, FRESH_MIN_SECONDS)
  }

  function FreshCutoff(intervalSeconds: int, now: int): int {
    now - FreshWindow(intervalSeconds)
  }

  function Votes(latest: map<Code, CheckStatus>, codes: seq<Code>): seq<CheckStatus> {
    if codes == [] then []
    else (if codes[0] in latest then [latest[codes[0]]] else []) + Votes(latest, codes[1..])
  }

  function CountDown(votes: seq<CheckStatus>): (n: nat)
    ensures n <= |votes|
  {
    if votes == [] then 0 else (if votes[0] == Down then 1 else 0) + CountDown(votes[1..])
  }

  function Consensus(latest: map<Code, CheckStatus>, codes: seq<Code>): Tally {
    var need := Quorum(|codes|);
    var votes := Votes(latest, codes);
    var down := CountDown(votes);
    var up := |votes| - down;
    var verdict :=
      if codes != [] && down >= need then VerdictDown
      else if codes != [] && up >= need then VerdictUp
      else Incomplete;
    Tally(verdict, down, |votes|, need)
  }

  // ---- The verdict as a strict majority of regions -------------------------------------

  /** The voting regions whose latest fresh status is `v`: a set of regions, not a count of list entries. */
  function Voters(latest: map<Code, CheckStatus>, codes: seq<Code>, v: CheckStatus): set<Code> {
    set c | c in codes && c in latest && latest[c] == v
  }

  lemma VotersCons(latest: map<Code, CheckStatus>, codes: seq<Code>, v: CheckStatus)
    requires Distinct(codes) && codes != []
    ensures var mine := codes[0] in latest && latest[codes[0]] == v;
            |Voters(latest, codes, v)| == (if mine then 1 else 0) + |Voters(latest, codes[1..], v)|
  {
    var c, rest := codes[0], codes[1..];
    assert forall x :: x in codes <==> x == c || x in rest;
    assert c !in rest;
    if c in latest && latest[c] == v {
      assert Voters(latest, codes, v) == Voters(latest, rest, v) + {c};
    } else {
      assert Voters(latest, codes, v) == Voters(latest, rest, v);
    }
  }

  lemma {:induction false} VotesCountVoters(latest: map<Code, CheckStatus>, codes: seq<Code>)
    requires Distinct(codes)
    ensures CountDown(Votes(latest, codes)) == |Voters(latest, codes, Down)|
    ensures |Votes(latest, codes)| - CountDown(Votes(latest, codes)) == |Voters(latest, codes, Up)|
  {
    if codes == [] {
      assert Voters(latest, codes, Down) == {} == Voters(latest, codes, Up);
    } else {
      VotesCountVoters(latest, codes[1..]);
      VotersCons(latest, codes, Down);
      VotersCons(latest, codes, Up);
      var own := if codes[0] in latest then [latest[codes[0]]] else [];
      CountDownAppend(own, Votes(latest, codes[1..]));
    }
  }

  lemma {:induction false} CountDownAppend(a: seq<CheckStatus>, b: seq<CheckStatus>)
    ensures CountDown(a + b) == CountDown(a) + CountDown(b)
  {
    if a == [] {
      assert a + b == b;
    } else {
      CountDownAppend(a[1..], b);
      assert (a + b)[1..] == a[1..] + b;
    }
  }

  /** A verdict is a strict majority of all voting regions, silent ones included in the base. */
  lemma ConsensusIsStrictMajority(latest: map<Code, CheckStatus>, codes: seq<Code>)
    requires Distinct(codes)
    ensures var t := Consensus(latest, codes);
            && (t.verdict == VerdictDown <==> |codes| < 2 * |Voters(latest, codes, Down)|)
            && (t.verdict == VerdictUp <==> |codes| < 2 * |Voters(latest, codes, Up)|)
            && t.down == |Voters(latest, codes, Down)|
            && t.reported == |Voters(latest, codes, Down)| + |Voters(latest, codes, Up)|
  {
    VotesCountVoters(latest, codes);
    VotersBounded(latest, codes);
    if codes == [] {
      assert Voters(latest, codes, Down) == {} == Voters(latest, codes, Up);
    }
  }

  /** The votes needed, as reported: one less is no strict majority of the list. */
  lemma NeedIsLeastMajority(latest: map<Code, CheckStatus>, codes: seq<Code>)
    ensures 2 * (Consensus(latest, codes).need - 1) <= |codes| < 2 * Consensus(latest, codes).need
  {
  }

  lemma VotersBounded(latest: map<Code, CheckStatus>, codes: seq<Code>)
    requires Distinct(codes)
    ensures |Voters(latest, codes, Down)| + |Voters(latest, codes, Up)| <= |codes|
  {
    var d, u := Voters(latest, codes, Down), Voters(latest, codes, Up);
    assert d !! u;
    assert |d + u| == |d| + |u|;
    SubsetSize(d + u, Elements(codes));
    ElementsOfDistinct(codes);
  }

  /** Regions outside the voting list, shadow regions included, never change the tally. */
  lemma {:induction false} ShadowRegionsNeverCount(
    latest: map<Code, CheckStatus>, latest': map<Code, CheckStatus>, codes: seq<Code>)
    requires forall c :: c in codes ==> (c in latest <==> c in latest')
    requires forall c :: c in codes && c in latest ==> latest[c] == latest'[c]
    ensures Consensus(latest, codes) == Consensus(latest', codes)
  {
    SameVotes(latest, latest', codes);
  }

  lemma {:induction false} SameVotes(
    latest: map<Code, CheckStatus>, latest': map<Code, CheckStatus>, codes: seq<Code>)
    requires forall c :: c in codes ==> (c in latest <==> c in latest')
    requires forall c :: c in codes && c in latest ==> latest[c] == latest'[c]
    ensures Votes(latest, codes) == Votes(latest', codes)
  {
    if codes != [] {
      SameVotes(latest, latest', codes[1..]);
    }
  }

  /** Once a partial set of votes yields a verdict, no later first vote of a silent region changes it. */
  lemma VerdictStableUnderMoreVotes(
    latest: map<Code, CheckStatus>, more: map<Code, CheckStatus>, codes: seq<Code>)
    requires Distinct(codes)
    requires forall c :: c in latest ==> c in more && more[c] == latest[c]
    requires Consensus(latest, codes).verdict != Incomplete
    ensures Consensus(more, codes).verdict == Consensus(latest, codes).verdict
  {
    ConsensusIsStrictMajority(latest, codes);
    ConsensusIsStrictMajority(more, codes);
    SubsetSize(Voters(latest, codes, Down), Voters(more, codes, Down));
    SubsetSize(Voters(latest, codes, Up), Voters(more, codes, Up));
  }

  /** With every voting region reporting, the verdict is missing exactly on an even split (or with no voters). */
  lemma FullReportIncompleteIffTie(latest: map<Code, CheckStatus>, codes: seq<Code>)
    requires Distinct(codes)
    requires forall c :: c in codes ==> c in latest
    ensures Consensus(latest, codes).verdict == Incomplete
            <==> |codes| == 2 * |Voters(latest, codes, Down)|
    ensures |codes| % 2 == 1 ==> Consensus(latest, codes).verdict != Incomplete
  {
    ConsensusIsStrictMajority(latest, codes);
    VotersBounded(latest, codes);
    var d, u := Voters(latest, codes, Down), Voters(latest, codes, Up);
    forall c | c in codes ensures c in d + u {
      assert latest[c] == Down || latest[c] == Up;
    }
    assert d + u == Elements(codes);
    assert d !! u;
    ElementsOfDistinct(codes);
    assert |d + u| == |d| + |u|;
  }

  /** Two majorities of one voting list share a region: a reversal needs a region that changed its mind. */
  lemma ReversalNeedsAChangedVote(
    before: map<Code, CheckStatus>, after: map<Code, CheckStatus>, codes: seq<Code>)
    returns (c: Code)
    requires Distinct(codes)
    requires Consensus(before, codes).verdict == VerdictDown
    requires Consensus(after, codes).verdict == VerdictUp
    ensures c in codes && c in before && c in after
    ensures before[c] == Down && after[c] == Up
  {
    ConsensusIsStrictMajority(before, codes);
    ConsensusIsStrictMajority(after, codes);
    var d, u := Voters(before, codes, Down), Voters(after, codes, Up);
    if d !! u {
      assert |d + u| == |d| + |u|;
      SubsetSize(d + u, Elements(codes));
      ElementsOfDistinct(codes);
      assert false;
    }
    c :| c in d && c in u;
  }
}
