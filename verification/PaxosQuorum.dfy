/** The quorum behind every learned value: until a loser of Wireless Paxos may try
    again, a value is learned only after a majority of the nodes accepted it under
    one ballot.
 */
module PaxosQuorum {
  import opened Paxos
  import opened PaxosSteps
  import opened PaxosSafety
  import opened PaxosOrder
  import B = PaxosBallots

  type Opening = B.Opening

  /** Node `node` accepted `value` under `ballot`. */
  datatype Vote = Vote(node: nat, ballot: nat, value: nat)

  ghost predicate Voted(votes: set<Vote>, q: set<nat>, b: nat, v: nat)
  {
    forall f :: f in q ==> Vote(f, b, v) in votes
  }

  ghost predicate Chosen(votes: set<Vote>, count: nat, v: nat)
  {
    exists q: set<nat>, b: nat :: Voted(votes, q, b, v) && b > 0 && |q| > count / 2
  }

  // ------------------------------------------------------------------
  // What a node keeps
  // ------------------------------------------------------------------

  /** Each flag of an ACCEPT packet is a vote, except the flag that a proposer sets for
      itself before sending for the first time. */
  ghost predicate Backed(votes: set<Vote>, holder: nat, p: Packet)
  {
    p.phase == ACCEPT ==>
      forall f :: f in p.flags ==> Vote(f, p.ballot, p.value) in votes || (f == holder && p.ballot % 256 == holder)
  }

  ghost predicate FullyBacked(votes: set<Vote>, p: Packet)
  {
    p.phase == ACCEPT ==> Voted(votes, p.flags, p.ballot, p.value)
  }

  ghost predicate Learns(n: Node, votes: set<Vote>)
  {
    n.learner.chosen ==> Chosen(votes, n.count, n.learner.value)
  }

  ghost predicate Sound(n: Node, votes: set<Vote>)
  {
    Backed(votes, n.me, n.tx) && Learns(n, votes)
  }

  function VoteOf(n: Node): Vote
  {
    Vote(n.me, n.acceptor.acceptedProposal, n.acceptor.acceptedValue)
  }

  // ------------------------------------------------------------------
  // One packet
  // ------------------------------------------------------------------

  lemma AcceptorKeepsVotes(n: Node, p: Packet, a: Node, openings: set<Opening>, votes: set<Vote>)
    requires Bounded(n) && Sound(n, votes) && B.Issued(n, openings) && B.OneValue(openings)
    requires p == n.tx || (FullyBacked(votes, p) && B.PacketIssued(openings, p))
    requires AcceptorEffect(n, p, a) && VoteOf(a) in votes
    ensures Sound(a, votes)
  {
    if IsCurrent(n, p) && p.phase == ACCEPT {
      assert VoteOf(a) == Vote(n.me, p.ballot, p.value);
      assert B.Opening(p.ballot, p.value) in openings && p.ballot > 0;
      if !IsNewPhase(n, p) {
        assert B.Opening(n.tx.ballot, n.tx.value) in openings;
      }
      assert a.tx.value == p.value;
      assert Voted(votes, Merged(n, p), p.ballot, p.value);
      assert Voted(votes, a.tx.flags, p.ballot, p.value);
    }
  }

  lemma ProposerKeepsVotes(n: Node, p: Packet, r: Node, m: Move, k: nat, votes: set<Vote>)
    requires Sound(n, votes) && Moves(n, p, r, m) && (m == Retry ==> n.proposer.phase == PREPARE)
    requires n.proposer.active ==> n.proposer.ballot % 256 == n.me
    ensures Sound(r, votes)
  {
    hide NextBallot, Voted, Chosen;
  }

  lemma HeartbeatKeeps(n: Node, p: Packet, votes: set<Vote>)
    requires Sound(n, votes) && p.phase == INIT && n.acceptor.minProposal == 0
    ensures Sound(OnHeartbeat(n, p), votes)
  {
    hide Ballot, Voted, Chosen;
  }

  /** In any slot up to the first in which a loser tries again: what is learned is chosen. */
  lemma PacketLearns(n: Node, heard: Packet, own: bool, keep: bool, k: nat, openings: set<Opening>, votes: set<Vote>)
    requires Ordered(n, k) && Sound(n, votes) && B.Keeps(n, k, openings) && B.OneValue(openings)
    requires own || (FullyBacked(votes, heard) && B.PacketIssued(openings, heard) && PacketOrdered(heard))
    requires VoteOf(OnPacket(n, heard, own, keep)) in votes
    ensures var r := OnPacket(n, heard, own, keep);
            Learns(r, votes) && (Quiet(n.wait, k) ==> Ordered(r, k + 1) && Sound(r, votes))
  {
    var p, r := Payload(n, heard, own), OnPacket(n, heard, own, keep);
    if Quiet(n.wait, k) { PacketKeepsOrder(n, heard, own, keep, k); }
    if p.phase == INIT && n.acceptor.minProposal == 0 {
      HeartbeatKeeps(n, p, votes);
      hide OnHeartbeat, AcceptorStep, ProposerStep, Ordered, Backed, Chosen;
    } else {
      var a := AcceptorStep(n, heard, own, keep);
      var q := Payload(a, heard, own);
      var m := Classify(a, q);
      AcceptorDoes(n, heard, own, keep);
      AcceptorBounded(n, heard, own, keep);
      ProposerDoes(a, heard, own);
      assert r == ProposerStep(a, heard, own) && q.ballot == p.ballot;
      hide OnPacket, AcceptorStep, ProposerStep, Classify;
      PartsKeep(n, p, a, q, r, m, k, openings, votes);
    }
  }

  lemma PartsKeep(n: Node, p: Packet, a: Node, q: Packet, r: Node, m: Move, k: nat, openings: set<Opening>, votes: set<Vote>)
    requires Ordered(n, k) && Sound(n, votes) && B.Keeps(n, k, openings) && B.OneValue(openings)
    requires p == n.tx || (FullyBacked(votes, p) && B.PacketIssued(openings, p))
    requires AcceptorEffect(n, p, a) && Bounded(a) && PacketOrdered(p) && VoteOf(r) in votes
    requires Moves(a, q, r, m) && m == Classify(a, q) && q.ballot == p.ballot
    ensures Learns(r, votes) && (Quiet(n.wait, k) ==> Sound(r, votes))
  {
    assert VoteOf(a) == VoteOf(r);
    AcceptorKeepsVotes(n, p, a, openings, votes);
    assert a.proposer == n.proposer && r.learner == a.learner;
    if Quiet(n.wait, k) { PartsOrdered(n, p, a, q, r, m, k); }
    ProposerKeepsVotes(a, q, r, m, k, votes);
  }

  /** A proposer that sends the packet it opened accepts it in the same slot. */
  lemma SenderVotes(n: Node, heard: Packet, keep: bool, k: nat, openings: set<Opening>)
    requires Ordered(n, k) && B.Keeps(n, k, openings) && n.tx.phase == ACCEPT && n.tx.ballot % 256 == n.me
    ensures n.proposer.active
    ensures VoteOf(OnPacket(n, heard, true, keep)) == Vote(n.me, n.tx.ballot, n.tx.value)
  {
    assert B.Opening(n.tx.ballot, n.tx.value) in openings;
    AcceptorDoes(n, heard, true, keep);
    var a := AcceptorStep(n, heard, true, keep);
    ProposerDoes(a, heard, true);
    hide AcceptorStep, ProposerStep, Classify, Merged;
  }

  // ------------------------------------------------------------------
  // One slot of the network
  // ------------------------------------------------------------------

  ghost function VotesOf(s: Network): set<Vote>
  {
    set i | 0 <= i < |s| :: VoteOf(s[i])
  }

  /** What `k` slots leave true of the network. */
  ghost predicate Holds(s: Network, wait: nat, k: nat, openings: set<Opening>, votes: set<Vote>)
  {
    && B.Holds(s, wait, k, openings)
    && forall i :: 0 <= i < |s| ==> Ordered(s[i], k) && Sound(s[i], votes)
  }

  lemma ChosenMore(votes: set<Vote>, more: set<Vote>, count: nat, v: nat)
    requires Chosen(votes, count, v) && votes <= more
    ensures Chosen(more, count, v)
  {
    var q: set<nat>, b: nat :| Voted(votes, q, b, v) && b > 0 && |q| > count / 2;
    assert Voted(more, q, b, v);
  }

  lemma SoundMore(n: Node, r: Node, k: nat, j: nat, votes: set<Vote>, more: set<Vote>)
    requires Ordered(n, k) && Sound(n, votes) && SameState(n, r) && k <= j && votes <= more
    ensures Ordered(r, j) && Sound(r, more)
  {
    OrderedLater(n, r, k, j);
    if n.learner.chosen { ChosenMore(votes, more, n.count, n.learner.value); }
    hide Ballot, Chosen;
  }

  /** A packet heard is backed by the votes cast by the end of the slot. */
  lemma HeardIsBacked(s: Network, c: seq<Choice>, wait: nat, k: nat, j: nat, openings: set<Opening>, votes: set<Vote>, after: set<Vote>)
    requires Holds(s, wait, k, openings, votes) && Allowed(s, c) && j < |s|
    requires s[j].radio.state == Send && c[j].event == Sends
    requires votes <= after && VoteOf(Next(s, c, j)) in after
    ensures FullyBacked(after, s[j].tx) && B.PacketIssued(openings, s[j].tx) && PacketOrdered(s[j].tx)
  {
    var n, p := s[j], s[j].tx;
    assert Ordered(n, k) && Sound(n, votes) && B.Keeps(n, k, openings);
    if p.phase == ACCEPT && p.ballot % 256 == j {
      B.NextIs(s, c, j);
      SoundMore(n, Woken(n), k, k, votes, votes);
      B.KeepsMore(n, Woken(n), k, k, openings);
      SenderVotes(Woken(n), NO_PACKET, c[j].keep, k, openings);
      hide OnPacket, Next, Ordered, Learns;
      assert VoteOf(Next(s, c, j)) == Vote(j, p.ballot, p.value);
    }
    assert Backed(votes, j, p);
  }

  lemma NodeKeeps(s: Network, c: seq<Choice>, wait: nat, k: nat, i: nat, openings: set<Opening>, votes: set<Vote>, after: set<Vote>)
    requires Holds(s, wait, k, openings, votes) && Allowed(s, c) && i < |s|
    requires votes <= after && forall j :: 0 <= j < |s| ==> VoteOf(Next(s, c, j)) in after
    ensures var r := Next(s, c, i);
            Learns(r, after) && (Quiet(wait, k) ==> Ordered(r, k + 1) && Sound(r, after))
  {
    var n, e, r := s[i], c[i].event, Next(s, c, i);
    var own := n.radio.state == Send;
    assert Ordered(n, k) && Sound(n, votes) && B.Keeps(n, k, openings) && Possible(s, c, i);
    var heard := if e.Hears? then s[e.from].tx else NO_PACKET;
    B.NextIs(s, c, i);
    if Processes(n, e.Hears? || e.Sends?) {
      if !own { HeardIsBacked(s, c, wait, k, e.from, openings, votes, after); }
      var w := Woken(n);
      SoundMore(n, w, k, k, votes, after);
      B.KeepsMore(n, w, k, k, openings);
      var x := OnPacket(w, heard, own, c[i].keep);
      hide OnPacket, Next, Ordered, Backed, Chosen, FullyBacked;
      assert VoteOf(x) == VoteOf(r);
      PacketLearns(w, heard, own, c[i].keep, k, openings, after);
      if Quiet(wait, k) { SoundMore(x, r, k + 1, k + 1, after, after); }
    } else {
      hide OnPacket, Next, Ordered, Backed, Chosen;
      SoundMore(n, r, k, k + 1, votes, after);
    }
  }

  lemma SlotHolds(s: Network, c: seq<Choice>, wait: nat, k: nat, openings: set<Opening>, votes: set<Vote>)
    requires Holds(s, wait, k, openings, votes) && Allowed(s, c)
    ensures var r := Slot(s, c);
            && (forall i :: 0 <= i < |s| ==> Learns(r[i], votes + VotesOf(r)))
            && (Quiet(wait, k) && B.Unwrapped(wait, k) ==> Holds(r, wait, k + 1, openings + B.OpeningsOf(r), votes + VotesOf(r)))
  {
    hide Next, Ordered, Sound, Learns, B.Unwrapped, Quiet, B.Holds;
    var r := Slot(s, c);
    var after := votes + VotesOf(r);
    assert |r| == |s|;
    forall i | 0 <= i < |s|
      ensures VoteOf(Next(s, c, i)) in after
    {
      assert r[i] == Next(s, c, i);
    }
    forall i | 0 <= i < |s|
      ensures Learns(r[i], after) && (Quiet(wait, k) ==> Ordered(r[i], k + 1) && Sound(r[i], after))
    {
      assert r[i] == Next(s, c, i);
      NodeKeeps(s, c, wait, k, i, openings, votes, after);
    }
    if Quiet(wait, k) && B.Unwrapped(wait, k) { B.SlotHolds(s, c, wait, k, openings); }
  }

  // ------------------------------------------------------------------
  // Whole rounds
  // ------------------------------------------------------------------

  ghost function VotesUpTo(run: seq<Network>, k: nat): set<Vote>
    requires k < |run|
  {
    if k == 0 then {} else VotesUpTo(run, k - 1) + VotesOf(run[k])
  }

  lemma FreshHolds(u: Setup)
    requires ValidSetup(u)
    ensures Holds(Begin(u), WaitOf(u.slots), 0, {}, {})
  {
    B.FreshHolds(u);
    var s := Begin(u);
    forall i | 0 <= i < |s|
      ensures Ordered(s[i], 0) && Sound(s[i], {})
    {
      assert s[i] == Fresh(i, |u.roles|, WaitOf(u.slots), u.roles[i], i == u.initiator, u.thresholds[i]);
    }
  }

  lemma {:induction false} RoundHolds(u: Setup, run: seq<Network>, choices: seq<seq<Choice>>, k: nat)
    requires IsRound(u, run, choices) && k < |run| && (k > 0 ==> Quiet(WaitOf(u.slots), k - 1))
    ensures Holds(run[k], WaitOf(u.slots), k, B.OpeningsUpTo(run, k), VotesUpTo(run, k))
  {
    if k == 0 {
      FreshHolds(u);
    } else {
      RoundHolds(u, run, choices, k - 1);
      hide Holds;
      assert Allowed(run[k - 1], choices[k - 1]);
      SlotHolds(run[k - 1], choices[k - 1], WaitOf(u.slots), k - 1, B.OpeningsUpTo(run, k - 1), VotesUpTo(run, k - 1));
    }
  }

  /** Node `i` has accepted `v` under ballot `b` at some point up to network `k`. */
  ghost predicate AcceptedBy(run: seq<Network>, k: nat, i: nat, b: nat, v: nat)
  {
    exists m :: 0 <= m <= k && m < |run| && i < |run[m]| && VoteOf(run[m][i]) == Vote(i, b, v)
  }

  predicate Majority(q: set<nat>, count: nat)
  {
    |q| > count / 2 && forall f :: f in q ==> f < count
  }

  ghost predicate AllAccepted(run: seq<Network>, k: nat, q: set<nat>, b: nat, v: nat)
  {
    forall f :: f in q ==> AcceptedBy(run, k, f, b, v)
  }

  /** What `LearnedIsChosen` promises of a learned value. */
  ghost predicate ChosenIn(run: seq<Network>, k: nat, count: nat, v: nat)
  {
    exists q: set<nat>, b: nat :: AllAccepted(run, k, q, b, v) && Majority(q, count) && b > 0
  }

  lemma FreshIsQuiet(u: Setup)
    requires ValidSetup(u)
    ensures forall i :: 0 <= i < |u.roles| ==> !Begin(u)[i].learner.chosen && Begin(u)[i].acceptor.acceptedProposal == 0
  {
  }

  /** In the first `k` slots no loser has tried again, unless in the last of them. */
  predicate NoneAgain(wait: nat, k: nat)
  {
    wait == 0 || k <= wait + 1
  }

  /** Builds whose losers never try again: they wait for the rest of the round, or not at
      all. */
  predicate NeverAgain(slots: nat)
  {
    slots <= 256 || slots % 256 == 1
  }

  lemma WholeRound(u: Setup, run: seq<Network>, choices: seq<seq<Choice>>, k: nat)
    requires IsRound(u, run, choices) && k < |run| && NeverAgain(u.slots)
    ensures NoneAgain(WaitOf(u.slots), k)
  {
  }

  lemma QuietBefore(wait: nat, k: nat)
    requires NoneAgain(wait, k) && k > 0
    ensures k > 1 ==> Quiet(wait, k - 2)
    ensures wait < 256 ==> B.Unwrapped(wait, k - 1)
  {
  }

  lemma RoundLearns(u: Setup, run: seq<Network>, choices: seq<seq<Choice>>, k: nat)
    requires IsRound(u, run, choices) && k < |run| && k > 0 && NoneAgain(WaitOf(u.slots), k)
    ensures |run[k]| == |u.roles| && B.Placed(run[k], WaitOf(u.slots))
    ensures forall i :: 0 <= i < |run[k]| ==> Learns(run[k][i], VotesUpTo(run, k))
  {
    QuietBefore(WaitOf(u.slots), k);
    RoundHolds(u, run, choices, k - 1);
    B.RoundPlaced(u, run, choices, k);
    assert Allowed(run[k - 1], choices[k - 1]);
    hide Learns;
    SlotHolds(run[k - 1], choices[k - 1], WaitOf(u.slots), k - 1, B.OpeningsUpTo(run, k - 1), VotesUpTo(run, k - 1));
  }

  lemma {:induction false} CastInRound(u: Setup, run: seq<Network>, choices: seq<seq<Choice>>, k: nat, v: Vote)
    requires IsRound(u, run, choices) && k < |run| && v in VotesUpTo(run, k)
    ensures v.node < |u.roles| && AcceptedBy(run, k, v.node, v.ballot, v.value)
    decreases k
  {
    B.RoundPlaced(u, run, choices, k);
    if v in VotesOf(run[k]) {
      var i :| 0 <= i < |run[k]| && VoteOf(run[k][i]) == v;
      assert run[k][i].me == i;
    } else {
      CastInRound(u, run, choices, k - 1, v);
      var m :| 0 <= m <= k - 1 && m < |run| && v.node < |run[m]| && VoteOf(run[m][v.node]) == v;
      assert m <= k;
    }
  }

  /** What is learned is chosen, up to one slot after the first losers' wait, and for ever
      if losers do not wait: a learned value was accepted under one ballot by a majority of
      the nodes. */
  lemma LearnedIsChosen(u: Setup, run: seq<Network>, choices: seq<seq<Choice>>, k: nat, i: nat)
    requires IsRound(u, run, choices) && k < |run| && i < |run[k]| && run[k][i].learner.chosen
    requires NoneAgain(WaitOf(u.slots), k)
    ensures ChosenIn(run, k, |u.roles|, run[k][i].learner.value)
  {
    FreshIsQuiet(u);
    if k > 0 {
      RoundLearns(u, run, choices, k);
      var n, v := |u.roles|, run[k][i].learner.value;
      assert run[k][i].count == n && Learns(run[k][i], VotesUpTo(run, k));
      var q: set<nat>, b: nat :| Voted(VotesUpTo(run, k), q, b, v) && b > 0 && |q| > n / 2;
      hide AcceptedBy, VotesUpTo, IsRound, Learns, Chosen;
      forall f | f in q
        ensures f < n && AcceptedBy(run, k, f, b, v)
      {
        CastInRound(u, run, choices, k, Vote(f, b, v));
      }
      assert AllAccepted(run, k, q, b, v) && Majority(q, n);
    }
  }

  /** Agreement fails only between ballots: a round in which all acceptances are
      under one ballot agrees, whatever values the proposers were given. */
  lemma OneBallotAgrees(u: Setup, run: seq<Network>, choices: seq<seq<Choice>>, b: nat)
    requires IsRound(u, run, choices) && NoneAgain(WaitOf(u.slots), |choices|)
    requires forall k, i :: 0 <= k < |run| && 0 <= i < |run[k]| && run[k][i].acceptor.acceptedProposal > 0 ==>
               run[k][i].acceptor.acceptedProposal == b
    ensures Agrees(run)
  {
    assert |run| == |choices| + 1;
    forall k, m, i, j |
      0 <= k < |run| && 0 <= m < |run| && 0 <= i < |run[k]| && 0 <= j < |run[m]|
      && run[k][i].learner.chosen && run[m][j].learner.chosen
      ensures run[k][i].learner.value == run[m][j].learner.value
    {
      hide IsRound;
      var x, f := SomeVoter(u, run, choices, k, i);
      var y, g := SomeVoter(u, run, choices, m, j);
      if x <= y {
        B.OneValuePerBallot(u, run, choices, y, x, g, f);
      } else {
        B.OneValuePerBallot(u, run, choices, x, y, f, g);
      }
    }
  }

  /** When and where a learned value was accepted. */
  lemma SomeVoter(u: Setup, run: seq<Network>, choices: seq<seq<Choice>>, k: nat, i: nat) returns (when: nat, who: nat)
    requires IsRound(u, run, choices) && k < |run| && NoneAgain(WaitOf(u.slots), k) && i < |run[k]| && run[k][i].learner.chosen
    ensures when <= k && who < |run[when]|
    ensures run[when][who].acceptor.acceptedProposal > 0
    ensures run[when][who].acceptor.acceptedValue == run[k][i].learner.value
  {
    hide IsRound;
    LearnedIsChosen(u, run, choices, k, i);
    var v := run[k][i].learner.value;
    var q: set<nat>, b: nat :| AllAccepted(run, k, q, b, v) && Majority(q, |u.roles|) && b > 0;
    assert q != {};
    var f :| f in q;
    assert AcceptedBy(run, k, f, b, v);
    var m :| 0 <= m <= k && m < |run| && f < |run[m]| && VoteOf(run[m][f]) == Vote(f, b, v);
    when, who := m, f;
  }
}
