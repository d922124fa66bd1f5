/** When Wireless Paxos agrees: only proposers that can get to start a ballot count.

    An initiator that proposes sends its own ballot in the first slot, and every
    packet after that carries a ballot at least as high; a proposer with a lower
    index loses on the first packet it hears and waits.
 */
module PaxosAgreement {
  import opened Paxos
  import opened PaxosSteps
  import opened PaxosSafety
  import opened PaxosOrder
  import opened PaxosQuorum
  import B = PaxosBallots

  /** The proposers that can start a ballot before a loser's wait is over. */
  predicate Contends(u: Setup, i: nat)
    requires u.initiator < |u.roles| && i < |u.roles|
  {
    u.roles[i].Proposes? && (u.roles[u.initiator].Proposes? ==> u.initiator <= i)
  }

  ghost predicate ContendersAlike(u: Setup)
    requires u.initiator < |u.roles|
  {
    forall i, j :: 0 <= i < |u.roles| && 0 <= j < |u.roles| && Contends(u, i) && Contends(u, j) ==> u.roles[i] == u.roles[j]
  }

  // ------------------------------------------------------------------
  // What a node keeps under a proposing initiator
  // ------------------------------------------------------------------

  /** A node that has heard nothing yet. */
  predicate Untouched(n: Node)
  {
    && n.tx.ballot == 0 && n.tx.phase == INIT && n.tx.proposal == 0
    && n.acceptor == Acceptor(0, 0, 0) && n.rx == Heard(0, 0, 0) && !n.learner.chosen
    && n.proposer.phase == INIT && n.proposer.loserTimeout == 0 && !n.proposer.gotMajority
  }

  /** Such a node cannot send. */
  predicate Mute(n: Node)
  {
    !n.radio.synced && (n.radio.state == Listen || n.radio.state == Off)
  }

  predicate PacketAbove(floor: nat, p: Packet)
  {
    p.ballot >= floor && p.phase != INIT
  }

  /** A loser whose wait is not over. */
  ghost predicate LostBelow(n: Node, k: nat)
  {
    n.proposer.loserTimeout > 0 && n.proposer.loserTimeout + k > n.wait
  }

  /** A node after `k` slots, when the initiator is `first` and proposes `v`. */
  ghost predicate Follows(n: Node, first: nat, v: nat, k: nat)
  {
    && first < 256 && n.me < 256 && Passes({v}, n)
    && (n.proposer.active ==> n.proposer.ballot % 256 == n.me && n.proposer.ballot >= 256)
    && (n.proposer.active && n.me >= first ==> n.proposer.value == v)
    && (Untouched(n) || (PacketAbove(Ballot(1, first), n.tx)
                     && (n.proposer.active && n.me < first ==> LostForGood(n) || LostBelow(n, k))))
    && (n.proposer.active && Untouched(n) ==> n.proposer.ballot == Ballot(1, n.me))
  }

  lemma BallotOrder(b: nat, me: nat, first: nat)
    requires me < 256 && first < 256
    ensures me < first ==> Ballot(1, me) < Ballot(1, first)
    ensures b % 256 == me && b >= 256 && me >= first ==> b >= Ballot(1, first)
    ensures NextBallot(b) % 256 == b % 256
  {
  }

  /** A node that hears a packet above the floor. */
  lemma PacketFollows(n: Node, heard: Packet, own: bool, keep: bool, first: nat, v: nat, k: nat)
    requires Follows(n, first, v, k)
    requires own ==> !Untouched(n)
    requires !own ==> PacketAbove(Ballot(1, first), heard) && PacketCarries({v}, heard)
    requires B.Numbered(n, k) && B.Unwrapped(n.wait, k) && B.Settled(n, k) && NoneAgain(n.wait, k + 1)
    requires !own && n.wait == 0 ==> PacketOrdered(heard)
    ensures var r := OnPacket(n, heard, own, keep);
            && Passes({v}, r.(tx := n.tx))
            && (Quiet(n.wait, k) ==> Follows(r, first, v, k + 1) && PacketAbove(Ballot(1, first), r.tx))
  {
    var p, a := Payload(n, heard, own), AcceptorStep(n, heard, own, keep);
    var q, r := Payload(a, heard, own), OnPacket(n, heard, own, keep);
    AcceptorPasses(n, heard, own, keep, {v});
    AcceptorDoes(n, heard, own, keep);
    ProposerDoes(a, heard, own);
    assert r == ProposerStep(a, heard, own);
    if n.wait == 0 { PacketKeepsOrder(n, heard, own, keep, k); }
    hide Ordered;
    B.NumberKept(n, p, a, q, r, Classify(a, q), k);
    assert q.ballot == p.ballot && PacketAbove(Ballot(1, first), a.tx);
    MoveFollows(n, p, a, q, r, Classify(a, q), first, v, k);
  }

  lemma MoveFollows(n: Node, p: Packet, a: Node, q: Packet, r: Node, m: Move, first: nat, v: nat, k: nat)
    requires Follows(n, first, v, k) && NoneAgain(n.wait, k + 1) && a.proposer == n.proposer && a.me == n.me && a.wait == n.wait
    requires Passes({v}, a) && PacketAbove(Ballot(1, first), a.tx) && q.ballot >= Ballot(1, first)
    requires Moves(a, q, r, m) && B.Numbered(n, k) && B.Numbered(r, k + 1) && B.Settled(n, k) && B.Settled(r, k + 1)
    ensures Passes({v}, r.(tx := n.tx)) && r.learner == a.learner
    ensures Quiet(n.wait, k) ==> Follows(r, first, v, k + 1) && PacketAbove(Ballot(1, first), r.tx)
  {
    BallotOrder(n.proposer.ballot, n.me, first);
    BallotOrder(r.proposer.ballot, n.me, first);
    FirstBallots(n.me);
    hide Ballot, NextBallot, Bounded;
  }

  // ------------------------------------------------------------------
  // Slots and rounds
  // ------------------------------------------------------------------

  ghost predicate AllFollow(s: Network, first: nat, v: nat, k: nat)
  {
    forall i :: 0 <= i < |s| ==> Follows(s[i], first, v, k) && (Untouched(s[i]) ==> Mute(s[i]))
  }

  predicate Learned(n: Node, v: nat)
  {
    n.learner.chosen ==> n.learner.value == v
  }

  ghost predicate AllLearned(s: Network, v: nat)
  {
    forall i :: 0 <= i < |s| ==> Learned(s[i], v)
  }

  lemma SenderIsAbove(n: Node, first: nat, v: nat, k: nat)
    requires Follows(n, first, v, k) && (Untouched(n) ==> Mute(n)) && n.radio.state == Send
    ensures !Untouched(n) && PacketAbove(Ballot(1, first), n.tx) && PacketCarries({v}, n.tx)
  {
  }

  lemma MuteStays(s: Network, c: seq<Choice>, i: nat)
    requires Allowed(s, c) && i < |s| && Mute(s[i]) && !c[i].event.Hears?
    ensures Mute(Next(s, c, i))
  {
    assert Possible(s, c, i);
  }

  lemma FollowsMore(n: Node, r: Node, first: nat, v: nat, k: nat, j: nat)
    requires Follows(n, first, v, k) && SameState(n, r) && k <= j
    ensures Follows(r, first, v, j) && (Untouched(r) <==> Untouched(n))
  {
  }

  lemma NumberedMore(n: Node, r: Node, k: nat)
    requires B.Numbered(n, k) && B.Settled(n, k) && SameState(n, r)
    ensures B.Numbered(r, k) && B.Settled(r, k)
  {
    if n.wait == 0 { OrderedLater(n, r, k, k); }
    hide Ordered;
  }

  lemma SenderIsOrdered(n: Node, k: nat)
    requires B.Settled(n, k)
    ensures n.wait == 0 ==> PacketOrdered(n.tx)
  {
  }

  lemma NodeFollows(s: Network, c: seq<Choice>, first: nat, v: nat, wait: nat, k: nat, i: nat)
    requires AllFollow(s, first, v, k) && Allowed(s, c) && i < |s| && NoneAgain(wait, k + 1) && B.Unwrapped(wait, k)
    requires forall j :: 0 <= j < |s| ==> s[j].wait == wait && B.Numbered(s[j], k) && B.Settled(s[j], k)
    ensures var r := Next(s, c, i);
            Learned(r, v) && (Quiet(wait, k) ==> Follows(r, first, v, k + 1) && (Untouched(r) ==> Mute(r)))
  {
    hide Passes, B.Numbered, B.Unwrapped, Follows, Next, OnPacket, Ballot, Quiet, NoneAgain, B.Settled;
    var n, e, r := s[i], c[i].event, Next(s, c, i);
    var own := n.radio.state == Send;
    assert Follows(n, first, v, k) && Possible(s, c, i);
    var heard := if e.Hears? then s[e.from].tx else NO_PACKET;
    B.NextIs(s, c, i);
    if Processes(n, e.Hears? || e.Sends?) {
      if e.Hears? {
        SenderIsAbove(s[e.from], first, v, k);
        SenderIsOrdered(s[e.from], k);
      } else { SenderIsAbove(n, first, v, k); }
      var w := Woken(n);
      FollowsMore(n, w, first, v, k, k);
      NumberedMore(n, w, k);
      var x := OnPacket(w, heard, own, c[i].keep);
      PacketFollows(w, heard, own, c[i].keep, first, v, k);
      PassesLearned(x.(tx := w.tx), v);
      if Quiet(wait, k) { FollowsMore(x, r, first, v, k + 1, k + 1); }
    } else {
      if Untouched(n) { MuteStays(s, c, i); }
      FollowsMore(n, r, first, v, k, k + 1);
      FollowsLearned(r, first, v, k + 1);
    }
  }

  lemma PassesLearned(n: Node, v: nat)
    requires Passes({v}, n)
    ensures Learned(n, v)
  {
  }

  lemma FollowsLearned(n: Node, first: nat, v: nat, k: nat)
    requires Follows(n, first, v, k)
    ensures Learned(n, v)
  {
  }

  lemma FreshFollows(u: Setup, v: nat)
    requires ValidSetup(u) && u.roles[u.initiator] == Proposes(v) && ContendersAlike(u)
    ensures AllFollow(Begin(u), u.initiator, v, 0)
  {
    var s := Begin(u);
    forall i | 0 <= i < |s|
      ensures Follows(s[i], u.initiator, v, 0) && (Untouched(s[i]) ==> Mute(s[i]))
    {
      assert s[i] == Fresh(i, |u.roles|, WaitOf(u.slots), u.roles[i], i == u.initiator, u.thresholds[i]);
      assert Contends(u, u.initiator);
      if Contends(u, i) { assert u.roles[i] == u.roles[u.initiator]; }
    }
  }

  lemma {:induction false} RoundFollows(u: Setup, run: seq<Network>, choices: seq<seq<Choice>>, v: nat, k: nat)
    requires IsRound(u, run, choices) && k < |run| && (k > 0 ==> Quiet(WaitOf(u.slots), k - 1))
    requires u.roles[u.initiator] == Proposes(v) && ContendersAlike(u)
    ensures AllFollow(run[k], u.initiator, v, k)
  {
    if k == 0 {
      FreshFollows(u, v);
    } else {
      RoundFollows(u, run, choices, v, k - 1);
      SlotFollows(u, run, choices, v, k - 1);
    }
  }

  lemma SlotFollows(u: Setup, run: seq<Network>, choices: seq<seq<Choice>>, v: nat, k: nat)
    requires IsRound(u, run, choices) && k + 1 < |run| && NoneAgain(WaitOf(u.slots), k + 1)
    requires AllFollow(run[k], u.initiator, v, k)
    ensures AllLearned(run[k + 1], v)
    ensures Quiet(WaitOf(u.slots), k) ==> AllFollow(run[k + 1], u.initiator, v, k + 1)
  {
    var s, c, r, wait := run[k], choices[k], run[k + 1], WaitOf(u.slots);
    QuietBefore(wait, k + 1);
    if k > 0 { QuietBefore(wait, k); }
    B.RoundHolds(u, run, choices, k);
    assert Allowed(s, c);
    assert forall j :: 0 <= j < |s| ==> s[j].wait == wait && B.Keeps(s[j], k, B.OpeningsUpTo(run, k));
    forall i | 0 <= i < |s|
      ensures Learned(r[i], v)
      ensures Quiet(wait, k) ==> Follows(r[i], u.initiator, v, k + 1) && (Untouched(r[i]) ==> Mute(r[i]))
    {
      assert r[i] == Next(s, c, i);
      hide IsRound, Follows;
      NodeFollows(s, c, u.initiator, v, wait, k, i);
    }
  }

  /** Agreement: whenever the proposers that can start a ballot were given the same
      value, as long as no loser has tried again and, if a follower initiates, in every
      round at all. In particular if the proposer with the highest index initiates. */
  lemma ContendersAgree(u: Setup, run: seq<Network>, choices: seq<seq<Choice>>)
    requires IsRound(u, run, choices) && ContendersAlike(u)
    requires u.roles[u.initiator].Proposes? ==> NoneAgain(WaitOf(u.slots), |choices|)
    ensures Agrees(run)
  {
    if u.roles[u.initiator].Proposes? {
      var v := u.roles[u.initiator].value;
      forall k | 0 <= k < |run|
        ensures AllLearned(run[k], v)
      {
        if k == 0 {
          FreshFollows(u, v);
          forall i | 0 <= i < |run[0]|
            ensures Learned(run[0][i], v)
          {
            FollowsLearned(run[0][i], u.initiator, v, 0);
          }
        } else {
          QuietBefore(WaitOf(u.slots), k);
          RoundFollows(u, run, choices, v, k - 1);
          SlotFollows(u, run, choices, v, k - 1);
        }
      }
    } else {
      assert Alike(u) by {
        forall i, j | 0 <= i < |u.roles| && 0 <= j < |u.roles| && u.roles[i].Proposes? && u.roles[j].Proposes?
          ensures u.roles[i] == u.roles[j]
        {
          assert Contends(u, i) && Contends(u, j);
        }
      }
      AlikeAgree(u, run, choices);
    }
  }
}
