/** What holds of a node of Wireless Paxos as long as no loser has tried again: its
    promise is the ballot in its buffer, all ballots around are of the first round, and a
    proposer loses only by hearing a higher one. A build in which losers do not wait at
    all is like that for ever: there is no branch left in which they could try again.
 */
module PaxosOrder {
  import opened Paxos
  import opened PaxosSteps

  /** The first number that is not a ballot of the first round. */
  const SECOND: nat := 512

  ghost predicate PacketOrdered(p: Packet)
  {
    p.proposal <= p.ballot < SECOND && p.phase <= ACCEPT && (p.phase == INIT ==> p.ballot == 0)
  }

  /** The promise is the ballot in the buffer, and reports stay at or below it. */
  ghost predicate Bounded(n: Node)
  {
    && PacketOrdered(n.tx) && n.acceptor.minProposal == n.tx.ballot && n.acceptor.acceptedProposal <= n.tx.ballot
    && n.rx.minProposal <= n.tx.ballot && n.rx.acceptedProposal <= n.tx.ballot
  }

  /** A proposer under its first ballot, which is in its buffer once it has started. */
  ghost predicate FirstTry(n: Node)
    requires n.me < 256
  {
    && n.proposer.ballot == Ballot(1, n.me) && n.proposer.loserTimeout == 0
    && (!n.proposer.gotMajority ==>
          if n.proposer.phase == INIT then n.tx.ballot <= n.proposer.ballot else n.tx.ballot == n.proposer.ballot)
  }

  /** A loser that does not wait: it has its next ballot, and nothing that makes it
      announce it. */
  ghost predicate LostForGood(n: Node)
    requires n.me < 256
  {
    n.proposer == Proposer(true, Ballot(2, n.me), n.proposer.value, PREPARE, false, 0) && n.wait == 0
  }

  ghost predicate Waiting(n: Node, k: nat)
    requires n.me < 256
  {
    && n.proposer.ballot == Ballot(2, n.me) && n.proposer.phase == PREPARE && !n.proposer.gotMajority
    && 0 < n.proposer.loserTimeout <= n.wait < n.proposer.loserTimeout + k
  }

  /** How a node's buffer, its promise and its proposer go together after `k` slots. */
  ghost predicate Ordered(n: Node, k: nat)
  {
    n.me < 256 && Bounded(n) && (n.proposer.active ==> FirstTry(n) || LostForGood(n) || Waiting(n, k))
  }

  /** No loser's wait ends in slot `k`. */
  predicate Quiet(wait: nat, k: nat)
  {
    wait == 0 || k < wait
  }

  lemma AcceptorBounded(n: Node, heard: Packet, own: bool, keep: bool)
    requires Bounded(n) && (own || PacketOrdered(heard))
    ensures Bounded(AcceptorStep(n, heard, own, keep))
  {
    var p := Payload(n, heard, own);
    if IsCurrent(n, p) {
      AcceptorUnfold(n, heard, own, keep);
      var t := TakeOver(n, p);
      TakeOverEffect(n, p);
      var o := OnPhase(t, heard, own);
      PhaseBounded(t, heard, own);
      FlagsEffect(o, heard, own, IsNewPhase(n, p), keep);
      hide OnPhase, TakeOver, MergeFlags, LearnAndComplete, AddOwnFlag, AcceptorStep;
    }
  }

  /** After taking over a packet the promise may still be the one before. */
  ghost predicate TakenOver(n: Node, p: Packet)
  {
    && n.tx.ballot == p.ballot && n.tx.phase == p.phase && PacketOrdered(p) && PacketOrdered(n.tx)
    && n.acceptor.minProposal <= n.tx.ballot && n.acceptor.acceptedProposal <= n.acceptor.minProposal
    && n.rx.minProposal <= n.tx.ballot && n.rx.acceptedProposal <= n.tx.ballot
  }

  lemma PrepareBounded(n: Node, heard: Packet, own: bool)
    requires TakenOver(n, Payload(n, heard, own)) && n.tx.phase == PREPARE
    ensures Bounded(OnPrepare(n, heard, own))
  {
  }

  lemma AcceptBounded(n: Node, heard: Packet, own: bool)
    requires TakenOver(n, Payload(n, heard, own)) && n.tx.phase == ACCEPT
    ensures Bounded(OnAccept(n, heard, own))
  {
    var p := Payload(n, heard, own);
    var a := AcceptValue(n, p);
    assert a == n.(acceptor := Acceptor(p.ballot, p.ballot, p.value));
    var m := ReportMin(a, p);
    assert Bounded(m);
  }

  lemma PhaseBounded(n: Node, heard: Packet, own: bool)
    requires TakenOver(n, Payload(n, heard, own))
    ensures Bounded(OnPhase(n, heard, own))
  {
    hide OnPrepare, OnAccept;
    if n.tx.phase == PREPARE {
      PrepareBounded(n, heard, own);
    } else if n.tx.phase == ACCEPT {
      AcceptBounded(n, heard, own);
    }
  }

  /** What a loss is due to. */
  lemma LossReason(n: Node, p: Packet)
    requires Classify(n, p).Lost? || Classify(n, p).LostOpening?
    ensures var b := n.proposer.ballot;
            || n.rx.acceptedProposal > b || n.rx.minProposal > b
            || (Classify(n, p).Lost? && p.ballot > b)
  {
    hide AdoptHeard;
    assert AdoptHeard(n).rx == n.rx && AdoptHeard(n).proposer.ballot == n.proposer.ballot by { AdoptKeeps(n); }
  }

  lemma AdoptKeeps(n: Node)
    ensures AdoptHeard(n).rx == n.rx && AdoptHeard(n).proposer.ballot == n.proposer.ballot
  {
  }

  lemma FirstBallots(me: nat)
    requires me < 256
    ensures Ballot(1, me) < SECOND <= Ballot(2, me) == NextBallot(Ballot(1, me))
  {
  }

  /** `process` keeps the order, and no loser tries again. */
  lemma PartsOrdered(n: Node, p: Packet, a: Node, q: Packet, r: Node, m: Move, k: nat)
    requires Ordered(n, k) && Quiet(n.wait, k) && PacketOrdered(p)
    requires AcceptorEffect(n, p, a) && Bounded(a)
    requires Moves(a, q, r, m) && m == Classify(a, q) && q.ballot == p.ballot
    ensures Ordered(r, k + 1) && m != Retry && m != LostOpening
  {
    FirstBallots(n.me);
    if m.Lost? || m.LostOpening? { LossReason(a, q); }
    hide NextBallot, Ballot, Merged, Classify;
  }

  lemma HeartbeatOrdered(n: Node, p: Packet, k: nat)
    requires Ordered(n, k) && p.phase == INIT && n.acceptor.minProposal == 0 && PacketOrdered(p)
    ensures Ordered(OnHeartbeat(n, p), k + 1)
  {
    FirstBallots(n.me);
    hide Ballot, NextBallot;
  }

  lemma PacketKeepsOrder(n: Node, heard: Packet, own: bool, keep: bool, k: nat)
    requires Ordered(n, k) && Quiet(n.wait, k) && (own || PacketOrdered(heard))
    ensures Ordered(OnPacket(n, heard, own, keep), k + 1)
  {
    var p := Payload(n, heard, own);
    if p.phase == INIT && n.acceptor.minProposal == 0 {
      HeartbeatOrdered(n, p, k);
    } else {
      var a := AcceptorStep(n, heard, own, keep);
      var q := Payload(a, heard, own);
      AcceptorDoes(n, heard, own, keep);
      AcceptorBounded(n, heard, own, keep);
      ProposerDoes(a, heard, own);
      assert q.ballot == p.ballot;
      hide AcceptorStep, ProposerStep, Classify, Ordered, AcceptorEffect, Moves, Bounded;
      PartsOrdered(n, p, a, q, ProposerStep(a, heard, own), Classify(a, q), k);
    }
  }

  lemma OrderedLater(n: Node, r: Node, k: nat, j: nat)
    requires Ordered(n, k) && k <= j && r.me == n.me && r.wait == n.wait
    requires r.proposer == n.proposer && r.acceptor == n.acceptor && r.rx == n.rx && r.tx == n.tx
    ensures Ordered(r, j)
  {
  }
}
