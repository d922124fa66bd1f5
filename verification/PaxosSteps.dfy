/** What the acceptor and the proposer part of `process` can change, stated
    field by field for the proofs about whole rounds.
 */
module PaxosSteps {
  import ChaosFlags
  import opened Paxos

  /** The flags counted as replies: those heard, with those already there. */
  function Merged(n: Node, p: Packet): set<nat>
  {
    if IsNewPhase(n, p) then p.flags else n.tx.flags + p.flags
  }

  predicate SameRole(n: Node, r: Node)
  {
    r.me == n.me && r.count == n.count && r.wait == n.wait && r.proposer == n.proposer
  }

  /** Effect of the phase logic after `TakeOver`. */
  lemma PhaseEffect(n: Node, heard: Packet, own: bool)
    requires var p := Payload(n, heard, own); n.tx.ballot == p.ballot && n.tx.phase == p.phase
    ensures var p, r := Payload(n, heard, own), OnPhase(n, heard, own);
            && SameRole(n, r) && r.learner == n.learner
            && r.tx.ballot == n.tx.ballot && r.tx.phase == n.tx.phase && r.tx.flags == n.tx.flags
            && (p.phase == ACCEPT ==> r.tx.value == n.tx.value)
            && (p.phase == ACCEPT && p.ballot >= n.acceptor.minProposal ==> r.acceptor == Acceptor(p.ballot, p.ballot, p.value))
            && (p.phase == ACCEPT && p.ballot < n.acceptor.minProposal ==> r.acceptor == n.acceptor)
            && (p.phase != ACCEPT ==> r.acceptor == n.acceptor.(minProposal := r.acceptor.minProposal))
            && r.acceptor.minProposal <= Max(n.acceptor.minProposal, p.ballot)
            && n.acceptor.minProposal <= r.acceptor.minProposal
  {
  }

  lemma PrepareValues(n: Node, heard: Packet, own: bool, vs: set<nat>)
    requires Passes(vs, n) && (own || PacketCarries(vs, heard)) && n.tx.phase == PREPARE
    ensures Passes(vs, OnPrepare(n, heard, own))
  {
  }

  lemma AcceptValues(n: Node, heard: Packet, own: bool, vs: set<nat>)
    requires Passes(vs, n) && (own || PacketCarries(vs, heard))
    requires n.tx.phase == ACCEPT && Payload(n, heard, own).phase == ACCEPT
    ensures Passes(vs, OnAccept(n, heard, own))
  {
    var p := Payload(n, heard, own);
    var a := AcceptValue(n, p);
    assert Passes(vs, a);
    var m := ReportMin(a, p);
    assert Passes(vs, m) && m.acceptor == a.acceptor;
    assert Passes(vs, RememberAccepted(m));
  }

  lemma PhaseValues(n: Node, heard: Packet, own: bool, vs: set<nat>)
    requires var p := Payload(n, heard, own); n.tx.ballot == p.ballot && n.tx.phase == p.phase
    requires Passes(vs, n)
    requires own || PacketCarries(vs, heard)
    ensures Passes(vs, OnPhase(n, heard, own))
  {
    hide OnPrepare, OnAccept, Passes, PacketCarries;
    var phase := Payload(n, heard, own).phase;
    if phase == PREPARE {
      PrepareValues(n, heard, own, vs);
    } else if phase == ACCEPT {
      AcceptValues(n, heard, own, vs);
    }
  }

  /** Values that count as accepted or proposed come from `vs`. */
  predicate PacketCarries(vs: set<nat>, p: Packet)
  {
    p.phase == ACCEPT || p.proposal > 0 ==> p.value in vs
  }

  /** What a node passes on, as acceptor, as relay and as learner. */
  predicate Passes(vs: set<nat>, n: Node)
  {
    && PacketCarries(vs, n.tx)
    && (n.rx.acceptedProposal > 0 ==> n.rx.acceptedValue in vs)
    && (n.acceptor.acceptedProposal > 0 ==> n.acceptor.acceptedValue in vs)
    && (n.learner.chosen ==> n.learner.value in vs)
  }

  predicate Carries(vs: set<nat>, n: Node)
  {
    Passes(vs, n) && (n.proposer.active ==> n.proposer.value in vs)
  }

  /** Effect of taking over a packet that is current. */
  lemma TakeOverEffect(n: Node, p: Packet)
    requires IsCurrent(n, p)
    ensures var r := TakeOver(n, p);
            && r == n.(tx := r.tx, rx := r.rx)
            && r.tx.ballot == p.ballot && r.tx.phase == p.phase
            && (IsNewPhase(n, p) ==> r.tx == p && r.rx == Heard(0, 0, 0))
            && (!IsNewPhase(n, p) ==> r == n)
  {
  }

  /** Effect of counting flags, adding one's own and learning. */
  lemma FlagsEffect(n: Node, heard: Packet, own: bool, isNew: bool, keep: bool)
    ensures var p := Payload(n, heard, own);
            var m := MergeFlags(n, heard, own, isNew);
            var r := LearnAndComplete(AddOwnFlag(m), heard, own, |m.tx.flags|, ChaosFlags.AllSet(m.tx.flags, m.count), keep);
            && SameRole(n, r) && r.acceptor == n.acceptor && r.rx == n.rx
            && m.tx.flags == (if isNew then p.flags else n.tx.flags + p.flags)
            && r.tx == n.tx.(flags := m.tx.flags + {n.me})
            && (r.learner == n.learner
                || (p.phase == ACCEPT && r.learner == Learner(p.value, true) && |m.tx.flags| > n.count / 2))
  {
    hide ChaosFlags.AllSet;
  }

  lemma AcceptorUnfold(n: Node, heard: Packet, own: bool, keep: bool)
    requires IsCurrent(n, Payload(n, heard, own))
    ensures var p := Payload(n, heard, own);
            var o := OnPhase(TakeOver(n, p), heard, own);
            var m := MergeFlags(o, heard, own, IsNewPhase(n, p));
            AcceptorStep(n, heard, own, keep)
            == LearnAndComplete(AddOwnFlag(m), heard, own, |m.tx.flags|, ChaosFlags.AllSet(m.tx.flags, m.count), keep)
  {
    hide OnPhase, TakeOver, MergeFlags, LearnAndComplete, AddOwnFlag, ChaosFlags.AllSet, IsNewPhase, Payload;
  }

  /** Effect of the acceptor part. */
  ghost predicate AcceptorEffect(n: Node, p: Packet, r: Node)
  {
    && SameRole(n, r)
    && (!IsCurrent(n, p) ==> r == n.(send := true))
    && (IsCurrent(n, p) ==>
          && r.tx.ballot == p.ballot && r.tx.phase == p.phase && r.tx.flags == Merged(n, p) + {n.me}
          && (p.phase == ACCEPT ==> r.tx.value == if IsNewPhase(n, p) then p.value else n.tx.value)
          && (p.phase == ACCEPT && p.ballot >= n.acceptor.minProposal ==> r.acceptor == Acceptor(p.ballot, p.ballot, p.value))
          && (p.phase == ACCEPT && p.ballot < n.acceptor.minProposal ==> r.acceptor == n.acceptor)
          && (p.phase != ACCEPT ==> r.acceptor == n.acceptor.(minProposal := r.acceptor.minProposal))
          && n.acceptor.minProposal <= r.acceptor.minProposal <= Max(n.acceptor.minProposal, p.ballot)
          && (r.learner == n.learner
              || (p.phase == ACCEPT && r.learner == Learner(p.value, true) && |Merged(n, p)| > n.count / 2)))
  }

  lemma AcceptorDoes(n: Node, heard: Packet, own: bool, keep: bool)
    ensures AcceptorEffect(n, Payload(n, heard, own), AcceptorStep(n, heard, own, keep))
  {
    var p := Payload(n, heard, own);
    if IsCurrent(n, p) {
      AcceptorUnfold(n, heard, own, keep);
      var t := TakeOver(n, p);
      TakeOverEffect(n, p);
      PhaseEffect(t, heard, own);
      FlagsEffect(OnPhase(t, heard, own), heard, own, IsNewPhase(n, p), keep);
      hide OnPhase, TakeOver, MergeFlags, LearnAndComplete, AddOwnFlag, ChaosFlags.AllSet, AcceptorStep;
    }
  }

  lemma AcceptorPasses(n: Node, heard: Packet, own: bool, keep: bool, vs: set<nat>)
    requires Passes(vs, n) && (own || PacketCarries(vs, heard))
    ensures Passes(vs, AcceptorStep(n, heard, own, keep))
  {
    var p := Payload(n, heard, own);
    if IsCurrent(n, p) {
      AcceptorUnfold(n, heard, own, keep);
      var t := TakeOver(n, p);
      TakeOverEffect(n, p);
      PhaseValues(t, heard, own, vs);
      PhaseEffect(t, heard, own);
      FlagsEffect(OnPhase(t, heard, own), heard, own, IsNewPhase(n, p), keep);
      hide OnPhase, TakeOver, MergeFlags, LearnAndComplete, AddOwnFlag, ChaosFlags.AllSet, AcceptorStep;
    }
  }

  // ------------------------------------------------------------------
  // Proposer
  // ------------------------------------------------------------------

  /** A value the proposer may hold next: its own or one heard as accepted. */
  predicate MayPropose(n: Node, value: nat)
  {
    value == n.proposer.value || (n.rx.acceptedProposal > 0 && value == n.rx.acceptedValue)
  }

  /** What the proposer part may do to a node that processed packet `p`. */
  datatype Move =
    | Nothing          // at most a new value while preparing
    | Wait             // one slot less to wait
    | Retry            // the wait is over, the ballot is announced
    | First            // the first ballot is started
    | Won              // a majority of accept replies
    | Open(value: nat) // a majority of prepare replies: ACCEPT is announced
    | Lost             // a higher ballot is around
    | LostOpening      // lost while opening: the next ballot is announced at once

  ghost predicate Moves(n: Node, p: Packet, r: Node, m: Move)
  {
    && r.me == n.me && r.count == n.count && r.wait == n.wait && r.rx == n.rx && r.learner == n.learner
    && match m
       case Nothing =>
         && r.tx == n.tx && r.acceptor == n.acceptor
         && r.proposer == n.proposer.(value := r.proposer.value)
         && MayPropose(n, r.proposer.value) && (n.proposer.phase == ACCEPT ==> r.proposer == n.proposer)
         && (n.proposer.active && !n.proposer.gotMajority ==>
               n.proposer.loserTimeout == 0 && p.ballot <= n.proposer.ballot
               && (n.proposer.phase == INIT ==> p.ballot == n.proposer.ballot))
       case Wait =>
         && n.proposer.active && n.proposer.loserTimeout > 1 && r.tx == n.tx && r.acceptor == n.acceptor
         && r.proposer == n.proposer.(loserTimeout := n.proposer.loserTimeout - 1)
       case Retry =>
         && n.proposer.active && n.proposer.loserTimeout == 1 && r.acceptor == n.acceptor
         && r.proposer == n.proposer.(loserTimeout := 0)
         && r.tx == Packet(r.proposer.ballot, r.proposer.phase, r.proposer.value, 0, {n.me})
       case First =>
         && n.proposer.active && n.proposer.loserTimeout == 0 && n.proposer.phase == INIT && p.ballot < n.proposer.ballot
         && !n.proposer.gotMajority
         && r.proposer == n.proposer.(phase := PREPARE)
         && r.tx == n.tx.(ballot := n.proposer.ballot, phase := PREPARE)
         && r.acceptor == n.acceptor.(minProposal := n.proposer.ballot)
       case Won =>
         && n.proposer.active && n.proposer.loserTimeout == 0 && n.proposer.phase == ACCEPT && p.ballot == n.proposer.ballot
         && r.proposer == n.proposer.(gotMajority := true) && r.tx == n.tx && r.acceptor == n.acceptor
       case Open(v) =>
         && n.proposer.active && n.proposer.loserTimeout == 0 && n.proposer.phase == PREPARE && p.ballot == n.proposer.ballot
         && !n.proposer.gotMajority && p.phase == PREPARE
         && MayPropose(n, v) && r.acceptor == n.acceptor
         && r.proposer == n.proposer.(phase := ACCEPT, value := v)
         && r.tx == Packet(n.proposer.ballot, ACCEPT, v, 0, {n.me})
       case Lost =>
         && n.proposer.active && n.proposer.loserTimeout == 0 && !n.proposer.gotMajority
         && r.tx == n.tx && r.acceptor == n.acceptor && LostState(n, r)
       case LostOpening =>
         && n.proposer.active && n.proposer.loserTimeout == 0 && !n.proposer.gotMajority
         && r.acceptor == n.acceptor && LostState(n, r)
         && p.ballot == n.proposer.ballot && n.proposer.phase == PREPARE
         && r.tx == Packet(r.proposer.ballot, PREPARE, r.proposer.value, 0, {n.me})
  }

  ghost predicate LostState(n: Node, r: Node)
  {
    && r.proposer == Proposer(true, NextBallot(n.proposer.ballot), r.proposer.value, PREPARE, false, n.wait)
    && MayPropose(n, r.proposer.value)
  }

  function Classify(n: Node, p: Packet): Move
  {
    if !n.proposer.active || n.proposer.gotMajority then Nothing
    else if n.proposer.loserTimeout > 0 then if n.proposer.loserTimeout == 1 then Retry else Wait
    else
      var v := Compete(n, p);
      if v.lost then if v.update then LostOpening else Lost
      else if v.update then Open(v.node.proposer.value)
      else if v.node.proposer.gotMajority then Won
      else if p.ballot < n.proposer.ballot && n.proposer.phase == INIT then First
      else Nothing
  }

  lemma CountRepliesEffect(n: Node)
    requires n.proposer.active && !n.proposer.gotMajority
    ensures var v := CountReplies(n); var m := v.node;
            && m == n.(proposer := m.proposer)
            && m.proposer == n.proposer.(phase := m.proposer.phase, value := m.proposer.value, gotMajority := m.proposer.gotMajority)
            && MayPropose(n, m.proposer.value)
            && (v.update ==> n.proposer.phase == PREPARE && m.proposer.phase == ACCEPT && !m.proposer.gotMajority)
            && (!v.update ==> m.proposer.phase == n.proposer.phase)
            && (n.proposer.phase != PREPARE ==> m.proposer.value == n.proposer.value)
            && (m.proposer.gotMajority ==> n.proposer.phase == ACCEPT && !v.lost)
            && (m.proposer.gotMajority ==> m.proposer == n.proposer.(gotMajority := true))
  {
  }

  lemma LoseEffect(n: Node)
    ensures var r := Lose(n);
            && r == n.(proposer := r.proposer)
            && r.proposer == Proposer(n.proposer.active, NextBallot(n.proposer.ballot), r.proposer.value, PREPARE, false, n.wait)
            && MayPropose(n, r.proposer.value)
  {
    hide NextBallot;
  }

  lemma ProposerDoes(n: Node, heard: Packet, own: bool)
    ensures Moves(n, Payload(n, heard, own), ProposerStep(n, heard, own), Classify(n, Payload(n, heard, own)))
  {
    var p := Payload(n, heard, own);
    if n.proposer.active && !n.proposer.gotMajority {
      CountRepliesEffect(n);
      LoseEffect(Compete(n, p).node);
      hide CountReplies, Lose, NextBallot;
    }
  }

  lemma ProposerCarries(n: Node, p: Packet, r: Node, m: Move, vs: set<nat>)
    requires Carries(vs, n) && Moves(n, p, r, m)
    ensures Carries(vs, r)
  {
    hide NextBallot;
  }
}
