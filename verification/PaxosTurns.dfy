/** What one packet makes a node of Wireless Paxos do, told by what the packet says and what
    is on record: when a proposer loses, opens or wins, when a node learns, when it sends,
    when it sees completion, and when it switches off.
 */
module PaxosTurns {
  import ChaosFlags
  import opened Paxos
  import opened PaxosSteps
  import opened PaxosSafety
  import opened PaxosAdoption
  import B = PaxosBallots

  // ------------------------------------------------------------------
  // The terms
  // ------------------------------------------------------------------

  predicate IsHeartbeat(n: Node, p: Packet)
  {
    p.phase == INIT && n.acceptor.minProposal == 0
  }

  predicate IsHighest(m: nat, of: set<nat>)
  {
    m in of && forall x <- of :: x <= m
  }

  /** The promise on record after a packet: an ACCEPT packet makes it the highest of what the
      packet reports, its ballot, the node's own promise and what was there. */
  ghost predicate RecordsPromise(n: Node, p: Packet, after: nat)
  {
    if !IsCurrent(n, p) then after == n.rx.minProposal
    else
      var before := if IsNewPhase(n, p) then 0 else n.rx.minProposal;
      if p.phase == ACCEPT then IsHighest(after, {p.proposal, p.ballot, n.acceptor.minProposal, before})
      else after == before
  }

  /** A packet of the node's own ballot and phase, or a newer one, says what the node does
      not. */
  ghost predicate Tells(n: Node, p: Packet)
  {
    || IsNewPhase(n, p)
    || p.flags != n.tx.flags
    || (p.phase == PREPARE && p.proposal < n.rx.acceptedProposal)
    || (p.phase == ACCEPT && !IsHighest(n.tx.proposal, {p.proposal, p.ballot, n.acceptor.minProposal, n.rx.minProposal}))
  }

  /** Flags that make up a majority of the network, or all of it. */
  predicate Majority(n: Node, flags: set<nat>)
  {
    |flags| > n.count / 2
  }

  /** The flags a proposer finds in its buffer. */
  function Collected(n: Node, p: Packet): set<nat>
  {
    if IsCurrent(n, p) then Merged(n, p) + {n.me} else n.tx.flags
  }

  /** The packet is of the proposer's own ballot and phase. */
  predicate Answers(n: Node, p: Packet)
  {
    p.ballot == n.proposer.ballot && p.phase == n.proposer.phase
  }

  predicate Competes(n: Node)
  {
    n.proposer.active && !n.proposer.gotMajority && n.proposer.loserTimeout == 0
  }

  // ------------------------------------------------------------------
  // The acceptor part
  // ------------------------------------------------------------------

  ghost predicate PhaseTold(n: Node, p: Packet, r: Node)
  {
    && (p.phase == ACCEPT ==> IsHighest(r.rx.minProposal, {p.proposal, p.ballot, n.acceptor.minProposal, n.rx.minProposal})
                              && r.tx.proposal == r.rx.minProposal)
    && (p.phase != ACCEPT ==> r.rx.minProposal == n.rx.minProposal)
    && r.tx.flags == n.tx.flags && r.radio == n.radio && r.me == n.me && r.count == n.count && r.proposer == n.proposer
    && r.send == r.delta
    && r.delta == ((p.phase == PREPARE && p.proposal < n.rx.acceptedProposal)
                   || (p.phase == ACCEPT && !IsHighest(n.tx.proposal, {p.proposal, p.ballot, n.acceptor.minProposal, n.rx.minProposal})))
  }

  lemma PhaseTells(n: Node, heard: Packet, own: bool)
    requires var p := Payload(n, heard, own); n.tx.ballot == p.ballot && n.tx.phase == p.phase
    requires !n.send && !n.delta
    ensures PhaseTold(n, Payload(n, heard, own), OnPhase(n, heard, own))
  {
    var p := Payload(n, heard, own);
    if p.phase == ACCEPT {
      var a := AcceptValue(n, p);
      MaxIsHighest(p.proposal, p.ballot, n.acceptor.minProposal, n.rx.minProposal);
      hide IsHighest;
      assert a.acceptor.minProposal == Max(p.ballot, n.acceptor.minProposal);
    }
  }

  lemma MaxIsHighest(a: nat, b: nat, c: nat, d: nat)
    ensures var m := Max(a, Max(Max(b, c), d)); IsHighest(m, {a, b, c, d}) && forall x :: IsHighest(x, {a, b, c, d}) ==> x == m
  {
  }

  ghost predicate AcceptorTold(n: Node, p: Packet, own: bool, keep: bool, a: Node)
  {
    && RecordsPromise(n, p, a.rx.minProposal)
    && a.tx.flags == Collected(n, p) && a.proposer == n.proposer && a.me == n.me && a.count == n.count
    && (!IsCurrent(n, p) ==> a.send && !a.delta && a.radio == n.radio)
    && (IsCurrent(n, p) ==>
          var many, full := Majority(n, Merged(n, p)), ChaosFlags.AllSet(Merged(n, p), n.count);
          && a.tx.ballot == p.ballot && a.tx.phase == p.phase
          && (p.phase == ACCEPT ==> a.tx.proposal == a.rx.minProposal)
          && a.delta == Tells(n, p)
          && a.send == ((p.phase == ACCEPT && full)
                        || (Tells(n, p) && !(p.phase == PREPARE && !n.proposer.active && many && !keep)))
          && a.radio == n.radio.(complete := n.radio.complete || (p.phase == ACCEPT && full)))
  }

  lemma FlagsTell(n: Node, heard: Packet, own: bool, isNew: bool, keep: bool)
    requires n.send == n.delta
    ensures var p := Payload(n, heard, own);
            var m := MergeFlags(n, heard, own, isNew);
            var r := LearnAndComplete(AddOwnFlag(m), heard, own, |m.tx.flags|, ChaosFlags.AllSet(m.tx.flags, m.count), keep);
            var tells := isNew || n.delta || p.flags != n.tx.flags;
            var many, full := Majority(n, m.tx.flags), ChaosFlags.AllSet(m.tx.flags, n.count);
            && r.delta == tells && r.rx == n.rx && r.tx == n.tx.(flags := m.tx.flags + {n.me})
            && r.send == ((p.phase == ACCEPT && full) || (tells && !(p.phase == PREPARE && !n.proposer.active && many && !keep)))
            && r.radio == n.radio.(complete := n.radio.complete || (p.phase == ACCEPT && full))
  {
    hide ChaosFlags.AllSet;
  }

  lemma AcceptorTells(n: Node, heard: Packet, own: bool, keep: bool)
    requires !n.send && !n.delta
    ensures AcceptorTold(n, Payload(n, heard, own), own, keep, AcceptorStep(n, heard, own, keep))
  {
    var p := Payload(n, heard, own);
    AcceptorDoes(n, heard, own, keep);
    if IsCurrent(n, p) {
      AcceptorUnfold(n, heard, own, keep);
      var t := TakeOver(n, p);
      TakeOverEffect(n, p);
      PhaseTells(t, heard, own);
      FlagsTell(OnPhase(t, heard, own), heard, own, IsNewPhase(n, p), keep);
      hide OnPhase, MergeFlags, LearnAndComplete, AddOwnFlag, AcceptorStep, IsHighest, ChaosFlags.AllSet, Majority;
    }
  }

  /** Learning: an ACCEPT packet whose flags, with those there, are a majority, and which
      reports its own ballot; a node reads its own packet after raising its report. */
  ghost predicate LearnTold(n: Node, p: Packet, own: bool, r: Node)
  {
    var reported := if own then r.rx.minProposal else p.proposal;
    r.learner == if IsCurrent(n, p) && p.phase == ACCEPT && Majority(n, Merged(n, p)) && reported == p.ballot
                 then Learner(p.value, true) else n.learner
  }

  lemma PhaseLearns(n: Node, heard: Packet, own: bool)
    requires var p := Payload(n, heard, own); n.tx.ballot == p.ballot && n.tx.phase == p.phase
    ensures var p, r := Payload(n, heard, own), OnPhase(n, heard, own);
            r.learner == n.learner && (own && p.phase == ACCEPT ==> r.tx.proposal == r.rx.minProposal)
            && r.tx.ballot == n.tx.ballot && r.tx.phase == n.tx.phase
  {
  }

  lemma FlagsLearn(n: Node, heard: Packet, own: bool, isNew: bool, keep: bool)
    ensures var p := Payload(n, heard, own);
            var m := MergeFlags(n, heard, own, isNew);
            var r := LearnAndComplete(AddOwnFlag(m), heard, own, |m.tx.flags|, ChaosFlags.AllSet(m.tx.flags, m.count), keep);
            r.rx == n.rx && r.learner == if p.phase == ACCEPT && Majority(n, m.tx.flags) && p.ballot == p.proposal then Learner(p.value, true) else n.learner
  {
    hide ChaosFlags.AllSet;
  }

  lemma AcceptorLearns(n: Node, heard: Packet, own: bool, keep: bool)
    ensures LearnTold(n, Payload(n, heard, own), own, AcceptorStep(n, heard, own, keep))
  {
    var p := Payload(n, heard, own);
    if IsCurrent(n, p) {
      AcceptorUnfold(n, heard, own, keep);
      var t := TakeOver(n, p);
      TakeOverEffect(n, p);
      PhaseLearns(t, heard, own);
      PhaseEffect(t, heard, own);
      FlagsLearn(OnPhase(t, heard, own), heard, own, IsNewPhase(n, p), keep);
      FlagsEffect(OnPhase(t, heard, own), heard, own, IsNewPhase(n, p), keep);
      hide OnPhase, MergeFlags, LearnAndComplete, AddOwnFlag, AcceptorStep, ChaosFlags.AllSet, Majority;
    }
  }

  // ------------------------------------------------------------------
  // The proposer part
  // ------------------------------------------------------------------

  /** A proposer loses on hearing a higher ballot, and on finding a higher one on record when
      it counts replies. */
  ghost predicate Loses(n: Node, p: Packet, replies: set<nat>, rx: Heard)
  {
    && Competes(n)
    && (|| p.ballot > n.proposer.ballot
        || (Answers(n, p) && p.phase == PREPARE && rx.acceptedProposal > n.proposer.ballot)
        || (Answers(n, p) && p.phase == PREPARE && rx.minProposal > n.proposer.ballot && Majority(n, replies))
        || (Answers(n, p) && p.phase == ACCEPT && rx.minProposal > n.proposer.ballot))
  }

  /** With a majority of replies it goes on to ACCEPT, or has won, unless it loses. */
  ghost predicate Opens(n: Node, p: Packet, replies: set<nat>, rx: Heard)
  {
    Competes(n) && Answers(n, p) && p.phase == PREPARE && Majority(n, replies) && !Loses(n, p, replies, rx)
  }

  ghost predicate Wins(n: Node, p: Packet, replies: set<nat>, rx: Heard)
  {
    Competes(n) && Answers(n, p) && p.phase == ACCEPT && Majority(n, replies) && !Loses(n, p, replies, rx)
  }

  /** It writes a new packet when it opens, also if it loses over a promise in doing so, and
      when its wait is over. */
  ghost predicate Announces(n: Node, p: Packet, replies: set<nat>, rx: Heard)
  {
    n.proposer.active && !n.proposer.gotMajority &&
    if n.proposer.loserTimeout > 0 then n.proposer.loserTimeout == 1
    else Answers(n, p) && p.phase == PREPARE && Majority(n, replies) && rx.acceptedProposal <= n.proposer.ballot
  }

  /** It answers packets that are behind it. */
  predicate Corrects(n: Node, p: Packet)
  {
    Competes(n) && (p.ballot < n.proposer.ballot || (p.ballot == n.proposer.ballot && p.phase != n.proposer.phase))
  }

  ghost predicate ProposerTold(n: Node, p: Packet, replies: set<nat>, r: Node)
  {
    && (Loses(n, p, replies, r.rx) ==>
          r.proposer == Proposer(true, NextBallot(n.proposer.ballot), r.proposer.value, PREPARE, false, n.wait))
    && (!Loses(n, p, replies, r.rx) ==> r.proposer.ballot == n.proposer.ballot)
    && (Opens(n, p, replies, r.rx) ==> r.proposer == n.proposer.(phase := ACCEPT, value := r.proposer.value))
    && (Wins(n, p, replies, r.rx) ==> r.proposer == n.proposer.(gotMajority := true))
    && (Competes(n) && !Loses(n, p, replies, r.rx) && !Opens(n, p, replies, r.rx) && !Wins(n, p, replies, r.rx) ==>
          r.proposer == n.proposer.(value := r.proposer.value,
                                    phase := if n.proposer.phase == INIT && p.ballot < n.proposer.ballot then PREPARE else n.proposer.phase))
    && (!Competes(n) ==>
          r.proposer == n.proposer.(loserTimeout := if n.proposer.active && !n.proposer.gotMajority then n.proposer.loserTimeout - 1
                                                    else n.proposer.loserTimeout))
    && (Announces(n, p, replies, r.rx) ==> r.tx == Packet(r.proposer.ballot, r.proposer.phase, r.proposer.value, 0, {n.me}))
  }

  /** The verdict on a packet of the proposer's own ballot and phase. */
  lemma RepliesTell(a: Node, p: Packet)
    requires Competes(a) && Answers(a, p)
    ensures var v := CountReplies(a); var m := v.node.proposer;
            && v.lost == Loses(a, p, a.tx.flags, a.rx) && v.update == Announces(a, p, a.tx.flags, a.rx)
            && v.node == a.(proposer := a.proposer.(value := m.value, phase := m.phase, gotMajority := m.gotMajority))
            && (!v.lost ==> m.gotMajority == Wins(a, p, a.tx.flags, a.rx))
            && (!v.lost ==> m.phase == if Opens(a, p, a.tx.flags, a.rx) then ACCEPT else a.proposer.phase)
            && (Wins(a, p, a.tx.flags, a.rx) ==> m.value == a.proposer.value)
  {
  }

  lemma VerdictTells(a: Node, p: Packet)
    requires Competes(a)
    ensures var v := Compete(a, p); var m := v.node.proposer;
            && v.lost == Loses(a, p, a.tx.flags, a.rx) && v.update == Announces(a, p, a.tx.flags, a.rx)
            && v.node.rx == a.rx && v.node.radio == a.radio && v.node.learner == a.learner && v.node.me == a.me && v.node.wait == a.wait
            && v.node.delta == a.delta && v.node.send == (a.send || Corrects(a, p))
            && m == a.proposer.(value := m.value, phase := m.phase, gotMajority := m.gotMajority)
            && (!v.lost ==> m.gotMajority == Wins(a, p, a.tx.flags, a.rx))
            && (!v.lost ==> m.phase == if Opens(a, p, a.tx.flags, a.rx) then ACCEPT
                                       else if a.proposer.phase == INIT && p.ballot < a.proposer.ballot then PREPARE else a.proposer.phase)
            && (Wins(a, p, a.tx.flags, a.rx) ==> m.value == a.proposer.value)
  {
    if Answers(a, p) { RepliesTell(a, p); }
    hide CountReplies, Majority;
  }

  lemma ProposerTells(a: Node, heard: Packet, own: bool)
    ensures var p, r := Payload(a, heard, own), ProposerStep(a, heard, own);
            && r.rx == a.rx && r.radio == a.radio && r.learner == a.learner && ProposerTold(a, p, a.tx.flags, r)
            && r.delta == (a.delta || Announces(a, p, a.tx.flags, a.rx))
            && r.send == (a.send || Announces(a, p, a.tx.flags, a.rx) || Corrects(a, p))
  {
    hide NextBallot, Majority;
    if Competes(a) {
      VerdictTells(a, Payload(a, heard, own));
      hide Compete;
    }
  }

  // ------------------------------------------------------------------
  // A packet
  // ------------------------------------------------------------------

  /** All that a packet other than a heartbeat tells. */
  ghost predicate Told(n: Node, p: Packet, own: bool, keep: bool, r: Node)
  {
    var many, full := Majority(n, Merged(n, p)), ChaosFlags.AllSet(Merged(n, p), n.count);
    var announces := Announces(n, p, Collected(n, p), r.rx);
    && RecordsPromise(n, p, r.rx.minProposal) && LearnTold(n, p, own, r) && ProposerTold(n, p, Collected(n, p), r)
    && r.radio == n.radio.(complete := n.radio.complete || (IsCurrent(n, p) && p.phase == ACCEPT && full))
    && r.delta == ((IsCurrent(n, p) && Tells(n, p)) || announces)
    && r.send == (!IsCurrent(n, p) || (p.phase == ACCEPT && full) || announces || Corrects(n, p)
                  || (Tells(n, p) && !(p.phase == PREPARE && !n.proposer.active && many && !keep)))
  }

  lemma SameProposer(n: Node, p: Packet, a: Node, q: Packet, replies: set<nat>, r: Node)
    requires a.proposer == n.proposer && a.me == n.me && a.count == n.count && a.wait == n.wait && q.ballot == p.ballot && q.phase == p.phase
    ensures ProposerTold(a, q, replies, r) <==> ProposerTold(n, p, replies, r)
    ensures Announces(a, q, replies, a.rx) <==> Announces(n, p, replies, a.rx)
    ensures Corrects(a, q) <==> Corrects(n, p)
  {
  }

  lemma PacketTells(n: Node, heard: Packet, own: bool, keep: bool)
    requires !n.send && !n.delta && !IsHeartbeat(n, Payload(n, heard, own))
    ensures Told(n, Payload(n, heard, own), own, keep, OnPacket(n, heard, own, keep))
  {
    var p, a := Payload(n, heard, own), AcceptorStep(n, heard, own, keep);
    AcceptorDoes(n, heard, own, keep);
    AcceptorTells(n, heard, own, keep);
    AcceptorLearns(n, heard, own, keep);
    ProposerTells(a, heard, own);
    hide AcceptorStep, ProposerStep, Tells, Merged, Majority, ChaosFlags.AllSet, ProposerTold, RecordsPromise, Announces, Corrects;
    SameProposer(n, p, a, Payload(a, heard, own), a.tx.flags, ProposerStep(a, heard, own));
  }

  /** And all that a heartbeat tells. */
  ghost predicate HeartbeatTold(n: Node, p: Packet, r: Node)
  {
    if n.proposer.active then
      && r.send && r.delta && r.radio == n.radio && r.rx == n.rx && r.learner == n.learner
      && r.proposer == n.proposer.(phase := if n.proposer.phase == INIT then PREPARE else n.proposer.phase)
      && (n.proposer.phase == INIT ==>
            r.acceptor.minProposal == n.proposer.ballot && r.tx == n.tx.(ballot := n.proposer.ballot, phase := PREPARE, flags := {n.me}))
      && (n.proposer.phase != INIT ==> r.acceptor == n.acceptor && r.tx == n.tx)
    else
      && r.tx == p.(flags := n.tx.flags + p.flags) && r.proposer == n.proposer && r.rx == n.rx && r.learner == n.learner
      && r.send == r.delta == (p.flags != n.tx.flags)
      && r.radio == n.radio.(complete := n.radio.complete || ChaosFlags.AllSet(n.tx.flags + p.flags, n.count))
  }

  lemma HeartbeatTells(n: Node, heard: Packet, own: bool, keep: bool)
    requires !n.send && !n.delta && IsHeartbeat(n, Payload(n, heard, own))
    ensures HeartbeatTold(n, Payload(n, heard, own), OnPacket(n, heard, own, keep))
  {
    hide ChaosFlags.AllSet;
  }

  // ------------------------------------------------------------------
  // Rounds
  // ------------------------------------------------------------------

  lemma NextTold(s: Network, c: seq<Choice>, i: nat)
    requires Allowed(s, c) && i < |s| && Looks(s, c, i)
    ensures Possible(s, c, i)
    ensures var w, p, own := Woken(s[i]), PacketSeen(s, c, i), s[i].radio.state == Send;
            var x := OnPacket(w, if c[i].event.Hears? then s[c[i].event.from].tx else NO_PACKET, own, c[i].keep);
            && (if IsHeartbeat(w, p) then HeartbeatTold(w, p, x) else Told(w, p, own, c[i].keep, x))
            && SameState(x, Next(s, c, i))
            && (!c[i].crash ==> Next(s, c, i).radio == NextRadio(x, true, c[i].threshold).radio)
            && (c[i].crash ==> Next(s, c, i).radio == NextRadio(x, true, c[i].threshold).radio.(state := Off))
  {
    assert Possible(s, c, i);
    B.NextIs(s, c, i);
    var w, e, own := Woken(s[i]), c[i].event, s[i].radio.state == Send;
    var heard := if e.Hears? then s[e.from].tx else NO_PACKET;
    if IsHeartbeat(w, PacketSeen(s, c, i)) {
      HeartbeatTells(w, heard, own, c[i].keep);
    } else {
      PacketTells(w, heard, own, c[i].keep);
    }
    hide OnPacket, Told, HeartbeatTold;
  }

  /** In a round, a competing proposer that looks at a packet goes on to its next ballot if
      and only if the packet is of a higher ballot, or it counts replies and has a higher
      ballot on record. */
  lemma LosesIff(u: Setup, run: seq<Network>, choices: seq<seq<Choice>>, k: nat, i: nat)
    requires IsRound(u, run, choices) && k + 1 < |run| && i < |u.roles|
    ensures |run[k]| == |choices[k]| == |run[k + 1]| == |u.roles|
    ensures var n, r := run[k][i], run[k + 1][i];
            Looks(run[k], choices[k], i) && Competes(n) && !IsHeartbeat(n, PacketSeen(run[k], choices[k], i)) ==>
              var p := PacketSeen(run[k], choices[k], i);
              && (r.proposer.ballot != n.proposer.ballot <==> Loses(n, p, Collected(n, p), r.rx))
              && (Loses(n, p, Collected(n, p), r.rx) ==> r.proposer.phase == PREPARE && r.proposer.loserTimeout == n.wait)
              && RecordsPromise(n, p, r.rx.minProposal)
  {
    SlotOfRound(u, run, choices, k, i);
    if Looks(run[k], choices[k], i) {
      NextTold(run[k], choices[k], i);
      OtherBallot(run[k][i].proposer.ballot);
      hide IsRound, Next, OnPacket, NextBallot, SlotAdopts, LearnTold, Majority, IsHighest, NextRadio;
    }
  }

  /** It opens ACCEPT if and only if it counts a majority of replies to its PREPARE and has
      no higher ballot on record, and has won under the same condition on its ACCEPT. */
  lemma OpensIff(u: Setup, run: seq<Network>, choices: seq<seq<Choice>>, k: nat, i: nat)
    requires IsRound(u, run, choices) && k + 1 < |run| && i < |u.roles|
    ensures |run[k]| == |choices[k]| == |run[k + 1]| == |u.roles|
    ensures var n, r := run[k][i], run[k + 1][i];
            Looks(run[k], choices[k], i) && Competes(n) && !IsHeartbeat(n, PacketSeen(run[k], choices[k], i)) ==>
              var p := PacketSeen(run[k], choices[k], i);
              var majority := Majority(n, Collected(n, p)) && r.rx.minProposal <= n.proposer.ballot;
              && (n.proposer.phase == PREPARE ==>
                    (r.proposer.phase == ACCEPT <==> Answers(n, p) && majority && r.rx.acceptedProposal <= n.proposer.ballot))
              && (n.proposer.phase == ACCEPT ==> (r.proposer.gotMajority <==> Answers(n, p) && majority))
  {
    SlotOfRound(u, run, choices, k, i);
    if Looks(run[k], choices[k], i) {
      NextTold(run[k], choices[k], i);
      hide IsRound, Next, OnPacket, NextBallot, SlotAdopts, LearnTold, Majority, RecordsPromise, NextRadio;
    }
  }

  /** A loser that waits counts one slot for each packet it looks at, whatever it says, and
      announces its ballot with its value when it has counted them all. */
  lemma WaitsOut(u: Setup, run: seq<Network>, choices: seq<seq<Choice>>, k: nat, i: nat)
    requires IsRound(u, run, choices) && k + 1 < |run| && i < |u.roles|
    ensures |run[k]| == |choices[k]| == |run[k + 1]| == |u.roles|
    ensures var n, r := run[k][i], run[k + 1][i];
            Looks(run[k], choices[k], i) && !IsHeartbeat(n, PacketSeen(run[k], choices[k], i))
            && n.proposer.active && !n.proposer.gotMajority && n.proposer.loserTimeout > 0 ==>
              && r.proposer == n.proposer.(loserTimeout := n.proposer.loserTimeout - 1)
              && (n.proposer.loserTimeout == 1 ==> r.tx == Packet(n.proposer.ballot, n.proposer.phase, n.proposer.value, 0, {n.me}))
  {
    SlotOfRound(u, run, choices, k, i);
    if Looks(run[k], choices[k], i) {
      NextTold(run[k], choices[k], i);
      hide IsRound, Next, OnPacket, NextBallot, SlotAdopts, LearnTold, Majority, RecordsPromise, NextRadio;
    }
  }

  /** On the first heartbeat a proposer starts: it announces its ballot with its own flag
      alone, and promises it to itself. */
  lemma HeartbeatStartsRound(u: Setup, run: seq<Network>, choices: seq<seq<Choice>>, k: nat, i: nat)
    requires IsRound(u, run, choices) && k + 1 < |run| && i < |u.roles|
    ensures |run[k]| == |choices[k]| == |run[k + 1]| == |u.roles|
    ensures var n, r := run[k][i], run[k + 1][i];
            Looks(run[k], choices[k], i) && IsHeartbeat(n, PacketSeen(run[k], choices[k], i)) && n.proposer.active && n.proposer.phase == INIT ==>
              && r.proposer == n.proposer.(phase := PREPARE) && r.acceptor.minProposal == n.proposer.ballot
              && r.tx == n.tx.(ballot := n.proposer.ballot, phase := PREPARE, flags := {n.me})
  {
    SlotOfRound(u, run, choices, k, i);
    if Looks(run[k], choices[k], i) {
      NextTold(run[k], choices[k], i);
      hide IsRound, Next, OnPacket, SlotAdopts, Told, NextRadio;
    }
  }

  /** A node learns a value if and only if it looks at a current ACCEPT packet that reports
      its own ballot, with a majority of flags. */
  lemma LearnsIff(u: Setup, run: seq<Network>, choices: seq<seq<Choice>>, k: nat, i: nat)
    requires IsRound(u, run, choices) && k + 1 < |run| && i < |u.roles|
    ensures |run[k]| == |choices[k]| == |run[k + 1]| == |u.roles|
    ensures var n, r := run[k][i], run[k + 1][i];
            r.learner ==
              if !Looks(run[k], choices[k], i) then n.learner
              else
                var p := PacketSeen(run[k], choices[k], i);
                var reported := if n.radio.state == Send then r.rx.minProposal else p.proposal;
                if IsCurrent(n, p) && p.phase == ACCEPT && Majority(n, Merged(n, p)) && reported == p.ballot then Learner(p.value, true)
                else n.learner
  {
    SlotOfRound(u, run, choices, k, i);
    if Looks(run[k], choices[k], i) {
      NextTold(run[k], choices[k], i);
      hide IsRound, Next, OnPacket, NextBallot, SlotAdopts, ProposerTold, Majority, RecordsPromise, NextRadio, ChaosFlags.AllSet;
    } else {
      B.NextIs(run[k], choices[k], i);
      hide IsRound, Next, OnPacket, SlotAdopts;
    }
  }

  // ------------------------------------------------------------------
  // The radio
  // ------------------------------------------------------------------

  /** What a node that hears `p` sends for. */
  ghost predicate Wants(n: Node, p: Packet, keep: bool, rx: Heard)
  {
    if IsHeartbeat(n, p) then n.proposer.active || p.flags != n.tx.flags
    else
      || !IsCurrent(n, p)
      || (p.phase == ACCEPT && ChaosFlags.AllSet(Merged(n, p), n.count))
      || Announces(n, p, Collected(n, p), rx) || Corrects(n, p)
      || (Tells(n, p) && !(p.phase == PREPARE && !n.proposer.active && Majority(n, Merged(n, p)) && !keep))
  }

  lemma WokenWants(n: Node, p: Packet, keep: bool, rx: Heard)
    ensures Wants(Woken(n), p, keep, rx) <==> Wants(n, p, keep, rx)
  {
  }

  lemma HearsWants(s: Network, c: seq<Choice>, i: nat)
    requires Allowed(s, c) && i < |s| && s[i].radio.state == Listen && c[i].event.Hears? && Looks(s, c, i)
    requires s[i].radio.flood <= FINAL_FLOOD && !c[i].crash
    ensures Next(s, c, i).radio.state == if Wants(s[i], PacketSeen(s, c, i), c[i].keep, Next(s, c, i).rx) then Send else Listen
  {
    NextTold(s, c, i);
    WokenWants(s[i], PacketSeen(s, c, i), c[i].keep, Next(s, c, i).rx);
    hide OnPacket, Next, ProposerTold, LearnTold, RecordsPromise, Majority, Merged, Tells, Announces, Corrects, ChaosFlags.AllSet;
  }

  /** After hearing a packet, a node that is not done sends in the next slot if and only if it
      wants to: it is ahead of the packet, it has learned something from it, or all flags of
      an ACCEPT packet are in; a follower that has seen a majority of PREPARE flags may keep
      what it has learned to itself. */
  lemma SendsIff(u: Setup, run: seq<Network>, choices: seq<seq<Choice>>, k: nat, i: nat)
    requires IsRound(u, run, choices) && k + 1 < |run| && i < |u.roles|
    ensures |run[k]| == |choices[k]| == |run[k + 1]| == |u.roles|
    ensures var n, c, r := run[k][i], choices[k][i], run[k + 1][i];
            n.radio.state == Listen && c.event.Hears? && !c.crash && n.radio.flood <= FINAL_FLOOD ==>
              && Looks(run[k], choices[k], i)
              && r.radio.state == if Wants(n, PacketSeen(run[k], choices[k], i), c.keep, r.rx) then Send else Listen
  {
    SlotOfRound(u, run, choices, k, i);
    assert Possible(run[k], choices[k], i);
    var n, c := run[k][i], choices[k][i];
    if n.radio.state == Listen && c.event.Hears? && !c.crash && n.radio.flood <= FINAL_FLOOD {
      HearsWants(run[k], choices[k], i);
    }
    hide IsRound, Next, SlotAdopts, Wants;
  }

  /** All flags are in: those of an ACCEPT packet, or of a heartbeat at a follower. */
  ghost predicate Completes(n: Node, p: Packet)
  {
    if IsHeartbeat(n, p) then !n.proposer.active && ChaosFlags.AllSet(n.tx.flags + p.flags, n.count)
    else IsCurrent(n, p) && p.phase == ACCEPT && ChaosFlags.AllSet(Merged(n, p), n.count)
  }

  /** What a packet tells a node, or what it announces on it, starts its flood again. */
  ghost predicate News(n: Node, p: Packet, rx: Heard)
  {
    if IsHeartbeat(n, p) then n.proposer.active || p.flags != n.tx.flags
    else (IsCurrent(n, p) && Tells(n, p)) || Announces(n, p, Collected(n, p), rx)
  }

  lemma WokenNews(n: Node, p: Packet, rx: Heard)
    ensures News(Woken(n), p, rx) <==> News(n, p, rx)
    ensures Completes(Woken(n), p) <==> Completes(n, p)
  {
  }

  ghost predicate FloodGoesOn(s: Network, c: seq<Choice>, i: nat, r: Node)
    requires |s| == |c| && i < |s|
  {
    var n := s[i];
    && (r.radio.complete <==> n.radio.complete || (Looks(s, c, i) && Completes(n, PacketSeen(s, c, i))))
    && r.radio.flood == (if n.radio.state == Listen && r.radio.state == Send && r.radio.complete then
                           if Looks(s, c, i) && News(n, PacketSeen(s, c, i), r.rx) then 0 else n.radio.flood + 1
                         else n.radio.flood)
    && (n.radio.state != Start ==> r.radio.state != Start)
    && (n.radio.state != Off && n.radio.state != Start ==> (r.radio.state == Off <==> n.radio.flood > FINAL_FLOOD))
  }

  lemma NextFloods(s: Network, c: seq<Choice>, i: nat)
    requires Allowed(s, c) && i < |s| && !c[i].crash
    ensures FloodGoesOn(s, c, i, Next(s, c, i))
  {
    assert Possible(s, c, i);
    if Looks(s, c, i) {
      NextTold(s, c, i);
      WokenNews(s[i], PacketSeen(s, c, i), Next(s, c, i).rx);
      hide OnPacket, Next, ProposerTold, LearnTold, RecordsPromise, Majority, Merged, Tells, Announces, Corrects, ChaosFlags.AllSet;
    } else {
      hide OnPacket;
    }
  }

  /** How often in a row node `i` has begun to send with completion seen and no news, up to
      network `k`. */
  ghost function Floods(run: seq<Network>, choices: seq<seq<Choice>>, i: nat, k: nat): nat
    requires k < |run| && |run| == |choices| + 1
  {
    if k == 0 || i >= |run[k]| || |run[k - 1]| != |choices[k - 1]| || i >= |run[k - 1]| then 0
    else
      var s, c, before := run[k - 1], choices[k - 1], Floods(run, choices, i, k - 1);
      var r := run[k][i];
      if s[i].radio.state == Listen && r.radio.state == Send && r.radio.complete then
        if Looks(s, c, i) && News(s[i], PacketSeen(s, c, i), r.rx) then 0 else before + 1
      else before
  }

  lemma {:induction false} FloodCounts(u: Setup, run: seq<Network>, choices: seq<seq<Choice>>, k: nat, i: nat)
    requires IsRound(u, run, choices) && k < |run| && i < |u.roles|
    requires forall j :: 0 <= j < k && i < |choices[j]| ==> !choices[j][i].crash
    ensures |run[k]| == |u.roles| && run[k][i].radio.flood == Floods(run, choices, i, k) && run[k][i].radio.state != Start
  {
    B.RoundPlaced(u, run, choices, k);
    if k == 0 {
      assert run[0][i] == Fresh(i, |u.roles|, WaitOf(u.slots), u.roles[i], i == u.initiator, u.thresholds[i]);
    } else {
      FloodCounts(u, run, choices, k - 1, i);
      SlotOfRound(u, run, choices, k - 1, i);
      NextFloods(run[k - 1], choices[k - 1], i);
      hide IsRound, Next, SlotAdopts, News, Completes;
    }
  }

  /** A node sees completion if and only if all flags are in, in some slot, and one that does
      not crash switches off, for good, when it has begun to send more than `FINAL_FLOOD`
      times in a row since, without news. */
  lemma SwitchesOffIff(u: Setup, run: seq<Network>, choices: seq<seq<Choice>>, k: nat, i: nat)
    requires IsRound(u, run, choices) && k + 1 < |run| && i < |u.roles|
    requires forall j :: 0 <= j <= k && i < |choices[j]| ==> !choices[j][i].crash
    ensures |run[k]| == |choices[k]| == |run[k + 1]| == |u.roles|
    ensures run[k][i].radio.state != Off ==> (run[k + 1][i].radio.state == Off <==> Floods(run, choices, i, k) > FINAL_FLOOD)
    ensures var n, r := run[k][i], run[k + 1][i];
            r.radio.complete <==> n.radio.complete || (Looks(run[k], choices[k], i) && Completes(n, PacketSeen(run[k], choices[k], i)))
  {
    SlotOfRound(u, run, choices, k, i);
    FloodCounts(u, run, choices, k, i);
    NextFloods(run[k], choices[k], i);
    hide IsRound, Next, SlotAdopts, News, Completes;
  }
}
