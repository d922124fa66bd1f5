/** Which value a proposer of Wireless Paxos proposes: the one last reported to it as
    accepted when it counted replies or lost, and its own only if there was no report.
 */
module PaxosAdoption {
  import ChaosFlags
  import opened Paxos
  import opened PaxosSteps
  import opened PaxosSafety
  import B = PaxosBallots

  // ------------------------------------------------------------------
  // What is on record as accepted
  // ------------------------------------------------------------------

  /** A proposal number with its value; number 0 is no report. */
  datatype Report = Report(proposal: nat, value: nat)

  function OnRecord(n: Node): Report
  {
    Report(n.rx.acceptedProposal, n.rx.acceptedValue)
  }

  /** The later of two reports, the second one of equals. */
  function Later(x: Report, y: Report): Report
  {
    if x.proposal > y.proposal then x else y
  }

  /** The record after a packet: one of an older ballot or phase leaves it, one of a new
      ballot or phase clears it first. A PREPARE packet reports what it carries, an ACCEPT
      packet makes the node report what it has accepted by now, if that is higher. */
  ghost predicate Records(n: Node, p: Packet, after: Report)
  {
    var newer := p.ballot > n.tx.ballot || (p.ballot == n.tx.ballot && p.phase > n.tx.phase);
    var same := p.ballot == n.tx.ballot && p.phase == n.tx.phase;
    var before := if newer then Report(0, 0) else OnRecord(n);
    var accepted := if p.ballot >= n.acceptor.minProposal then Report(p.ballot, p.value)
                    else Report(n.acceptor.acceptedProposal, n.acceptor.acceptedValue);
    if !newer && !same then after == OnRecord(n)
    else if p.phase == PREPARE then after == Later(before, Report(p.proposal, p.value))
    else if p.phase == ACCEPT then after == if accepted.proposal > before.proposal then accepted else before
    else after == before
  }

  lemma PhaseRecords(n: Node, heard: Packet, own: bool)
    requires var p := Payload(n, heard, own); n.tx.ballot == p.ballot && n.tx.phase == p.phase
    ensures Records(n, Payload(n, heard, own), OnRecord(OnPhase(n, heard, own)))
  {
  }

  lemma AcceptorRecords(n: Node, heard: Packet, own: bool, keep: bool)
    ensures Records(n, Payload(n, heard, own), OnRecord(AcceptorStep(n, heard, own, keep)))
  {
    var p := Payload(n, heard, own);
    if IsCurrent(n, p) {
      AcceptorUnfold(n, heard, own, keep);
      var t := TakeOver(n, p);
      TakeOverEffect(n, p);
      PhaseRecords(t, heard, own);
      FlagsEffect(OnPhase(t, heard, own), heard, own, IsNewPhase(n, p), keep);
      hide OnPhase, MergeFlags, LearnAndComplete, AddOwnFlag, AcceptorStep;
    }
  }

  // ------------------------------------------------------------------
  // What the proposer makes of it
  // ------------------------------------------------------------------

  /** A proposer that goes from `n` to `r` on packet `p` looks at the record: it counts a
      reply to its PREPARE, or goes on to its next ballot because it has lost. */
  predicate Consults(n: Node, p: Packet, r: Node)
  {
    && n.proposer.active && !n.proposer.gotMajority && n.proposer.loserTimeout == 0
    && ((p.ballot == n.proposer.ballot && p.phase == PREPARE && n.proposer.phase == PREPARE)
        || r.proposer.ballot != n.proposer.ballot)
  }

  /** Then a report on record replaces its value, and otherwise it keeps it. */
  ghost predicate Adopts(n: Node, p: Packet, r: Node)
  {
    r.proposer.value == if Consults(n, p, r) && r.rx.acceptedProposal > 0 then r.rx.acceptedValue else n.proposer.value
  }

  lemma OtherBallot(b: nat)
    ensures NextBallot(b) != b
  {
  }

  lemma ProposerAdopts(n: Node, heard: Packet, own: bool)
    ensures var r := ProposerStep(n, heard, own); r.rx == n.rx && Adopts(n, Payload(n, heard, own), r)
  {
    OtherBallot(n.proposer.ballot);
    hide NextBallot;
  }

  lemma PacketAdopts(n: Node, heard: Packet, own: bool, keep: bool)
    ensures var r := OnPacket(n, heard, own, keep); n.proposer.active ==> Adopts(n, Payload(n, heard, own), r)
    ensures var p, r := Payload(n, heard, own), OnPacket(n, heard, own, keep);
            p.phase != INIT || n.acceptor.minProposal > 0 ==> Records(n, p, OnRecord(r))
  {
    var p := Payload(n, heard, own);
    if p.phase != INIT || n.acceptor.minProposal > 0 {
      var a := AcceptorStep(n, heard, own, keep);
      AcceptorRecords(n, heard, own, keep);
      AcceptorDoes(n, heard, own, keep);
      ProposerAdopts(a, heard, own);
      hide AcceptorStep, ProposerStep, Merged, Records;
    }
  }

  // ------------------------------------------------------------------
  // Rounds
  // ------------------------------------------------------------------

  /** Node `i` looks at a packet in the slot: one it has heard, or, if it proposes, the one
      it has sent. */
  predicate Looks(s: Network, c: seq<Choice>, i: nat)
    requires |s| == |c| && i < |s|
  {
    || (s[i].radio.state == Listen && c[i].event.Hears? && c[i].event.from < |s|)
    || (s[i].radio.state == Send && c[i].event.Sends? && s[i].proposer.active)
  }

  function PacketSeen(s: Network, c: seq<Choice>, i: nat): Packet
    requires |s| == |c| && i < |s| && Looks(s, c, i)
  {
    if s[i].radio.state == Send then s[i].tx else s[c[i].event.from].tx
  }

  /** What one slot does to the record and the value of a node. */
  ghost predicate SlotAdopts(s: Network, c: seq<Choice>, i: nat, r: Node)
    requires |s| == |c| && i < |s|
  {
    if Looks(s, c, i) then
      var p := PacketSeen(s, c, i);
      && (s[i].proposer.active ==> Adopts(s[i], p, r))
      && (p.phase != INIT || s[i].acceptor.minProposal > 0 ==> Records(s[i], p, OnRecord(r)))
    else r.proposer == s[i].proposer && OnRecord(r) == OnRecord(s[i])
  }

  lemma AdoptsAlike(n: Node, w: Node, p: Packet, x: Node, r: Node)
    requires SameState(n, w) && SameState(x, r)
    ensures Adopts(w, p, x) <==> Adopts(n, p, r)
    ensures Records(w, p, OnRecord(x)) <==> Records(n, p, OnRecord(r))
  {
  }

  lemma NodeAdopts(s: Network, c: seq<Choice>, i: nat)
    requires Allowed(s, c) && i < |s|
    ensures SlotAdopts(s, c, i, Next(s, c, i))
  {
    assert Possible(s, c, i);
    B.NextIs(s, c, i);
    var n, e, r := s[i], c[i].event, Next(s, c, i);
    var own, heard := n.radio.state == Send, if e.Hears? then s[e.from].tx else NO_PACKET;
    if Looks(s, c, i) {
      var w := Woken(n);
      PacketAdopts(w, heard, own, c[i].keep);
      hide OnPacket, Next, Adopts, Records;
      AdoptsAlike(n, w, PacketSeen(s, c, i), OnPacket(w, heard, own, c[i].keep), r);
    } else {
      hide OnPacket, Next;
    }
  }

  lemma SlotOfRound(u: Setup, run: seq<Network>, choices: seq<seq<Choice>>, k: nat, i: nat)
    requires IsRound(u, run, choices) && k + 1 < |run| && i < |u.roles|
    ensures |run[k]| == |choices[k]| == |run[k + 1]| == |u.roles|
    ensures Allowed(run[k], choices[k]) && run[k + 1][i] == Next(run[k], choices[k], i)
    ensures SlotAdopts(run[k], choices[k], i, run[k + 1][i])
  {
    B.RoundPlaced(u, run, choices, k);
    NodeAdopts(run[k], choices[k], i);
    hide Next, SlotAdopts;
    assert run[k + 1] == Slot(run[k], choices[k]);
  }

  /** The value reported to node `i` in the last slot before network `k` in which it looked
      at its record and found a report there; the value it was given if there is none. */
  ghost function LastReported(u: Setup, run: seq<Network>, choices: seq<seq<Choice>>, k: nat, i: nat): nat
    requires IsRound(u, run, choices) && k < |run| && i < |u.roles| && u.roles[i].Proposes?
  {
    if k == 0 then u.roles[i].value
    else
      SlotOfRound(u, run, choices, k - 1, i);
      var s, c, r := run[k - 1], choices[k - 1], run[k][i];
      if Looks(s, c, i) && Consults(s[i], PacketSeen(s, c, i), r) && r.rx.acceptedProposal > 0 then r.rx.acceptedValue
      else LastReported(u, run, choices, k - 1, i)
  }

  lemma {:induction false} StaysActive(u: Setup, run: seq<Network>, choices: seq<seq<Choice>>, k: nat, i: nat)
    requires IsRound(u, run, choices) && k < |run| && i < |u.roles|
    ensures |run[k]| == |u.roles| && (run[k][i].proposer.active <==> u.roles[i].Proposes?)
  {
    B.RoundPlaced(u, run, choices, k);
    if k > 0 {
      StaysActive(u, run, choices, k - 1, i);
      SlotOfRound(u, run, choices, k - 1, i);
      NextActive(run[k - 1], choices[k - 1], i);
      hide Next;
    } else {
      assert run[0][i] == Fresh(i, |u.roles|, WaitOf(u.slots), u.roles[i], i == u.initiator, u.thresholds[i]);
    }
  }

  lemma PacketActive(n: Node, heard: Packet, own: bool, keep: bool)
    ensures OnPacket(n, heard, own, keep).proposer.active == n.proposer.active
  {
    AcceptorDoes(n, heard, own, keep);
    ProposerDoes(AcceptorStep(n, heard, own, keep), heard, own);
    hide AcceptorStep, ProposerStep, Classify, IsCurrent, Merged, NextBallot;
  }

  lemma NextActive(s: Network, c: seq<Choice>, i: nat)
    requires Allowed(s, c) && i < |s|
    ensures Next(s, c, i).proposer.active == s[i].proposer.active
  {
    assert Possible(s, c, i);
    B.NextIs(s, c, i);
    var e := c[i].event;
    PacketActive(Woken(s[i]), if e.Hears? then s[e.from].tx else NO_PACKET, s[i].radio.state == Send, c[i].keep);
    hide Next, OnPacket;
  }

  /** In every round a proposer's value is the one last reported to it, and its own only
      while there was no report. */
  lemma {:induction false} ValueIsLastReported(u: Setup, run: seq<Network>, choices: seq<seq<Choice>>, k: nat, i: nat)
    requires IsRound(u, run, choices) && k < |run| && i < |u.roles| && u.roles[i].Proposes?
    ensures |run[k]| == |u.roles| && run[k][i].proposer.value == LastReported(u, run, choices, k, i)
  {
    StaysActive(u, run, choices, k, i);
    if k == 0 {
      assert run[0][i] == Fresh(i, |u.roles|, WaitOf(u.slots), u.roles[i], i == u.initiator, u.thresholds[i]);
    } else {
      ValueIsLastReported(u, run, choices, k - 1, i);
      StaysActive(u, run, choices, k - 1, i);
      SlotOfRound(u, run, choices, k - 1, i);
      hide IsRound, Next, Records;
    }
  }

  /** Opening: from one slot to the next the proposer is in its ACCEPT phase. */
  predicate OpensPhase(n: Node, r: Node)
  {
    n.proposer.active && n.proposer.phase == PREPARE && r.proposer.phase == ACCEPT
  }

  lemma PacketOpens(n: Node, heard: Packet, own: bool, keep: bool)
    requires OpensPhase(n, OnPacket(n, heard, own, keep))
    ensures var p, r := Payload(n, heard, own), OnPacket(n, heard, own, keep);
            && Consults(n, p, r) && r.proposer.ballot == n.proposer.ballot
            && r.tx == Packet(n.proposer.ballot, ACCEPT, r.proposer.value, 0, {n.me})
  {
    AcceptorDoes(n, heard, own, keep);
    ProposerDoes(AcceptorStep(n, heard, own, keep), heard, own);
    hide AcceptorStep, ProposerStep, Classify, Merged, NextBallot;
  }

  lemma NextOpens(s: Network, c: seq<Choice>, i: nat)
    requires Allowed(s, c) && i < |s| && OpensPhase(s[i], Next(s, c, i))
    ensures var r := Next(s, c, i);
            && Looks(s, c, i) && Consults(s[i], PacketSeen(s, c, i), r)
            && r.tx == Packet(s[i].proposer.ballot, ACCEPT, r.proposer.value, 0, {s[i].me})
  {
    assert Possible(s, c, i);
    B.NextIs(s, c, i);
    var e, w := c[i].event, Woken(s[i]);
    var heard := if e.Hears? then s[e.from].tx else NO_PACKET;
    hide Next, OnPacket;
    if Looks(s, c, i) { PacketOpens(w, heard, s[i].radio.state == Send, c[i].keep); }
  }

  /** The ACCEPT packet that a proposer opens carries the value on record as accepted, and
      if nothing is on record the one last reported before, or its own. */
  lemma OpensLastReported(u: Setup, run: seq<Network>, choices: seq<seq<Choice>>, k: nat, i: nat)
    requires IsRound(u, run, choices) && k + 1 < |run| && i < |u.roles| && u.roles[i].Proposes?
    requires i < |run[k]| && i < |run[k + 1]| && OpensPhase(run[k][i], run[k + 1][i])
    ensures var r := run[k + 1][i];
            r.tx == Packet(run[k][i].proposer.ballot, ACCEPT,
                           if r.rx.acceptedProposal > 0 then r.rx.acceptedValue else LastReported(u, run, choices, k, i),
                           0, {i})
  {
    SlotOfRound(u, run, choices, k, i);
    NextOpens(run[k], choices[k], i);
    B.RoundPlaced(u, run, choices, k);
    ValueIsLastReported(u, run, choices, k, i);
    hide IsRound, Next, Records;
  }

  // ------------------------------------------------------------------
  // A late starter that has accepted
  // ------------------------------------------------------------------

  /** A proposer that hears the ACCEPT packet of a lower ballot accepts its value and starts
      its own ballot with it on record and in its packet. */
  lemma LateStart(n: Node, b: nat, v: nat, q: nat, flags: set<nat>, keep: bool)
    requires n.proposer.active && n.proposer.phase == INIT && !n.proposer.gotMajority && n.proposer.loserTimeout == 0
    requires n.acceptor.minProposal <= b && n.tx.ballot < b < n.proposer.ballot
    ensures var r := OnPacket(n, Packet(b, ACCEPT, v, q, flags), false, keep);
            && r.acceptor.acceptedProposal == b && r.acceptor.acceptedValue == v
            && OnRecord(r) == Report(b, v) && r.proposer == n.proposer.(phase := PREPARE)
            && r.tx == Packet(n.proposer.ballot, PREPARE, v, if q > b then q else b, flags + {n.me})
  {
    hide ChaosFlags.AllSet, CountReplies;
  }

  /** When it then sends that packet and has a majority of flags, it opens ACCEPT with the
      value it accepted, whatever it was given. */
  lemma LateStarterOpens(n: Node, b: nat, v: nat, keep: bool)
    requires n.proposer.active && n.proposer.phase == PREPARE && !n.proposer.gotMajority && n.proposer.loserTimeout == 0
    requires n.tx.ballot == n.proposer.ballot && n.tx.phase == PREPARE && n.tx.value == v && 0 < b <= n.tx.proposal
    requires n.rx.acceptedProposal == b && n.rx.acceptedValue == v && n.tx.proposal <= n.proposer.ballot
    requires n.rx.minProposal <= n.proposer.ballot && |n.tx.flags + {n.me}| > n.count / 2
    ensures var r := OnPacket(n, NO_PACKET, true, keep);
            r.tx == Packet(n.proposer.ballot, ACCEPT, v, 0, {n.me}) && r.proposer.value == v && r.proposer.phase == ACCEPT
  {
    hide ChaosFlags.AllSet;
    assert n.tx.flags + n.tx.flags == n.tx.flags;
  }

  /** For example node 2 of 3, given 9, hears 7 under ballot 1 of node 0. */
  lemma SevenNotNine(keep: bool)
    ensures var n := Fresh(2, 3, 255, Proposes(9), false, 4);
            var r := OnPacket(n, Packet(256, ACCEPT, 7, 256, {0, 1}), false, keep);
            OnPacket(r, NO_PACKET, true, keep).tx == Packet(258, ACCEPT, 7, 0, {2})
  {
    var n := Fresh(2, 3, 255, Proposes(9), false, 4);
    LateStart(n, 256, 7, 256, {0, 1}, keep);
    var r := OnPacket(n, Packet(256, ACCEPT, 7, 256, {0, 1}), false, keep);
    assert {0, 1} + {2} == {0, 1, 2} && |{0, 1, 2}| == 3;
    LateStartCounts(n, Packet(256, ACCEPT, 7, 256, {0, 1}), keep);
    hide OnPacket;
    LateStarterOpens(r, 256, 7, keep);
  }

  /** What `LateStart` leaves in the aggregate of promises. */
  lemma LateStartCounts(n: Node, p: Packet, keep: bool)
    requires n.proposer.active && n.proposer.phase == INIT && !n.proposer.gotMajority && n.proposer.loserTimeout == 0
    requires p.phase == ACCEPT && n.acceptor.minProposal <= p.ballot && n.tx.ballot < p.ballot < n.proposer.ballot
    ensures var r := OnPacket(n, p, false, keep);
            r.rx.minProposal == Max(p.proposal, p.ballot) && r.count == n.count && r.me == n.me
  {
    hide ChaosFlags.AllSet, CountReplies;
  }

  // ------------------------------------------------------------------
  // What a ballot is announced with is what it is opened with
  // ------------------------------------------------------------------

  /** All PREPARE packets of ballot `b` report `q` with value `v`, and so does what is on
      record from them. */
  ghost predicate Voices(n: Node, b: nat, q: nat, v: nat)
  {
    n.tx.ballot == b && n.tx.phase == PREPARE ==>
      && n.tx.proposal == q && n.tx.value == v
      && n.rx.acceptedProposal <= q && (n.rx.acceptedProposal > 0 ==> n.rx.acceptedValue == v)
  }

  predicate PacketVoices(p: Packet, b: nat, q: nat, v: nat)
  {
    p.ballot == b && p.phase == PREPARE ==> p.proposal == q && p.value == v
  }

  /** The owner of `b` is past its start and has not lost; no one else has a ballot like it. */
  predicate KeepsBallot(n: Node, b: nat)
  {
    n.proposer.active ==>
      && n.proposer.ballot % 256 == n.me
      && (n.me == b % 256 ==> n.proposer.ballot == b && n.proposer.phase != INIT && n.proposer.loserTimeout == 0)
  }

  lemma PhaseVoices(n: Node, heard: Packet, own: bool, b: nat, q: nat, v: nat)
    requires var p := Payload(n, heard, own); n.tx.ballot == p.ballot && n.tx.phase == p.phase && PacketVoices(p, b, q, v)
    requires Voices(n, b, q, v)
    ensures Voices(OnPhase(n, heard, own), b, q, v)
    ensures var p, r := Payload(n, heard, own), OnPhase(n, heard, own);
            p.ballot == b && p.phase == PREPARE ==> OnRecord(r) == Report(q, v)
  {
  }

  lemma AcceptorVoices(n: Node, heard: Packet, own: bool, keep: bool, b: nat, q: nat, v: nat)
    requires Voices(n, b, q, v) && PacketVoices(Payload(n, heard, own), b, q, v)
    ensures Voices(AcceptorStep(n, heard, own, keep), b, q, v)
    ensures var p, r := Payload(n, heard, own), AcceptorStep(n, heard, own, keep);
            p.ballot == b && p.phase == PREPARE && IsCurrent(n, p) ==> OnRecord(r) == Report(q, v)
  {
    var p := Payload(n, heard, own);
    if IsCurrent(n, p) {
      AcceptorUnfold(n, heard, own, keep);
      var t := TakeOver(n, p);
      TakeOverEffect(n, p);
      PhaseVoices(t, heard, own, b, q, v);
      FlagsEffect(OnPhase(t, heard, own), heard, own, IsNewPhase(n, p), keep);
      hide OnPhase, TakeOver, MergeFlags, LearnAndComplete, AddOwnFlag, AcceptorStep;
    }
  }

  lemma MoveVoices(a: Node, p: Packet, r: Node, m: Move, b: nat, q: nat, v: nat)
    requires Voices(a, b, q, v) && KeepsBallot(a, b) && Moves(a, p, r, m)
    ensures Voices(r, b, q, v)
  {
    OtherBallot(a.proposer.ballot);
    assert NextBallot(a.proposer.ballot) % 256 == a.proposer.ballot % 256;
    hide NextBallot;
  }

  lemma PacketVoicesKept(n: Node, heard: Packet, own: bool, keep: bool, b: nat, q: nat, v: nat)
    requires Voices(n, b, q, v) && KeepsBallot(n, b) && b > 0 && (own || PacketVoices(heard, b, q, v))
    requires heard.phase == INIT ==> heard.ballot != b
    requires n.tx.phase == INIT ==> n.tx.ballot != b
    ensures Voices(OnPacket(n, heard, own, keep), b, q, v)
  {
    var p := Payload(n, heard, own);
    if p.phase != INIT || n.acceptor.minProposal > 0 {
      var a := AcceptorStep(n, heard, own, keep);
      AcceptorVoices(n, heard, own, keep, b, q, v);
      AcceptorDoes(n, heard, own, keep);
      ProposerDoes(a, heard, own);
      MoveVoices(a, Payload(a, heard, own), ProposerStep(a, heard, own), Classify(a, Payload(a, heard, own)), b, q, v);
      hide AcceptorStep, ProposerStep, Classify, Merged, Moves, Voices;
    }
  }

  /** Every node's ballots carry its index, and a heartbeat carries none. */
  ghost predicate Tidy(n: Node)
  {
    && n.me < 256 && (n.tx.phase == INIT ==> n.tx.ballot == 0)
    && (n.proposer.active ==> n.proposer.ballot % 256 == n.me && (n.proposer.loserTimeout > 0 ==> n.proposer.phase == PREPARE))
  }

  /** A proposer that has not started has heard nothing. */
  ghost predicate Unheard(n: Node)
  {
    n.me < 256 && (n.proposer.active && n.proposer.phase == INIT ==>
      && n.proposer.ballot == Ballot(1, n.me) && n.proposer.loserTimeout == 0 && !n.proposer.gotMajority
      && n.tx.ballot == 0 && n.tx.phase == INIT && n.tx.proposal == 0
      && n.acceptor == Acceptor(0, 0, 0) && n.rx.acceptedProposal == 0)
  }

  lemma NextKeepsOwner(b: nat)
    ensures NextBallot(b) % 256 == b % 256
  {
  }

  lemma MoveBallot(a: Node, p: Packet, r: Node, m: Move)
    requires Tidy(a) && Moves(a, p, r, m)
    ensures Tidy(r) && r.me == a.me && (r.proposer.active ==> a.proposer.active)
    ensures r.tx.ballot == a.tx.ballot || (a.proposer.active && r.tx.ballot % 256 == a.me)
    ensures r.proposer.phase == INIT ==> a.proposer.phase == INIT
  {
    NextKeepsOwner(a.proposer.ballot);
    hide NextBallot;
  }

  /** Where the ballot in a buffer comes from, and that no proposer starts twice. */
  lemma PacketBallot(n: Node, heard: Packet, own: bool, keep: bool)
    requires Tidy(n) && (own || (heard.phase == INIT ==> heard.ballot == 0))
    ensures var p, r := Payload(n, heard, own), OnPacket(n, heard, own, keep);
            && Tidy(r) && r.me == n.me && (r.proposer.active ==> n.proposer.active)
            && (r.tx.ballot == n.tx.ballot || r.tx.ballot == p.ballot || (n.proposer.active && r.tx.ballot % 256 == n.me))
            && (r.proposer.phase == INIT ==> n.proposer.phase == INIT)
  {
    var p := Payload(n, heard, own);
    if p.phase != INIT || n.acceptor.minProposal > 0 {
      var a := AcceptorStep(n, heard, own, keep);
      AcceptorDoes(n, heard, own, keep);
      ProposerDoes(a, heard, own);
      hide AcceptorStep, ProposerStep, Classify, Merged, NextBallot, Moves;
      MoveBallot(a, Payload(a, heard, own), ProposerStep(a, heard, own), Classify(a, Payload(a, heard, own)));
    }
  }

  /** What a proposer that has just started announces. */
  ghost predicate Started(r: Node, b: nat)
  {
    && r.tx.ballot == b && r.tx.phase == PREPARE && Voices(r, b, r.tx.proposal, r.tx.value)
    && KeepsBallot(r, b) && !r.proposer.gotMajority
    && (r.acceptor.acceptedProposal > 0 ==> OnRecord(r) == Report(r.acceptor.acceptedProposal, r.acceptor.acceptedValue))
  }

  lemma HeartbeatStarts(n: Node, p: Packet)
    requires n.proposer.active && n.proposer.phase == INIT && Unheard(n)
    ensures var r := OnHeartbeat(n, p); Started(r, Ballot(1, n.me)) && r.proposer.value == n.proposer.value
  {
  }

  lemma ReportStarts(n: Node, p: Packet, keep: bool)
    requires n.proposer.active && n.proposer.phase == INIT && Unheard(n) && p.phase != INIT && p.ballot < Ballot(1, n.me)
    ensures var r := ProposerStep(AcceptorStep(n, p, false, keep), p, false);
            Started(r, Ballot(1, n.me)) && r.proposer.value == n.proposer.value
  {
    AcceptorRecords(n, p, false, keep);
    FirstReport(n, p, keep);
    hide AcceptorStep, CountReplies, NextBallot, Ballot;
  }

  /** What the first packet of a node leaves in its buffer. */
  lemma FirstReport(n: Node, p: Packet, keep: bool)
    requires n.tx.ballot == 0 && n.tx.phase == INIT && n.acceptor == Acceptor(0, 0, 0) && p.phase != INIT
    ensures var a := AcceptorStep(n, p, false, keep);
            && (a.acceptor.acceptedProposal > 0 ==> p.phase == ACCEPT && a.acceptor == Acceptor(p.ballot, p.ballot, p.value))
            && a.proposer == n.proposer && a.me == n.me && a.tx.ballot == p.ballot && a.tx.phase == p.phase
            && (p.phase == PREPARE ==> a.tx.proposal == p.proposal && a.tx.value == p.value)
            && (p.phase == ACCEPT ==> a.tx.proposal == Max(p.proposal, p.ballot) && a.tx.value == p.value)
  {
    hide ChaosFlags.AllSet;
  }

  lemma LossLeaves(n: Node, p: Packet, own: bool)
    requires n.proposer.active && n.proposer.phase == INIT && !n.proposer.gotMajority && n.proposer.loserTimeout == 0
    requires p.ballot > n.proposer.ballot && !own
    ensures var r := ProposerStep(n, p, own); r.proposer.ballot != n.proposer.ballot && r.proposer.phase == PREPARE
  {
    OtherBallot(n.proposer.ballot);
    hide NextBallot;
  }

  /** A proposer's first packet makes it start, with what the packet says on record and in
      its own packet, or lose. */
  lemma PacketStarts(n: Node, p: Packet, keep: bool)
    requires n.proposer.active && n.proposer.phase == INIT && Unheard(n) && Tidy(n)
    requires p.ballot != Ballot(1, n.me) && (p.phase == INIT ==> p.ballot == 0)
    ensures var r, b := OnPacket(n, p, false, keep), Ballot(1, n.me);
            && r.proposer.phase != INIT
            && (r.proposer.ballot == b ==> Started(r, b) && r.proposer.value == n.proposer.value)
  {
    if p.phase == INIT {
      HeartbeatStarts(n, p);
    } else {
      AcceptorDoes(n, p, false, keep);
      if p.ballot < Ballot(1, n.me) {
        ReportStarts(n, p, keep);
      } else {
        LossLeaves(AcceptorStep(n, p, false, keep), p, false);
      }
    }
    hide AcceptorStep, ProposerStep, OnHeartbeat, Merged, Ballot;
  }

  // ----- The same over slots -----

  ghost predicate AllTidy(s: Network)
  {
    forall j :: 0 <= j < |s| ==> Tidy(s[j]) && s[j].me == j
  }

  ghost predicate NoneHas(s: Network, b: nat)
  {
    forall j :: 0 <= j < |s| ==> s[j].tx.ballot != b
  }

  ghost predicate AllVoice(s: Network, b: nat, q: nat, v: nat)
  {
    forall j :: 0 <= j < |s| ==> Voices(s[j], b, q, v) && KeepsBallot(s[j], b)
  }

  lemma NextTidy(s: Network, c: seq<Choice>, i: nat)
    requires Allowed(s, c) && i < |s| && AllTidy(s)
    ensures var n, r := s[i], Next(s, c, i);
            && Tidy(r) && r.me == i && (r.proposer.phase == INIT ==> n.proposer.phase == INIT)
            && (r.tx.ballot == n.tx.ballot || (n.proposer.active && r.tx.ballot % 256 == i)
                || (Looks(s, c, i) && r.tx.ballot == PacketSeen(s, c, i).ballot))
  {
    assert Possible(s, c, i) && Tidy(s[i]);
    B.NextIs(s, c, i);
    var e, own := c[i].event, s[i].radio.state == Send;
    if e.Hears? { assert Tidy(s[e.from]); }
    if Looks(s, c, i) { PacketBallot(Woken(s[i]), if e.Hears? then s[e.from].tx else NO_PACKET, own, c[i].keep); }
    hide Next, OnPacket;
  }

  /** A proposer that starts in a slot in which no one has its ballot yet. */
  lemma NextStarts(s: Network, c: seq<Choice>, i: nat)
    requires Allowed(s, c) && i < |s| <= 256 && AllTidy(s) && NoneHas(s, Ballot(1, i))
    requires s[i].proposer.active && s[i].proposer.phase == INIT && Unheard(s[i]) && s[i].radio.state != Send
    ensures var r, b := Next(s, c, i), Ballot(1, i);
            if Looks(s, c, i) then
              r.proposer.phase != INIT && (r.proposer.ballot == b ==> Started(r, b) && r.proposer.value == s[i].proposer.value)
            else r.proposer == s[i].proposer && Unheard(r)
  {
    assert Possible(s, c, i) && Tidy(s[i]);
    B.NextIs(s, c, i);
    var e := c[i].event;
    if Looks(s, c, i) {
      assert Tidy(s[e.from]);
      PacketStarts(Woken(s[i]), s[e.from].tx, c[i].keep);
    }
    hide Next, OnPacket, Ballot;
  }

  /** A proposer that has not started listens, and cannot send. */
  ghost predicate Mute(n: Node)
  {
    n.proposer.active && n.proposer.phase == INIT ==> !n.radio.synced && n.radio.state != Send && Unheard(n)
  }

  lemma NextMute(s: Network, c: seq<Choice>, i: nat)
    requires Allowed(s, c) && i < |s| && Mute(s[i]) && !Looks(s, c, i) && s[i].proposer.active && s[i].proposer.phase == INIT
    ensures !Next(s, c, i).radio.synced && Next(s, c, i).radio.state != Send
  {
    assert Possible(s, c, i);
  }

  lemma StillNone(s: Network, c: seq<Choice>, i: nat, j: nat)
    requires Allowed(s, c) && i < |s| <= 256 && j < |s| && i != j && AllTidy(s) && NoneHas(s, Ballot(1, i))
    ensures Next(s, c, j).tx.ballot != Ballot(1, i)
  {
    assert Possible(s, c, j);
    NextTidy(s, c, j);
    hide Next;
  }

  lemma StartTidy(u: Setup, i: nat)
    requires ValidSetup(u) && i < |u.roles| && u.roles[i].Proposes?
    ensures var s := Begin(u);
            && AllTidy(s) && Mute(s[i]) && s[i].proposer.active && s[i].proposer.value == u.roles[i].value
            && (s[i].proposer.phase == INIT ==> NoneHas(s, Ballot(1, i)))
            && (s[i].proposer.phase != INIT ==> Started(s[i], Ballot(1, i)) && forall j :: 0 <= j < |s| && j != i ==> s[j].tx.ballot == 0)
  {
    var s := Begin(u);
    forall j | 0 <= j < |s|
      ensures s[j] == Fresh(j, |u.roles|, WaitOf(u.slots), u.roles[j], j == u.initiator, u.thresholds[j])
    {
    }
  }

  lemma FirstBallotIs(i: nat)
    requires i < 256
    ensures Ballot(1, i) == 256 + i
  {
  }

  lemma SlotTidy(u: Setup, run: seq<Network>, choices: seq<seq<Choice>>, k: nat)
    requires IsRound(u, run, choices) && 0 < k < |run| && |run[k - 1]| == |run[k]| == |u.roles| && AllTidy(run[k - 1])
    ensures AllTidy(run[k])
  {
    forall j | 0 <= j < |run[k]|
      ensures Tidy(run[k][j]) && run[k][j].me == j
    {
      SlotOfRound(u, run, choices, k - 1, j);
      NextTidy(run[k - 1], choices[k - 1], j);
    }
  }

  lemma SlotNone(u: Setup, run: seq<Network>, choices: seq<seq<Choice>>, k: nat, i: nat)
    requires IsRound(u, run, choices) && 0 < k < |run| && i < |u.roles| && |run[k - 1]| == |run[k]| == |u.roles| <= 256
    requires AllTidy(run[k - 1]) && NoneHas(run[k - 1], Ballot(1, i)) && run[k][i].tx.ballot != Ballot(1, i)
    ensures NoneHas(run[k], Ballot(1, i))
  {
    forall j | 0 <= j < |run[k]|
      ensures run[k][j].tx.ballot != Ballot(1, i)
    {
      SlotOfRound(u, run, choices, k - 1, j);
      if j != i { StillNone(run[k - 1], choices[k - 1], i, j); }
      hide Next, IsRound;
    }
  }

  /** Until it starts, no one has the first ballot of proposer `i`. */
  lemma {:induction false} BeforeStart(u: Setup, run: seq<Network>, choices: seq<seq<Choice>>, k: nat, i: nat)
    requires IsRound(u, run, choices) && k < |run| && i < |u.roles| && u.roles[i].Proposes?
    ensures |run[k]| == |u.roles| <= 256 && AllTidy(run[k]) && Mute(run[k][i]) && run[k][i].proposer.active
    ensures run[k][i].proposer.phase == INIT ==> NoneHas(run[k], Ballot(1, i)) && run[k][i].proposer.value == u.roles[i].value
  {
    StaysActive(u, run, choices, k, i);
    if k == 0 {
      StartTidy(u, i);
    } else {
      BeforeStart(u, run, choices, k - 1, i);
      var s, c, t := run[k - 1], choices[k - 1], run[k];
      SlotOfRound(u, run, choices, k - 1, i);
      SlotTidy(u, run, choices, k);
      NextTidy(s, c, i);
      hide IsRound, Next, SlotAdopts, Tidy;
      if t[i].proposer.phase == INIT {
        NextStarts(s, c, i);
        NextMute(s, c, i);
        FirstBallotIs(i);
        SlotNone(u, run, choices, k, i);
      }
    }
  }

  /** Proposer `i` starts at network `m`: it is past its start, it was not before, and it
      has not lost at once. */
  ghost predicate StartsAt(run: seq<Network>, m: nat, i: nat)
  {
    && m < |run| && i < |run[m]| && i < 256
    && run[m][i].proposer.phase != INIT && run[m][i].proposer.ballot == Ballot(1, i)
    && (m > 0 ==> i < |run[m - 1]| && run[m - 1][i].proposer.phase == INIT)
  }

  lemma OtherKeeps(n: Node, b: nat)
    requires Tidy(n) && n.me != b % 256
    ensures KeepsBallot(n, b)
  {
  }

  lemma NoVoice(n: Node, b: nat, q: nat, v: nat)
    requires n.tx.ballot != b
    ensures Voices(n, b, q, v)
  {
  }

  /** From its start on, there is one report with its ballot. */
  lemma VoiceAtStart(u: Setup, run: seq<Network>, choices: seq<seq<Choice>>, m: nat, i: nat)
    requires IsRound(u, run, choices) && i < |u.roles| && u.roles[i].Proposes? && StartsAt(run, m, i)
    ensures |run[m]| == |u.roles| <= 256 && AllTidy(run[m]) && run[m][i].proposer.value == u.roles[i].value
    ensures var r := run[m][i]; Started(r, Ballot(1, i)) && AllVoice(run[m], Ballot(1, i), r.tx.proposal, r.tx.value)
  {
    var b := Ballot(1, i);
    BeforeStart(u, run, choices, m, i);
    if m == 0 {
      StartTidy(u, i);
    } else {
      BeforeStart(u, run, choices, m - 1, i);
      SlotOfRound(u, run, choices, m - 1, i);
      NextStarts(run[m - 1], choices[m - 1], i);
    }
    var r := run[m][i];
    forall j | 0 <= j < |run[m]|
      ensures Voices(run[m][j], b, r.tx.proposal, r.tx.value) && KeepsBallot(run[m][j], b)
    {
      FirstBallotIs(i);
      assert Tidy(run[m][j]);
      if j != i {
        if m > 0 {
          SlotOfRound(u, run, choices, m - 1, j);
          StillNone(run[m - 1], choices[m - 1], i, j);
        }
        NoVoice(run[m][j], b, r.tx.proposal, r.tx.value);
        OtherKeeps(run[m][j], b);
      }
    }
  }

  lemma NextVoices(s: Network, c: seq<Choice>, j: nat, b: nat, q: nat, v: nat)
    requires Allowed(s, c) && j < |s| && AllTidy(s) && AllVoice(s, b, q, v) && b > 0
    ensures Voices(Next(s, c, j), b, q, v)
  {
    assert Possible(s, c, j) && Voices(s[j], b, q, v) && KeepsBallot(s[j], b) && Tidy(s[j]);
    B.NextIs(s, c, j);
    var e, own, w := c[j].event, s[j].radio.state == Send, Woken(s[j]);
    if Looks(s, c, j) {
      if e.Hears? { assert Voices(s[e.from], b, q, v) && Tidy(s[e.from]); }
      PacketVoicesKept(w, if e.Hears? then s[e.from].tx else NO_PACKET, own, c[j].keep, b, q, v);
    }
    hide Next, OnPacket;
  }

  /** While it has not lost, its owner keeps the ballot. */
  lemma PacketKeepsBallot(n: Node, heard: Packet, own: bool, keep: bool)
    requires n.proposer.active && n.proposer.phase != INIT && n.proposer.loserTimeout == 0
    ensures var r := OnPacket(n, heard, own, keep);
            r.proposer.ballot == n.proposer.ballot ==> r.proposer.phase != INIT && r.proposer.loserTimeout == 0
  {
    AcceptorDoes(n, heard, own, keep);
    ProposerDoes(AcceptorStep(n, heard, own, keep), heard, own);
    OtherBallot(n.proposer.ballot);
    hide AcceptorStep, ProposerStep, Classify, Merged, NextBallot, IsCurrent;
  }

  lemma NextKeepsBallot(s: Network, c: seq<Choice>, i: nat, b: nat)
    requires Allowed(s, c) && i < |s| && AllTidy(s) && KeepsBallot(s[i], b) && i == b % 256 && s[i].proposer.active
    requires Next(s, c, i).proposer.ballot == b
    ensures KeepsBallot(Next(s, c, i), b)
  {
    assert Possible(s, c, i) && Tidy(s[i]);
    B.NextIs(s, c, i);
    NextTidy(s, c, i);
    var e := c[i].event;
    if Looks(s, c, i) {
      PacketKeepsBallot(Woken(s[i]), if e.Hears? then s[e.from].tx else NO_PACKET, s[i].radio.state == Send, c[i].keep);
    }
    hide Next, OnPacket;
  }

  /** Proposer `i` has its first ballot from `m` to `k`. */
  ghost predicate HoldsFirst(run: seq<Network>, m: nat, k: nat, i: nat)
  {
    forall j :: m <= j <= k && j < |run| && i < |run[j]| && i < 256 ==> run[j][i].proposer.ballot == Ballot(1, i)
  }

  lemma {:induction false} VoiceAfterStart(u: Setup, run: seq<Network>, choices: seq<seq<Choice>>, m: nat, k: nat, i: nat)
    requires IsRound(u, run, choices) && i < |u.roles| && u.roles[i].Proposes? && StartsAt(run, m, i)
    requires m <= k < |run| && HoldsFirst(run, m, k, i)
    ensures |run[k]| == |u.roles| <= 256 && AllTidy(run[k]) && run[k][i].proposer.active && i < |run[m]|
    ensures AllVoice(run[k], Ballot(1, i), run[m][i].tx.proposal, run[m][i].tx.value)
    decreases k
  {
    hide IsRound, AllVoice, AllTidy, Mute, NoneHas, Started;
    BeforeStart(u, run, choices, k, i);
    VoiceAtStart(u, run, choices, m, i);
    if k > m {
      VoiceAfterStart(u, run, choices, m, k - 1, i);
      SlotVoices(u, run, choices, m, k - 1, i);
    }
  }

  lemma SlotVoices(u: Setup, run: seq<Network>, choices: seq<seq<Choice>>, m: nat, k: nat, i: nat)
    requires IsRound(u, run, choices) && i < |u.roles| <= 256 && m <= k && k + 1 < |run| && i < |run[m]|
    requires |run[k]| == |run[k + 1]| == |u.roles| && AllTidy(run[k]) && AllTidy(run[k + 1]) && run[k][i].proposer.active
    requires AllVoice(run[k], Ballot(1, i), run[m][i].tx.proposal, run[m][i].tx.value)
    requires run[k + 1][i].proposer.ballot == Ballot(1, i)
    ensures AllVoice(run[k + 1], Ballot(1, i), run[m][i].tx.proposal, run[m][i].tx.value)
  {
    var b, q, v, t := Ballot(1, i), run[m][i].tx.proposal, run[m][i].tx.value, run[k + 1];
    FirstBallotIs(i);
    forall j | 0 <= j < |t|
      ensures Voices(t[j], b, q, v) && KeepsBallot(t[j], b)
    {
      SlotOfRound(u, run, choices, k, j);
      NextVoices(run[k], choices[k], j, b, q, v);
      assert KeepsBallot(run[k][j], b) && Tidy(t[j]) && t[j].me == j;
      hide IsRound, Next, Voices, SlotAdopts, KeepsBallot, Tidy;
      if j == i {
        NextKeepsBallot(run[k], choices[k], i, b);
      } else {
        OtherKeeps(t[j], b);
      }
    }
  }

  // ----- Until it opens -----

  /** The owner of `b` is still preparing: it has its ballot in its buffer, and nobody has
      an ACCEPT packet of it. */
  ghost predicate Unopened(n: Node, b: nat)
  {
    && (n.tx.ballot == b ==> n.tx.phase == PREPARE)
    && (n.me == b % 256 ==> n.tx.ballot == b && !n.proposer.gotMajority)
  }

  ghost predicate AllUnopened(s: Network, b: nat)
  {
    forall j :: 0 <= j < |s| ==> Unopened(s[j], b)
  }

  lemma MoveUnopened(n: Node, p: Packet, a: Node, q: Packet, r: Node, m: Move, b: nat)
    requires Unopened(n, b) && KeepsBallot(n, b) && (p.ballot == b ==> p.phase == PREPARE)
    requires AcceptorEffect(n, p, a) && Moves(a, q, r, m) && q.ballot == p.ballot
    requires n.me == b % 256 ==> n.proposer.active && n.proposer.phase == PREPARE && r.proposer.ballot == b && r.proposer.phase == PREPARE
    ensures Unopened(r, b)
  {
    OtherBallot(n.proposer.ballot);
    NextKeepsOwner(n.proposer.ballot);
    hide NextBallot, Merged;
  }

  lemma PacketUnopened(n: Node, heard: Packet, own: bool, keep: bool, b: nat)
    requires Unopened(n, b) && KeepsBallot(n, b) && b > 0 && (own || (heard.ballot == b ==> heard.phase == PREPARE))
    requires var r := OnPacket(n, heard, own, keep);
             n.me == b % 256 ==> n.proposer.active && n.proposer.phase == PREPARE && r.proposer.ballot == b && r.proposer.phase == PREPARE
    ensures Unopened(OnPacket(n, heard, own, keep), b)
  {
    var p := Payload(n, heard, own);
    if p.phase != INIT || n.acceptor.minProposal > 0 {
      var a := AcceptorStep(n, heard, own, keep);
      AcceptorDoes(n, heard, own, keep);
      ProposerDoes(a, heard, own);
      assert Payload(a, heard, own).ballot == p.ballot;
      hide AcceptorStep, ProposerStep, Classify, Merged, Moves, Unopened, AcceptorEffect;
      MoveUnopened(n, p, a, Payload(a, heard, own), ProposerStep(a, heard, own), Classify(a, Payload(a, heard, own)), b);
    }
  }

  lemma NextUnopened(s: Network, c: seq<Choice>, j: nat, b: nat, q: nat, v: nat)
    requires Allowed(s, c) && j < |s| && AllTidy(s) && AllUnopened(s, b) && AllVoice(s, b, q, v) && b > 0
    requires var r := Next(s, c, j);
             j == b % 256 ==> s[j].proposer.active && s[j].proposer.phase == PREPARE && r.proposer.ballot == b && r.proposer.phase == PREPARE
    ensures Unopened(Next(s, c, j), b)
  {
    assert Possible(s, c, j) && Unopened(s[j], b) && KeepsBallot(s[j], b) && Tidy(s[j]);
    B.NextIs(s, c, j);
    var e, own, w := c[j].event, s[j].radio.state == Send, Woken(s[j]);
    if Looks(s, c, j) {
      if e.Hears? { assert Unopened(s[e.from], b); }
      PacketUnopened(w, if e.Hears? then s[e.from].tx else NO_PACKET, own, c[j].keep, b);
    }
    hide Next, OnPacket;
  }

  /** On a PREPARE packet of its ballot the owner records the one report there is. */
  lemma ConsultsVoice(s: Network, c: seq<Choice>, i: nat, b: nat, q: nat, v: nat)
    requires Allowed(s, c) && i < |s| && i == b % 256 && AllTidy(s) && AllUnopened(s, b) && AllVoice(s, b, q, v) && b > 0
    requires s[i].proposer.active && Next(s, c, i).proposer.ballot == b
    ensures var r := Next(s, c, i);
            r.proposer.value == if Looks(s, c, i) && Consults(s[i], PacketSeen(s, c, i), r) && q > 0 then v else s[i].proposer.value
  {
    NodeAdopts(s, c, i);
    assert Possible(s, c, i) && Unopened(s[i], b) && KeepsBallot(s[i], b) && Tidy(s[i]) && Voices(s[i], b, q, v);
    if Looks(s, c, i) {
      if c[i].event.Hears? { assert Voices(s[c[i].event.from], b, q, v) && Tidy(s[c[i].event.from]); }
      var p, r := PacketSeen(s, c, i), Next(s, c, i);
      if Consults(s[i], p, r) {
        assert p.ballot == b && p.phase == PREPARE;
        assert OnRecord(r) == Report(q, v);
      }
    }
    hide Next;
  }

  /** Until it opens, everything is as at the start, its value too if there was no report. */
  ghost predicate StillPreparing(s: Network, i: nat, b: nat, q: nat, v: nat, own: nat)
    requires i < |s|
  {
    && AllVoice(s, b, q, v) && AllTidy(s)
    && (s[i].proposer.phase == PREPARE ==> AllUnopened(s, b) && (q == 0 ==> s[i].proposer.value == own))
  }

  lemma {:induction false} PreparesOn(u: Setup, run: seq<Network>, choices: seq<seq<Choice>>, m: nat, k: nat, i: nat)
    requires IsRound(u, run, choices) && i < |u.roles| && u.roles[i].Proposes? && StartsAt(run, m, i)
    requires m <= k < |run| && HoldsFirst(run, m, k, i)
    ensures |run[k]| == |u.roles| <= 256 && i < |run[m]| && run[k][i].proposer.active
    ensures StillPreparing(run[k], i, Ballot(1, i), run[m][i].tx.proposal, run[m][i].tx.value, u.roles[i].value)
    decreases k
  {
    hide AllVoice, AllTidy, AllUnopened, IsRound, Started, Slot, Ballot;
    VoiceAfterStart(u, run, choices, m, k, i);
    VoiceAtStart(u, run, choices, m, i);
    if k == m {
      UnopenedAtStart(u, run, choices, m, i);
    } else {
      PreparesOn(u, run, choices, m, k - 1, i);
      VoiceAfterStart(u, run, choices, m, k - 1, i);
      SlotIs(u, run, choices, k - 1);
      if run[k][i].proposer.phase == PREPARE {
        SlotPrepares(run[k - 1], choices[k - 1], i, Ballot(1, i), run[m][i].tx.proposal, run[m][i].tx.value, u.roles[i].value);
      }
    }
  }

  lemma SlotIs(u: Setup, run: seq<Network>, choices: seq<seq<Choice>>, k: nat)
    requires IsRound(u, run, choices) && k + 1 < |run|
    ensures k < |choices| && Allowed(run[k], choices[k]) && run[k + 1] == Slot(run[k], choices[k])
  {
  }

  lemma SlotPrepares(s: Network, c: seq<Choice>, i: nat, b: nat, q: nat, v: nat, own: nat)
    requires Allowed(s, c) && i < |s| <= 256 && b == Ballot(1, i) && s[i].proposer.active
    requires StillPreparing(s, i, b, q, v, own)
    requires var r := Slot(s, c)[i]; r.proposer.ballot == b && r.proposer.phase == PREPARE
    ensures AllUnopened(Slot(s, c), b) && (q == 0 ==> Slot(s, c)[i].proposer.value == own)
  {
    FirstBallotIs(i);
    assert KeepsBallot(s[i], b);
    hide Ballot, Next;
    StaysPreparing(s, c, i, b);
    ConsultsVoice(s, c, i, b, q, v);
    AllStayUnopened(s, c, i, b, q, v);
  }

  lemma AllStayUnopened(s: Network, c: seq<Choice>, i: nat, b: nat, q: nat, v: nat)
    requires Allowed(s, c) && i < |s| <= 256 && b % 256 == i && b > 0 && AllTidy(s) && AllVoice(s, b, q, v) && AllUnopened(s, b)
    requires s[i].proposer.active && s[i].proposer.phase == PREPARE
    requires var r := Slot(s, c)[i]; r.proposer.ballot == b && r.proposer.phase == PREPARE
    ensures AllUnopened(Slot(s, c), b)
  {
    hide Next, AllTidy, AllVoice, AllUnopened;
    forall j | 0 <= j < |s|
      ensures Unopened(Slot(s, c)[j], b)
    {
      NextUnopened(s, c, j, b, q, v);
    }
    UnopenedAll(Slot(s, c), b);
  }

  lemma UnopenedAll(s: Network, b: nat)
    requires forall j :: 0 <= j < |s| ==> Unopened(s[j], b)
    ensures AllUnopened(s, b)
  {
  }

  lemma UnopenedAtStart(u: Setup, run: seq<Network>, choices: seq<seq<Choice>>, m: nat, i: nat)
    requires IsRound(u, run, choices) && i < |u.roles| && u.roles[i].Proposes? && StartsAt(run, m, i)
    ensures AllUnopened(run[m], Ballot(1, i))
  {
    VoiceAtStart(u, run, choices, m, i);
    FirstBallotIs(i);
    forall j | 0 <= j < |run[m]|
      ensures Unopened(run[m][j], Ballot(1, i))
    {
      assert Tidy(run[m][j]) && run[m][j].me == j;
      hide IsRound, AllVoice, Voices, KeepsBallot;
      if j != i { OthersHaveNot(u, run, choices, m, i, j); } else { NoMajorityYet(u, run, choices, m, i); }
    }
  }

  lemma OthersHaveNot(u: Setup, run: seq<Network>, choices: seq<seq<Choice>>, m: nat, i: nat, j: nat)
    requires IsRound(u, run, choices) && i < |u.roles| <= 256 && u.roles[i].Proposes? && StartsAt(run, m, i)
    requires |run[m]| == |u.roles| && j < |run[m]| && j != i
    ensures run[m][j].tx.ballot != Ballot(1, i)
  {
    FirstBallotIs(i);
    if m == 0 {
      StartTidy(u, i);
    } else {
      BeforeStart(u, run, choices, m - 1, i);
      SlotOfRound(u, run, choices, m - 1, j);
      StillNone(run[m - 1], choices[m - 1], i, j);
    }
  }

  lemma NoMajorityYet(u: Setup, run: seq<Network>, choices: seq<seq<Choice>>, m: nat, i: nat)
    requires IsRound(u, run, choices) && i < |u.roles| && u.roles[i].Proposes? && StartsAt(run, m, i)
    ensures !run[m][i].proposer.gotMajority && run[m][i].tx.phase == PREPARE
  {
    VoiceAtStart(u, run, choices, m, i);
    hide IsRound, AllVoice, AllTidy;
  }

  lemma PacketStaysPreparing(n: Node, heard: Packet, own: bool, keep: bool)
    requires n.proposer.active && n.proposer.phase != INIT && n.proposer.loserTimeout == 0
    ensures var r := OnPacket(n, heard, own, keep);
            r.proposer.ballot == n.proposer.ballot && r.proposer.phase == PREPARE ==> n.proposer.phase == PREPARE
  {
    AcceptorDoes(n, heard, own, keep);
    ProposerDoes(AcceptorStep(n, heard, own, keep), heard, own);
    OtherBallot(n.proposer.ballot);
    hide AcceptorStep, ProposerStep, Classify, Merged, NextBallot, IsCurrent;
  }

  lemma StaysPreparing(s: Network, c: seq<Choice>, i: nat, b: nat)
    requires Allowed(s, c) && i < |s| && AllTidy(s) && KeepsBallot(s[i], b) && i == b % 256 && s[i].proposer.active
    requires Next(s, c, i).proposer.ballot == b && Next(s, c, i).proposer.phase == PREPARE
    ensures s[i].proposer.phase == PREPARE
  {
    assert Possible(s, c, i) && Tidy(s[i]);
    B.NextIs(s, c, i);
    var e := c[i].event;
    if Looks(s, c, i) {
      PacketStaysPreparing(Woken(s[i]), if e.Hears? then s[e.from].tx else NO_PACKET, s[i].radio.state == Send, c[i].keep);
    }
    hide Next, OnPacket;
  }

  /** A proposer opens its first ballot with the value that it announced it with, if it
      announced a report, and with the value it was given if not: nothing that the replies
      say can change that. */
  lemma OpensWhatItAnnounced(u: Setup, run: seq<Network>, choices: seq<seq<Choice>>, m: nat, k: nat, i: nat)
    requires IsRound(u, run, choices) && i < |u.roles| && u.roles[i].Proposes? && StartsAt(run, m, i)
    requires m <= k && k + 1 < |run| && HoldsFirst(run, m, k, i)
    requires i < |run[k]| && i < |run[k + 1]| && OpensPhase(run[k][i], run[k + 1][i])
    ensures var first := run[m][i].tx;
            run[k + 1][i].tx == Packet(Ballot(1, i), ACCEPT, if first.proposal > 0 then first.value else u.roles[i].value, 0, {i})
  {
    PreparesOn(u, run, choices, m, k, i);
    SlotOfRound(u, run, choices, k, i);
    NextOpens(run[k], choices[k], i);
    FirstBallotIs(i);
    var s, c, r := run[k], choices[k], run[k + 1][i];
    assert Tidy(s[i]) && s[i].me == i;
    OpensSame(s, c, i);
    ConsultsVoice(s, c, i, Ballot(1, i), run[m][i].tx.proposal, run[m][i].tx.value);
    hide IsRound, Next, SlotAdopts;
  }

  lemma OpensSame(s: Network, c: seq<Choice>, i: nat)
    requires Allowed(s, c) && i < |s| && OpensPhase(s[i], Next(s, c, i))
    ensures Next(s, c, i).proposer.ballot == s[i].proposer.ballot
  {
    assert Possible(s, c, i);
    B.NextIs(s, c, i);
    var e := c[i].event;
    hide Next, OnPacket;
    if Looks(s, c, i) {
      PacketOpens(Woken(s[i]), if e.Hears? then s[e.from].tx else NO_PACKET, s[i].radio.state == Send, c[i].keep);
    }
  }

  /** So a proposer that starts on hearing that a lower ballot was accepted, and accepts it
      itself, opens its first ballot with that value. */
  lemma LateStarterKeepsAccepted(u: Setup, run: seq<Network>, choices: seq<seq<Choice>>, m: nat, k: nat, i: nat)
    requires IsRound(u, run, choices) && i < |u.roles| && u.roles[i].Proposes? && StartsAt(run, m, i)
    requires m <= k && k + 1 < |run| && HoldsFirst(run, m, k, i)
    requires i < |run[k]| && i < |run[k + 1]| && OpensPhase(run[k][i], run[k + 1][i])
    requires run[m][i].acceptor.acceptedProposal > 0
    ensures run[k + 1][i].tx == Packet(Ballot(1, i), ACCEPT, run[m][i].acceptor.acceptedValue, 0, {i})
  {
    OpensWhatItAnnounced(u, run, choices, m, k, i);
    VoiceAtStart(u, run, choices, m, i);
    hide IsRound;
  }
}
