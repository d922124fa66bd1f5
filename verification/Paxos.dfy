/** Wireless Paxos: what one node does at the end of every Synchrotron slot.

    A node keeps one packet to transmit. Hearing a packet it acts as acceptor,
    then, if it is one, as proposer; a proposer also processes its own packet
    after sending it. Participation flags are a set of node indices here; the
    byte loops behind them are in `ChaosFlags`.
 */
module Paxos {
  import ChaosFlags

  const INIT: nat := 0
  const PREPARE: nat := 1
  const ACCEPT: nat := 2

  /** `N_TX_COMPLETE`. */
  const FINAL_FLOOD: nat := 9

  /** What `loser_timeout` holds after a loss in a round of `slots` slots: one slot
      less than the round, on eight bits. */
  function WaitOf(slots: nat): (w: nat)
    requires slots > 0
    ensures w < 256 && (slots <= 256 ==> w == slots - 1)
  {
    (slots - 1) % 256
  }

  /** A ballot is a 16-bit number: the competition round in the high byte, the
      index of the proposing node in the low one. */
  function Ballot(round: nat, id: nat): (b: nat)
    requires round < 256 && id < 256
    ensures b / 256 == round && b % 256 == id
  {
    round * 256 + id
  }

  /** `proposed_ballot.round++` on its eight bits. */
  function NextBallot(b: nat): (r: nat)
    ensures r % 256 == b % 256
  {
    ((b / 256 + 1) % 256) * 256 + b % 256
  }

  datatype Packet = Packet(ballot: nat, phase: nat, value: nat, proposal: nat, flags: set<nat>)

  datatype Proposer = Proposer(active: bool, ballot: nat, value: nat, phase: nat, gotMajority: bool, loserTimeout: nat)

  datatype Acceptor = Acceptor(minProposal: nat, acceptedProposal: nat, acceptedValue: nat)

  /** The aggregation variables `rx_*`. */
  datatype Heard = Heard(minProposal: nat, acceptedProposal: nat, acceptedValue: nat)

  datatype Learner = Learner(value: nat, chosen: bool)

  datatype RadioState = Start | Listen | Send | Off

  /** Synchrotron's own bookkeeping. */
  datatype Radio = Radio(state: RadioState, complete: bool, flood: nat, missed: nat, threshold: nat, synced: bool)

  /** A node; `wait` is the wait of a loser. `send` and `delta` are the variables `tx` and `rx_delta` of the
      call in progress. */
  datatype Node = Node(
    me: nat, count: nat, wait: nat,
    proposer: Proposer, acceptor: Acceptor, rx: Heard, learner: Learner,
    tx: Packet, radio: Radio, send: bool, delta: bool)

  function Max(a: nat, b: nat): nat
  {
    if a >= b then a else b
  }

  /** The packet under processing: a node that has just sent looks at its own
      buffer, so its changes to the one show in the other. */
  function Payload(n: Node, heard: Packet, own: bool): Packet
  {
    if own then n.tx else heard
  }

  // ------------------------------------------------------------------
  // Acceptor
  // ------------------------------------------------------------------

  predicate IsCurrent(n: Node, p: Packet)
  {
    p.ballot > n.tx.ballot || (p.ballot == n.tx.ballot && p.phase >= n.tx.phase)
  }

  predicate IsNewPhase(n: Node, p: Packet)
  {
    !(p.ballot == n.tx.ballot && p.phase == n.tx.phase)
  }

  /** A new phase: the packet is taken over and the aggregates forgotten. */
  function TakeOver(n: Node, p: Packet): Node
  {
    if IsNewPhase(n, p) then n.(tx := p, rx := Heard(0, 0, 0)) else n
  }

  function OnPrepare(n: Node, heard: Packet, own: bool): Node
  {
    var p := Payload(n, heard, own);
    var n := if p.ballot > n.acceptor.minProposal then n.(acceptor := n.acceptor.(minProposal := p.ballot)) else n;
    if p.proposal < n.rx.acceptedProposal then
      n.(tx := n.tx.(proposal := n.rx.acceptedProposal, value := n.rx.acceptedValue), send := true, delta := true)
    else
      n.(rx := n.rx.(acceptedProposal := p.proposal, acceptedValue := p.value))
  }

  function AcceptValue(n: Node, p: Packet): Node
  {
    if p.ballot >= n.acceptor.minProposal then n.(acceptor := Acceptor(p.ballot, p.ballot, p.value)) else n
  }

  function ReportMin(n: Node, p: Packet): Node
  {
    var m := Max(p.proposal, Max(n.acceptor.minProposal, n.rx.minProposal));
    var n := n.(rx := n.rx.(minProposal := m));
    if n.tx.proposal != m then n.(tx := n.tx.(proposal := m), send := true, delta := true) else n
  }

  function RememberAccepted(n: Node): Node
  {
    if n.acceptor.acceptedProposal > n.rx.acceptedProposal then
      n.(rx := n.rx.(acceptedProposal := n.acceptor.acceptedProposal, acceptedValue := n.acceptor.acceptedValue))
    else n
  }

  function OnAccept(n: Node, heard: Packet, own: bool): Node
  {
    var p := Payload(n, heard, own);
    RememberAccepted(ReportMin(AcceptValue(n, p), p))
  }

  /** Flags heard are merged, or taken over with a new phase. */
  function MergeFlags(n: Node, heard: Packet, own: bool, isNew: bool): Node
  {
    var p := Payload(n, heard, own);
    if isNew then n.(tx := n.tx.(flags := p.flags), send := true, delta := true)
    else n.(tx := n.tx.(flags := n.tx.flags + p.flags), delta := n.delta || p.flags != n.tx.flags)
  }

  function AddOwnFlag(n: Node): Node
  {
    n.(tx := n.tx.(flags := n.tx.flags + {n.me}), send := n.send || n.delta)
  }

  /** The free quorum read: `replies` flags on an ACCEPT packet whose reported
      proposal is its own ballot. `keep` is the random choice to go on sending. */
  function LearnAndComplete(n: Node, heard: Packet, own: bool, replies: nat, full: bool, keep: bool): Node
  {
    var p := Payload(n, heard, own);
    var many := replies > n.count / 2;
    var n := if !n.proposer.active && p.phase == PREPARE && many && n.send then n.(send := keep) else n;
    var n := if p.phase == ACCEPT && p.ballot == p.proposal && many then n.(learner := Learner(p.value, true)) else n;
    if p.phase == ACCEPT && full then n.(radio := n.radio.(complete := true), send := true) else n
  }

  function OnPhase(n: Node, heard: Packet, own: bool): Node
  {
    var phase := Payload(n, heard, own).phase;
    if phase == PREPARE then OnPrepare(n, heard, own)
    else if phase == ACCEPT then OnAccept(n, heard, own)
    else n
  }

  function AcceptorStep(n: Node, heard: Packet, own: bool, keep: bool): Node
  {
    var p := Payload(n, heard, own);
    if IsCurrent(n, p) then
      var isNew := IsNewPhase(n, p);
      var n := MergeFlags(OnPhase(TakeOver(n, p), heard, own), heard, own, isNew);
      LearnAndComplete(AddOwnFlag(n), heard, own, |n.tx.flags|, ChaosFlags.AllSet(n.tx.flags, n.count), keep)
    else n.(send := true)
  }

  // ------------------------------------------------------------------
  // Proposer
  // ------------------------------------------------------------------

  /** A proposer that has not started yet sends its ballot, keeping the flags,
      value and proposal its buffer holds. */
  function StartBallot(n: Node): Node
  {
    n.(proposer := n.proposer.(phase := PREPARE),
       tx := n.tx.(ballot := n.proposer.ballot, phase := PREPARE),
       acceptor := n.acceptor.(minProposal := n.proposer.ballot))
  }

  function AdoptHeard(n: Node): Node
  {
    if n.rx.acceptedProposal > 0 then n.(proposer := n.proposer.(value := n.rx.acceptedValue)) else n
  }

  /** The answer to the proposer's own ballot in its own phase. */
  datatype Verdict = Verdict(node: Node, lost: bool, update: bool)

  function CountReplies(n: Node): Verdict
  {
    var preparing := n.proposer.phase == PREPARE;
    var n := if preparing then AdoptHeard(n) else n;
    var lost := if preparing then n.rx.acceptedProposal > n.proposer.ballot
                else n.proposer.phase == ACCEPT && n.rx.minProposal > n.proposer.ballot;
    var majority := !lost && |n.tx.flags| > n.count / 2;
    var update := majority && preparing;
    var n := if update then n.(proposer := n.proposer.(phase := ACCEPT))
             else if majority && n.proposer.phase == ACCEPT then n.(proposer := n.proposer.(gotMajority := true))
             else n;
    var late := n.proposer.phase == ACCEPT && n.rx.minProposal > n.proposer.ballot && !n.proposer.gotMajority;
    Verdict(n, lost || late, update)
  }

  function Compete(n: Node, p: Packet): Verdict
  {
    if n.proposer.loserTimeout > 0 then
      var left := n.proposer.loserTimeout - 1;
      Verdict(n.(proposer := n.proposer.(loserTimeout := left)), false, left == 0)
    else if p.ballot == n.proposer.ballot then
      if p.phase == n.proposer.phase then CountReplies(n) else Verdict(n.(send := true), false, false)
    else if p.ballot > n.proposer.ballot then Verdict(n, true, false)
    else
      var n := n.(send := true);
      Verdict(if n.proposer.phase == INIT then StartBallot(n) else n, false, false)
  }

  function Lose(n: Node): Node
  {
    var n := AdoptHeard(n.(proposer := n.proposer.(ballot := NextBallot(n.proposer.ballot))));
    n.(proposer := n.proposer.(phase := PREPARE, gotMajority := false, loserTimeout := n.wait))
  }

  /** The proposer writes its packet: no proposal, its value, its own flag. */
  function Announce(n: Node): Node
  {
    n.(tx := Packet(n.proposer.ballot, n.proposer.phase, n.proposer.value, 0, {n.me}), send := true, delta := true)
  }

  function ProposerStep(n: Node, heard: Packet, own: bool): Node
  {
    if !n.proposer.active || n.proposer.gotMajority then n
    else
      var v := Compete(n, Payload(n, heard, own));
      var n := if v.lost then Lose(v.node) else v.node;
      if v.update then Announce(n) else n
  }

  // ------------------------------------------------------------------
  // One call
  // ------------------------------------------------------------------

  /** A heartbeat before any ballot: proposers start, others pass it on. */
  function OnHeartbeat(n: Node, p: Packet): Node
  {
    if n.proposer.active then
      var n := if n.proposer.phase == INIT then StartBallot(n.(tx := n.tx.(flags := {n.me}))) else n;
      n.(send := true, delta := true)
    else
      var merged := n.tx.flags + p.flags;
      var changed := p.flags != n.tx.flags;
      n.(tx := p.(flags := merged), send := changed, delta := changed,
         radio := n.radio.(complete := n.radio.complete || ChaosFlags.AllSet(merged, n.count)))
  }

  /** The part of `process` run on a slot that went well. */
  function OnPacket(n: Node, heard: Packet, own: bool, keep: bool): Node
  {
    var p := Payload(n, heard, own);
    if p.phase == INIT && n.acceptor.minProposal == 0 then OnHeartbeat(n, p)
    else ProposerStep(AcceptorStep(n, heard, own, keep), heard, own)
  }

  /** The Synchrotron state for the next slot, given how this one went. */
  function NextRadio(n: Node, success: bool, threshold: nat): Node
  {
    var r := n.radio;
    if r.flood > FINAL_FLOOD then n.(radio := r.(state := Off))
    else if r.state == Listen && success then
      if n.send then
        n.(radio := r.(state := Send, missed := 0, flood := if !r.complete then r.flood else if n.delta then 0 else r.flood + 1))
      else n.(radio := r.(state := Listen, missed := 0))
    else if r.state == Listen && r.synced then
      if r.missed + 1 > r.threshold then
        n.(radio := r.(state := Send, missed := 0, flood := if r.complete then r.flood + 1 else r.flood, threshold := threshold))
      else n.(radio := r.(state := Listen, missed := r.missed + 1))
    else if r.state == Send && !success then n.(radio := r.(state := Send, synced := true))
    else n.(radio := r.(state := Listen))
  }

  /** One call of `process` in the middle of a round. `crash` is the injected
      failure, `keep` and `threshold` are the random draws. */
  function Process(n: Node, success: bool, heard: Packet, keep: bool, threshold: nat, crash: bool): Node
  {
    var own := n.radio.state == Send;
    var n := n.(send := false, delta := false);
    var n := if success && (n.radio.state == Listen || (own && n.proposer.active))
             then OnPacket(n.(radio := n.radio.(synced := true)), heard, own, keep) else n;
    var n := NextRadio(n, success, threshold);
    if crash then n.(radio := n.radio.(state := Off)) else n
  }

  /** A node at the start of a fresh round; `proposal` is the value it is to
      propose, if any. */
  datatype Role = Follower | Proposes(value: nat)

  function Fresh(me: nat, count: nat, wait: nat, role: Role, initiator: bool, threshold: nat): Node
    requires me < 256
  {
    var value := if role.Proposes? then role.value else 0;
    var n := Node(me, count, wait,
                  Proposer(role.Proposes?, if role.Proposes? then Ballot(1, me) else 0, value, INIT, false, 0),
                  Acceptor(0, 0, 0), Heard(0, 0, 0), Learner(0, false),
                  Packet(0, INIT, value, 0, {me}),
                  Radio(Listen, false, 0, 0, threshold, false), false, false);
    if initiator then
      var n := n.(radio := n.radio.(state := Send, synced := true));
      if role.Proposes? then StartBallot(n) else n
    else n
  }
}
