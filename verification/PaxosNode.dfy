/** The node as the firmware keeps it: static records changed in place and a packet
    buffer whose participation flags are bytes, one `Run` per slot. What it does to
    its fields is what `Paxos` says of the set of nodes those bytes stand for.
 */
module PaxosNode {
  import ChaosFlags
  import opened Machine
  import opened Paxos
  import opened PaxosSafety

  /** The fixed part of a packet. */
  datatype Header = Header(ballot: nat, phase: nat, value: nat, proposal: nat)

  /** A packet as the radio delivers it. */
  datatype Frame = Frame(head: Header, flags: seq<Byte>)

  ghost function Meaning(f: Frame): Packet
  {
    Packet(f.head.ballot, f.head.phase, f.head.value, f.head.proposal, ChaosFlags.Members(f.flags))
  }

  class Participant {
    const me: nat
    const count: nat
    const wait: nat
    var proposer: Proposer
    var acceptor: Acceptor
    var rx: Heard
    var learner: Learner
    var head: Header
    const flags: ChaosFlags.FlagBytes
    var radio: Radio
    var send: bool
    var delta: bool

    ghost predicate Valid()
      reads this, flags, flags.bytes
    {
      me < count == flags.count && flags.Valid()
    }

    ghost function Value(): Node
      reads this, flags, flags.bytes
    {
      Node(me, count, wait, proposer, acceptor, rx, learner,
           Packet(head.ballot, head.phase, head.value, head.proposal, flags.Nodes()), radio, send, delta)
    }

    /** `paxos_round_begin` from a reset state, with the call of `process` that
        opens the round. */
    constructor (index: nat, nodes: nat, slots: nat, role: Role, initiator: bool, threshold: nat)
      requires index < nodes && index < 256 && slots > 0
      ensures Valid() && fresh(flags) && fresh(flags.bytes)
      ensures Value() == Fresh(index, nodes, WaitOf(slots), role, initiator, threshold)
    {
      me, count, wait := index, nodes, WaitOf(slots);
      var value := if role.Proposes? then role.value else 0;
      proposer := Proposer(role.Proposes?, if role.Proposes? then Ballot(1, index) else 0, value, INIT, false, 0);
      acceptor := Acceptor(0, 0, 0);
      rx := Heard(0, 0, 0);
      learner := Learner(0, false);
      head := Header(0, INIT, value, 0);
      flags := new ChaosFlags.FlagBytes(nodes, index);
      radio := Radio(Listen, false, 0, 0, threshold, false);
      send, delta := false, false;
      new;
      if initiator {
        radio := radio.(state := Send, synced := true);
        if role.Proposes? {
          Start();
        }
      }
    }

    /** The first ballot goes into the buffer. */
    method Start()
      requires Valid()
      modifies this
      ensures Valid() && Value() == StartBallot(old(Value()))
    {
      proposer := proposer.(phase := PREPARE);
      head := head.(ballot := proposer.ballot, phase := PREPARE);
      acceptor := acceptor.(minProposal := proposer.ballot);
    }

    method Prepare(p: Header, ghost nodes: set<nat>)
      requires Valid()
      modifies this
      ensures Valid()
      ensures Value() == OnPrepare(old(Value()), Packet(p.ballot, p.phase, p.value, p.proposal, nodes), false)
    {
      if p.ballot > acceptor.minProposal {
        acceptor := acceptor.(minProposal := p.ballot);
      }
      if p.proposal < rx.acceptedProposal {
        head := head.(proposal := rx.acceptedProposal, value := rx.acceptedValue);
        send, delta := true, true;
      } else {
        rx := rx.(acceptedProposal := p.proposal, acceptedValue := p.value);
      }
    }

    method Accept(p: Header, ghost nodes: set<nat>)
      requires Valid()
      modifies this
      ensures Valid()
      ensures Value() == OnAccept(old(Value()), Packet(p.ballot, p.phase, p.value, p.proposal, nodes), false)
    {
      if p.ballot >= acceptor.minProposal {
        acceptor := Acceptor(p.ballot, p.ballot, p.value);
      }
      rx := rx.(minProposal := Max(p.proposal, Max(acceptor.minProposal, rx.minProposal)));
      if head.proposal != rx.minProposal {
        head := head.(proposal := rx.minProposal);
        send, delta := true, true;
      }
      if acceptor.acceptedProposal > rx.acceptedProposal {
        rx := rx.(acceptedProposal := acceptor.acceptedProposal, acceptedValue := acceptor.acceptedValue);
      }
    }

    /** Merging and counting the flag bytes, then adding one's own. */
    method CollectFlags(heard: Frame, own: bool, isNew: bool) returns (replies: nat, full: bool)
      requires Valid() && ChaosFlags.WellSized(heard.flags, count)
      modifies this, flags.bytes
      ensures Valid()
      ensures var m := MergeFlags(old(Value()), Meaning(heard), own, isNew);
              Value() == AddOwnFlag(m) && replies == |m.tx.flags| && full == ChaosFlags.AllSet(m.tx.flags, m.count)
    {
      hide ChaosFlags.AllSet, ChaosFlags.WellSized;
      if isNew {
        if !own { flags.Copy(heard.flags); }
        send, delta := true, true;
      } else if !own {
        var differ := flags.Merge(heard.flags);
        delta := delta || differ;
      }
      replies := flags.Count();
      full := flags.Full();
      flags.Add(me);
      send := send || delta;
    }

    /** Sending less often, learning, completion. */
    method Learn(heard: Frame, own: bool, replies: nat, full: bool, keep: bool)
      requires Valid()
      modifies this
      ensures Valid()
      ensures Value() == LearnAndComplete(old(Value()), Meaning(heard), own, replies, full, keep)
    {
      var p := if own then head else heard.head;
      if !proposer.active && p.phase == PREPARE && replies > count / 2 && send {
        send := keep;
      }
      if p.phase == ACCEPT && p.ballot == p.proposal && replies > count / 2 {
        learner := Learner(p.value, true);
      }
      if p.phase == ACCEPT && full {
        radio := radio.(complete := true);
        send := true;
      }
    }

    /** A new phase is copied into the buffer, flags and all. */
    method Take(heard: Frame)
      requires Valid() && ChaosFlags.WellSized(heard.flags, count)
      modifies this, flags.bytes
      ensures Valid() && Value() == old(Value()).(tx := Meaning(heard), rx := Heard(0, 0, 0))
    {
      head := heard.head;
      flags.Copy(heard.flags);
      rx := Heard(0, 0, 0);
    }

    method AcceptorLogic(heard: Frame, own: bool, keep: bool)
      requires Valid() && ChaosFlags.WellSized(heard.flags, count)
      modifies this, flags.bytes
      ensures Valid() && Value() == AcceptorStep(old(Value()), Meaning(heard), own, keep)
    {
      hide OnPrepare, OnAccept, LearnAndComplete, AddOwnFlag, MergeFlags, ChaosFlags.AllSet;
      var p := if own then head else heard.head;
      if p.ballot > head.ballot || (p.ballot == head.ballot && p.phase >= head.phase) {
        var isNew := !(p.ballot == head.ballot && p.phase == head.phase);
        if isNew {
          Take(heard);
        }
        ghost var taken := Value();
        ghost var nodes := Payload(taken, Meaning(heard), own).flags;
        if p.phase == PREPARE {
          Prepare(p, nodes);
          PrepareOwn(taken, Meaning(heard), own);
        } else if p.phase == ACCEPT {
          Accept(p, nodes);
          AcceptOwn(taken, Meaning(heard), own);
        }
        var replies, full := CollectFlags(heard, own, isNew);
        Learn(heard, own, replies, full, keep);
      } else {
        send := true;
      }
    }

    method LoseCompetition()
      requires Valid()
      modifies this
      ensures Valid() && Value() == Lose(old(Value()))
    {
      proposer := proposer.(ballot := NextBallot(proposer.ballot));
      if rx.acceptedProposal > 0 {
        proposer := proposer.(value := rx.acceptedValue);
      }
      proposer := proposer.(phase := PREPARE, gotMajority := false, loserTimeout := wait);
    }

    /** The replies to the proposer's own ballot in its own phase. */
    method Replies() returns (lost: bool, update: bool)
      requires Valid() && !proposer.gotMajority
      modifies this
      ensures Valid() && Verdict(Value(), lost, update) == CountReplies(old(Value()))
    {
      lost, update := false, false;
      if proposer.phase == PREPARE {
        if rx.acceptedProposal > 0 {
          proposer := proposer.(value := rx.acceptedValue);
        }
        if rx.acceptedProposal > proposer.ballot {
          lost := true;
        }
      } else if proposer.phase == ACCEPT {
        if rx.minProposal > proposer.ballot {
          lost := true;
        }
      }
      var replies := flags.Count();
      if !lost && replies > count / 2 {
        if proposer.phase == PREPARE {
          proposer := proposer.(phase := ACCEPT);
          update := true;
        } else if proposer.phase == ACCEPT {
          proposer := proposer.(gotMajority := true);
        }
      }
      if proposer.phase == ACCEPT && rx.minProposal > proposer.ballot && !proposer.gotMajority {
        lost := true;
      }
    }

    method ProposerLogic(heard: Frame, own: bool)
      requires Valid()
      modifies this, flags.bytes
      ensures Valid() && Value() == ProposerStep(old(Value()), Meaning(heard), own)
    {
      hide CountReplies, Lose;
      if !proposer.active || proposer.gotMajority {
        return;
      }
      var p := if own then head else heard.head;
      var lost, update := false, false;
      if proposer.loserTimeout > 0 {
        proposer := proposer.(loserTimeout := proposer.loserTimeout - 1);
        if proposer.loserTimeout == 0 {
          update := true;
        }
      } else if p.ballot == proposer.ballot {
        if p.phase == proposer.phase {
          lost, update := Replies();
        } else {
          send := true;
        }
      } else if p.ballot > proposer.ballot {
        lost := true;
      } else {
        send := true;
        if proposer.phase == INIT {
          Start();
        }
      }
      if lost {
        LoseCompetition();
      }
      if update {
        head := Header(proposer.ballot, proposer.phase, proposer.value, 0);
        flags.Reset(me);
        send, delta := true, true;
      }
    }

    method Heartbeat(heard: Frame, own: bool)
      requires Valid() && ChaosFlags.WellSized(heard.flags, count)
      requires own ==> proposer.active
      modifies this, flags.bytes
      ensures Valid() && Value() == OnHeartbeat(old(Value()), Payload(old(Value()), Meaning(heard), own))
    {
      hide ChaosFlags.AllSet;
      if proposer.active {
        if proposer.phase == INIT {
          flags.Reset(me);
          Start();
        }
        send, delta := true, true;
      } else {
        head := heard.head;
        send := flags.Merge(heard.flags);
        var full := flags.Full();
        if full {
          radio := radio.(complete := true);
        }
        delta := send;
      }
    }

    /** The Synchrotron part at the end of `process`. */
    method DecideRadio(success: bool, threshold: nat)
      requires Valid()
      modifies this`radio
      ensures Valid() && Value() == NextRadio(old(Value()), success, threshold)
    {
      if radio.flood > FINAL_FLOOD {
        radio := radio.(state := Off);
      } else if radio.state == Listen && success {
        radio := radio.(missed := 0);
        if send {
          radio := radio.(state := Send);
          if radio.complete {
            radio := radio.(flood := if delta then 0 else radio.flood + 1);
          }
        }
      } else if radio.state == Listen && radio.synced {
        radio := radio.(missed := radio.missed + 1);
        if radio.missed > radio.threshold {
          radio := radio.(state := Send, missed := 0, threshold := threshold);
          if radio.complete {
            radio := radio.(flood := radio.flood + 1);
          }
        }
      } else if radio.state == Send && !success {
        radio := radio.(synced := true);
      } else {
        radio := radio.(state := Listen);
      }
    }

    /** `process`. */
    method Run(success: bool, heard: Frame, keep: bool, threshold: nat, crash: bool)
      requires Valid() && ChaosFlags.WellSized(heard.flags, count)
      modifies this, flags.bytes
      ensures Valid() && Value() == Process(old(Value()), success, Meaning(heard), keep, threshold, crash)
    {
      hide AcceptorStep, ProposerStep, OnHeartbeat, NextRadio;
      var own := radio.state == Send;
      send, delta := false, false;
      if success && (radio.state == Listen || (own && proposer.active)) {
        radio := radio.(synced := true);
        var p := if own then head else heard.head;
        if p.phase == INIT && acceptor.minProposal == 0 {
          Heartbeat(heard, own);
        } else {
          AcceptorLogic(heard, own, keep);
          ProposerLogic(heard, own);
        }
      }
      DecideRadio(success, threshold);
      if crash {
        radio := radio.(state := Off);
      }
    }

    /** What goes on the air: a frame that means the node's packet. */
    method Transmit() returns (f: Frame)
      requires Valid()
      ensures Meaning(f) == Value().tx && ChaosFlags.WellSized(f.flags, count)
    {
      f := Frame(head, flags.bytes[..]);
    }
  }

  // ------------------------------------------------------------------
  // A network of them
  // ------------------------------------------------------------------

  /** Nodes of one network, none sharing memory with another. */
  ghost predicate Apart(ps: seq<Participant>)
    reads ps
  {
    && (forall i :: 0 <= i < |ps| ==> ps[i].count == |ps|)
    && (forall i, j :: 0 <= i < j < |ps| ==>
          ps[i] != ps[j] && ps[i].flags != ps[j].flags && ps[i].flags.bytes != ps[j].flags.bytes)
  }

  ghost function Buffers(ps: seq<Participant>): set<object>
  {
    set i | 0 <= i < |ps| :: ps[i].flags.bytes
  }

  /** The nodes of the network have the memory `ps`. */
  ghost predicate Holds(ps: seq<Participant>, s: Network)
    reads ps, set i | 0 <= i < |ps| :: ps[i].flags, set i | 0 <= i < |ps| :: ps[i].flags.bytes
  {
    |ps| == |s| && forall i :: 0 <= i < |ps| ==> ps[i].Valid() && ps[i].Value() == s[i]
  }

  /** What is on the air while the nodes are in `s`. */
  ghost predicate OnAir(frames: seq<Frame>, s: Network)
  {
    |frames| == |s| && forall i :: 0 <= i < |s| ==> Meaning(frames[i]) == s[i].tx && ChaosFlags.WellSized(frames[i].flags, |s|)
  }

  method TransmitAll(ps: seq<Participant>, ghost s: Network) returns (frames: seq<Frame>)
    requires Apart(ps) && Holds(ps, s)
    ensures OnAir(frames, s)
  {
    hide ChaosFlags.WellSized;
    frames := [];
    var i := 0;
    while i < |ps|
      invariant i <= |ps| && |frames| == i
      invariant forall k :: 0 <= k < i ==> Meaning(frames[k]) == s[k].tx && ChaosFlags.WellSized(frames[k].flags, |s|)
    {
      var f := ps[i].Transmit();
      frames := frames + [f];
      i := i + 1;
    }
  }

  /** A whole slot on the nodes' own memory: every sending node puts its bytes on the
      air, every node runs, and the network is what the slot makes of it. */
  method RunSlot(ps: seq<Participant>, choices: seq<Choice>, ghost s: Network)
    requires Apart(ps) && Holds(ps, s) && Allowed(s, choices)
    modifies ps, Buffers(ps)
    ensures Apart(ps) && Holds(ps, Slot(s, choices))
  {
    hide Process, Next, Slot, OnAir, ChaosFlags.WellSized, Participant.Value, Participant.Valid, Allowed;
    var frames := TransmitAll(ps, s);
    var i := 0;
    while i < |ps|
      invariant i <= |ps|
      invariant forall k :: 0 <= k < |ps| ==> ps[k].Valid()
      invariant forall k :: i <= k < |ps| ==> ps[k].Value() == s[k]
      invariant forall k :: 0 <= k < i ==> ps[k].Value() == Slot(s, choices)[k]
    {
      RunOne(ps[i], i, frames, choices, s);
      i := i + 1;
    }
  }

  /** One node's part of it. */
  method RunOne(p: Participant, i: nat, frames: seq<Frame>, choices: seq<Choice>, ghost s: Network)
    requires i < |s| && p.Valid() && p.Value() == s[i] && p.count == |s| && OnAir(frames, s) && Allowed(s, choices)
    modifies p, p.flags.bytes
    ensures p.Valid() && p.Value() == Slot(s, choices)[i]
  {
    hide Process, ChaosFlags.WellSized;
    assert Possible(s, choices, i);
    var c := choices[i];
    if p.radio.state != Off && p.radio.state != Start {
      var f := if c.event.Hears? then frames[c.event.from] else frames[i];
      HeardOnly(s[i], c.event.Hears? || c.event.Sends?, Meaning(f), NO_PACKET, c.keep, c.threshold, c.crash);
      p.Run(c.event.Hears? || c.event.Sends?, f, c.keep, c.threshold, c.crash);
    }
  }

  /** A node that does not hear anything does not look at the receive buffer. */
  lemma HeardOnly(n: Node, success: bool, p: Packet, q: Packet, keep: bool, threshold: nat, crash: bool)
    ensures !(success && n.radio.state == Listen) ==>
              Process(n, success, p, keep, threshold, crash) == Process(n, success, q, keep, threshold, crash)
  {
    hide OnPacket, NextRadio;
    OwnIgnoresHeard(n.(send := false, delta := false, radio := n.radio.(synced := true)), p, q, keep);
  }

  lemma OwnIgnoresHeard(n: Node, p: Packet, q: Packet, keep: bool)
    ensures OnPacket(n, p, true, keep) == OnPacket(n, q, true, keep)
  {
    assert AcceptorStep(n, p, true, keep) == AcceptorStep(n, q, true, keep) by {
      hide ChaosFlags.AllSet;
      var t := TakeOver(n, n.tx);
      assert OnPhase(t, p, true) == OnPhase(t, q, true) by { hide AcceptValue, ReportMin, RememberAccepted; }
    }
    hide AcceptorStep, OnHeartbeat, Compete, Lose, Announce;
  }

  /** The nodes of a fresh round. */
  method SetUp(u: Setup) returns (ps: seq<Participant>)
    requires ValidSetup(u)
    ensures Apart(ps) && Holds(ps, Begin(u))
    ensures forall k :: 0 <= k < |ps| ==> fresh(ps[k]) && fresh(ps[k].flags.bytes)
  {
    hide Fresh;
    ps := [];
    var n := |u.roles|;
    while |ps| < n
      invariant |ps| <= n
      invariant forall k :: 0 <= k < |ps| ==> fresh(ps[k]) && fresh(ps[k].flags) && fresh(ps[k].flags.bytes)
      invariant forall k :: 0 <= k < |ps| ==> ps[k].count == n && ps[k].Valid() && ps[k].Value() == Begin(u)[k]
      invariant forall i, j :: 0 <= i < j < |ps| ==>
        ps[i] != ps[j] && ps[i].flags != ps[j].flags && ps[i].flags.bytes != ps[j].flags.bytes
    {
      var i := |ps|;
      var p := new Participant(i, n, u.slots, u.roles[i], i == u.initiator, u.thresholds[i]);
      assert p.Value().count == n by { FreshCount(i, n, WaitOf(u.slots), u.roles[i], i == u.initiator, u.thresholds[i]); }
      ps := ps + [p];
    }
  }

  lemma FreshCount(me: nat, count: nat, wait: nat, role: Role, initiator: bool, threshold: nat)
    requires me < 256
    ensures Fresh(me, count, wait, role, initiator, threshold).count == count
  {
  }

  /** A whole round on the nodes' own memory ends where the round ends. */
  method RunRound(u: Setup, choices: seq<seq<Choice>>, ghost run: seq<Network>) returns (ps: seq<Participant>)
    requires IsRound(u, run, choices)
    ensures Apart(ps) && Holds(ps, run[|choices|])
  {
    hide Slot, Begin, Holds, Apart, Allowed;
    ps := SetUp(u);
    var k := 0;
    while k < |choices|
      invariant k <= |choices| && Apart(ps) && Holds(ps, run[k])
      invariant forall i :: 0 <= i < |ps| ==> fresh(ps[i]) && fresh(ps[i].flags.bytes)
    {
      assert Allowed(run[k], choices[k]);
      RunSlot(ps, choices[k], run[k]);
      k := k + 1;
    }
  }

  /** Working on a copy of one's own packet is working on the packet. */
  lemma PrepareOwn(n: Node, heard: Packet, own: bool)
    ensures OnPrepare(n, Payload(n, heard, own), false) == OnPrepare(n, heard, own)
  {
  }

  lemma AcceptOwn(n: Node, heard: Packet, own: bool)
    ensures OnAccept(n, Payload(n, heard, own), false) == OnAccept(n, heard, own)
  {
  }
}
