/** The participant of two-phase commit as the firmware keeps it: flags and votes are
    bytes of the packet buffer, merged and counted in place.
 */
module TwoPhaseNode {
  import ChaosFlags
  import opened Machine
  import opened TwoPhaseCommit

  /** A packet as the radio delivers it. */
  datatype Frame = Frame(value: nat, phase: nat, flags: seq<Byte>, votes: seq<Byte>)

  ghost function Meaning(f: Frame): Packet
  {
    Packet(f.value, f.phase, ChaosFlags.Members(f.flags), ChaosFlags.Members(f.votes))
  }

  ghost predicate FitsIn(f: Frame, count: nat)
  {
    ChaosFlags.WellSized(f.flags, count) && ChaosFlags.WellSized(f.votes, count)
  }

  class Participant {
    const me: nat
    const count: nat
    const initiator: bool
    var value: nat
    var phase: nat
    const flags: ChaosFlags.FlagBytes
    const votes: ChaosFlags.FlagBytes
    var agree: bool
    var synced: bool
    var didTx: bool
    var radio: Radio

    ghost predicate Valid()
      reads this, flags, flags.bytes, votes, votes.bytes
    {
      && me < count == flags.count == votes.count && flags.Valid() && votes.Valid()
      && flags != votes && flags.bytes != votes.bytes
    }

    ghost function Value(): Node
      reads this, flags, flags.bytes, votes, votes.bytes
    {
      Node(me, count, initiator, Packet(value, phase, flags.Nodes(), votes.Nodes()), agree, synced, didTx, radio)
    }

    /** `two_pc_round_begin`, with the call of `process` that opens the round. */
    constructor (index: nat, nodes: nat, given: nat, starts: bool, threshold: nat)
      requires index < nodes
      ensures Valid() && fresh(flags) && fresh(flags.bytes) && fresh(votes) && fresh(votes.bytes)
      ensures Value() == Fresh(index, nodes, given, starts, threshold)
    {
      me, count, initiator := index, nodes, starts;
      value, phase := given, PROPOSE;
      flags := new ChaosFlags.FlagBytes(nodes, index);
      votes := new ChaosFlags.FlagBytes.Empty(nodes);
      agree, synced, didTx := false, false, false;
      radio := Radio(Listen, false, false, false, 0, 0, threshold);
      new;
      if starts {
        Begin();
      }
    }

    /** The initiator votes and is the first to send. */
    method Begin()
      requires Valid()
      modifies this, votes.bytes
      ensures Valid() && Value() == old(Value()).(tx := old(Value()).tx.(votes := old(Value()).tx.votes + {me}),
                                                  agree := true, synced := true, didTx := true, radio := old(radio).(state := Send))
    {
      votes.Add(me);
      agree, synced, didTx := true, true, true;
      radio := radio.(state := Send);
    }

    /** The vote at the first valid packet. */
    method Vote(rx: Frame)
      requires Valid()
      modifies this, votes.bytes
      ensures Valid() && Value() == Cast(old(Value()), Meaning(rx))
    {
      if !synced {
        if value == rx.value {
          agree := true;
          votes.Add(me);
        } else {
          agree := false;
          votes.Drop(me);
          value := rx.value;
        }
      }
      synced := true;
    }

    /** A packet of the same phase: merge, and for the initiator decide. */
    method MergePacket(rx: Frame)
      requires Valid() && FitsIn(rx, count)
      modifies this, flags.bytes, votes.bytes
      ensures Valid() && Value() == Merge(old(Value()), Meaning(rx))
    {
      hide ChaosFlags.AllSet, ChaosFlags.WellSized;
      var differ := flags.Merge(rx.flags);
      var _ := votes.Merge(rx.votes);
      radio := radio.(send := differ);
      var full := flags.Full();
      if initiator && phase == PROPOSE && full {
        var unanimous := votes.Full();
        Decided(unanimous);
      } else if full && (phase == COMMIT || phase == ABORT) {
        var complete := RxFull(rx.flags);
        radio := radio.(send := true, complete := true, progress := radio.progress || complete);
      }
    }

    /** Everybody has voted: on to the decision, with the own flag only. */
    method Decided(unanimous: bool)
      requires Valid()
      modifies this, flags.bytes
      ensures Valid()
      ensures Value() == old(Value()).(tx := old(Value()).tx.(flags := {me}, phase := if unanimous then COMMIT else ABORT),
                                       radio := old(radio).(send := true))
    {
      flags.Reset(me);
      phase := if unanimous then COMMIT else ABORT;
      radio := radio.(send := true);
    }

    /** Whether the packet received is complete. */
    method RxFull(rx: seq<Byte>) returns (full: bool)
      requires count > 0 && ChaosFlags.WellSized(rx, count)
      ensures full <==> ChaosFlags.AllSet(ChaosFlags.Members(rx), count)
    {
      full := ChaosFlags.SumFlags(rx, count);
    }

    method Handle(rx: Frame)
      requires Valid() && FitsIn(rx, count)
      modifies this, flags.bytes, votes.bytes
      ensures Valid() && Value() == OnPacket(old(Value()), Meaning(rx))
    {
      hide Cast, Merge;
      Vote(rx);
      if phase == rx.phase {
        MergePacket(rx);
      } else {
        if phase < rx.phase {
          Switch(rx);
        }
        radio := radio.(send := true);
      }
    }

    /** The received phase is more advanced: its packet replaces the own one. */
    method Switch(rx: Frame)
      requires Valid() && FitsIn(rx, count)
      modifies this, flags.bytes, votes.bytes
      ensures Valid() && Value() == old(Value()).(tx := Meaning(rx).(flags := Meaning(rx).flags + {me}))
    {
      hide ChaosFlags.WellSized;
      value, phase := rx.value, rx.phase;
      flags.Copy(rx.flags);
      votes.Copy(rx.votes);
      flags.Add(me);
    }

    /** The radio's next state. */
    method NextState(heard: bool, threshold: nat, crash: bool) returns (r: Radio)
      ensures var q := NextRadio(radio, synced, heard, threshold); r == if crash then q.(state := Off) else q
    {
      r := radio;
      if r.state == Listen && heard {
        if r.send {
          r := r.(state := Send, flood := if r.complete then r.flood + 1 else r.flood);
        }
      } else if r.state == Listen && synced {
        r := r.(missed := r.missed + 1);
        if r.missed > r.threshold {
          r := r.(state := Send, missed := 0, threshold := threshold, flood := if r.complete then r.flood + 1 else r.flood);
        }
      } else if r.state == Send && r.progress && r.flood >= FINAL_FLOOD {
        r := r.(state := Off);
      } else if r.state == Send {
        r := r.(state := Listen);
      }
      if crash {
        r := r.(state := Off);
      }
    }

    method DecideRadio(heard: bool, threshold: nat, crash: bool)
      requires Valid()
      modifies this
      ensures Valid() && Value() == Settle(old(Value()), heard, threshold, crash)
    {
      hide NextRadio;
      radio := NextState(heard, threshold, crash);
      if radio.state == Send {
        didTx := true;
      }
    }

    /** `process`. */
    method Run(heard: bool, rx: Frame, threshold: nat, crash: bool)
      requires Valid() && FitsIn(rx, count)
      modifies this, flags.bytes, votes.bytes
      ensures Valid() && Value() == Process(old(Value()), heard, Meaning(rx), threshold, crash)
    {
      hide OnPacket, Settle;
      if radio.state == Listen && heard {
        Handle(rx);
      }
      DecideRadio(heard, threshold, crash);
    }

    /** What goes on the air. */
    method Transmit() returns (f: Frame)
      requires Valid()
      ensures Meaning(f) == Value().tx && FitsIn(f, count)
    {
      f := Frame(value, phase, flags.bytes[..], votes.bytes[..]);
    }
  }

  // ------------------------------------------------------------------
  // A network of them
  // ------------------------------------------------------------------

  /** Nodes of one network, none sharing memory with another. */
  ghost predicate Apart(ps: seq<Participant>)
    reads ps
  {
    && (forall i :: 0 <= i < |ps| ==> ps[i].count == |ps|)
    && (forall i, j :: 0 <= i < j < |ps| ==> ps[i] != ps[j] && Separate(ps[i], ps[j]))
  }

  ghost predicate Separate(p: Participant, q: Participant)
  {
    && p.flags.bytes != q.flags.bytes && p.flags.bytes != q.votes.bytes
    && p.votes.bytes != q.flags.bytes && p.votes.bytes != q.votes.bytes
  }

  ghost function Buffers(ps: seq<Participant>): set<object>
  {
    (set i | 0 <= i < |ps| :: ps[i].flags.bytes) + (set i | 0 <= i < |ps| :: ps[i].votes.bytes)
  }

  ghost predicate Holds(ps: seq<Participant>, s: Network)
    reads ps, set i | 0 <= i < |ps| :: ps[i].flags, set i | 0 <= i < |ps| :: ps[i].flags.bytes
    reads set i | 0 <= i < |ps| :: ps[i].votes, set i | 0 <= i < |ps| :: ps[i].votes.bytes
  {
    |ps| == |s| && forall i :: 0 <= i < |ps| ==> ps[i].Valid() && ps[i].Value() == s[i]
  }

  ghost predicate OnAir(frames: seq<Frame>, s: Network)
  {
    |frames| == |s| && forall i :: 0 <= i < |s| ==> Meaning(frames[i]) == s[i].tx && FitsIn(frames[i], |s|)
  }

  method TransmitAll(ps: seq<Participant>, ghost s: Network) returns (frames: seq<Frame>)
    requires Apart(ps) && Holds(ps, s)
    ensures OnAir(frames, s)
  {
    hide FitsIn;
    frames := [];
    var i := 0;
    while i < |ps|
      invariant i <= |ps| && |frames| == i
      invariant forall k :: 0 <= k < i ==> Meaning(frames[k]) == s[k].tx && FitsIn(frames[k], |s|)
    {
      var f := ps[i].Transmit();
      frames := frames + [f];
      i := i + 1;
    }
  }

  /** A whole slot on the nodes' own memory is a slot of the protocol. */
  method RunSlot(ps: seq<Participant>, choices: seq<Choice>, ghost s: Network)
    requires Apart(ps) && Holds(ps, s) && Allowed(s, choices)
    modifies ps, Buffers(ps)
    ensures Apart(ps) && Holds(ps, Advance(s, choices))
  {
    hide Process, Next, Advance, OnAir, FitsIn, Participant.Value, Participant.Valid, Allowed;
    var frames := TransmitAll(ps, s);
    var i := 0;
    while i < |ps|
      invariant i <= |ps|
      invariant forall k :: 0 <= k < |ps| ==> ps[k].Valid()
      invariant forall k :: i <= k < |ps| ==> ps[k].Value() == s[k]
      invariant forall k :: 0 <= k < i ==> ps[k].Value() == Advance(s, choices)[k]
    {
      assert forall k :: 0 <= k < |ps| && k != i ==> ps[k] != ps[i] && Separate(ps[i], ps[k]);
      RunOne(ps[i], i, frames, choices, s);
      i := i + 1;
    }
  }

  /** One node's part of it. */
  method RunOne(p: Participant, i: nat, frames: seq<Frame>, choices: seq<Choice>, ghost s: Network)
    requires i < |s| && p.Valid() && p.Value() == s[i] && p.count == |s| && OnAir(frames, s) && Allowed(s, choices)
    modifies p, p.flags.bytes, p.votes.bytes
    ensures p.Valid() && p.Value() == Advance(s, choices)[i]
  {
    hide Process, FitsIn;
    var c := choices[i];
    if p.radio.state != Off {
      var f := if c.hears then frames[c.from] else frames[i];
      p.Run(c.hears, f, c.threshold, c.crash);
    }
  }
}
