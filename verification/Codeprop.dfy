/** Code propagation: one source broadcasts an image in packets, receivers ask it to
    go back by NACK, and the network loses, repeats and reorders packets at will.
 */
module Codeprop {
  import opened Common
  import opened Machine

  const UDPDATASIZE: nat := 32
  const MEMORY: nat := 0x1_0000

  type Image = s: seq<Byte> | |s| < MEMORY witness []

  datatype Packet =
    | Data(id: nat, addr: nat, len: nat, data: seq<Byte>)
    | Nack(addr: nat)

  // ----- The source -----

  /** The sender's part of the state record; `image` is its EEPROM, and `sending` says
      that it is in the sending loop, the wait after the last packet included. */
  datatype Source = Source(id: nat, addr: nat, image: Image, sending: bool)

  /** `send_udpdata`: the packet at the current address. */
  function DataPacket(s: Source): Packet
    requires s.addr <= |s.image|
  {
    var n := if |s.image| - s.addr > UDPDATASIZE then UDPDATASIZE else |s.image| - s.addr;
    Data(s.id, s.addr, |s.image|, s.image[s.addr..s.addr + n])
  }

  /** The sending loop: one packet out, address moved on, and the wait begins. */
  function AfterSend(s: Source): Source
    requires s.addr <= |s.image|
  {
    s.(addr := s.addr + |DataPacket(s).data|)
  }

  /** A NACK is taken during a wait, and only when it points back; taken after the last
      packet, it keeps the sender in the loop. */
  function OnNack(s: Source, addr: nat): Source
  {
    if s.sending && addr <= s.addr then s.(addr := addr) else s
  }

  // ----- A receiver -----

  datatype Receiver = Receiver(id: nat, addr: nat, len: nat, receiving: bool, memory: seq<Byte>)

  /** `eeprom_write`. */
  function Write(memory: seq<Byte>, at: nat, data: seq<Byte>): (m: seq<Byte>)
    ensures |m| == |memory|
  {
    seq(|memory|, i requires 0 <= i < |memory| => if at <= i < at + |data| then data[i - at] else memory[i])
  }

  /** The body of the receive loop for a packet whose address field reads `addr`. */
  function Take(r: Receiver, addr: nat, data: seq<Byte>): Receiver
  {
    var next := if addr == r.addr && |data| > 0
                then r.(memory := Write(r.memory, r.addr, data), addr := (r.addr + |data|) % MEMORY) else r;
    next.(receiving := next.addr < next.len)
  }

  /** `recv_udpthread` on one packet. A packet with a newer id is taken up whatever its
      address: when the address is not 0 a NACK is sent, and sending it overwrites the
      address field with 0 before the field is tested. */
  function OnPacket(r: Receiver, p: Packet): Receiver
  {
    if !p.Data? then r
    else if r.receiving then
      if p.id == r.id then Take(r, p.addr, p.data) else r
    else if p.id > r.id then
      var started := r.(id := p.id, len := p.len, addr := 0);
      if p.len > 0 then Take(started, 0, p.data) else started.(receiving := false)
    else r
  }

  /** The NACK that a packet provokes. */
  function Reply(r: Receiver, p: Packet): Option<Packet>
  {
    if !p.Data? then None
    else if r.receiving then
      if p.id == r.id && p.addr > r.addr then Some(Nack(r.addr)) else None
    else if p.id > r.id && p.addr != 0 then Some(Nack(0))
    else None
  }

  /** The receiver as the program holds it. */
  class ReceiverNode {
    var id: nat
    var addr: nat
    var len: nat
    var receiving: bool
    var memory: seq<Byte>

    ghost function View(): Receiver
      reads this
    {
      Receiver(id, addr, len, receiving, memory)
    }

    constructor ()
      ensures View() == FRESH
    {
      id, addr, len, receiving, memory := 0, 0, 0, false, seq(MEMORY, _ => 0);
    }

    /** One delivery to `recv_udpthread`: the header is a buffer that `send_nack` writes
        into while it is still being read. */
    method Deliver(p: Packet) returns (reply: Option<Packet>)
      modifies this
      ensures View() == OnPacket(old(View()), p)
      ensures reply == Reply(old(View()), p)
    {
      reply := None;
      if !p.Data? { return; }
      var field := p.addr;
      if !receiving {
        if p.id <= id { return; }
        if field != 0 {
          addr := 0;
          reply := Some(Nack(0));
          field := 0;
        }
        addr, id, len := 0, p.id, p.len;
        if addr >= len {
          receiving := false;
          return;
        }
      } else if p.id != id {
        return;
      }
      if field == addr {
        if |p.data| > 0 {
          memory := Write(memory, addr, p.data);
          addr := (addr + |p.data|) % MEMORY;
        }
      } else if field > addr {
        reply := Some(Nack(addr));
      }
      receiving := addr < len;
    }
  }

  const FRESH: Receiver := Receiver(0, 0, 0, false, seq(MEMORY, _ => 0))

  // ----- The system -----

  /** `images` records the image broadcast under each id; `sent` is every packet ever
      put on the air, any of which may arrive any number of times or never. */
  datatype System = System(images: map<nat, Image>, source: Source, receivers: seq<Receiver>, sent: set<Packet>)

  /** `Send` and `Quit` are the two ways a wait of the source ends. */
  datatype Step =
    | Start(image: Image)
    | Send
    | Quit
    | SourceHears(p: Packet)
    | Hears(r: nat, p: Packet)
    | Timeout(r: nat)

  predicate Enabled(s: System, step: Step)
  {
    match step
    case Start(_) => !s.source.sending
    case Send => s.source.sending && s.source.addr < |s.source.image|
    case Quit => s.source.sending && s.source.addr >= |s.source.image|
    case SourceHears(p) => p in s.sent && p.Nack?
    case Hears(r, p) => r < |s.receivers| && p in s.sent
    case Timeout(r) => r < |s.receivers| && s.receivers[r].receiving
  }

  function Apply(s: System, step: Step): System
    requires Enabled(s, step)
  {
    match step
    case Start(image) =>
      s.(images := s.images[s.source.id + 1 := image],
         source := Source(s.source.id + 1, 0, image, true))
    case Send => s.(sent := s.sent + {DataPacket(s.source)}, source := AfterSend(s.source))
    case Quit => s.(source := s.source.(sending := false))
    case SourceHears(p) => s.(source := OnNack(s.source, p.addr))
    case Hears(r, p) =>
      var reply := Reply(s.receivers[r], p);
      s.(receivers := s.receivers[r := OnPacket(s.receivers[r], p)],
         sent := if reply.Some? then s.sent + {reply.value} else s.sent)
    case Timeout(r) => s.(sent := s.sent + {Nack(s.receivers[r].addr)})
  }

  function Init(n: nat): System
  {
    System(map[0 := []], Source(0, 0, [], false), seq(n, _ => FRESH), {})
  }

  // ----- Invariants -----

  ghost predicate PacketOk(images: map<nat, Image>, p: Packet)
  {
    p.Data? ==>
      && p.id in images && p.len == |images[p.id]|
      && p.addr + |p.data| <= p.len && p.data == images[p.id][p.addr..p.addr + |p.data|]
  }

  /** What a receiver has below its address is the image, and it is receiving exactly
      while something is missing. */
  ghost predicate ReceiverOk(images: map<nat, Image>, r: Receiver)
  {
    && |r.memory| == MEMORY
    && r.id in images && r.len == |images[r.id]| && r.addr <= r.len
    && r.memory[..r.addr] == images[r.id][..r.addr]
    && r.receiving == (r.addr < r.len)
  }

  ghost predicate SourceOk(images: map<nat, Image>, s: Source)
  {
    && s.id in images && images[s.id] == s.image && s.addr <= |s.image|
    && forall id <- images :: id <= s.id
  }

  ghost predicate Inv(s: System)
  {
    && SourceOk(s.images, s.source)
    && (forall p <- s.sent :: PacketOk(s.images, p))
    && (forall k :: 0 <= k < |s.receivers| ==> ReceiverOk(s.images, s.receivers[k]))
  }

  /** The packet that makes a receiver take up a new id starts the image. */
  ghost predicate Faithful(s: System, step: Step)
    requires Enabled(s, step)
  {
    step.Hears? && step.p.Data? && !s.receivers[step.r].receiving && step.p.id > s.receivers[step.r].id ==>
      step.p.addr == 0
  }

  lemma TakeKeeps(images: map<nat, Image>, r: Receiver, addr: nat, data: seq<Byte>)
    requires |r.memory| == MEMORY && r.id in images && r.len == |images[r.id]| && r.addr <= r.len
    requires r.memory[..r.addr] == images[r.id][..r.addr]
    requires addr + |data| <= r.len && (addr == r.addr ==> data == images[r.id][addr..addr + |data|])
    ensures ReceiverOk(images, Take(r, addr, data))
    ensures Take(r, addr, data).addr >= r.addr
  {
    var t := Take(r, addr, data);
    var image := images[r.id];
    if addr == r.addr && |data| > 0 {
      forall i | 0 <= i < t.addr
        ensures t.memory[i] == image[i]
      {
        if i < r.addr {
          assert r.memory[i] == r.memory[..r.addr][i] == image[..r.addr][i];
        } else {
          assert data[i - addr] == image[addr..addr + |data|][i - addr];
        }
      }
      assert t.memory[..t.addr] == image[..t.addr];
    }
  }

  /** One delivery keeps a receiver correct when a new id starts at address 0. */
  lemma DeliveryKeeps(images: map<nat, Image>, r: Receiver, p: Packet)
    requires ReceiverOk(images, r) && PacketOk(images, p)
    requires p.Data? && !r.receiving && p.id > r.id ==> p.addr == 0
    ensures ReceiverOk(images, OnPacket(r, p))
  {
    if p.Data? {
      if r.receiving && p.id == r.id {
        TakeKeeps(images, r, p.addr, p.data);
      } else if !r.receiving && p.id > r.id && p.len > 0 {
        var started := r.(id := p.id, len := p.len, addr := 0);
        assert started.memory[..0] == images[p.id][..0];
        TakeKeeps(images, started, 0, p.data);
      }
    }
  }

  /** Taking up a new id keeps the receiver correct exactly when the packet's bytes
      happen to be the first bytes of the image, as they are at address 0. */
  lemma AdoptionIff(images: map<nat, Image>, r: Receiver, p: Packet)
    requires ReceiverOk(images, r) && PacketOk(images, p) && p.Data? && !r.receiving && p.id > r.id
    ensures ReceiverOk(images, OnPacket(r, p)) <==> p.data <= images[p.id]
    ensures p.addr == 0 ==> p.data <= images[p.id]
  {
    var image, t := images[p.id], OnPacket(r, p);
    if p.data <= image {
      if p.len > 0 {
        var started := r.(id := p.id, len := p.len, addr := 0);
        assert started.memory[..0] == image[..0];
        assert p.data == image[0..|p.data|];
        TakeKeeps(images, started, 0, p.data);
      }
    } else {
      assert t.addr == |p.data| > 0;
      var i :| 0 <= i < |p.data| && p.data[i] != image[i];
      assert t.memory[..t.addr][i] == t.memory[i] == p.data[i];
      assert image[..t.addr][i] == image[i];
    }
  }

  lemma PacketsGrow(images: map<nat, Image>, id: nat, image: Image, p: Packet)
    requires PacketOk(images, p) && id !in images
    ensures PacketOk(images[id := image], p)
  {
  }

  /** Every step keeps the invariant. */
  lemma StepKeeps(s: System, step: Step)
    requires Inv(s) && Enabled(s, step) && Faithful(s, step)
    ensures Inv(Apply(s, step))
  {
    var s' := Apply(s, step);
    match step {
      case Start(image) =>
        forall p | p in s.sent
          ensures PacketOk(s'.images, p)
        {
          PacketsGrow(s.images, s.source.id + 1, image, p);
        }
      case Send =>
      case Quit =>
      case SourceHears(p) =>
      case Hears(r, p) =>
        DeliveryKeeps(s.images, s.receivers[r], p);
      case Timeout(r) =>
    }
  }

  // ----- Whole runs -----

  /** States `ss` linked by `steps`, in which new ids are taken up at address 0. */
  ghost predicate IsRun(ss: seq<System>, steps: seq<Step>, n: nat)
  {
    && |ss| == |steps| + 1 && ss[0] == Init(n)
    && forall k :: 0 <= k < |steps| ==>
         Enabled(ss[k], steps[k]) && Faithful(ss[k], steps[k]) && ss[k + 1] == Apply(ss[k], steps[k])
  }

  /** Safety: in every state of every run, what a receiver has below its address is
      the source's image for its id. */
  lemma {:induction false} RunsAreSafe(ss: seq<System>, steps: seq<Step>, n: nat, k: nat)
    requires IsRun(ss, steps, n) && k < |ss|
    ensures Inv(ss[k])
  {
    if k == 0 {
      assert FRESH.memory[..0] == [];
    } else {
      RunsAreSafe(ss, steps, n, k - 1);
      StepKeeps(ss[k - 1], steps[k - 1]);
    }
  }

  /** Progress is never lost: over any stretch of a run in which a receiver ends with
      the id it started with, its address does not go down, and ids only grow. */
  lemma {:induction false} AddressesNeverDecrease(ss: seq<System>, steps: seq<Step>, n: nat, i: nat, j: nat, r: nat)
    requires IsRun(ss, steps, n) && i <= j < |ss| && r < n
    ensures |ss[i].receivers| == |ss[j].receivers| == n
    ensures ss[i].receivers[r].id <= ss[j].receivers[r].id
    ensures ss[i].receivers[r].id == ss[j].receivers[r].id ==> ss[i].receivers[r].addr <= ss[j].receivers[r].addr
    decreases j
  {
    hide Inv, Apply, Enabled, Faithful;
    if j > 0 {
      AddressesNeverDecrease(ss, steps, n, if i < j then i else j - 1, j - 1, r);
      RunsAreSafe(ss, steps, n, j - 1);
      DeliveryMonotone(ss[j - 1], steps[j - 1], r);
    }
  }

  lemma DeliveryMonotone(s: System, step: Step, r: nat)
    requires Inv(s) && Enabled(s, step) && r < |s.receivers|
    ensures var a, b := s.receivers[r], Apply(s, step).receivers[r];
            && |Apply(s, step).receivers| == |s.receivers|
            && a.id <= b.id && (a.id == b.id ==> a.addr <= b.addr)
  {
    if step.Hears? && step.r == r && step.p.Data? && s.receivers[r].receiving && step.p.id == s.receivers[r].id {
      TakeKeeps(s.images, s.receivers[r], step.p.addr, step.p.data);
    }
  }

  /** Leaving the receive loop means that the whole image has arrived. */
  lemma CompletionMatches(ss: seq<System>, steps: seq<Step>, n: nat, k: nat, r: nat)
    requires IsRun(ss, steps, n) && k < |ss| && r < |ss[k].receivers|
    requires !ss[k].receivers[r].receiving
    ensures var node := ss[k].receivers[r];
            && node.id in ss[k].images && |node.memory| == MEMORY
            && node.memory[..|ss[k].images[node.id]|] == ss[k].images[node.id]
  {
    RunsAreSafe(ss, steps, n, k);
    var node := ss[k].receivers[r];
    assert ReceiverOk(ss[k].images, node);
    assert ss[k].images[node.id][..node.len] == ss[k].images[node.id];
  }

  // ----- Recovery -----

  /** `steps` leads from `s` to `last`. */
  ghost predicate Leads(s: System, steps: seq<Step>, last: System)
    decreases |steps|
  {
    if steps == [] then last == s
    else Enabled(s, steps[0]) && Faithful(s, steps[0]) && Leads(Apply(s, steps[0]), steps[1..], last)
  }

  /** Receiver `r` is taking the image that the source is still in the loop for. */
  ghost predicate Underway(s: System, r: nat)
  {
    && Inv(s) && s.source.sending && r < |s.receivers|
    && s.receivers[r].receiving && s.receivers[r].id == s.source.id
  }

  /** How far source and receiver are from being at one address. */
  ghost function Apart(s: System, r: nat): nat
    requires r < |s.receivers|
  {
    var from, to := s.source.addr, s.receivers[r].addr;
    if from > to then 1 else if from == to then 0 else 2 + to - from
  }

  /** One round of recovery: the source catches up, goes back by NACK, or delivers. */
  lemma Recover(s: System, r: nat) returns (steps: seq<Step>, next: System)
    requires Underway(s, r)
    ensures Leads(s, steps, next)
    ensures Inv(next) && r < |next.receivers| && next.source.id == s.source.id && next.images == s.images
    ensures next.source.sending && next.receivers[r].id == s.receivers[r].id && next.receivers[r].len == s.receivers[r].len
    ensures || next.receivers[r].addr > s.receivers[r].addr
            || (next.receivers[r] == s.receivers[r] && Apart(next, r) < Apart(s, r))
  {
    var node := s.receivers[r];
    assert ReceiverOk(s.images, node);
    var first := if s.source.addr > node.addr then Timeout(r) else Send;
    StepKeeps(s, first);
    var mid := Apply(s, first);
    if s.source.addr < node.addr {
      steps, next := [first], mid;
      assert Leads(mid, steps[1..], next);
    } else {
      var second := if s.source.addr > node.addr then SourceHears(Nack(node.addr)) else Hears(r, DataPacket(s.source));
      StepKeeps(mid, second);
      steps, next := [first, second], Apply(mid, second);
      assert Leads(next, steps[1..][1..], next);
      assert Leads(mid, steps[1..], next);
    }
  }

  lemma {:induction false} LeadsJoin(s: System, a: seq<Step>, mid: System, b: seq<Step>, last: System)
    requires Leads(s, a, mid) && Leads(mid, b, last)
    ensures Leads(s, a + b, last)
    decreases |a|
  {
    if a == [] {
      assert a + b == b;
    } else {
      LeadsJoin(Apply(s, a[0]), a[1..], mid, b, last);
      assert (a + b)[1..] == a[1..] + b;
    }
  }

  /** No run leaves a receiver beyond help: while the source is in the loop, the wait
      after its last packet included, some continuation completes the image. */
  lemma {:induction false} CanComplete(s: System, r: nat) returns (steps: seq<Step>, last: System)
    requires Underway(s, r)
    ensures Leads(s, steps, last) && r < |last.receivers| && last.images == s.images
    ensures var image := s.images[s.source.id];
            && !last.receivers[r].receiving && last.receivers[r].id == s.source.id
            && |last.receivers[r].memory| == MEMORY && last.receivers[r].memory[..|image|] == image
    decreases s.receivers[r].len - s.receivers[r].addr, Apart(s, r)
  {
    assert ReceiverOk(s.images, s.receivers[r]);
    steps, last := Recover(s, r);
    assert ReceiverOk(last.images, last.receivers[r]);
    if last.receivers[r].receiving {
      var rest, end := CanComplete(last, r);
      LeadsJoin(s, steps, last, rest, end);
      steps, last := steps + rest, end;
    } else {
      var image := s.images[s.source.id];
      assert image[..|image|] == image;
    }
  }

  /** Without the address-0 condition safety fails: a receiver whose first packet of a
      new image is the second one stores its bytes at address 0. */
  lemma LateJoinerIsCorrupted(image: Image)
    requires |image| == UDPDATASIZE + 1 && image[UDPDATASIZE] != image[0]
    ensures var p := Data(1, UDPDATASIZE, |image|, image[UDPDATASIZE..]);
            var images := map[0 := [], 1 := image];
            && PacketOk(images, p) && ReceiverOk(images, FRESH)
            && !ReceiverOk(images, OnPacket(FRESH, p))
  {
    var p := Data(1, UDPDATASIZE, |image|, image[UDPDATASIZE..]);
    var images: map<nat, Image> := map[0 := [], 1 := image];
    assert FRESH.memory[..0] == images[0][..0];
    AdoptionIff(images, FRESH, p);
    assert p.data[0] == image[UDPDATASIZE];
  }


  // ----- What NACKs are for -----

  /** A receiver answers a packet with a NACK if and only if the packet is of its image and
      ahead of it, or starts an image it does not have in the middle; the NACK names the
      byte it needs next. */
  lemma NacksIff(s: System, r: nat, p: Packet)
    requires Enabled(s, Hears(r, p))
    ensures var node, t := s.receivers[r], Apply(s, Hears(r, p));
            var ahead := p.Data? && (if node.receiving then p.id == node.id && p.addr > node.addr else p.id > node.id && p.addr > 0);
            t.sent == s.sent + if ahead then {Nack(if node.receiving then node.addr else 0)} else {}
  {
  }

  /** A gap is repaired in two steps: the receiver that hears a packet ahead of it sends a
      NACK, and the source that hears it goes back to the missing bytes. */
  lemma GapIsRepaired(s: System, r: nat, p: Packet)
    requires Underway(s, r) && p in s.sent && p.Data? && p.id == s.receivers[r].id
    requires s.receivers[r].addr < p.addr && s.receivers[r].addr <= s.source.addr
    ensures Enabled(s, Hears(r, p)) && Faithful(s, Hears(r, p))
    ensures var mid, nack := Apply(s, Hears(r, p)), Nack(s.receivers[r].addr);
            && Enabled(mid, SourceHears(nack)) && mid.receivers == s.receivers
            && var t := Apply(mid, SourceHears(nack));
               t.source == s.source.(addr := s.receivers[r].addr) && t.receivers == s.receivers && Underway(t, r)
  {
    assert ReceiverOk(s.images, s.receivers[r]) && PacketOk(s.images, p);
    StepKeeps(s, Hears(r, p));
    var mid := Apply(s, Hears(r, p));
    assert mid.receivers == s.receivers;
    StepKeeps(mid, SourceHears(Nack(s.receivers[r].addr)));
  }

  /** A receiver that takes up an image in the middle asks for its start, and the source
      begins again. */
  lemma LateJoinerAsksForStart(s: System, r: nat, p: Packet)
    requires Inv(s) && s.source.sending && r < |s.receivers| && p in s.sent && p.Data?
    requires !s.receivers[r].receiving && p.id > s.receivers[r].id && p.addr > 0
    ensures var mid := Apply(s, Hears(r, p));
            Enabled(mid, SourceHears(Nack(0))) && Apply(mid, SourceHears(Nack(0))).source == s.source.(addr := 0)
  {
  }


  /** Undisturbed, the source goes through the image in blocks of `UDPDATASIZE`. */
  lemma {:induction false} SendsInBlocks(s: System, k: nat, last: System)
    requires s.source.addr <= |s.source.image| && Leads(s, seq(k, _ => Send), last)
    ensures var to := s.source.addr + k * UDPDATASIZE;
            last.source == s.source.(addr := if to <= |s.source.image| then to else |s.source.image|)
    decreases k
  {
    if k > 0 {
      assert seq(k, _ => Send)[1..] == seq(k - 1, _ => Send);
      SendsInBlocks(Apply(s, Send), k - 1, last);
    }
  }
}
