/** A loser that tries again inside its round.

    In a round of more than 256 slots the wait of a loser does not fit its eight bits
    and ends before the round does, unless what is left of it is nothing. A loser may
    then announce its next ballot after it has promised a higher one, count itself as a
    vote for it, and refuse it: a value is learned that no majority has accepted. Here
    that happens in a round of six nodes for every wait that there is.
 */
module PaxosRetry {
  import ChaosFlags
  import opened Paxos
  import opened PaxosSteps
  import opened PaxosSafety
  import opened PaxosSlots
  import opened PaxosQuorum
  import B = PaxosBallots

  // ------------------------------------------------------------------
  // The cast
  // ------------------------------------------------------------------

  const LOW: nat := 0
  const MIDDLE: nat := 1
  const HIGH: nat := 2

  /** Three proposers and three followers, one of which initiates. */
  function Losers(slots: nat, a: nat, b: nat, c: nat): Setup
  {
    Setup([Proposes(a), Proposes(b), Proposes(c), Follower, Follower, Follower], 3, slots, [4, 4, 4, 4, 4, 4])
  }

  /** Node `i`, awake and with nothing complete. */
  ghost predicate Base(n: Node, i: nat, w: nat)
  {
    && n.me == i && n.count == 6 && n.wait == w && Calm(n) && n.radio.threshold == 4 && n.radio.missed <= 4
    && (n.radio.state == Listen || n.radio.state == Send) && n.learner == Learner(0, false)
    && (i < 3 ==> n.acceptor.acceptedProposal == 0)
  }

  /** The node is about to send. */
  predicate Primed(n: Node)
  {
    n.radio.state == Send && n.radio.synced && n.radio.missed == 0
  }

  /** The node is about to send, or will be after `d` slots of silence. */
  predicate Due(n: Node, d: nat)
  {
    Primed(n) || (n.radio.state == Listen && n.radio.synced && n.radio.missed + d >= 5)
  }

  /** A follower that knows nothing but the heartbeat, which it repeats. */
  predicate Clock(n: Node)
  {
    !n.proposer.active && n.acceptor.minProposal == 0 && n.tx.ballot == 0 && n.tx.phase == INIT
  }

  /** A proposer that has lost to ballot `high` and waits for `left` slots. */
  predicate Loser(n: Node, v: nat, left: nat, high: nat)
  {
    && n.me < 256 && high > 0 && n.proposer == Proposer(true, Ballot(2, n.me), v, PREPARE, false, left)
    && n.acceptor.minProposal == high && n.rx.acceptedProposal == 0 && n.rx.minProposal == 0
    && n.tx.ballot == high && n.tx.phase == PREPARE && n.tx.proposal == 0 && n.me in n.tx.flags
  }

  /** A proposer that has just put ballot `b` into its buffer. */
  predicate Announced(n: Node, b: nat, v: nat)
  {
    && n.proposer == Proposer(true, b, v, PREPARE, false, 0) && b > 0 && n.acceptor.minProposal > 0
    && n.tx == Packet(b, PREPARE, v, 0, {n.me}) && n.rx.acceptedProposal == 0 && n.rx.minProposal == 0
  }

  /** A proposer that asks for votes under a ballot below its own promise. */
  predicate Asks(n: Node, b: nat, v: nat)
  {
    && n.proposer == Proposer(true, b, v, ACCEPT, false, 0) && n.acceptor.minProposal > b > 0
    && n.tx == Packet(b, ACCEPT, v, 0, {n.me})
  }

  /** A proposer that has heard nothing. */
  predicate Unstarted(n: Node, v: nat)
  {
    && n.me < 256 && n.proposer == Proposer(true, Ballot(1, n.me), v, INIT, false, 0) && n.acceptor.minProposal == 0
    && n.rx.acceptedProposal == 0 && n.rx.minProposal == 0 && n.tx == Packet(0, INIT, v, 0, {n.me})
  }

  // ------------------------------------------------------------------
  // Single nodes
  // ------------------------------------------------------------------

  /** What `process` leaves of the radio bookkeeping. */
  lemma PacketRadio(n: Node, heard: Packet, own: bool, keep: bool)
    ensures var r := OnPacket(n, heard, own, keep); r.radio == n.radio.(complete := r.radio.complete)
  {
    var a := AcceptorStep(n, heard, own, keep);
    AcceptorRadio(n, heard, own, keep);
    ProposerRadio(a, heard, own);
    hide AcceptorStep, ProposerStep, ChaosFlags.AllSet;
  }

  lemma AcceptorRadio(n: Node, heard: Packet, own: bool, keep: bool)
    ensures var r := AcceptorStep(n, heard, own, keep); r.radio == n.radio.(complete := r.radio.complete)
  {
    var p := Payload(n, heard, own);
    if IsCurrent(n, p) {
      AcceptorUnfold(n, heard, own, keep);
      var t := TakeOver(n, p);
      PhaseRadio(t, heard, own);
      var o := OnPhase(t, heard, own);
      hide OnPhase, TakeOver, ChaosFlags.AllSet, AcceptorStep, IsNewPhase;
      assert t.radio == n.radio by { TakeOverRadio(n, p); }
      var m := MergeFlags(o, heard, own, IsNewPhase(n, p));
      assert AddOwnFlag(m).radio == n.radio;
      var full := ChaosFlags.AllSet(m.tx.flags, m.count);
      var r := LearnAndComplete(AddOwnFlag(m), heard, own, |m.tx.flags|, full, keep);
      assert r.radio == n.radio.(complete := r.radio.complete);
    }
  }

  lemma TakeOverRadio(n: Node, p: Packet)
    ensures TakeOver(n, p).radio == n.radio
  {
  }

  lemma PhaseRadio(n: Node, heard: Packet, own: bool)
    ensures OnPhase(n, heard, own).radio == n.radio
  {
  }

  lemma ProposerRadio(n: Node, heard: Packet, own: bool)
    ensures ProposerStep(n, heard, own).radio == n.radio
  {
    if n.proposer.active && !n.proposer.gotMajority {
      var p := Payload(n, heard, own);
      CountRadio(n);
      var v := Compete(n, p);
      assert v.node.radio == n.radio by { hide CountReplies; }
      LoseRadio(v.node);
      hide Compete, Lose;
    }
  }

  lemma CountRadio(n: Node)
    ensures CountReplies(n).node.radio == n.radio
  {
  }

  lemma LoseRadio(n: Node)
    ensures Lose(n).radio == n.radio
  {
    hide NextBallot;
  }

  lemma HearRadio(n: Node, p: Packet)
    requires n.radio.state == Listen && Calm(n)
    ensures var r, o := Hear(n, p), OnPacket(Woken(n), p, false, true);
            && SameState(o, r) && r.radio.threshold == n.radio.threshold && r.radio.missed == 0 && r.radio.synced
            && r.radio.complete == o.radio.complete && r.radio.state == (if o.send then Send else Listen)
            && (!r.radio.complete ==> Calm(r))
  {
    PacketRadio(Woken(n), p, false, true);
    hide OnPacket;
  }

  lemma SentRadio(n: Node)
    requires n.radio.state == Send && Calm(n) && n.proposer.active
    ensures var r, o := Sent(n), OnPacket(Woken(n), NO_PACKET, true, true);
            && SameState(o, r) && r.radio.threshold == n.radio.threshold && r.radio.missed == n.radio.missed && r.radio.synced
            && r.radio.complete == o.radio.complete && r.radio.state == Listen
            && (!r.radio.complete ==> Calm(r))
  {
    PacketRadio(Woken(n), NO_PACKET, true, true);
    hide OnPacket;
  }

  /** What happens to a node to which nothing happens. */
  ghost predicate Rests(n: Node, r: Node)
  {
    && SameState(n, r)
    && (n.radio.state == Send ==> r.radio.state == Send && r.radio.missed == n.radio.missed && (n.radio.synced ==> r.radio.synced))
    && (n.radio.state == Listen && !n.radio.synced ==> r.radio == n.radio)
    && (n.radio.state == Listen && n.radio.synced ==>
          r.radio.synced && if n.radio.missed < 4 then r.radio.state == Listen && r.radio.missed == n.radio.missed + 1
                            else Primed(r))
  }

  lemma Idles(n: Node, i: nat, w: nat)
    requires Base(n, i, w)
    ensures Rests(n, Idle(n)) && Base(Idle(n), i, w)
  {
    hide OnPacket;
  }

  lemma LoserHearsClock(n: Node, i: nat, w: nat, v: nat, left: nat, high: nat, p: Packet)
    requires Base(n, i, w) && n.radio.state == Listen && Loser(n, v, left, high) && left > 0
    requires p.phase == INIT && p.ballot == 0
    ensures var r := Hear(n, p);
            && Base(r, i, w) && Primed(r)
            && if left > 1 then Loser(r, v, left - 1, high) else Announced(r, Ballot(2, i), v)
  {
    HearRadio(n, p);
    hide Hear;
  }

  lemma LoserSends(n: Node, i: nat, w: nat, v: nat, left: nat, high: nat)
    requires Base(n, i, w) && n.radio.state == Send && Loser(n, v, left, high) && left > 0
    ensures var r := Sent(n);
            && Base(r, i, w) && r.radio.state == Listen && r.radio.missed == n.radio.missed && r.radio.synced
            && r.acceptor.minProposal == high
            && if left > 1 then Loser(r, v, left - 1, high) else Announced(r, Ballot(2, i), v)
  {
    SentRadio(n);
    assert n.tx.flags + n.tx.flags == n.tx.flags && n.tx.flags + {n.me} == n.tx.flags;
    hide Sent, ChaosFlags.AllSet;
  }

  lemma Loses(n: Node, i: nat, w: nat, v: nat, p: Packet)
    requires Base(n, i, w) && n.radio.state == Listen && Unstarted(n, v)
    requires p.phase == PREPARE && p.proposal == 0 && p.ballot > n.proposer.ballot
    ensures var r := Hear(n, p); Base(r, i, w) && Primed(r) && Loser(r, v, w, p.ballot)
  {
    HearRadio(n, p);
    hide Hear, ChaosFlags.AllSet;
  }

  lemma LoserHearsHigher(n: Node, i: nat, w: nat, v: nat, high: nat, p: Packet)
    requires Base(n, i, w) && n.radio.state == Listen && Loser(n, v, 1, high)
    requires p.phase == PREPARE && p.proposal == 0 && p.ballot > high
    ensures var r := Hear(n, p);
            && Base(r, i, w) && Primed(r)
            && Announced(r, Ballot(2, i), v) && r.acceptor.minProposal == p.ballot
  {
    HearRadio(n, p);
    hide Hear, ChaosFlags.AllSet;
  }

  lemma AnnouncedSends(n: Node, i: nat, w: nat, b: nat, v: nat)
    requires Base(n, i, w) && n.radio.state == Send && Announced(n, b, v)
    ensures var r := Sent(n);
            && Base(r, i, w) && r.radio.state == Listen && r.radio.missed == n.radio.missed && r.radio.synced
            && Announced(r, b, v) && r.acceptor.minProposal == Max(n.acceptor.minProposal, b)
  {
    SentRadio(n);
    assert {n.me} + {n.me} == {n.me};
    hide Sent, ChaosFlags.AllSet;
  }

  lemma AnnouncedOpens(n: Node, i: nat, w: nat, b: nat, v: nat, s: set<nat>)
    requires Base(n, i, w) && n.radio.state == Listen && Announced(n, b, v) && n.acceptor.minProposal > b
    requires i in s && |s| > 3
    ensures var r := Hear(n, Packet(b, PREPARE, v, 0, s));
            && Base(r, i, w) && Primed(r) && Asks(r, b, v)
            && r.acceptor.minProposal == n.acceptor.minProposal
  {
    HearRadio(n, Packet(b, PREPARE, v, 0, s));
    assert {n.me} + s == s && s + {n.me} == s;
    hide Hear, ChaosFlags.AllSet;
  }

  lemma AskerSends(n: Node, i: nat, w: nat, b: nat, v: nat)
    requires Base(n, i, w) && n.radio.state == Send && Asks(n, b, v)
    ensures Base(Sent(n), i, w)
  {
    SentRadio(n);
    assert {n.me} + {n.me} == {n.me};
    NotFull({n.me}, 6, if n.me == 0 then 1 else 0);
    hide Sent, ChaosFlags.AllSet;
  }

  lemma HearsHeartbeat(n: Node, i: nat, w: nat, p: Packet)
    requires Base(n, i, w) && n.radio.state == Listen && Clock(n)
    requires p.phase == INIT && p.ballot == 0 && p.flags <= {3} && n.tx.flags == {i} && i != 3
    ensures var r := Hear(n, p); Base(r, i, w) && Primed(r) && Clock(r)
  {
    HearRadio(n, p);
    NotFull(n.tx.flags + p.flags, 6, if i == 0 then 1 else 0);
    assert i in n.tx.flags && i !in p.flags;
    hide Hear, ChaosFlags.AllSet;
  }

  lemma StartsBallot(n: Node, i: nat, w: nat, v: nat, p: Packet)
    requires Base(n, i, w) && n.radio.state == Listen && Unstarted(n, v) && p.phase == INIT
    ensures var r := Hear(n, p);
            Base(r, i, w) && Primed(r) && Announced(r, Ballot(1, i), v)
  {
    HearRadio(n, p);
    hide Hear, ChaosFlags.AllSet;
  }

  /** A follower that sends. */
  lemma RelaySends(n: Node, i: nat, w: nat)
    requires Base(n, i, w) && n.radio.state == Send && !n.proposer.active
    ensures var r := Sent(n);
            && SameState(n, r) && Base(r, i, w) && r.radio.state == Listen && r.radio.missed == n.radio.missed
            && r.radio.synced == n.radio.synced
  {
    hide OnPacket;
  }

  lemma ClockReplies(n: Node, i: nat, w: nat, b: nat, v: nat, s: set<nat>)
    requires Base(n, i, w) && n.radio.state == Listen && Clock(n) && b > 0
    ensures var r := Hear(n, Packet(b, PREPARE, v, 0, s));
            && Base(r, i, w) && Replied(r, b, v, s) && Primed(r)
  {
    HearRadio(n, Packet(b, PREPARE, v, 0, s));
    hide Hear, ChaosFlags.AllSet;
  }

  lemma ReplierAccepts(n: Node, i: nat, w: nat, b: nat, v: nat, past: set<nat>, q: nat, s: set<nat>)
    requires Base(n, i, w) && n.radio.state == Listen && Replied(n, b, v, past) && i >= 3
    requires |s| <= 3 && 1 !in s
    ensures var r := Hear(n, Packet(b, ACCEPT, v, q, s));
            && Base(r, i, w) && Primed(r) && r.tx.flags == s + {i}
            && (q <= b ==> Accepts(r, b, v, s))
  {
    HearRadio(n, Packet(b, ACCEPT, v, q, s));
    NotFull(s, 6, 1);
    hide Hear, ChaosFlags.AllSet;
  }

  lemma VoterLearns(n: Node, i: nat, w: nat, b: nat, v: nat, past: set<nat>, s: set<nat>)
    requires Base(n, i, w) && n.radio.state == Listen && Accepts(n, b, v, past) && past + {i} <= s && |s| > 3
    ensures Hear(n, Packet(b, ACCEPT, v, b, s)).learner == Learner(v, true)
  {
    HearRadio(n, Packet(b, ACCEPT, v, b, s));
    assert n.tx.flags + s == s;
    hide Hear, ChaosFlags.AllSet;
  }

  // ------------------------------------------------------------------
  // Slots
  // ------------------------------------------------------------------

  ghost predicate World(s: Network, w: nat)
  {
    |s| == 6 && forall i :: 0 <= i < 6 ==> Base(s[i], i, w)
  }

  /** No proposer has accepted anything in the run. */
  ghost predicate Quietly(run: seq<Network>)
  {
    forall m, i :: 0 <= m < |run| && 0 <= i < 3 && i < |run[m]| ==> run[m][i].acceptor.acceptedProposal == 0
  }

  ghost predicate Gets(u: Setup, k: nat, s: Network)
  {
    exists run, choices :: IsRound(u, run, choices) && |choices| == k && run[k] == s && Quietly(run)
  }

  lemma GetsSlot(u: Setup, k: nat, s: Network, c: seq<Choice>)
    requires Gets(u, k, s) && Allowed(s, c) && k < u.slots
    requires forall i :: 0 <= i < 3 && i < |s| ==> Slot(s, c)[i].acceptor.acceptedProposal == 0
    ensures Gets(u, k + 1, Slot(s, c))
  {
    var run, choices :| IsRound(u, run, choices) && |choices| == k && run[k] == s && Quietly(run);
    var run', choices' := run + [Slot(s, c)], choices + [c];
    assert run'[0] == run[0];
    forall j | 0 <= j < |choices'|
      ensures Allowed(run'[j], choices'[j]) && run'[j + 1] == Slot(run'[j], choices'[j])
    {
      if j < k { assert Allowed(run[j], choices[j]) && run[j + 1] == Slot(run[j], choices[j]); }
    }
    forall m, i | 0 <= m < |run'| && 0 <= i < 3 && i < |run'[m]|
      ensures run'[m][i].acceptor.acceptedProposal == 0
    {
      if m <= k { assert run'[m] == run[m]; }
    }
    assert IsRound(u, run', choices') && run'[k + 1] == Slot(s, c);
  }

  /** A slot in which `senders` send, `hearers` hear node `from`, and the others rest. */
  function CastOf(s: Network, senders: set<nat>, hearers: set<nat>, from: nat): (es: seq<Event>)
    ensures |es| == |s|
  {
    seq(|s|, i requires 0 <= i < |s| =>
      if i in senders then Sends else if i in hearers then Hears(from) else IdleEvent(s[i]))
  }

  function NodeAfter(s: Network, senders: set<nat>, hearers: set<nat>, from: nat, i: nat): Node
    requires i < |s| && from < |s|
  {
    if i in senders then Sent(s[i]) else if i in hearers then Hear(s[i], s[from].tx) else Idle(s[i])
  }

  ghost predicate Castable(s: Network, w: nat, senders: set<nat>, hearers: set<nat>, from: nat)
  {
    && World(s, w) && from < 6 && (hearers != {} ==> from in senders)
    && (forall i :: i in senders ==> i < 6 && s[i].radio.state == Send)
    && (forall i :: i in hearers ==> i < 6 && s[i].radio.state == Listen)
  }

  lemma CastSlot(u: Setup, k: nat, s: Network, w: nat, senders: set<nat>, hearers: set<nat>, from: nat) returns (t: Network)
    requires Gets(u, k, s) && k < u.slots && Castable(s, w, senders, hearers, from)
    requires forall i :: 0 <= i < 3 && (i in senders || i in hearers) ==>
               NodeAfter(s, senders, hearers, from, i).acceptor.acceptedProposal == 0
    ensures Gets(u, k + 1, t) && |t| == 6
    ensures forall i :: 0 <= i < 6 ==> t[i] == NodeAfter(s, senders, hearers, from, i)
    ensures forall i :: 0 <= i < 6 && i !in senders && i !in hearers ==> Rests(s[i], t[i]) && Base(t[i], i, w)
  {
    var es := CastOf(s, senders, hearers, from);
    CastAllowed(s, w, senders, hearers, from);
    t := Slot(s, Draws(es));
    hide Slot, Draws, Hear, Sent, Idle, Gets, SameState, Rests, Calm;
    forall i | 0 <= i < 6
      ensures t[i] == NodeAfter(s, senders, hearers, from, i)
      ensures i !in senders && i !in hearers ==> Rests(s[i], t[i]) && Base(t[i], i, w)
    {
      EventIs(s, es, i);
      Idles(s[i], i, w);
    }
    GetsSlot(u, k, s, Draws(es));
  }

  lemma CastAllowed(s: Network, w: nat, senders: set<nat>, hearers: set<nat>, from: nat)
    requires Castable(s, w, senders, hearers, from)
    ensures Allowed(s, Draws(CastOf(s, senders, hearers, from)))
  {
    var es := CastOf(s, senders, hearers, from);
    var c := Draws(es);
    assert World(s, w);
    forall i | 0 <= i < |s|
      ensures Possible(s, c, i) && IsThreshold(c[i].threshold)
    {
      assert Base(s[i], i, w);
      assert c[i].event == es[i];
      if i in hearers { assert c[from].event == es[from] == Sends; }
    }
  }

  /** Silence for `d` slots: whoever is due by then is about to send. */
  lemma {:induction false} Rest(u: Setup, k: nat, s: Network, w: nat, d: nat) returns (t: Network)
    requires Gets(u, k, s) && World(s, w) && k + d <= u.slots
    ensures Gets(u, k + d, t) && World(t, w)
    ensures forall i :: 0 <= i < 6 ==> SameState(s[i], t[i]) && (Due(s[i], d) ==> Due(t[i], 0))
    ensures forall i :: 0 <= i < 6 && s[i].radio.state == Listen && !s[i].radio.synced ==>
              t[i].radio.state == Listen && !t[i].radio.synced
    decreases d
  {
    t := s;
    if d > 0 {
      var m := CastSlot(u, k, s, w, {}, {}, 0);
      hide Gets, SameState, NodeAfter;
      forall i | 0 <= i < 6
        ensures SameState(s[i], m[i]) && (Due(s[i], d) ==> Due(m[i], d - 1)) && Base(m[i], i, w)
        ensures s[i].radio.state == Listen && !s[i].radio.synced ==> m[i].radio.state == Listen && !m[i].radio.synced
      {
        assert Rests(s[i], m[i]) && Base(s[i], i, w);
      }
      t := Rest(u, k + 1, m, w, d - 1);
      forall i | 0 <= i < 6
        ensures SameState(s[i], t[i])
      {
        SameTwice(s[i], m[i], t[i]);
      }
    }
  }

  lemma SameTwice(n: Node, m: Node, r: Node)
    requires SameState(n, m) && SameState(m, r)
    ensures SameState(n, r)
  {
  }

  // ------------------------------------------------------------------
  // Waiting
  // ------------------------------------------------------------------

  /** `f`, `g` and `h` are the followers. */
  predicate Clocks(f: nat, g: nat, h: nat)
  {
    3 <= f < 6 && 3 <= g < 6 && 3 <= h < 6 && f != g && g != h && f != h
  }

  /** The lower two proposers wait; the follower `f` is about to send, then `g`, then `h`. */
  ghost predicate Burning(s: Network, w: nat, f: nat, g: nat, h: nat, left: nat, a: nat, b: nat)
  {
    && World(s, w) && Clocks(f, g, h)
    && Loser(s[LOW], a, left, 258) && Listens(s[LOW]) && Loser(s[MIDDLE], b, left, 258) && Listens(s[MIDDLE])
    && Ticks(s[f], 0) && Ticks(s[g], 2) && Ticks(s[h], 4)
  }

  predicate Listens(n: Node)
  {
    n.radio.state == Listen && n.radio.synced && n.radio.missed == 0
  }

  predicate Ticks(n: Node, d: nat)
  {
    Clock(n) && Due(n, d)
  }

  lemma TicksLater(n: Node, r: Node, d: nat)
    requires Ticks(n, d) && d > 0 && Rests(n, r)
    ensures Ticks(r, d - 1)
  {
  }

  lemma ClockSends(n: Node, i: nat, w: nat)
    requires Base(n, i, w) && Ticks(n, 0)
    ensures Primed(n) && n.tx.phase == INIT && n.tx.ballot == 0
    ensures var r := Sent(n); Base(r, i, w) && Listens(r) && Ticks(r, 5)
  {
    RelaySends(n, i, w);
    hide Sent;
  }

  lemma DueNow(n: Node, i: nat, w: nat)
    requires Base(n, i, w) && Due(n, 0)
    ensures Primed(n)
  {
  }

  /** After the clock has sent. */
  ghost predicate Ticked(s: Network, w: nat, f: nat, g: nat, h: nat, left: nat, a: nat, b: nat)
  {
    && World(s, w) && Clocks(f, g, h)
    && Loser(s[LOW], a, left, 258) && Primed(s[LOW]) && Loser(s[MIDDLE], b, left, 258) && Primed(s[MIDDLE])
    && Ticks(s[f], 5) && Ticks(s[g], 1) && Ticks(s[h], 3)
  }

  lemma Tick(u: Setup, k: nat, s: Network, w: nat, f: nat, g: nat, h: nat, left: nat, a: nat, b: nat) returns (t: Network)
    requires Gets(u, k, s) && Burning(s, w, f, g, h, left, a, b) && left >= 2 && k < u.slots
    ensures Gets(u, k + 1, t) && Ticked(t, w, f, g, h, left - 1, a, b)
  {
    hide Gets, Hear, Sent, Idle, Loser, Due, SameState, Calm, Rests, Clock, Ticks;
    ClockSends(s[f], f, w);
    LoserHearsClock(s[LOW], LOW, w, a, left, 258, s[f].tx);
    LoserHearsClock(s[MIDDLE], MIDDLE, w, b, left, 258, s[f].tx);
    t := CastSlot(u, k, s, w, {f}, {LOW, MIDDLE}, f);
    TicksLater(s[g], t[g], 2);
    TicksLater(s[h], t[h], 4);
  }

  lemma Tock(u: Setup, k: nat, s: Network, w: nat, f: nat, g: nat, h: nat, left: nat, a: nat, b: nat) returns (t: Network)
    requires Gets(u, k, s) && Ticked(s, w, f, g, h, left, a, b) && left >= 2 && k < u.slots
    ensures Gets(u, k + 1, t) && Burning(t, w, g, h, f, left - 1, a, b)
  {
    hide Gets, Hear, Sent, Idle, Loser, Due, SameState, Calm, Rests, Clock, Ticks;
    LoserSends(s[LOW], LOW, w, a, left, 258);
    LoserSends(s[MIDDLE], MIDDLE, w, b, left, 258);
    t := CastSlot(u, k, s, w, {LOW, MIDDLE}, {}, 0);
    TicksLater(s[f], t[f], 5);
    TicksLater(s[g], t[g], 1);
    TicksLater(s[h], t[h], 3);
  }

  /** The whole wait but for its last slot. */
  lemma {:induction false} Burn(u: Setup, k: nat, s: Network, w: nat, f: nat, g: nat, h: nat, left: nat, a: nat, b: nat)
    returns (t: Network, x: nat, y: nat, z: nat)
    requires Gets(u, k, s) && Burning(s, w, f, g, h, left, a, b) && left % 2 == 1 && k + left <= u.slots
    ensures Gets(u, k + left - 1, t) && Burning(t, w, x, y, z, 1, a, b)
    decreases left
  {
    hide Gets, Burning, Ticked;
    t, x, y, z := s, f, g, h;
    if left > 1 {
      var m := Tick(u, k, s, w, f, g, h, left, a, b);
      t := Tock(u, k + 1, m, w, f, g, h, left - 1, a, b);
      t, x, y, z := Burn(u, k + 2, t, w, g, h, f, left - 2, a, b);
    }
  }

  /** The lowest proposer has announced its next ballot, which is below its promise. */
  ghost predicate Broken(s: Network, w: nat, a: nat)
  {
    && World(s, w) && Announced(s[LOW], 512, a) && s[LOW].acceptor.minProposal > 512 && Due(s[LOW], 5)
    && Ticks(s[3], 5) && Ticks(s[4], 5) && Ticks(s[5], 5)
  }

  lemma TicksAtAll(n: Node, i: nat, w: nat, d: nat, r: Node)
    requires Base(n, i, w) && Ticks(n, d) && d <= 5 && Rests(n, r)
    ensures Ticks(r, 5)
  {
  }

  /** With one slot left, the middle proposer announces its ballot on hearing the clock. */
  lemma MiddleAnnounces(u: Setup, k: nat, s: Network, w: nat, f: nat, g: nat, h: nat, a: nat, b: nat) returns (t: Network)
    requires Gets(u, k, s) && Burning(s, w, f, g, h, 1, a, b) && k < u.slots
    ensures Gets(u, k + 1, t) && World(t, w) && Loser(t[LOW], a, 1, 258) && t[LOW].radio.state == Listen
    ensures Primed(t[MIDDLE]) && Announced(t[MIDDLE], 513, b)
    ensures Ticks(t[3], 5) && Ticks(t[4], 5) && Ticks(t[5], 5)
  {
    hide Gets, Hear, Sent, Idle, Due, SameState, Calm, Clock, Ticks, Loser, Rests;
    ClockSends(s[f], f, w);
    LoserHearsClock(s[MIDDLE], MIDDLE, w, b, 1, 258, s[f].tx);
    t := CastSlot(u, k, s, w, {f}, {MIDDLE}, f);
    TicksAtAll(s[g], g, w, 2, t[g]);
    TicksAtAll(s[h], h, w, 4, t[h]);
    LoserRests(s[LOW], t[LOW], a, 258);
  }

  lemma LoserRests(n: Node, r: Node, v: nat, high: nat)
    requires Loser(n, v, 1, high) && Listens(n) && Rests(n, r)
    ensures Loser(r, v, 1, high) && r.radio.state == Listen
  {
  }

  /** The lowest one promises it in the very slot that ends its own wait. */
  lemma LowBreaks(u: Setup, k: nat, s: Network, w: nat, a: nat, b: nat) returns (t: Network)
    requires Gets(u, k, s) && World(s, w) && Loser(s[LOW], a, 1, 258) && s[LOW].radio.state == Listen && k < u.slots
    requires Primed(s[MIDDLE]) && Announced(s[MIDDLE], 513, b)
    requires Ticks(s[3], 5) && Ticks(s[4], 5) && Ticks(s[5], 5)
    ensures Gets(u, k + 1, t) && Broken(t, w, a)
  {
    hide Gets, Hear, Sent, Idle, SameState, Calm, Clock;
    LoserHearsHigher(s[LOW], LOW, w, a, 258, s[MIDDLE].tx);
    AnnouncedSends(s[MIDDLE], MIDDLE, w, 513, b);
    t := CastSlot(u, k, s, w, {MIDDLE}, {LOW}, MIDDLE);
    TicksAtAll(s[3], 3, w, 5, t[3]);
    TicksAtAll(s[4], 4, w, 5, t[4]);
    TicksAtAll(s[5], 5, w, 5, t[5]);
  }

  // ------------------------------------------------------------------
  // How it starts
  // ------------------------------------------------------------------

  lemma GetsBegin(u: Setup)
    requires ValidSetup(u)
    ensures Gets(u, 0, Begin(u))
  {
    var s := Begin(u);
    forall i | 0 <= i < 3 && i < |s|
      ensures s[i].acceptor.acceptedProposal == 0
    {
      assert s[i] == Fresh(i, |u.roles|, WaitOf(u.slots), u.roles[i], i == u.initiator, u.thresholds[i]);
    }
    assert IsRound(u, [s], []) && Quietly([s]);
  }

  /** A node that has heard nothing yet. */
  predicate Deaf(n: Node)
  {
    n.radio.state == Listen && !n.radio.synced
  }

  lemma Beginning(slots: nat, a: nat, b: nat, c: nat)
    requires 0 < slots < 65536
    ensures var u := Losers(slots, a, b, c);
            && ValidSetup(u)
            && Asleep(Begin(u), WaitOf(slots), a, b, c)
  {
    var u := Losers(slots, a, b, c);
    var s := Begin(u);
    forall i | 0 <= i < 6
      ensures s[i] == Fresh(i, 6, WaitOf(slots), u.roles[i], i == 3, 4)
    {
    }
  }

  /** The heartbeat: the highest proposer starts, the followers become clocks. */
  ghost predicate Awoken(s: Network, w: nat, a: nat, b: nat, c: nat)
  {
    && World(s, w) && Unstarted(s[0], a) && Deaf(s[0]) && Unstarted(s[1], b) && Deaf(s[1])
    && Primed(s[2]) && Announced(s[2], 258, c)
    && Ticks(s[3], 5) && Ticks(s[4], 0) && Ticks(s[5], 0)
  }

  /** What `Beginning` says of the first network. */
  ghost predicate Asleep(s: Network, w: nat, a: nat, b: nat, c: nat)
  {
    && World(s, w) && Unstarted(s[0], a) && Unstarted(s[1], b) && Unstarted(s[2], c)
    && Deaf(s[0]) && Deaf(s[1]) && Deaf(s[2]) && Deaf(s[4]) && Deaf(s[5])
    && Clock(s[3]) && Clock(s[4]) && Clock(s[5]) && Primed(s[3])
    && s[3].tx.flags == {3} && s[4].tx.flags == {4} && s[5].tx.flags == {5}
  }

  lemma Wakes(slots: nat, a: nat, b: nat, c: nat) returns (t: Network)
    requires 0 < slots < 65536
    ensures var u := Losers(slots, a, b, c); ValidSetup(u) && Gets(u, 1, t) && Awoken(t, WaitOf(slots), a, b, c)
  {
    var u := Losers(slots, a, b, c);
    Beginning(slots, a, b, c);
    GetsBegin(u);
    t := FirstSlot(u, Begin(u), WaitOf(slots), a, b, c);
  }

  lemma FirstSlot(u: Setup, s: Network, w: nat, a: nat, b: nat, c: nat) returns (t: Network)
    requires Gets(u, 0, s) && Asleep(s, w, a, b, c) && u.slots > 0
    ensures Gets(u, 1, t) && Awoken(t, w, a, b, c)
  {
    hide Gets, Hear, Sent, Idle, Calm, Rests, SameState;
    ClockSends(s[3], 3, w);
    StartsBallot(s[2], 2, w, c, s[3].tx);
    HearsHeartbeat(s[4], 4, w, s[3].tx);
    HearsHeartbeat(s[5], 5, w, s[3].tx);
    t := CastSlot(u, 0, s, w, {3}, {2, 4, 5}, 3);
    UnstartedRests(s[0], t[0], a);
    UnstartedRests(s[1], t[1], b);
  }

  /** Both lower proposers hear the higher ballot and lose. */
  lemma BothHear(u: Setup, s: Network, w: nat, a: nat, b: nat, c: nat) returns (t: Network)
    requires Gets(u, 1, s) && Awoken(s, w, a, b, c) && w >= 2 && u.slots >= 3
    ensures Gets(u, 2, t) && World(t, w) && Loser(t[0], a, w, 258) && Primed(t[0]) && Loser(t[1], b, w, 258) && Primed(t[1])
    ensures Ticks(t[3], 4) && Ticks(t[4], 0) && Ticks(t[5], 0)
  {
    hide Gets, Hear, Sent, Idle, Calm, Due, Clock, Rests, Ticks;
    Loses(s[0], 0, w, a, s[2].tx);
    Loses(s[1], 1, w, b, s[2].tx);
    AnnouncedSends(s[2], 2, w, 258, c);
    t := CastSlot(u, 1, s, w, {2}, {0, 1}, 2);
    TicksLater(s[3], t[3], 5);
    TicksStay(s[4], 4, w, t[4]);
    TicksStay(s[5], 5, w, t[5]);
  }

  lemma BothLose(u: Setup, s: Network, w: nat, a: nat, b: nat, c: nat) returns (t: Network)
    requires Gets(u, 1, s) && Awoken(s, w, a, b, c) && w >= 2 && u.slots >= 3
    ensures Gets(u, 3, t) && Burning(t, w, 4, 5, 3, w - 1, a, b)
  {
    hide Gets, Hear, Sent, Idle, Calm, Due, Clock, Rests, Ticks, Loser, Awoken;
    var m := BothHear(u, s, w, a, b, c);
    LoserSends(m[0], 0, w, a, w, 258);
    LoserSends(m[1], 1, w, b, w, 258);
    t := CastSlot(u, 2, m, w, {0, 1}, {}, 0);
    TicksLater(m[3], t[3], 4);
    TicksStay(m[4], 4, w, t[4]);
    TicksStay(m[5], 5, w, t[5]);
    TicksMore(t[3], 3, 4);
    TicksMore(t[5], 0, 2);
  }

  lemma TicksStay(n: Node, i: nat, w: nat, r: Node)
    requires Base(n, i, w) && Ticks(n, 0) && Rests(n, r)
    ensures Ticks(r, 0)
  {
  }

  lemma TicksMore(n: Node, d: nat, e: nat)
    requires Ticks(n, d) && d <= e
    ensures Ticks(n, e)
  {
  }

  /** Everyone is about to send. */
  ghost predicate Poised(s: Network, w: nat, left: nat, a: nat, b: nat)
  {
    && World(s, w) && Loser(s[LOW], a, left, 258) && Primed(s[LOW]) && Loser(s[MIDDLE], b, left, 258) && Primed(s[MIDDLE])
    && Ticks(s[3], 0) && Ticks(s[4], 0) && Ticks(s[5], 0)
  }

  lemma Settle(u: Setup, k: nat, s: Network, w: nat, left: nat, a: nat, b: nat) returns (t: Network)
    requires Gets(u, k, s) && Burning(s, w, 4, 5, 3, left, a, b) && k + 5 <= u.slots
    ensures Gets(u, k + 5, t) && Poised(t, w, left, a, b)
  {
    t := Rest(u, k, s, w, 5);
    hide Gets, Calm;
    DueNow(t[0], 0, w);
    DueNow(t[1], 1, w);
    LosersSame(s[0], t[0], a, left);
    LosersSame(s[1], t[1], b, left);
  }

  /** If the wait left is even, one slot of it goes by after a silence. */
  lemma MakeOdd(u: Setup, k: nat, s: Network, w: nat, left: nat, a: nat, b: nat) returns (t: Network)
    requires Gets(u, k, s) && Burning(s, w, 4, 5, 3, left, a, b) && left >= 2 && k + 6 <= u.slots
    ensures Gets(u, k + 6, t) && Burning(t, w, 4, 5, 3, left - 1, a, b)
  {
    hide Gets, Hear, Sent, Idle, Calm, Clock, SameState, Loser, Due, Ticks, Rests;
    var m := Settle(u, k, s, w, left, a, b);
    LoserSends(m[0], 0, w, a, left, 258);
    LoserSends(m[1], 1, w, b, left, 258);
    t := CastSlot(u, k + 5, m, w, {0, 1}, {}, 0);
    TicksStay(m[3], 3, w, t[3]);
    TicksStay(m[4], 4, w, t[4]);
    TicksStay(m[5], 5, w, t[5]);
    TicksMore(t[5], 0, 2);
    TicksMore(t[3], 0, 4);
  }

  lemma LosersSame(n: Node, r: Node, v: nat, left: nat)
    requires Loser(n, v, left, 258) && SameState(n, r)
    ensures Loser(r, v, left, 258)
  {
  }

  /** A wait of one slot: only the middle proposer loses at first, and announces. */
  ghost predicate Alone(s: Network, w: nat, a: nat, b: nat)
  {
    && World(s, w) && Unstarted(s[LOW], a) && Deaf(s[LOW]) && Announced(s[MIDDLE], 513, b) && Due(s[MIDDLE], 5)
    && Ticks(s[3], 5) && Ticks(s[4], 5) && Ticks(s[5], 5)
  }

  lemma MiddleLoses(u: Setup, s: Network, a: nat, b: nat, c: nat) returns (t: Network)
    requires Gets(u, 1, s) && Awoken(s, 1, a, b, c) && u.slots >= 3
    ensures Gets(u, 3, t) && Alone(t, 1, a, b)
  {
    hide Gets, Hear, Sent, Idle, Calm, Due, Clock;
    Loses(s[1], 1, 1, b, s[2].tx);
    AnnouncedSends(s[2], 2, 1, 258, c);
    var m := CastSlot(u, 1, s, 1, {2}, {1}, 2);
    UnstartedRests(s[0], m[0], a);
    TicksLater(s[3], m[3], 5);
    TicksStay(s[4], 4, 1, m[4]);
    TicksStay(s[5], 5, 1, m[5]);
    LoserSends(m[1], 1, 1, b, 1, 258);
    t := CastSlot(u, 2, m, 1, {1}, {}, 1);
    UnstartedRests(m[0], t[0], a);
    TicksAtAll(m[3], 3, 1, 4, t[3]);
    TicksAtAll(m[4], 4, 1, 0, t[4]);
    TicksAtAll(m[5], 5, 1, 0, t[5]);
    ListensIsDue(t[1]);
  }

  lemma ListensIsDue(n: Node)
    requires Listens(n)
    ensures Due(n, 5)
  {
  }

  lemma UnstartedRests(n: Node, r: Node, v: nat)
    requires Unstarted(n, v) && Deaf(n) && Rests(n, r)
    ensures Unstarted(r, v) && Deaf(r)
  {
  }

  /** Then the lowest one loses to that ballot, and after its own wait announces one
      below it. */
  lemma AloneBreaks(u: Setup, k: nat, s: Network, a: nat, b: nat) returns (t: Network)
    requires Gets(u, k, s) && Alone(s, 1, a, b) && k + 7 <= u.slots
    ensures Gets(u, k + 7, t) && Broken(t, 1, a)
  {
    hide Gets, Hear, Sent, Idle, Calm, Clock, SameState, Alone, Ticks, Loser, Rests;
    var m := LowLoses(u, k, s, a, b);
    LoserSends(m[0], 0, 1, a, 1, 513);
    t := CastSlot(u, k + 6, m, 1, {0}, {}, 0);
    ListensIsDue(t[0]);
    TicksAtAll(m[3], 3, 1, 5, t[3]);
    TicksAtAll(m[4], 4, 1, 5, t[4]);
    TicksAtAll(m[5], 5, 1, 5, t[5]);
  }

  lemma LowLoses(u: Setup, k: nat, s: Network, a: nat, b: nat) returns (t: Network)
    requires Gets(u, k, s) && Alone(s, 1, a, b) && k + 6 <= u.slots
    ensures Gets(u, k + 6, t) && World(t, 1) && Loser(t[0], a, 1, 513) && Primed(t[0])
    ensures Ticks(t[3], 5) && Ticks(t[4], 5) && Ticks(t[5], 5)
  {
    hide Gets, Hear, Sent, Idle, Calm, Clock, SameState, Ticks, Rests;
    var m := AloneRests(u, k, s, a, b);
    Loses(m[0], 0, 1, a, m[1].tx);
    AnnouncedSends(m[1], 1, 1, 513, b);
    t := CastSlot(u, k + 5, m, 1, {1}, {0}, 1);
    TicksAtAll(m[3], 3, 1, 0, t[3]);
    TicksAtAll(m[4], 4, 1, 0, t[4]);
    TicksAtAll(m[5], 5, 1, 0, t[5]);
  }

  lemma AloneRests(u: Setup, k: nat, s: Network, a: nat, b: nat) returns (t: Network)
    requires Gets(u, k, s) && Alone(s, 1, a, b) && k + 5 <= u.slots
    ensures Gets(u, k + 5, t) && World(t, 1) && Unstarted(t[0], a) && Deaf(t[0])
    ensures Announced(t[1], 513, b) && Primed(t[1]) && Ticks(t[3], 0) && Ticks(t[4], 0) && Ticks(t[5], 0)
  {
    t := Rest(u, k, s, 1, 5);
    hide Gets, Calm;
    DueNow(t[1], 1, 1);
  }

  // ------------------------------------------------------------------
  // How it ends
  // ------------------------------------------------------------------

  /** The lowest proposer is about to send, the followers listen. */
  ghost predicate Facing(s: Network, w: nat, a: nat)
  {
    && World(s, w) && Announced(s[0], 512, a) && s[0].acceptor.minProposal > 512 && Primed(s[0])
    && Clock(s[3]) && Listens(s[3]) && Clock(s[4]) && Listens(s[4]) && Clock(s[5]) && Listens(s[5])
  }

  lemma FacesThem(u: Setup, k: nat, s: Network, w: nat, a: nat) returns (t: Network)
    requires Gets(u, k, s) && Broken(s, w, a) && k + 6 <= u.slots
    ensures Gets(u, k + 6, t) && Facing(t, w, a)
  {
    var m := BrokenRests(u, k, s, w, a);
    hide Gets, Hear, Sent, Idle, Calm;
    ClockSends(m[3], 3, w);
    ClockSends(m[4], 4, w);
    ClockSends(m[5], 5, w);
    t := CastSlot(u, k + 5, m, w, {3, 4, 5}, {}, 3);
  }

  lemma BrokenRests(u: Setup, k: nat, s: Network, w: nat, a: nat) returns (t: Network)
    requires Gets(u, k, s) && Broken(s, w, a) && k + 5 <= u.slots
    ensures Gets(u, k + 5, t) && World(t, w) && Announced(t[0], 512, a) && t[0].acceptor.minProposal > 512 && Primed(t[0])
    ensures Ticks(t[3], 0) && Ticks(t[4], 0) && Ticks(t[5], 0)
  {
    t := Rest(u, k, s, w, 5);
    hide Gets, Calm;
    DueNow(t[0], 0, w);
  }

  /** A node that has been silent for at most `m` slots. */
  predicate Still(n: Node, m: nat)
  {
    n.radio.state == Listen && n.radio.synced && n.radio.missed <= m
  }

  lemma StillRests(n: Node, r: Node, m: nat)
    requires Still(n, m) && m < 4 && Rests(n, r)
    ensures Still(r, m + 1) && SameState(n, r)
  {
  }

  /** The replies to its PREPARE come along the followers. */
  lemma Replies(u: Setup, k: nat, s: Network, w: nat, a: nat) returns (t: Network)
    requires Gets(u, k, s) && Facing(s, w, a) && k + 3 <= u.slots
    ensures Gets(u, k + 3, t) && World(t, w)
    ensures Announced(t[0], 512, a) && t[0].acceptor.minProposal > 512 && Still(t[0], 2)
    ensures Replied(t[3], 512, a, {0}) && Still(t[3], 1)
    ensures Replied(t[4], 512, a, {0, 3}) && Still(t[4], 0)
    ensures Replied(t[5], 512, a, {0, 3, 4}) && Primed(t[5])
  {
    hide Gets, Hear, Sent, Idle, Calm;
    AnnouncedSends(s[0], 0, w, 512, a);
    ClockReplies(s[3], 3, w, 512, a, {0});
    var p := CastSlot(u, k, s, w, {0}, {3}, 0);
    ClockRests(s[4], p[4], 0);
    ClockRests(s[5], p[5], 0);
    RelaySends(p[3], 3, w);
    assert {0} + {3} == {0, 3};
    ClockReplies(p[4], 4, w, 512, a, {0, 3});
    var q := CastSlot(u, k + 1, p, w, {3}, {4}, 3);
    AnnouncedRests(p[0], q[0], 0);
    ClockRests(p[5], q[5], 1);
    RelaySends(q[4], 4, w);
    assert {0, 3} + {4} == {0, 3, 4};
    ClockReplies(q[5], 5, w, 512, a, {0, 3, 4});
    t := CastSlot(u, k + 2, q, w, {4}, {5}, 4);
    AnnouncedRests(q[0], t[0], 1);
    RepliedRests(q[3], t[3], 512, a, {0}, 0);
  }

  lemma ClockRests(n: Node, r: Node, m: nat)
    requires Clock(n) && Still(n, m) && m < 4 && Rests(n, r)
    ensures Clock(r) && Still(r, m + 1)
  {
  }

  lemma AnnouncedRests(n: Node, r: Node, m: nat)
    requires Still(n, m) && m < 4 && Rests(n, r)
    ensures Still(r, m + 1) && SameState(n, r)
  {
  }

  lemma RepliedRests(n: Node, r: Node, b: nat, v: nat, s: set<nat>, m: nat)
    requires Replied(n, b, v, s) && Still(n, m) && m < 4 && Rests(n, r)
    ensures Replied(r, b, v, s) && Still(r, m + 1)
  {
  }

  /** A majority of replies: the lowest proposer asks for votes that it will not give. */
  ghost predicate Asking(s: Network, w: nat, a: nat)
  {
    && World(s, w) && Asks(s[0], 512, a) && Primed(s[0])
    && Replied(s[3], 512, a, {0}) && Still(s[3], 2) && Replied(s[4], 512, a, {0, 3}) && Still(s[4], 1)
    && Replied(s[5], 512, a, {0, 3, 4}) && Still(s[5], 0)
  }

  lemma Opens(u: Setup, k: nat, s: Network, w: nat, a: nat) returns (t: Network)
    requires Gets(u, k, s) && World(s, w) && k < u.slots
    requires Announced(s[0], 512, a) && s[0].acceptor.minProposal > 512 && Still(s[0], 2)
    requires Replied(s[3], 512, a, {0}) && Still(s[3], 1)
    requires Replied(s[4], 512, a, {0, 3}) && Still(s[4], 0)
    requires Replied(s[5], 512, a, {0, 3, 4}) && Primed(s[5])
    ensures Gets(u, k + 1, t) && Asking(t, w, a)
  {
    hide Gets, Hear, Sent, Idle, Calm;
    assert {0, 3, 4} + {5} == {0, 3, 4, 5};
    AnnouncedOpens(s[0], 0, w, 512, a, {0, 3, 4, 5});
    RelaySends(s[5], 5, w);
    t := CastSlot(u, k, s, w, {5}, {0}, 5);
    RepliedRests(s[3], t[3], 512, a, {0}, 1);
    RepliedRests(s[4], t[4], 512, a, {0, 3}, 0);
  }

  /** The votes come along the followers in the same way, the first flag being none. */
  lemma Votes(u: Setup, k: nat, s: Network, w: nat, a: nat) returns (t: Network)
    requires Gets(u, k, s) && Asking(s, w, a) && k + 3 <= u.slots
    ensures Gets(u, k + 3, t) && World(t, w)
    ensures Accepts(t[3], 512, a, {0}) && Still(t[3], 1)
    ensures Accepts(t[5], 512, a, {0, 3, 4}) && Primed(t[5])
  {
    hide Gets, Hear, Sent, Idle, Calm;
    AskerSends(s[0], 0, w, 512, a);
    ReplierAccepts(s[3], 3, w, 512, a, {0}, 0, {0});
    var p := CastSlot(u, k, s, w, {0}, {3}, 0);
    RepliedRests(s[4], p[4], 512, a, {0, 3}, 1);
    RepliedRests(s[5], p[5], 512, a, {0, 3, 4}, 0);
    RelaySends(p[3], 3, w);
    assert {0} + {3} == {0, 3};
    ReplierAccepts(p[4], 4, w, 512, a, {0, 3}, 512, {0, 3});
    var q := CastSlot(u, k + 1, p, w, {3}, {4}, 3);
    RepliedRests(p[5], q[5], 512, a, {0, 3, 4}, 1);
    RelaySends(q[4], 4, w);
    assert {0, 3} + {4} == {0, 3, 4};
    ReplierAccepts(q[5], 5, w, 512, a, {0, 3, 4}, 512, {0, 3, 4});
    t := CastSlot(u, k + 2, q, w, {4}, {5}, 4);
    VoterStill(q[3], t[3], 512, a, {0}, 0);
  }

  lemma VoterStill(n: Node, r: Node, b: nat, v: nat, s: set<nat>, m: nat)
    requires Accepts(n, b, v, s) && Still(n, m) && m < 4 && Rests(n, r)
    ensures Accepts(r, b, v, s) && Still(r, m + 1)
  {
  }

  lemma Learns(u: Setup, k: nat, s: Network, w: nat, a: nat) returns (t: Network)
    requires Gets(u, k, s) && Asking(s, w, a) && k + 4 <= u.slots
    ensures Gets(u, k + 4, t) && |t| == 6 && t[3].learner == Learner(a, true)
  {
    var m := Votes(u, k, s, w, a);
    hide Gets, Hear, Sent, Idle, Calm;
    assert {0, 3, 4} + {5} == {0, 3, 4, 5} && {0} + {3} <= {0, 3, 4, 5};
    VoterLearns(m[3], 3, w, 512, a, {0}, {0, 3, 4, 5});
    t := CastSlot(u, k + 3, m, w, {5}, {3}, 5);
  }

  // ------------------------------------------------------------------
  // Any wait
  // ------------------------------------------------------------------

  /** The lowest proposer gets to announce a ballot below its promise, whatever the wait. */
  lemma Breaks(u: Setup, s: Network, w: nat, a: nat, b: nat, c: nat) returns (k: nat, t: Network)
    requires Gets(u, 1, s) && Awoken(s, w, a, b, c) && 0 < w && w + 10 <= u.slots
    ensures Gets(u, k, t) && Broken(t, w, a) && k <= w + 10
  {
    hide Gets, Broken, Awoken, Burning, Alone;
    if w == 1 {
      var m := MiddleLoses(u, s, a, b, c);
      t := AloneBreaks(u, 3, m, a, b);
      k := 10;
    } else {
      var m := BothLose(u, s, w, a, b, c);
      k, t := WaitsOut(u, 3, m, w, w - 1, a, b);
    }
  }

  lemma WaitsOut(u: Setup, k: nat, s: Network, w: nat, left: nat, a: nat, b: nat) returns (j: nat, t: Network)
    requires Gets(u, k, s) && Burning(s, w, 4, 5, 3, left, a, b) && left > 0 && k + left + 7 <= u.slots
    ensures Gets(u, j, t) && Broken(t, w, a) && j <= k + left + 7
  {
    hide Gets, Broken, Burning, Announced, Loser;
    if left % 2 == 0 {
      var m := MakeOdd(u, k, s, w, left, a, b);
      j, t := OddWaitsOut(u, k + 6, m, w, left - 1, a, b);
    } else {
      j, t := OddWaitsOut(u, k, s, w, left, a, b);
    }
  }

  lemma OddWaitsOut(u: Setup, k: nat, s: Network, w: nat, left: nat, a: nat, b: nat) returns (j: nat, t: Network)
    requires Gets(u, k, s) && Burning(s, w, 4, 5, 3, left, a, b) && left % 2 == 1 && k + left + 1 <= u.slots
    ensures Gets(u, j, t) && Broken(t, w, a) && j == k + left + 1
  {
    hide Gets, Broken, Burning, Announced, Loser, Ticks;
    var m, f, g, h := Burn(u, k, s, w, 4, 5, 3, left, a, b);
    var q := MiddleAnnounces(u, k + left - 1, m, w, f, g, h, a, b);
    t := LowBreaks(u, k + left, q, w, a, b);
    j := k + left + 1;
  }

  /** And from there a follower learns its value, accepted by three nodes of six. */
  lemma LearnedAfterBreak(u: Setup, k: nat, s: Network, w: nat, a: nat) returns (t: Network)
    requires Gets(u, k, s) && Broken(s, w, a) && k + 14 <= u.slots
    ensures Gets(u, k + 14, t) && |t| == 6 && t[3].learner == Learner(a, true)
  {
    hide Gets, Broken, Facing, Asking, Replied, Announced;
    t := FacesThem(u, k, s, w, a);
    t := Replies(u, k + 6, t, w, a);
    t := Opens(u, k + 9, t, w, a);
    t := Learns(u, k + 10, t, w, a);
  }

  lemma ThreeAreNoMajority(run: seq<Network>, k: nat, v: nat)
    requires Quietly(run) && (forall m :: 0 <= m < |run| ==> |run[m]| == 6)
    ensures !ChosenIn(run, k, 6, v)
  {
    forall q: set<nat>, b: nat | AllAccepted(run, k, q, b, v) && b > 0
      ensures !Majority(q, 6)
    {
      forall f | f in q && f < 6
        ensures f in {3, 4, 5}
      {
        assert AcceptedBy(run, k, f, b, v);
        var m :| 0 <= m <= k && m < |run| && f < |run[m]| && VoteOf(run[m][f]) == Vote(f, b, v);
      }
      if Majority(q, 6) {
        assert q <= {3, 4, 5};
        SmallSet(q);
      }
    }
  }

  lemma SmallSet(q: set<nat>)
    requires q <= {3, 4, 5}
    ensures |q| <= 3
  {
    var all: set<nat> := {3, 4, 5};
    assert all == q + (all - q);
    assert |q + (all - q)| == |q| + |all - q|;
  }

  /** In every build whose losers wait, and whose rounds outlast the wait by 256 slots as
      they do when eight bits do not hold it, a value can be learned that no majority has
      accepted: any value of the lowest proposer, whatever the others were given. */
  lemma LearnedWithoutQuorum(slots: nat, a: nat, b: nat, c: nat) returns (run: seq<Network>, choices: seq<seq<Choice>>, k: nat)
    requires 256 < slots < 65536 && slots % 256 != 1
    ensures IsRound(Losers(slots, a, b, c), run, choices) && k < |run| && |run[k]| == 6
    ensures run[k][3].learner == Learner(a, true) && !ChosenIn(run, k, 6, a)
  {
    var u := Losers(slots, a, b, c);
    WaitFits(slots);
    hide Broken, Awoken;
    var s, t;
    s := Wakes(slots, a, b, c);
    k, s := Breaks(u, s, WaitOf(slots), a, b, c);
    t := LearnedAfterBreak(u, k, s, WaitOf(slots), a);
    k := k + 14;
    run, choices :| IsRound(u, run, choices) && |choices| == k && run[k] == t && Quietly(run);
    forall m | 0 <= m < |run|
      ensures |run[m]| == 6
    {
      RunSize(u, run, choices, m);
    }
    ThreeAreNoMajority(run, k, a);
  }

  lemma WaitFits(slots: nat)
    requires 256 < slots && slots % 256 != 1
    ensures WaitOf(slots) > 0 && WaitOf(slots) + 256 < slots
  {
  }

  lemma RunSize(u: Setup, run: seq<Network>, choices: seq<seq<Choice>>, m: nat)
    requires IsRound(u, run, choices) && m < |run|
    ensures |run[m]| == |u.roles|
  {
    B.RoundPlaced(u, run, choices, m);
  }
}
