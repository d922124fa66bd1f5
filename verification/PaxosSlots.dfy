/** Single slots of single nodes, for building rounds of Wireless Paxos: what a
    follower, a proposer that collects replies and a proposer that starts late do on
    sending, hearing and hearing nothing.
 */
module PaxosSlots {
  import ChaosFlags
  import opened Paxos
  import opened PaxosSafety

  /** Radio bookkeeping of a node for which the round is not complete. */
  predicate Calm(n: Node)
  {
    !n.radio.complete && n.radio.flood == 0 && 4 <= n.radio.threshold
  }

  /** A follower that has not yet heard the ACCEPT phase of ballot `b`. */
  predicate Before(n: Node, b: nat)
  {
    !n.proposer.active && n.acceptor.minProposal <= b && b > 0
    && (n.tx.ballot < b || (n.tx.ballot == b && n.tx.phase < ACCEPT))
  }

  /** A follower that has accepted `v` under `b` and heard the flags `s`. */
  predicate Accepts(n: Node, b: nat, v: nat, s: set<nat>)
  {
    && !n.proposer.active && n.acceptor.minProposal == b && b > 0 && n.rx.minProposal == b
    && n.tx == Packet(b, ACCEPT, v, b, s + {n.me})
  }

  /** The proposer of `b` in its ACCEPT phase, having collected the flags `s`. */
  predicate Collects(n: Node, b: nat, v: nat, s: set<nat>)
  {
    && n.proposer == Proposer(true, b, v, ACCEPT, false, 0) && n.acceptor.minProposal == b && b > 0
    && n.rx.minProposal <= b && n.me in s
    && n.tx == Packet(b, ACCEPT, v, n.tx.proposal, s) && (n.tx.proposal == 0 || n.tx.proposal == b)
  }

  /** That proposer after a majority of votes: it has learned its value. */
  predicate Wins(n: Node, b: nat, v: nat, s: set<nat>)
  {
    && n.proposer == Proposer(true, b, v, ACCEPT, true, 0) && n.acceptor.minProposal == b && b > 0
    && n.rx.minProposal == b && n.me in s && n.tx == Packet(b, ACCEPT, v, b, s) && n.learner == Learner(v, true)
  }

  function Hear(n: Node, p: Packet): Node
  {
    Process(n, true, p, true, 4, false)
  }

  function Sent(n: Node): Node
  {
    Process(n, true, NO_PACKET, true, 4, false)
  }

  function Idle(n: Node): Node
  {
    Process(n, false, NO_PACKET, true, 4, false)
  }

  lemma NotFull(s: set<nat>, count: nat, other: nat)
    requires other < count && other !in s
    ensures !ChaosFlags.AllSet(s, count)
  {
  }

  /** A follower hears the hub's ACCEPT packet for the first time. */
  lemma FollowerAccepts(n: Node, b: nat, v: nat, q: nat, s: set<nat>, other: nat)
    requires n.radio.state == Listen && Calm(n) && other < n.count && other !in s
    requires Before(n, b) && (q == 0 || q == b)
    ensures var r := Hear(n, Packet(b, ACCEPT, v, q, s));
            && Accepts(r, b, v, s) && Calm(r) && r.radio.missed == 0 && r.me == n.me && r.count == n.count
            && r.radio.state == Send
  {
    hide ChaosFlags.AllSet;
    NotFull(s, n.count, other);
  }

  /** What the acceptor part makes of hearing it again, with more flags. */
  lemma RepeatTaken(n: Node, b: nat, v: nat, q: nat, s: set<nat>, past: set<nat>, other: nat)
    requires Accepts(n, b, v, past) && past <= s && (q == 0 || q == b) && !n.send && !n.delta
    requires other < n.count && other !in s && other != n.me
    ensures var a := AcceptorStep(n, Packet(b, ACCEPT, v, q, s), false, true);
            && a == n.(acceptor := a.acceptor, rx := a.rx, learner := a.learner, tx := a.tx,
                       send := s != n.tx.flags, delta := s != n.tx.flags)
            && Accepts(a, b, v, s)
  {
    hide ChaosFlags.AllSet;
    NotFull(n.tx.flags + s, n.count, other);
    assert n.tx.flags + s + {n.me} == s + {n.me};
  }

  /** A follower hears it again. */
  lemma FollowerRepeats(n: Node, b: nat, v: nat, q: nat, s: set<nat>, past: set<nat>, other: nat)
    requires n.radio.state == Listen && Calm(n) && other < n.count && other !in s && other != n.me
    requires Accepts(n, b, v, past) && past <= s && (q == 0 || q == b)
    ensures var r := Hear(n, Packet(b, ACCEPT, v, q, s));
            && Accepts(r, b, v, s) && Calm(r) && r.radio.missed == 0 && r.me == n.me && r.count == n.count
            && r.radio.state == (if s != n.tx.flags then Send else Listen)
  {
    hide AcceptorStep;
    RepeatTaken(Woken(n), b, v, q, s, past, other);
  }

  /** A follower sends. */
  lemma FollowerSends(n: Node)
    requires n.radio.state == Send && Calm(n) && !n.proposer.active
    ensures var r := Sent(n); SameState(n, r) && Calm(r) && r.radio.state == Listen && r.radio.missed == n.radio.missed
  {
    hide OnPacket;
  }

  /** A node hears nothing, or does not get to send. */
  lemma NodeIdles(n: Node)
    requires (n.radio.state == Listen || n.radio.state == Send) && Calm(n)
    ensures var r := Idle(n); SameState(n, r) && Calm(r) && (r.radio.state == Listen || r.radio.state == Send)
    ensures n.radio.state == Listen && n.radio.missed < 4 ==> Idle(n).radio.state == Listen && Idle(n).radio.missed <= n.radio.missed + 1
    ensures n.radio.state == Send ==> Idle(n).radio.state == Send
  {
    hide OnPacket;
  }

  /** What the acceptor part makes of the hub's own packet. */
  lemma OwnTaken(n: Node, b: nat, v: nat, s: set<nat>, other: nat)
    requires Collects(n, b, v, s) && other < n.count && other !in s
    ensures var a := AcceptorStep(n, NO_PACKET, true, true);
            && a == n.(acceptor := a.acceptor, rx := a.rx, learner := a.learner, tx := a.tx, send := a.send, delta := a.delta)
            && Collects(a, b, v, s)
  {
    hide ChaosFlags.AllSet;
    NotFull(s, n.count, other);
    assert s + s == s && s + {n.me} == s;
  }

  /** The hub sends its ACCEPT packet and accepts it itself. */
  lemma HubSends(n: Node, b: nat, v: nat, s: set<nat>, other: nat)
    requires n.radio.state == Send && Calm(n) && Collects(n, b, v, s) && |s| <= n.count / 2
    requires other < n.count && other !in s
    ensures var r := Sent(n);
            Collects(r, b, v, s) && Calm(r) && r.radio.state == Listen && r.me == n.me && r.count == n.count
  {
    hide AcceptorStep;
    OwnTaken(Woken(n), b, v, s, other);
  }

  /** What the acceptor part makes of a follower's vote. */
  lemma VoteTaken(n: Node, b: nat, v: nat, s: set<nat>, t: set<nat>, other: nat)
    requires Collects(n, b, v, s) && s <= t && t != s && other < n.count && other !in t && !n.radio.complete
    ensures var a := AcceptorStep(n, Packet(b, ACCEPT, v, b, t), false, true);
            && a == n.(acceptor := a.acceptor, rx := a.rx, learner := a.learner, tx := Packet(b, ACCEPT, v, b, t), send := true, delta := true)
            && a.acceptor.minProposal == b && a.rx.minProposal == b
            && (|t| > n.count / 2 ==> a.learner == Learner(v, true))
  {
    hide ChaosFlags.AllSet;
    NotFull(t, n.count, other);
    assert s + t == t && t + {n.me} == t;
  }

  /** The hub hears a follower's vote. */
  lemma HubHears(n: Node, b: nat, v: nat, s: set<nat>, f: nat, other: nat)
    requires n.radio.state == Listen && Calm(n) && Collects(n, b, v, s) && f !in s
    requires other < n.count && other !in s && other != f
    ensures var r, t := Hear(n, Packet(b, ACCEPT, v, b, s + {f})), s + {f};
            && Calm(r) && r.radio.state == Send && r.me == n.me && r.count == n.count
            && (|t| <= n.count / 2 ==> Collects(r, b, v, t))
            && (|t| > n.count / 2 ==> Wins(r, b, v, t))
  {
    hide AcceptorStep;
    VoteTaken(Woken(n), b, v, s, s + {f}, other);
  }

  /** A follower that has not yet heard ballot `b`. */
  predicate Unaware(n: Node, b: nat)
  {
    !n.proposer.active && n.acceptor.minProposal <= b && n.tx.ballot < b
  }

  /** A follower that has replied to the PREPARE of `b`. */
  predicate Replied(n: Node, b: nat, v: nat, s: set<nat>)
  {
    && !n.proposer.active && n.acceptor.minProposal == b && b > 0 && n.rx.acceptedProposal == 0
    && n.tx == Packet(b, PREPARE, v, 0, s + {n.me})
  }

  /** A proposer in its PREPARE phase, with the flags `s`; its packet carries `w`. */
  predicate Prepares(n: Node, b: nat, v: nat, w: nat, s: set<nat>)
  {
    && n.proposer == Proposer(true, b, v, PREPARE, false, 0) && n.acceptor.minProposal == b && b > 0
    && n.rx.acceptedProposal == 0 && n.rx.minProposal == 0 && n.me in s
    && n.tx == Packet(b, PREPARE, w, 0, s)
  }

  /** A proposer that has not started and has heard nothing. */
  predicate Ready(n: Node, b: nat, v: nat)
  {
    && n.proposer == Proposer(true, b, v, INIT, false, 0) && n.acceptor.minProposal == 0 && b > 0
    && n.rx.acceptedProposal == 0 && n.rx.minProposal == 0
    && n.tx == Packet(0, INIT, v, 0, {n.me})
  }

  lemma FollowerReplies(n: Node, b: nat, v: nat, s: set<nat>, past: set<nat>)
    requires n.radio.state == Listen && Calm(n) && b > 0
    requires Unaware(n, b) || (Replied(n, b, v, past) && past <= s)
    ensures var r := Hear(n, Packet(b, PREPARE, v, 0, s));
            && Replied(r, b, v, s) && Calm(r) && r.radio.missed == 0 && r.me == n.me && r.count == n.count
            && r.radio.state == (if Unaware(n, b) || s != n.tx.flags then Send else Listen)
  {
    hide ChaosFlags.AllSet;
    if !Unaware(n, b) {
      assert n.tx.flags + s + {n.me} == s + {n.me};
    }
  }

  /** A proposer sends its PREPARE and counts the flags it has. */
  lemma PreparerSends(n: Node, b: nat, v: nat, w: nat, s: set<nat>)
    requires n.radio.state == Send && Calm(n) && Prepares(n, b, v, w, s)
    ensures var r := Sent(n);
            && Calm(r) && r.radio.state == Listen && r.me == n.me && r.count == n.count
            && (|s| <= n.count / 2 ==> Prepares(r, b, v, w, s))
            && (|s| > n.count / 2 ==> Collects(r, b, v, {n.me}))
  {
    hide ChaosFlags.AllSet;
    assert s + s == s && s + {n.me} == s;
  }

  lemma PreparerHears(n: Node, b: nat, v: nat, s: set<nat>, f: nat)
    requires n.radio.state == Listen && Calm(n) && Prepares(n, b, v, v, s) && f !in s
    ensures var r, t := Hear(n, Packet(b, PREPARE, v, 0, s + {f})), s + {f};
            && Calm(r) && r.radio.state == Send && r.me == n.me && r.count == n.count
            && (|t| <= n.count / 2 ==> Prepares(r, b, v, v, t))
            && (|t| > n.count / 2 ==> Collects(r, b, v, {n.me}))
  {
    hide ChaosFlags.AllSet;
    var t := s + {f};
    assert s + t == t && t + {n.me} == t;
  }

  /** The other proposer hears the lower ballot and starts its own, flags and all. */
  lemma ChallengerStarts(n: Node, high: nat, w: nat, b: nat, v: nat, s: set<nat>)
    requires n.radio.state == Listen && Calm(n) && Ready(n, high, w) && 0 < b < high
    ensures var r := Hear(n, Packet(b, PREPARE, v, 0, s));
            Prepares(r, high, w, v, s + {n.me}) && Calm(r) && r.radio.state == Send && r.me == n.me && r.count == n.count
  {
    hide ChaosFlags.AllSet;
  }

  /** A ready proposer hears a heartbeat. */
  lemma HeartbeatStarts(n: Node, b: nat, v: nat, p: Packet)
    requires n.radio.state == Listen && Calm(n) && Ready(n, b, v) && p.phase == INIT
    ensures var r := Hear(n, p);
            Prepares(r, b, v, v, {n.me}) && Calm(r) && r.radio.state == Send && r.me == n.me && r.count == n.count
  {
    hide ChaosFlags.AllSet;
  }

  /** A proposer in its ACCEPT phase hears an older packet and wants to send. */
  lemma OlderMakesSend(n: Node, b: nat, v: nat, s: set<nat>, p: Packet)
    requires n.radio.state == Listen && Calm(n) && Collects(n, b, v, s) && 0 < p.ballot < b
    ensures var r := Hear(n, p); Collects(r, b, v, s) && Calm(r) && r.radio.state == Send && r.me == n.me && r.count == n.count
  {
    hide ChaosFlags.AllSet;
  }

  /** A proposer that has won goes on sending its packet. */
  lemma WinnerSends(n: Node, b: nat, v: nat, s: set<nat>, other: nat)
    requires n.radio.state == Send && Calm(n) && Wins(n, b, v, s) && other < n.count && other !in s
    ensures var r := Sent(n);
            r.learner == Learner(v, true) && Calm(r) && r.radio.state == Listen && r.me == n.me && r.count == n.count
  {
    hide ChaosFlags.AllSet;
    NotFull(s, n.count, other);
    assert s + s == s && s + {n.me} == s;
  }

  /** A node that has heard nothing in the round never sends by itself. */
  lemma MuteIdles(n: Node)
    requires n.radio.state == Listen && !n.radio.synced && Calm(n)
    ensures var r := Idle(n); SameState(n, r) && Calm(r) && r.radio.state == Listen && !r.radio.synced
  {
    hide OnPacket;
  }

  // ------------------------------------------------------------------
  // Rounds slot by slot
  // ------------------------------------------------------------------

  /** Some round of `u` is at network `s` after `k` slots. */
  ghost predicate Reaches(u: Setup, k: nat, s: Network)
  {
    exists run, choices :: IsRound(u, run, choices) && |choices| == k && run[k] == s
  }

  lemma ReachesBegin(u: Setup)
    requires ValidSetup(u)
    ensures Reaches(u, 0, Begin(u))
  {
    assert IsRound(u, [Begin(u)], []);
  }

  lemma ReachesSlot(u: Setup, k: nat, s: Network, c: seq<Choice>)
    requires Reaches(u, k, s) && Allowed(s, c) && k < u.slots
    ensures Reaches(u, k + 1, Slot(s, c))
  {
    var run, choices :| IsRound(u, run, choices) && |choices| == k && run[k] == s;
    var run', choices' := run + [Slot(s, c)], choices + [c];
    assert run'[0] == run[0];
    forall j | 0 <= j < |choices'|
      ensures Allowed(run'[j], choices'[j]) && run'[j + 1] == Slot(run'[j], choices'[j])
    {
      if j < k { assert Allowed(run[j], choices[j]) && run[j + 1] == Slot(run[j], choices[j]); }
    }
    assert IsRound(u, run', choices') && run'[k + 1] == Slot(s, c);
  }

  /** A slot in which nobody crashes. */
  function Draws(events: seq<Event>): seq<Choice>
  {
    seq(|events|, i requires 0 <= i < |events| => Choice(events[i], true, 4, false))
  }

  function IdleEvent(n: Node): Event
  {
    if n.radio.state == Send then Misses else Silence
  }

  /** What each kind of event makes of a node. */
  lemma EventIs(s: Network, events: seq<Event>, i: nat)
    requires |events| == |s| && Allowed(s, Draws(events)) && i < |s| && (s[i].radio.state == Listen || s[i].radio.state == Send)
    ensures Possible(s, Draws(events), i)
    ensures var r, e := Slot(s, Draws(events))[i], events[i];
            && (e.Hears? ==> e.from < |s| && r == Hear(s[i], s[e.from].tx))
            && (e.Sends? ==> r == Sent(s[i]))
            && (e == IdleEvent(s[i]) ==> r == Idle(s[i]))
  {
    assert Possible(s, Draws(events), i);
    hide Process;
  }
}
