/** What every round of Wireless Paxos keeps, for any number of nodes and
    proposers and whatever the radio does.
 */
module PaxosSafety {
  import ChaosFlags
  import opened Paxos
  import opened PaxosSteps

  // ------------------------------------------------------------------
  // Rounds
  // ------------------------------------------------------------------

  /** What a node's radio makes of a slot: it hears nothing, hears one of the
      nodes sending in the slot, sends, or misses its time to send. */
  datatype Event = Silence | Hears(from: nat) | Sends | Misses

  datatype Choice = Choice(event: Event, keep: bool, threshold: nat, crash: bool)

  type Network = seq<Node>

  predicate Possible(s: Network, c: seq<Choice>, i: nat)
    requires i < |s| == |c|
  {
    match s[i].radio.state
    case Listen =>
      (c[i].event.Silence? || (c[i].event.Hears? && c[i].event.from < |s| && c[c[i].event.from].event == Sends
                               && s[c[i].event.from].radio.state == Send))
    case Send => c[i].event == Sends || c[i].event == Misses
    case _ => c[i].event == Silence
  }

  /** The silent slots a node allows before it sends again: `CHAOS_RESTART_MIN` to
      `CHAOS_RESTART_MAX - 1`, drawn at random. */
  predicate IsThreshold(t: nat)
  {
    4 <= t < 10
  }

  ghost predicate Allowed(s: Network, c: seq<Choice>)
  {
    |c| == |s| && forall i :: 0 <= i < |s| ==> Possible(s, c, i) && IsThreshold(c[i].threshold)
  }

  const NO_PACKET: Packet := Packet(0, INIT, 0, 0, {})

  /** Node `i` after the slot. A node that is off does nothing more. */
  function Next(s: Network, c: seq<Choice>, i: nat): Node
    requires i < |s| == |c| && Possible(s, c, i)
  {
    var n, e := s[i], c[i].event;
    if n.radio.state == Off || n.radio.state == Start then n
    else Process(n, e.Hears? || e.Sends?, if e.Hears? then s[e.from].tx else NO_PACKET, c[i].keep, c[i].threshold, c[i].crash)
  }

  function Slot(s: Network, c: seq<Choice>): (r: Network)
    requires Allowed(s, c)
    ensures |r| == |s|
  {
    seq(|s|, i requires 0 <= i < |s| => Next(s, c, i))
  }

  /** What a round is started with: who proposes what, who initiates, how many slots
      the round may have (`PAXOS_ROUND_MAX_SLOTS`), and the first draws. */
  datatype Setup = Setup(roles: seq<Role>, initiator: nat, slots: nat, thresholds: seq<nat>)

  ghost predicate ValidSetup(u: Setup)
  {
    && 2 <= |u.roles| <= 256 && u.initiator < |u.roles| && |u.thresholds| == |u.roles| && 0 < u.slots < 65536
    && forall i :: 0 <= i < |u.thresholds| ==> IsThreshold(u.thresholds[i])
  }

  function Begin(u: Setup): (s: Network)
    requires ValidSetup(u)
    ensures |s| == |u.roles|
  {
    seq(|u.roles|, i requires 0 <= i < |u.roles| =>
      Fresh(i, |u.roles|, WaitOf(u.slots), u.roles[i], i == u.initiator, u.thresholds[i]))
  }

  /** A round: the first network is fresh, each next one is a slot later, and there are
      no more slots than the round may have. */
  ghost predicate IsRound(u: Setup, run: seq<Network>, choices: seq<seq<Choice>>)
  {
    && ValidSetup(u) && |run| == |choices| + 1 && |choices| <= u.slots && run[0] == Begin(u)
    && forall k :: 0 <= k < |choices| ==> Allowed(run[k], choices[k]) && run[k + 1] == Slot(run[k], choices[k])
  }

  // ------------------------------------------------------------------
  // Validity
  // ------------------------------------------------------------------

  /** The values that some node was told to propose. */
  ghost function Proposed(u: Setup): set<nat>
  {
    set i | 0 <= i < |u.roles| && u.roles[i].Proposes? :: u.roles[i].value
  }

  lemma HeartbeatCarries(n: Node, p: Packet, vs: set<nat>)
    requires Carries(vs, n) && PacketCarries(vs, p)
    ensures Carries(vs, OnHeartbeat(n, p))
  {
    hide ChaosFlags.AllSet;
  }

  lemma PacketKeepsValues(vs: set<nat>, n: Node, heard: Packet, own: bool, keep: bool)
    requires Carries(vs, n) && PacketCarries(vs, heard)
    ensures Carries(vs, OnPacket(n, heard, own, keep))
  {
    var p := Payload(n, heard, own);
    HeartbeatCarries(n, p, vs);
    AcceptorPasses(n, heard, own, keep, vs);
    AcceptorDoes(n, heard, own, keep);
    var a := AcceptorStep(n, heard, own, keep);
    ProposerDoes(a, heard, own);
    hide AcceptorStep, ProposerStep, OnHeartbeat, Passes, Moves, IsCurrent, Merged;
    ProposerCarries(a, Payload(a, heard, own), ProposerStep(a, heard, own), Classify(a, Payload(a, heard, own)), vs);
  }

  /** `process` is the packet part between two changes of radio bookkeeping. */
  function Woken(n: Node): Node
  {
    n.(send := false, delta := false, radio := n.radio.(synced := true))
  }

  predicate Processes(n: Node, success: bool)
  {
    success && (n.radio.state == Listen || (n.radio.state == Send && n.proposer.active))
  }

  /** Equal but for the radio bookkeeping. */
  predicate SameState(n: Node, r: Node)
  {
    && r.me == n.me && r.count == n.count && r.wait == n.wait && r.proposer == n.proposer && r.acceptor == n.acceptor
    && r.rx == n.rx && r.learner == n.learner && r.tx == n.tx
  }

  lemma ProcessIs(n: Node, success: bool, heard: Packet, keep: bool, threshold: nat, crash: bool)
    ensures var r := Process(n, success, heard, keep, threshold, crash);
            SameState(if Processes(n, success) then OnPacket(Woken(n), heard, n.radio.state == Send, keep) else n, r)
  {
    hide OnPacket;
  }

  lemma ProcessKeepsValues(vs: set<nat>, n: Node, success: bool, heard: Packet, keep: bool, threshold: nat, crash: bool)
    requires Carries(vs, n) && PacketCarries(vs, heard)
    ensures Carries(vs, Process(n, success, heard, keep, threshold, crash))
  {
    ProcessIs(n, success, heard, keep, threshold, crash);
    PacketKeepsValues(vs, Woken(n), heard, n.radio.state == Send, keep);
    hide Process, OnPacket;
  }

  ghost predicate GoodNetwork(vs: set<nat>, s: Network)
  {
    forall i :: 0 <= i < |s| ==> Carries(vs, s[i])
  }

  lemma SlotKeepsValues(vs: set<nat>, s: Network, c: seq<Choice>)
    requires GoodNetwork(vs, s) && Allowed(s, c)
    ensures GoodNetwork(vs, Slot(s, c))
  {
    forall i | 0 <= i < |s|
      ensures Carries(vs, Slot(s, c)[i])
    {
      hide Process;
      var e := c[i].event;
      assert Possible(s, c, i);
      if e.Hears? { assert Carries(vs, s[e.from]); }
      ProcessKeepsValues(vs, s[i], e.Hears? || e.Sends?, if e.Hears? then s[e.from].tx else NO_PACKET,
                         c[i].keep, c[i].threshold, c[i].crash);
    }
  }

  lemma {:induction false} RoundKeepsValues(u: Setup, run: seq<Network>, choices: seq<seq<Choice>>, k: nat)
    requires IsRound(u, run, choices) && k < |run|
    ensures GoodNetwork(Proposed(u), run[k])
  {
    if k == 0 {
      forall i | 0 <= i < |u.roles|
        ensures Carries(Proposed(u), run[0][i])
      {
        if u.roles[i].Proposes? { assert u.roles[i].value in Proposed(u); }
      }
    } else {
      RoundKeepsValues(u, run, choices, k - 1);
      assert Allowed(run[k - 1], choices[k - 1]);
      SlotKeepsValues(Proposed(u), run[k - 1], choices[k - 1]);
    }
  }

  /** Validity: in every round, whatever is learned was proposed. */
  lemma LearnedWasProposed(u: Setup, run: seq<Network>, choices: seq<seq<Choice>>, k: nat, i: nat)
    requires IsRound(u, run, choices) && k < |run| && i < |run[k]| && run[k][i].learner.chosen
    ensures exists j :: 0 <= j < |u.roles| && u.roles[j] == Proposes(run[k][i].learner.value)
  {
    RoundKeepsValues(u, run, choices, k);
    assert Carries(Proposed(u), run[k][i]);
    assert run[k][i].learner.value in Proposed(u);
    var j :| 0 <= j < |u.roles| && u.roles[j].Proposes? && u.roles[j].value == run[k][i].learner.value;
    assert u.roles[j] == Proposes(run[k][i].learner.value);
  }

  /** All that are told to propose are told the same value. */
  ghost predicate Alike(u: Setup)
  {
    forall i, j :: 0 <= i < |u.roles| && 0 <= j < |u.roles| && u.roles[i].Proposes? && u.roles[j].Proposes? ==>
      u.roles[i] == u.roles[j]
  }

  /** No two nodes ever learn different values in the run. */
  ghost predicate Agrees(run: seq<Network>)
  {
    forall k, m, i, j ::
      0 <= k < |run| && 0 <= m < |run| && 0 <= i < |run[k]| && 0 <= j < |run[m]|
      && run[k][i].learner.chosen && run[m][j].learner.chosen ==>
        run[k][i].learner.value == run[m][j].learner.value
  }

  /** Agreement whenever the proposers do not compete with different values. */
  lemma AlikeAgree(u: Setup, run: seq<Network>, choices: seq<seq<Choice>>)
    requires IsRound(u, run, choices) && Alike(u)
    ensures Agrees(run)
  {
    forall k, m, i, j |
      0 <= k < |run| && 0 <= m < |run| && 0 <= i < |run[k]| && 0 <= j < |run[m]|
      && run[k][i].learner.chosen && run[m][j].learner.chosen
      ensures run[k][i].learner.value == run[m][j].learner.value
    {
      hide IsRound;
      LearnedWasProposed(u, run, choices, k, i);
      LearnedWasProposed(u, run, choices, m, j);
    }
  }
}
