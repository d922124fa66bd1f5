/** Two-phase commit in the air: votes and participation flags are merged while
    they flood the network; only the initiator moves on, once all flags are in.
 */
module TwoPhaseCommit {
  import ChaosFlags

  const PROPOSE: nat := 1
  const COMMIT: nat := 3
  const ABORT: nat := 4
  const FINAL_FLOOD: nat := 9

  datatype Packet = Packet(value: nat, phase: nat, flags: set<nat>, votes: set<nat>)

  datatype RadioState = Listen | Send | Off

  /** Synchrotron's bookkeeping; `send` is the variable `tx`. */
  datatype Radio = Radio(state: RadioState, send: bool, complete: bool, progress: bool, flood: nat, missed: nat, threshold: nat)

  datatype Node = Node(
    me: nat, count: nat, initiator: bool,
    tx: Packet, agree: bool, synced: bool, didTx: bool, radio: Radio)

  // ------------------------------------------------------------------
  // One call of `process`
  // ------------------------------------------------------------------

  /** The first valid packet of the round: compare values and vote. */
  function Cast(n: Node, rx: Packet): Node
  {
    if n.synced then n
    else if n.tx.value == rx.value then n.(synced := true, agree := true, tx := n.tx.(votes := n.tx.votes + {n.me}))
    else n.(synced := true, agree := false, tx := n.tx.(votes := n.tx.votes - {n.me}, value := rx.value))
  }

  /** A packet of the same phase: merge, and for the initiator decide. */
  function Merge(n: Node, rx: Packet): Node
  {
    var flags, votes := n.tx.flags + rx.flags, n.tx.votes + rx.votes;
    var differ := rx.flags != n.tx.flags;
    var n := n.(tx := n.tx.(flags := flags, votes := votes), radio := n.radio.(send := differ));
    if n.initiator && n.tx.phase == PROPOSE && ChaosFlags.AllSet(flags, n.count) then
      n.(tx := n.tx.(flags := {n.me}, phase := if ChaosFlags.AllSet(votes, n.count) then COMMIT else ABORT),
         radio := n.radio.(send := true))
    else if ChaosFlags.AllSet(flags, n.count) && (n.tx.phase == COMMIT || n.tx.phase == ABORT) then
      n.(radio := n.radio.(send := true, complete := true, progress := n.radio.progress || ChaosFlags.AllSet(rx.flags, n.count)))
    else n
  }

  function Follow(n: Node, rx: Packet): Node
  {
    if n.tx.phase == rx.phase then Merge(n, rx)
    else n.(tx := if n.tx.phase < rx.phase then rx.(flags := rx.flags + {n.me}) else n.tx,
            radio := n.radio.(send := true))
  }

  function OnPacket(n: Node, rx: Packet): Node
  {
    Follow(Cast(n, rx), rx)
  }

  /** What the radio does next. `heard` tells whether a packet was processed. */
  function NextRadio(r: Radio, synced: bool, heard: bool, threshold: nat): Radio
  {
    var flood := if r.complete then r.flood + 1 else r.flood;
    if r.state == Listen && heard then
      if r.send then r.(state := Send, flood := flood) else r
    else if r.state == Listen && synced then
      if r.missed + 1 > r.threshold then
        r.(state := Send, missed := 0, threshold := threshold, flood := flood)
      else r.(missed := r.missed + 1)
    else if r.state == Send && r.progress && r.flood >= FINAL_FLOOD then r.(state := Off)
    else if r.state == Send then r.(state := Listen)
    else r
  }

  /** The radio's turn at the end of the call, where the node notes that it sends. */
  function Settle(n: Node, heard: bool, threshold: nat, crash: bool): Node
  {
    var r := NextRadio(n.radio, n.synced, heard, threshold);
    var r := if crash then r.(state := Off) else r;
    n.(radio := r, didTx := n.didTx || r.state == Send)
  }

  function Process(n: Node, heard: bool, rx: Packet, threshold: nat, crash: bool): Node
  {
    Settle(if n.radio.state == Listen && heard then OnPacket(n, rx) else n, heard, threshold, crash)
  }

  function Fresh(me: nat, count: nat, value: nat, initiator: bool, threshold: nat): Node
  {
    Node(me, count, initiator, Packet(value, PROPOSE, {me}, if initiator then {me} else {}),
         initiator, initiator, initiator, Radio(if initiator then Send else Listen, false, false, false, 0, 0, threshold))
  }

  /** What the application makes of the phase a node ends the round in. */
  datatype Decision = Commits | Aborts | TimesOut | Uncertain | Fails

  function Decide(n: Node): Decision
  {
    if n.tx.phase == PROPOSE then
      if !n.initiator && n.agree && n.didTx then Uncertain else TimesOut
    else if n.tx.phase == COMMIT then if n.agree then Commits else Fails
    else Aborts
  }

  lemma PacketKeepsRadio(n: Node, rx: Packet)
    ensures OnPacket(n, rx).radio.state == n.radio.state
  {
    hide ChaosFlags.AllSet;
  }

  // ------------------------------------------------------------------
  // Rounds
  // ------------------------------------------------------------------

  /** In a slot a listening node hears one of the sending nodes or nothing. */
  datatype Choice = Choice(hears: bool, from: nat, threshold: nat, crash: bool)

  type Network = seq<Node>

  /** The silent slots a node allows before it sends again: `CHAOS_RESTART_MIN` to
      `CHAOS_RESTART_MAX - 1`, drawn at random. */
  predicate IsThreshold(t: nat)
  {
    6 <= t < 10
  }

  ghost predicate Allowed(s: Network, c: seq<Choice>)
  {
    && |c| == |s|
    && (forall i :: 0 <= i < |s| ==> IsThreshold(c[i].threshold))
    && forall i :: 0 <= i < |s| && c[i].hears ==> c[i].from < |s| && s[c[i].from].radio.state == Send
  }

  function Next(s: Network, c: seq<Choice>, i: nat): Node
    requires i < |s| == |c| && (c[i].hears ==> c[i].from < |s|)
  {
    if s[i].radio.state == Off then s[i]
    else Process(s[i], c[i].hears, if c[i].hears then s[c[i].from].tx else s[i].tx, c[i].threshold, c[i].crash)
  }

  function Advance(s: Network, c: seq<Choice>): (r: Network)
    requires Allowed(s, c)
    ensures |r| == |s|
  {
    seq(|s|, i requires 0 <= i < |s| => Next(s, c, i))
  }

  datatype Setup = Setup(values: seq<nat>, initiator: nat, thresholds: seq<nat>)

  predicate ValidSetup(u: Setup)
  {
    u.initiator < |u.values| == |u.thresholds| && forall i :: 0 <= i < |u.thresholds| ==> IsThreshold(u.thresholds[i])
  }

  function Begin(u: Setup): (s: Network)
    requires ValidSetup(u)
  {
    seq(|u.values|, i requires 0 <= i < |u.values| => Fresh(i, |u.values|, u.values[i], i == u.initiator, u.thresholds[i]))
  }

  ghost predicate IsRound(u: Setup, run: seq<Network>, choices: seq<seq<Choice>>)
  {
    && ValidSetup(u) && |run| == |choices| + 1 && run[0] == Begin(u)
    && forall k :: 0 <= k < |choices| ==> Allowed(run[k], choices[k]) && run[k + 1] == Advance(run[k], choices[k])
  }

  // ------------------------------------------------------------------
  // What every round keeps
  // ------------------------------------------------------------------

  /** Node `i` was given the value that the initiator proposes. */
  predicate Agreeing(u: Setup, i: nat)
    requires ValidSetup(u)
  {
    i < |u.values| && u.values[i] == u.values[u.initiator]
  }

  ghost predicate Unanimous(u: Setup)
    requires ValidSetup(u)
  {
    forall i :: 0 <= i < |u.values| ==> Agreeing(u, i)
  }

  /** A packet on the air: the proposed value; while it is proposed, the votes
      are those of the agreeing nodes among the flags; a decision is the right
      one. */
  ghost predicate Fair(u: Setup, p: Packet)
    requires ValidSetup(u)
  {
    && p.value == u.values[u.initiator]
    && (p.phase == PROPOSE ==> forall f :: f in p.votes <==> f in p.flags && Agreeing(u, f))
    && (p.phase == PROPOSE || p.phase == COMMIT || p.phase == ABORT)
    && (p.phase == COMMIT ==> Unanimous(u))
    && (p.phase == ABORT ==> !Unanimous(u))
  }

  ghost predicate Steady(u: Setup, i: nat, n: Node)
    requires ValidSetup(u) && i < |u.values|
  {
    && n.me == i && n.count == |u.values| && n.initiator == (i == u.initiator) && i in n.tx.flags
    && (n.radio.state == Send ==> n.synced && n.didTx)
    && (n.synced ==> Fair(u, n.tx) && n.agree == Agreeing(u, i))
    && (!n.synced ==> !n.agree && n.tx == Packet(u.values[i], PROPOSE, {i}, {}))
    && (n.initiator ==> n.synced && n.didTx)
    && (n.radio.complete ==> n.tx.phase != PROPOSE && ChaosFlags.AllSet(n.tx.flags, n.count))
  }

  lemma CastKeeps(u: Setup, i: nat, n: Node, rx: Packet)
    requires ValidSetup(u) && i < |u.values| && Steady(u, i, n) && Fair(u, rx)
    ensures Steady(u, i, Cast(n, rx)) && Cast(n, rx).synced && Cast(n, rx).tx.flags == n.tx.flags
    ensures Cast(n, rx).tx.phase == n.tx.phase
  {
    hide Unanimous;
  }

  lemma FollowKeeps(u: Setup, i: nat, n: Node, rx: Packet)
    requires ValidSetup(u) && i < |u.values| && Steady(u, i, n) && n.synced && Fair(u, rx)
    ensures Steady(u, i, Follow(n, rx)) && Follow(n, rx).synced
  {
    if n.tx.phase == rx.phase == PROPOSE && n.initiator && ChaosFlags.AllSet(n.tx.flags + rx.flags, n.count) {
      var votes := n.tx.votes + rx.votes;
      assert ChaosFlags.AllSet(votes, n.count) <==> Unanimous(u) by {
        forall f: nat | f < n.count
          ensures f in votes <==> Agreeing(u, f)
        {
          assert f in n.tx.flags + rx.flags;
        }
      }
    }
    hide Unanimous, ChaosFlags.AllSet;
  }

  lemma NodeKeeps(u: Setup, s: Network, c: seq<Choice>, i: nat)
    requires ValidSetup(u) && |s| == |u.values| && i < |s| && Allowed(s, c)
    requires forall j :: 0 <= j < |s| ==> Steady(u, j, s[j])
    ensures Steady(u, i, Next(s, c, i))
  {
    var n := s[i];
    assert Steady(u, i, n);
    var rx := if c[i].hears then s[c[i].from].tx else s[i].tx;
    var heard := n.radio.state == Listen && c[i].hears;
    if heard {
      assert Steady(u, c[i].from, s[c[i].from]);
      CastKeeps(u, i, n, rx);
      FollowKeeps(u, i, Cast(n, rx), rx);
    }
    hide Cast, Follow, Steady;
    var m := if heard then OnPacket(n, rx) else n;
    PacketKeepsRadio(n, rx);
    RadioKeeps(u, i, m, c[i].hears, c[i].threshold, c[i].crash);
  }

  /** The radio part turns a steady node into a steady node: it sends only when
      it has voted. */
  lemma RadioKeeps(u: Setup, i: nat, m: Node, heard: bool, threshold: nat, crash: bool)
    requires ValidSetup(u) && i < |u.values| && Steady(u, i, m) && (m.radio.state == Listen && heard ==> m.synced)
    ensures Steady(u, i, Settle(m, heard, threshold, crash))
  {
    hide Fair;
  }

  /** What a slot can do to a node that heard `rx`, or nothing. */
  ghost predicate Grows(n: Node, heard: bool, rx: Packet, r: Node)
  {
    && (n.synced ==> r.synced) && (n.didTx ==> r.didTx)
    && (n.tx.phase != PROPOSE ==> r.tx.phase == n.tx.phase)
    && (forall f: nat :: f in r.tx.flags ==> f == n.me || f in n.tx.flags || (heard && f in rx.flags))
    && (r.tx.phase != PROPOSE ==>
          && (n.tx.phase != PROPOSE || (heard && (rx.phase != PROPOSE || (n.initiator && ChaosFlags.AllSet(n.tx.flags + rx.flags, n.count)))))
          && (forall f: nat :: f in r.tx.flags ==>
                f == n.me || (f in n.tx.flags && n.tx.phase != PROPOSE) || (heard && f in rx.flags && rx.phase != PROPOSE)))
  }

  lemma PacketGrows(u: Setup, i: nat, n: Node, rx: Packet)
    requires ValidSetup(u) && i < |u.values| && Steady(u, i, n) && Fair(u, rx)
    ensures Grows(n, true, rx, OnPacket(n, rx))
  {
    CastKeeps(u, i, n, rx);
    var m := Cast(n, rx);
    assert m.initiator == n.initiator && m.me == n.me && m.count == n.count && m.didTx == n.didTx;
    hide Cast, ChaosFlags.AllSet, Unanimous;
  }

  lemma NodeGrows(u: Setup, s: Network, c: seq<Choice>, i: nat)
    requires ValidSetup(u) && |s| == |u.values| && i < |s| && Allowed(s, c)
    requires forall j :: 0 <= j < |s| ==> Steady(u, j, s[j])
    ensures c[i].hears ==> c[i].from < |s|
    ensures Grows(s[i], c[i].hears, if c[i].hears then s[c[i].from].tx else s[i].tx, Next(s, c, i))
  {
    var n := s[i];
    var rx := if c[i].hears then s[c[i].from].tx else s[i].tx;
    if n.radio.state == Listen && c[i].hears {
      assert Steady(u, c[i].from, s[c[i].from]) && Steady(u, i, n);
      PacketGrows(u, i, n, rx);
    }
    hide OnPacket, Steady, ChaosFlags.AllSet, NextRadio;
  }

  ghost predicate FlagsMean(s: Network, i: nat)
    requires i < |s|
  {
    forall f :: f in s[i].tx.flags ==> f < |s| && (f != i ==> s[f].synced && s[f].didTx)
  }

  ghost predicate DecisionMeans(s: Network, i: nat)
    requires i < |s|
  {
    s[i].tx.phase != PROPOSE ==> forall f :: f in s[i].tx.flags ==> f < |s| && s[f].tx.phase == s[i].tx.phase
  }

  /** What every slot leaves true of the nodes together: flags stand for nodes
      that have voted and sent, decisions start at the initiator, and the flags
      of a decision stand for nodes that have taken it. */
  ghost predicate Joint(u: Setup, s: Network)
    requires ValidSetup(u)
  {
    && |s| == |u.values|
    && (forall i :: 0 <= i < |s| ==> Steady(u, i, s[i]))
    && (forall i :: 0 <= i < |s| ==> FlagsMean(s, i))
    && (forall i :: 0 <= i < |s| && s[i].tx.phase != PROPOSE ==> s[u.initiator].tx.phase != PROPOSE)
    && (forall i :: 0 <= i < |s| ==> DecisionMeans(s, i))
    && (s[u.initiator].tx.phase != PROPOSE ==> forall i :: 0 <= i < |s| ==> s[i].synced && s[i].didTx)
  }

  lemma SamePhase(u: Setup, p: Packet, q: Packet)
    requires ValidSetup(u) && Fair(u, p) && Fair(u, q) && p.phase != PROPOSE && q.phase != PROPOSE
    ensures p.phase == q.phase
  {
  }

  lemma SlotKeeps(u: Setup, s: Network, c: seq<Choice>)
    requires ValidSetup(u) && Joint(u, s) && Allowed(s, c)
    ensures Joint(u, Advance(s, c))
  {
    var r := Advance(s, c);
    forall i | 0 <= i < |s|
      ensures Steady(u, i, r[i])
      ensures c[i].hears ==> c[i].from < |s|
      ensures Grows(s[i], c[i].hears, if c[i].hears then s[c[i].from].tx else s[i].tx, r[i])
    {
      assert r[i] == Next(s, c, i);
      NodeKeeps(u, s, c, i);
      NodeGrows(u, s, c, i);
    }
    hide Next;
    FlagsKept(u, s, c, r);
    DecisionsKept(u, s, c, r);
  }

  lemma FlagsKept(u: Setup, s: Network, c: seq<Choice>, r: Network)
    requires ValidSetup(u) && Joint(u, s) && Allowed(s, c) && |r| == |s|
    requires forall i :: 0 <= i < |s| && c[i].hears ==> c[i].from < |s|
    requires forall i :: 0 <= i < |s| ==> Steady(u, i, r[i])
    requires forall i :: 0 <= i < |s| ==> Grows(s[i], c[i].hears, if c[i].hears then s[c[i].from].tx else s[i].tx, r[i])
    ensures forall i :: 0 <= i < |s| ==> FlagsMean(r, i)
    ensures r[u.initiator].tx.phase != PROPOSE ==> forall i :: 0 <= i < |s| ==> r[i].synced && r[i].didTx
  {
    forall i | 0 <= i < |s|
      ensures FlagsMean(r, i)
    {
      assert Steady(u, i, s[i]) && FlagsMean(s, i);
      var rx := if c[i].hears then s[c[i].from].tx else s[i].tx;
      assert Grows(s[i], c[i].hears, rx, r[i]);
      forall f | f in r[i].tx.flags
        ensures f < |s| && (f != i ==> r[f].synced && r[f].didTx)
      {
        if f != i && f !in s[i].tx.flags {
          var j := c[i].from;
          assert Steady(u, j, s[j]) && FlagsMean(s, j) && f in s[j].tx.flags;
          assert s[f].synced && s[f].didTx;
        }
        assert Grows(s[f], c[f].hears, if c[f].hears then s[c[f].from].tx else s[f].tx, r[f]);
      }
    }
    var m := u.initiator;
    if r[m].tx.phase != PROPOSE {
      forall i | 0 <= i < |s|
        ensures r[i].synced && r[i].didTx
      {
        AllHaveVoted(u, s, c, r, i);
      }
    }
  }

  lemma AllHaveVoted(u: Setup, s: Network, c: seq<Choice>, r: Network, i: nat)
    requires ValidSetup(u) && Joint(u, s) && Allowed(s, c) && |r| == |s| && i < |s|
    requires forall i :: 0 <= i < |s| && c[i].hears ==> c[i].from < |s|
    requires forall i :: 0 <= i < |s| ==> Grows(s[i], c[i].hears, if c[i].hears then s[c[i].from].tx else s[i].tx, r[i])
    requires r[u.initiator].tx.phase != PROPOSE
    ensures r[i].synced && r[i].didTx
  {
    var m := u.initiator;
    assert Steady(u, m, s[m]);
    var rx := if c[m].hears then s[c[m].from].tx else s[m].tx;
    assert Grows(s[m], c[m].hears, rx, r[m]);
    assert Grows(s[i], c[i].hears, if c[i].hears then s[c[i].from].tx else s[i].tx, r[i]);
    if s[m].tx.phase == PROPOSE && i != m {
      assert Steady(u, c[m].from, s[c[m].from]);
      assert FlagsMean(s, m) && FlagsMean(s, c[m].from);
      if rx.phase == PROPOSE {
        assert i in s[m].tx.flags + rx.flags;
      }
      assert s[i].synced && s[i].didTx;
    }
  }

  lemma DecisionsKept(u: Setup, s: Network, c: seq<Choice>, r: Network)
    requires ValidSetup(u) && Joint(u, s) && Allowed(s, c) && |r| == |s|
    requires forall i :: 0 <= i < |s| && c[i].hears ==> c[i].from < |s|
    requires forall i :: 0 <= i < |s| ==> Steady(u, i, r[i])
    requires forall i :: 0 <= i < |s| ==> Grows(s[i], c[i].hears, if c[i].hears then s[c[i].from].tx else s[i].tx, r[i])
    ensures forall i :: 0 <= i < |s| && r[i].tx.phase != PROPOSE ==> r[u.initiator].tx.phase != PROPOSE
    ensures forall i :: 0 <= i < |s| ==> DecisionMeans(r, i)
  {
    var m := u.initiator;
    assert Grows(s[m], c[m].hears, if c[m].hears then s[c[m].from].tx else s[m].tx, r[m]);
    forall i | 0 <= i < |s| && r[i].tx.phase != PROPOSE
      ensures r[m].tx.phase != PROPOSE
    {
      assert Steady(u, i, s[i]);
      assert Grows(s[i], c[i].hears, if c[i].hears then s[c[i].from].tx else s[i].tx, r[i]);
    }
    forall i | 0 <= i < |s|
      ensures DecisionMeans(r, i)
    {
      assert Steady(u, i, s[i]) && Steady(u, i, r[i]) && DecisionMeans(s, i);
      var rx := if c[i].hears then s[c[i].from].tx else s[i].tx;
      assert Grows(s[i], c[i].hears, rx, r[i]);
      forall f | f in r[i].tx.flags && r[i].tx.phase != PROPOSE
        ensures f < |s| && r[f].tx.phase == r[i].tx.phase
      {
        if f != i {
          if f !in s[i].tx.flags || s[i].tx.phase == PROPOSE {
            assert DecisionMeans(s, c[i].from) && f in s[c[i].from].tx.flags;
          }
          assert f < |s| && s[f].tx.phase != PROPOSE;
          assert Grows(s[f], c[f].hears, if c[f].hears then s[c[f].from].tx else s[f].tx, r[f]);
          assert Steady(u, f, r[f]);
          DecidedIsVoted(u, i, r[i]);
          DecidedIsVoted(u, f, r[f]);
          SamePhase(u, r[i].tx, r[f].tx);
        }
      }
    }
  }

  lemma DecidedIsVoted(u: Setup, i: nat, n: Node)
    requires ValidSetup(u) && i < |u.values| && Steady(u, i, n) && n.tx.phase != PROPOSE
    ensures Fair(u, n.tx)
  {
  }

  // ------------------------------------------------------------------
  // Atomic commitment
  // ------------------------------------------------------------------

  lemma {:induction false} RoundKeeps(u: Setup, run: seq<Network>, choices: seq<seq<Choice>>, k: nat)
    requires IsRound(u, run, choices) && k < |run|
    ensures Joint(u, run[k])
  {
    if k == 0 {
      var s := Begin(u);
      forall i | 0 <= i < |s|
        ensures Steady(u, i, s[i])
      {
        assert s[i] == Fresh(i, |u.values|, u.values[i], i == u.initiator, u.thresholds[i]);
      }
    } else {
      RoundKeeps(u, run, choices, k - 1);
      assert Allowed(run[k - 1], choices[k - 1]);
      SlotKeeps(u, run[k - 1], choices[k - 1]);
    }
  }

  /** A decision reached is the right one: COMMIT only if every node was given
      the value proposed, ABORT only if some node was not. */
  lemma DecisionIsRight(u: Setup, run: seq<Network>, choices: seq<seq<Choice>>, k: nat, i: nat)
    requires IsRound(u, run, choices) && k < |run| && i < |run[k]| && run[k][i].tx.phase != PROPOSE
    ensures run[k][i].tx.phase == (if Unanimous(u) then COMMIT else ABORT)
  {
    RoundKeeps(u, run, choices, k);
    assert Steady(u, i, run[k][i]);
    DecidedIsVoted(u, i, run[k][i]);
  }

  /** Atomic commitment: whenever the round is cut off, no node commits while
      another aborts, on decision or on timeout, and none commits against its
      own vote. */
  lemma DecisionsAgree(u: Setup, run: seq<Network>, choices: seq<seq<Choice>>, k: nat, i: nat, j: nat)
    requires IsRound(u, run, choices) && k < |run| && i < |run[k]| && j < |run[k]|
    requires Decide(run[k][i]) == Commits
    ensures Decide(run[k][j]) == Commits || Decide(run[k][j]) == Uncertain
  {
    RoundKeeps(u, run, choices, k);
    var s := run[k];
    assert Steady(u, i, s[i]) && Steady(u, j, s[j]);
    DecisionIsRight(u, run, choices, k, i);
    if s[j].tx.phase != PROPOSE {
      DecisionIsRight(u, run, choices, k, j);
    }
    assert Agreeing(u, j);
  }

  lemma NeverFails(u: Setup, run: seq<Network>, choices: seq<seq<Choice>>, k: nat, i: nat)
    requires IsRound(u, run, choices) && k < |run| && i < |run[k]|
    ensures Decide(run[k][i]) != Fails
  {
    RoundKeeps(u, run, choices, k);
    assert Steady(u, i, run[k][i]);
    if run[k][i].tx.phase == COMMIT {
      DecisionIsRight(u, run, choices, k, i);
      assert Agreeing(u, i);
    }
  }

  /** Once a node has seen completion, every node has the same decision. */
  lemma CompleteMeansAll(u: Setup, run: seq<Network>, choices: seq<seq<Choice>>, k: nat, i: nat, j: nat)
    requires IsRound(u, run, choices) && k < |run| && i < |run[k]| && j < |run[k]| && run[k][i].radio.complete
    ensures run[k][j].tx.phase == run[k][i].tx.phase != PROPOSE
  {
    RoundKeeps(u, run, choices, k);
    assert Steady(u, i, run[k][i]) && DecisionMeans(run[k], i);
    assert j in run[k][i].tx.flags;
  }
}
