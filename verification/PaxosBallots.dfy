/** Promises and ballots over whole rounds of Wireless Paxos, losers that try again
    included: promises only grow, and no ballot ever carries two values.
 */
module PaxosBallots {
  import opened Paxos
  import opened PaxosSteps
  import opened PaxosSafety
  import opened PaxosOrder

  // ------------------------------------------------------------------
  // Where a node's next state comes from
  // ------------------------------------------------------------------

  lemma NextIs(s: Network, c: seq<Choice>, i: nat)
    requires Allowed(s, c) && i < |s|
    ensures var n, e := s[i], c[i].event;
            Possible(s, c, i) &&
            var heard := if e.Hears? then s[e.from].tx else NO_PACKET;
            SameState(if Processes(n, e.Hears? || e.Sends?) then OnPacket(Woken(n), heard, n.radio.state == Send, c[i].keep) else n,
                      Next(s, c, i))
  {
    assert Possible(s, c, i);
    var n, e := s[i], c[i].event;
    var heard := if e.Hears? then s[e.from].tx else NO_PACKET;
    ProcessIs(n, e.Hears? || e.Sends?, heard, c[i].keep, c[i].threshold, c[i].crash);
    hide Process, OnPacket;
  }

  lemma PacketKeepsPlace(n: Node, heard: Packet, own: bool, keep: bool)
    ensures var r := OnPacket(n, heard, own, keep); r.me == n.me && r.count == n.count && r.wait == n.wait
  {
    AcceptorDoes(n, heard, own, keep);
    ProposerDoes(AcceptorStep(n, heard, own, keep), heard, own);
    hide AcceptorStep, ProposerStep, Classify, IsCurrent, Merged;
  }

  lemma PlacedKept(s: Network, c: seq<Choice>, i: nat)
    requires Allowed(s, c) && i < |s|
    ensures var r := Next(s, c, i); r.me == s[i].me && r.count == s[i].count && r.wait == s[i].wait
  {
    assert Possible(s, c, i);
    var e := c[i].event;
    PacketKeepsPlace(Woken(s[i]), if e.Hears? then s[e.from].tx else NO_PACKET, s[i].radio.state == Send, c[i].keep);
    NextIs(s, c, i);
    hide Next, OnPacket;
  }

  /** Every node is where its index says and knows the network's size and wait. */
  ghost predicate Placed(s: Network, wait: nat)
  {
    forall i :: 0 <= i < |s| ==> s[i].me == i && s[i].count == |s| && s[i].wait == wait
  }

  lemma {:induction false} RoundPlaced(u: Setup, run: seq<Network>, choices: seq<seq<Choice>>, k: nat)
    requires IsRound(u, run, choices) && k < |run|
    ensures |run[k]| == |u.roles| && Placed(run[k], WaitOf(u.slots))
  {
    if k > 0 {
      RoundPlaced(u, run, choices, k - 1);
      var s, c := run[k - 1], choices[k - 1];
      assert Allowed(s, c);
      forall i | 0 <= i < |s|
        ensures run[k][i].me == i && run[k][i].count == |s| && run[k][i].wait == s[i].wait
      {
        PlacedKept(s, c, i);
        assert run[k][i] == Next(s, c, i);
      }
    }
  }

  // ------------------------------------------------------------------
  // Promises
  // ------------------------------------------------------------------

  /** A proposer that has not started has promised nothing above its own ballot. */
  ghost predicate Starting(n: Node)
  {
    n.proposer.active && n.proposer.phase == INIT ==>
      n.proposer.loserTimeout == 0 && !n.proposer.gotMajority && n.acceptor.minProposal <= n.proposer.ballot
  }

  lemma PacketKeepsPromise(n: Node, heard: Packet, own: bool, keep: bool)
    requires Starting(n)
    ensures var r := OnPacket(n, heard, own, keep);
            Starting(r) && n.acceptor.minProposal <= r.acceptor.minProposal
  {
    AcceptorDoes(n, heard, own, keep);
    var a := AcceptorStep(n, heard, own, keep);
    ProposerDoes(a, heard, own);
    hide AcceptorStep, ProposerStep, Classify, NextBallot, Merged, Ballot;
  }

  lemma SlotKeepsPromise(s: Network, c: seq<Choice>, i: nat)
    requires Allowed(s, c) && i < |s| && Starting(s[i])
    ensures Starting(Next(s, c, i)) && s[i].acceptor.minProposal <= Next(s, c, i).acceptor.minProposal
  {
    assert Possible(s, c, i);
    var e := c[i].event;
    PacketKeepsPromise(Woken(s[i]), if e.Hears? then s[e.from].tx else NO_PACKET, s[i].radio.state == Send, c[i].keep);
    NextIs(s, c, i);
    hide Next, OnPacket;
  }

  lemma {:induction false} RoundStarting(u: Setup, run: seq<Network>, choices: seq<seq<Choice>>, k: nat)
    requires IsRound(u, run, choices) && k < |run|
    ensures forall i :: 0 <= i < |run[k]| ==> Starting(run[k][i])
  {
    if k > 0 {
      RoundStarting(u, run, choices, k - 1);
      var s, c := run[k - 1], choices[k - 1];
      assert Allowed(s, c);
      forall i | 0 <= i < |run[k]|
        ensures Starting(run[k][i])
      {
        SlotKeepsPromise(s, c, i);
        assert run[k][i] == Next(s, c, i);
      }
    }
  }

  /** The acceptors' own rule, in rounds of any length: a promise never goes back. */
  lemma PromiseGrows(u: Setup, run: seq<Network>, choices: seq<seq<Choice>>, k: nat, i: nat)
    requires IsRound(u, run, choices) && k + 1 < |run| && i < |run[k]| && i < |run[k + 1]|
    ensures run[k][i].acceptor.minProposal <= run[k + 1][i].acceptor.minProposal
  {
    RoundStarting(u, run, choices, k);
    assert Allowed(run[k], choices[k]);
    SlotKeepsPromise(run[k], choices[k], i);
    assert run[k + 1][i] == Next(run[k], choices[k], i);
  }

  // ------------------------------------------------------------------
  // What a node keeps of its ballots
  // ------------------------------------------------------------------

  /** Ballot `ballot` went into its ACCEPT phase with `value`. */
  datatype Opening = Opening(ballot: nat, value: nat)

  ghost predicate OneValue(openings: set<Opening>)
  {
    && (forall x :: x in openings ==> x.ballot > 0)
    && (forall x, y :: x in openings && y in openings && x.ballot == y.ballot ==> x == y)
  }

  /** A proposer's ballots carry its index, and after `k` slots it can have lost only
      once per wait, if losers wait at all. */
  ghost predicate Numbered(n: Node, k: nat)
  {
    n.me < 256 &&
    (n.proposer.active ==>
       && n.proposer.ballot % 256 == n.me && n.proposer.ballot >= 256
       && (n.wait > 0 ==> Losses(n) * (n.wait + 1) <= k + n.proposer.loserTimeout)
       && (n.proposer.loserTimeout > 0 ==> n.proposer.phase == PREPARE && !n.proposer.gotMajority)
       && (n.proposer.gotMajority ==> n.proposer.phase == ACCEPT))
  }

  function Losses(n: Node): int
  {
    n.proposer.ballot / 256 - 1
  }

  /** So many slots that the eight-bit round of a ballot cannot have wrapped: without a
      wait it never does. */
  predicate Unwrapped(wait: nat, k: nat)
  {
    wait == 0 || k + wait < 254 * (wait + 1)
  }

  lemma LossCounts(b: nat, wait: nat, k: nat)
    requires b >= 256 && wait > 0 && (b / 256 - 1) * (wait + 1) <= k && Unwrapped(wait, k)
    ensures NextBallot(b) == b + 256
    ensures (NextBallot(b) / 256 - 1) * (wait + 1) <= k + 1 + wait
  {
    var r: nat := b / 256;
    hide NextBallot;
    AtLeast(r - 1, 254, wait + 1);
    NextIsHigher(b);
    OneMore(r - 1, wait + 1);
  }

  lemma AtLeast(x: int, y: int, w: nat)
    ensures x >= y ==> x * w >= y * w
  {
  }

  lemma OneMore(x: int, w: nat)
    ensures (x + 1) * w == x * w + w
  {
  }

  lemma NextIsHigher(b: nat)
    requires b / 256 < 255
    ensures NextBallot(b) == b + 256 && NextBallot(b) / 256 == b / 256 + 1
  {
  }

  /** The ballots a node has opened are behind it, or are its present one. */
  ghost predicate Owns(n: Node, openings: set<Opening>)
  {
    forall x :: x in openings && x.ballot % 256 == n.me ==>
      && n.proposer.active && x.ballot <= n.proposer.ballot
      && (x.ballot == n.proposer.ballot ==> n.proposer.phase == ACCEPT && x.value == n.proposer.value)
  }

  ghost predicate PacketIssued(openings: set<Opening>, p: Packet)
  {
    p.phase == ACCEPT ==> Opening(p.ballot, p.value) in openings
  }

  /** ACCEPT packets and acceptances are of openings. */
  ghost predicate Issued(n: Node, openings: set<Opening>)
  {
    && PacketIssued(openings, n.tx)
    && (n.acceptor.acceptedProposal > 0 ==> Opening(n.acceptor.acceptedProposal, n.acceptor.acceptedValue) in openings)
  }

  function Opens(n: Node): set<Opening>
  {
    if n.proposer.active && n.proposer.phase == ACCEPT then {Opening(n.proposer.ballot, n.proposer.value)} else {}
  }

  /** Where losers do not wait, the order of the first round stays. */
  ghost predicate Settled(n: Node, k: nat)
  {
    n.wait == 0 ==> Ordered(n, k)
  }

  ghost predicate Keeps(n: Node, k: nat, openings: set<Opening>)
  {
    Settled(n, k) && Numbered(n, k) && Owns(n, openings) && Issued(n, openings) && Opens(n) <= openings
  }

  // ------------------------------------------------------------------
  // One slot of one node
  // ------------------------------------------------------------------

  lemma NumberKept(n: Node, p: Packet, a: Node, q: Packet, r: Node, m: Move, k: nat)
    requires Numbered(n, k) && Unwrapped(n.wait, k) && Settled(n, k) && Settled(r, k + 1)
    requires AcceptorEffect(n, p, a) && Moves(a, q, r, m)
    ensures Numbered(r, k + 1)
    ensures m.Lost? || m.LostOpening? ==> r.proposer.ballot == n.proposer.ballot + 256
  {
    if m.Lost? || m.LostOpening? {
      if n.wait > 0 { LossCounts(n.proposer.ballot, n.wait, k); } else { FirstBallots(n.me); }
    }
    hide NextBallot, Merged, IsCurrent, Bounded, Ballot;
  }

  lemma IssuedKept(n: Node, p: Packet, a: Node, q: Packet, r: Node, m: Move, k: nat, openings: set<Opening>)
    requires Numbered(n, k) && Issued(n, openings) && PacketIssued(openings, p)
    requires AcceptorEffect(n, p, a) && Moves(a, q, r, m)
    ensures Issued(r, openings + Opens(r))
  {
    hide NextBallot, Merged;
  }

  lemma OwnershipKept(n: Node, p: Packet, a: Node, q: Packet, r: Node, m: Move, k: nat, openings: set<Opening>)
    requires Numbered(n, k) && Unwrapped(n.wait, k) && Owns(n, openings) && Settled(n, k) && Settled(r, k + 1)
    requires AcceptorEffect(n, p, a) && Moves(a, q, r, m)
    ensures Owns(r, openings + Opens(r))
  {
    NumberKept(n, p, a, q, r, m, k);
    hide NextBallot, Merged, IsCurrent, Numbered, Settled;
  }

  lemma HeartbeatKeeps(n: Node, p: Packet, k: nat, openings: set<Opening>)
    requires Keeps(n, k, openings) && p.phase == INIT && n.acceptor.minProposal == 0 && (n.wait == 0 ==> PacketOrdered(p))
    ensures var r := OnHeartbeat(n, p); Keeps(r, k + 1, openings + Opens(r))
  {
    var r := OnHeartbeat(n, p);
    if n.wait == 0 { HeartbeatOrdered(n, p, k); }
    hide Ordered;
    assert Numbered(r, k + 1);
    assert Owns(r, openings + Opens(r)) && Issued(r, openings + Opens(r));
  }

  lemma PacketKeeps(n: Node, heard: Packet, own: bool, keep: bool, k: nat, openings: set<Opening>)
    requires Keeps(n, k, openings) && Unwrapped(n.wait, k)
    requires own || (PacketIssued(openings, heard) && (n.wait == 0 ==> PacketOrdered(heard)))
    ensures var r := OnPacket(n, heard, own, keep); Keeps(r, k + 1, openings + Opens(r))
  {
    var p, r := Payload(n, heard, own), OnPacket(n, heard, own, keep);
    if n.wait == 0 { PacketKeepsOrder(n, heard, own, keep, k); }
    if p.phase == INIT && n.acceptor.minProposal == 0 {
      HeartbeatKeeps(n, p, k, openings);
      hide OnHeartbeat, Keeps, AcceptorStep, ProposerStep;
    } else {
      var a := AcceptorStep(n, heard, own, keep);
      var q := Payload(a, heard, own);
      var m := Classify(a, q);
      AcceptorDoes(n, heard, own, keep);
      ProposerDoes(a, heard, own);
      assert r == ProposerStep(a, heard, own);
      hide OnPacket, AcceptorStep, ProposerStep, Classify, Unwrapped, Numbered, Owns, Moves, AcceptorEffect, Ordered;
      NumberKept(n, p, a, q, r, m, k);
      OwnershipKept(n, p, a, q, r, m, k, openings);
      IssuedKept(n, p, a, q, r, m, k, openings);
    }
  }

  // ------------------------------------------------------------------
  // One slot of the network
  // ------------------------------------------------------------------

  ghost function OpeningsOf(s: Network): set<Opening>
  {
    set i, x | 0 <= i < |s| && x in Opens(s[i]) :: x
  }

  ghost predicate Holds(s: Network, wait: nat, k: nat, openings: set<Opening>)
  {
    Placed(s, wait) && OneValue(openings) && forall i :: 0 <= i < |s| ==> Keeps(s[i], k, openings)
  }

  lemma KeepsMore(n: Node, r: Node, k: nat, j: nat, openings: set<Opening>)
    requires Keeps(n, k, openings) && SameState(n, r) && k <= j
    ensures Keeps(r, j, openings) && Opens(r) == Opens(n)
  {
  }

  lemma NodeKeeps(s: Network, c: seq<Choice>, wait: nat, k: nat, i: nat, openings: set<Opening>)
    requires Holds(s, wait, k, openings) && Allowed(s, c) && i < |s| && Unwrapped(wait, k)
    ensures var r := Next(s, c, i); Keeps(r, k + 1, openings + Opens(r))
  {
    var n, e, r := s[i], c[i].event, Next(s, c, i);
    var own := n.radio.state == Send;
    assert Keeps(n, k, openings) && Possible(s, c, i);
    var heard := if e.Hears? then s[e.from].tx else NO_PACKET;
    NextIs(s, c, i);
    if Processes(n, e.Hears? || e.Sends?) {
      if e.Hears? { assert Keeps(s[e.from], k, openings) && s[e.from].wait == n.wait; }
      var w := Woken(n);
      KeepsMore(n, w, k, k, openings);
      PacketKeeps(w, heard, own, c[i].keep, k, openings);
      hide OnPacket, Next, Keeps;
      var x := OnPacket(w, heard, own, c[i].keep);
      KeepsMore(x, r, k + 1, k + 1, openings + Opens(x));
    } else {
      hide OnPacket, Next;
      KeepsMore(n, r, k, k + 1, openings);
      assert openings + Opens(r) == openings;
    }
  }

  lemma OpensOwn(n: Node, k: nat, openings: set<Opening>)
    requires Keeps(n, k, openings)
    ensures forall x :: x in Opens(n) ==> x.ballot % 256 == n.me && x.ballot > 0
  {
  }

  /** Openings made in the same slot belong to different nodes. */
  lemma OpeningsApart(n: Node, k: nat, openings: set<Opening>, all: set<Opening>)
    requires Keeps(n, k, openings + Opens(n)) && openings + Opens(n) <= all
    requires forall x :: x in all && x.ballot % 256 == n.me ==> x in openings + Opens(n)
    ensures Keeps(n, k, all)
  {
  }

  lemma StillOneValue(s: Network, wait: nat, k: nat, openings: set<Opening>)
    requires Placed(s, wait) && OneValue(openings)
    requires forall i :: 0 <= i < |s| ==> Keeps(s[i], k, openings + Opens(s[i]))
    ensures OneValue(openings + OpeningsOf(s))
    ensures forall i, x :: 0 <= i < |s| && x in openings + OpeningsOf(s) && x.ballot % 256 == i ==> x in openings + Opens(s[i])
  {
    var all := openings + OpeningsOf(s);
    forall x | x in all && x !in openings
      ensures x.ballot > 0
      ensures forall i :: 0 <= i < |s| && x.ballot % 256 == i ==> x in openings + Opens(s[i])
    {
      var j :| 0 <= j < |s| && x in Opens(s[j]);
      OpensOwn(s[j], k, openings + Opens(s[j]));
    }
    forall x, y | x in all && y in all && x.ballot == y.ballot
      ensures x == y
    {
      if x !in openings || y !in openings {
        var z := if x !in openings then x else y;
        var j :| 0 <= j < |s| && z in Opens(s[j]);
        OpensOwn(s[j], k, openings + Opens(s[j]));
        assert x in openings + Opens(s[j]) && y in openings + Opens(s[j]);
        assert Owns(s[j], openings + Opens(s[j]));
      }
    }
  }

  lemma SlotHolds(s: Network, c: seq<Choice>, wait: nat, k: nat, openings: set<Opening>)
    requires Holds(s, wait, k, openings) && Allowed(s, c) && Unwrapped(wait, k)
    ensures Holds(Slot(s, c), wait, k + 1, openings + OpeningsOf(Slot(s, c)))
  {
    var r := Slot(s, c);
    forall i | 0 <= i < |s|
      ensures r[i].me == i && r[i].count == |s| && r[i].wait == wait && Keeps(r[i], k + 1, openings + Opens(r[i]))
    {
      assert r[i] == Next(s, c, i);
      PlacedKept(s, c, i);
      NodeKeeps(s, c, wait, k, i, openings);
    }
    hide Next, Keeps, Opens;
    StillOneValue(r, wait, k + 1, openings);
    forall i | 0 <= i < |r|
      ensures Keeps(r[i], k + 1, openings + OpeningsOf(r))
    {
      assert forall x :: x in Opens(r[i]) ==> x in OpeningsOf(r);
      OpeningsApart(r[i], k + 1, openings, openings + OpeningsOf(r));
    }
  }

  // ------------------------------------------------------------------
  // Whole rounds
  // ------------------------------------------------------------------

  ghost function OpeningsUpTo(run: seq<Network>, k: nat): set<Opening>
    requires k < |run|
  {
    if k == 0 then {} else OpeningsUpTo(run, k - 1) + OpeningsOf(run[k])
  }

  lemma FreshHolds(u: Setup)
    requires ValidSetup(u)
    ensures Holds(Begin(u), WaitOf(u.slots), 0, {})
  {
    var s := Begin(u);
    forall i | 0 <= i < |s|
      ensures Keeps(s[i], 0, {})
    {
      assert s[i] == Fresh(i, |u.roles|, WaitOf(u.slots), u.roles[i], i == u.initiator, u.thresholds[i]);
    }
  }

  lemma {:induction false} RoundHolds(u: Setup, run: seq<Network>, choices: seq<seq<Choice>>, k: nat)
    requires IsRound(u, run, choices) && k < |run| && (k > 0 ==> Unwrapped(WaitOf(u.slots), k - 1))
    ensures Holds(run[k], WaitOf(u.slots), k, OpeningsUpTo(run, k))
  {
    if k == 0 {
      FreshHolds(u);
    } else {
      RoundHolds(u, run, choices, k - 1);
      hide Holds;
      assert Allowed(run[k - 1], choices[k - 1]);
      SlotHolds(run[k - 1], choices[k - 1], WaitOf(u.slots), k - 1, OpeningsUpTo(run, k - 1));
    }
  }

  lemma {:induction false} OpeningsGrow(run: seq<Network>, m: nat, k: nat)
    requires m <= k < |run|
    ensures OpeningsUpTo(run, m) <= OpeningsUpTo(run, k)
  {
    if m < k { OpeningsGrow(run, m, k - 1); }
  }

  lemma AcceptedWasOpened(u: Setup, run: seq<Network>, choices: seq<seq<Choice>>, k: nat, i: nat)
    requires IsRound(u, run, choices) && k < |run| && (k > 0 ==> Unwrapped(WaitOf(u.slots), k - 1)) && i < |run[k]|
    requires run[k][i].acceptor.acceptedProposal > 0
    ensures OneValue(OpeningsUpTo(run, k))
    ensures Opening(run[k][i].acceptor.acceptedProposal, run[k][i].acceptor.acceptedValue) in OpeningsUpTo(run, k)
  {
    RoundHolds(u, run, choices, k);
    hide OpeningsUpTo, OneValue, IsRound;
    assert Keeps(run[k][i], k, OpeningsUpTo(run, k));
  }

  lemma SameOpening(openings: set<Opening>, x: Opening, y: Opening)
    requires OneValue(openings) && x in openings && y in openings && x.ballot == y.ballot
    ensures x == y
  {
  }

  /** No ballot carries two values: two acceptances under the same ballot, by any
      nodes at any time of the round, are of the same value. Losers may try again; the
      only bound is that the eight bits of a ballot's round have not wrapped. */
  lemma OneValuePerBallot(u: Setup, run: seq<Network>, choices: seq<seq<Choice>>, k: nat, m: nat, i: nat, j: nat)
    requires IsRound(u, run, choices) && m <= k < |run| && i < |run[k]| && j < |run[m]|
    requires k > 0 ==> Unwrapped(WaitOf(u.slots), k - 1)
    requires run[k][i].acceptor.acceptedProposal == run[m][j].acceptor.acceptedProposal > 0
    ensures run[k][i].acceptor.acceptedValue == run[m][j].acceptor.acceptedValue
  {
    UnwrappedBefore(WaitOf(u.slots), m, k);
    hide *;
    AcceptedWasOpened(u, run, choices, k, i);
    AcceptedWasOpened(u, run, choices, m, j);
    OpeningsGrow(run, m, k);
    var x, y := run[k][i].acceptor, run[m][j].acceptor;
    SameOpening(OpeningsUpTo(run, k), Opening(x.acceptedProposal, x.acceptedValue), Opening(y.acceptedProposal, y.acceptedValue));
  }

  lemma UnwrappedBefore(wait: nat, m: nat, k: nat)
    requires m <= k && (k > 0 ==> Unwrapped(wait, k - 1))
    ensures m > 0 ==> Unwrapped(wait, m - 1)
  {
  }

  /** Which builds that covers entirely: all but those of so many slots that a loser
      could try again 253 times, which a wait of some size makes very long. */
  lemma RoundsUnwrapped(slots: nat)
    requires slots > 0
    ensures Unwrapped(WaitOf(slots), slots - 1) <==> WaitOf(slots) == 0 || slots <= 253 * (WaitOf(slots) + 1) + 1
    ensures slots <= 507 ==> Unwrapped(WaitOf(slots), slots - 1)
  {
  }
}
