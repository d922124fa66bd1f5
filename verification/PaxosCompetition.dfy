/** Two proposers with different values in one round of Wireless Paxos, in a network
    of any size.

    A reply to a new PREPARE does not report what the node itself has accepted,
    and a proposer that starts on hearing a lower ballot keeps the flags that were
    collected for that one. So a later ballot can open with a value of its own
    although an earlier one is chosen.
 */
module PaxosCompetition {
  import ChaosFlags
  import opened Paxos
  import opened PaxosSteps
  import opened PaxosSafety
  import opened PaxosSlots
  import opened PaxosAgreement
  import opened PaxosQuorum

  // ------------------------------------------------------------------
  // The cast
  // ------------------------------------------------------------------

  /** Exactly two proposers, at `lo` and `hi`. */
  ghost predicate TwoProposers(u: Setup, lo: nat, hi: nat)
  {
    && lo < hi < |u.roles| && u.roles[lo].Proposes? && u.roles[hi].Proposes?
    && forall i :: 0 <= i < |u.roles| && i != lo && i != hi ==> u.roles[i] == Follower
  }

  /** The `i`-th follower. */
  function Helper(lo: nat, hi: nat, i: nat): (f: nat)
    requires lo < hi
    ensures f != lo && f != hi && i <= f <= i + 2
  {
    if i < lo then i else if i + 1 < hi then i + 1 else i + 2
  }

  /** The hub's flag and those of the first `r` followers. */
  function Flags(hub: nat, lo: nat, hi: nat, r: nat): (s: set<nat>)
    requires lo < hi && (hub == lo || hub == hi)
    ensures hub in s && |s| == r + 1
    ensures forall x :: x in s ==> x == hub || exists j :: 0 <= j < r && x == Helper(lo, hi, j)
  {
    if r == 0 then {hub}
    else
      var t := Flags(hub, lo, hi, r - 1);
      HelperIsNew(hub, lo, hi, r - 1, t);
      t + {Helper(lo, hi, r - 1)}
  }

  lemma HelperIsNew(hub: nat, lo: nat, hi: nat, r: nat, t: set<nat>)
    requires lo < hi && (hub == lo || hub == hi)
    requires forall x :: x in t ==> x == hub || exists j :: 0 <= j < r && x == Helper(lo, hi, j)
    ensures Helper(lo, hi, r) !in t
  {
  }

  /** Who plays which part: `hub` collects, `other` is the proposer that does not. */
  datatype Cast = Cast(lo: nat, hi: nat, hub: nat, other: nat, count: nat)

  predicate ValidCast(c: Cast)
  {
    && c.lo < c.hi < c.count <= 256 && c.count >= 3
    && ((c.hub == c.lo && c.other == c.hi) || (c.hub == c.hi && c.other == c.lo))
  }

  function Seen(c: Cast, r: nat): (s: set<nat>)
    requires ValidCast(c)
    ensures c.hub in s && |s| == r + 1
  {
    Flags(c.hub, c.lo, c.hi, r)
  }

  lemma SeenGrows(c: Cast, r: nat)
    requires ValidCast(c)
    ensures c.other !in Seen(c, r) && Helper(c.lo, c.hi, r) !in Seen(c, r)
    ensures Seen(c, r + 1) == Seen(c, r) + {Helper(c.lo, c.hi, r)} && Seen(c, r) <= Seen(c, r + 1)
  {
    HelperIsNew(c.hub, c.lo, c.hi, r, Seen(c, r));
  }

  /** Exactly the follower that the hub heard last finds nothing new in the hub's next
      packet. */
  lemma NothingNew(c: Cast, r: nat, i: nat)
    requires ValidCast(c) && r > 0
    ensures Seen(c, r) == Seen(c, r - 1) + {i} ==> i == Helper(c.lo, c.hi, r - 1)
  {
    SeenGrows(c, r - 1);
    assert Helper(c.lo, c.hi, r - 1) in Seen(c, r);
  }

  /** There are enough followers for a majority with the hub. */
  lemma HelperExists(c: Cast, r: nat)
    requires ValidCast(c) && r < c.count / 2
    ensures var f := Helper(c.lo, c.hi, r); f < c.count && f != c.hub && f != c.other
  {
  }

  ghost predicate InPlace(s: Network, c: Cast)
  {
    |s| == c.count && forall i :: 0 <= i < |s| ==> s[i].me == i && s[i].count == |s| && Calm(s[i])
  }

  predicate Awake(n: Node)
  {
    n.radio.state == Listen || n.radio.state == Send
  }

  // ------------------------------------------------------------------
  // Collecting votes
  // ------------------------------------------------------------------

  /** The hub is about to send the ACCEPT packet with the votes of `r` followers. */
  ghost predicate AtHub(s: Network, c: Cast, b: nat, v: nat, r: nat)
    requires ValidCast(c)
  {
    && InPlace(s, c) && Awake(s[c.other])
    && s[c.hub].radio.state == Send && Collects(s[c.hub], b, v, Seen(c, r))
    && forall i :: 0 <= i < |s| && i != c.hub && i != c.other ==>
         s[i].radio.state == Listen && if r == 0 then Before(s[i], b) else Accepts(s[i], b, v, Seen(c, r - 1))
  }

  /** The followers have heard it; all but the one heard last are about to send. */
  ghost predicate AtFollowers(s: Network, c: Cast, b: nat, v: nat, r: nat)
    requires ValidCast(c)
  {
    && InPlace(s, c) && Awake(s[c.other])
    && s[c.hub].radio.state == Listen && Collects(s[c.hub], b, v, Seen(c, r))
    && forall i :: 0 <= i < |s| && i != c.hub && i != c.other ==>
         HasVoted(s[i], c, b, v, r)
  }

  /** A follower that has heard the hub's packet with `r` votes. */
  ghost predicate HasVoted(n: Node, c: Cast, b: nat, v: nat, r: nat)
    requires ValidCast(c)
  {
    Accepts(n, b, v, Seen(c, r)) && AboutToSend(n, c, r)
  }

  /** It is about to send, unless it was the last one heard. */
  predicate AboutToSend(n: Node, c: Cast, r: nat)
    requires ValidCast(c)
  {
    n.radio.missed == 0 && (n.radio.state == Send || (n.radio.state == Listen && r > 0 && n.me == Helper(c.lo, c.hi, r - 1)))
  }

  function HubEvent(s: Network, c: Cast, i: nat): Event
    requires i < |s|
  {
    if i == c.hub then Sends else if i == c.other then IdleEvent(s[i]) else Hears(c.hub)
  }

  function HubEvents(s: Network, c: Cast): (es: seq<Event>)
    ensures |es| == |s|
  {
    seq(|s|, i requires 0 <= i < |s| => HubEvent(s, c, i))
  }

  lemma HubSlot(s: Network, c: Cast, b: nat, v: nat, r: nat)
    requires ValidCast(c) && AtHub(s, c, b, v, r) && r < c.count / 2
    ensures Allowed(s, Draws(HubEvents(s, c)))
    ensures var t := Slot(s, Draws(HubEvents(s, c)));
            AtFollowers(t, c, b, v, r) && SameState(s[c.other], t[c.other])
  {
    HubAllowed(s, c);
    var t := Slot(s, Draws(HubEvents(s, c)));
    forall i | 0 <= i < |s|
      ensures t[i].me == i && t[i].count == |s| && Calm(t[i])
      ensures i == c.hub ==> t[i].radio.state == Listen && Collects(t[i], b, v, Seen(c, r))
      ensures i == c.other ==> Awake(t[i]) && SameState(s[i], t[i])
      ensures i != c.hub && i != c.other ==> HasVoted(t[i], c, b, v, r)
    {
      hide *;
      HubSlotNode(s, c, b, v, r, i);
    }
  }

  lemma HubSlotNode(s: Network, c: Cast, b: nat, v: nat, r: nat, i: nat)
    requires ValidCast(c) && AtHub(s, c, b, v, r) && r < c.count / 2 && i < |s|
    requires Allowed(s, Draws(HubEvents(s, c)))
    ensures var n := Slot(s, Draws(HubEvents(s, c)))[i];
            && n.me == i && n.count == |s| && Calm(n)
            && (i == c.hub ==> n.radio.state == Listen && Collects(n, b, v, Seen(c, r)))
            && (i == c.other ==> Awake(n) && SameState(s[i], n))
            && (i != c.hub && i != c.other ==> HasVoted(n, c, b, v, r))
  {
    hide Hear, Sent, Idle, Slot, Collects, Accepts, Before, SameState, Draws;
    SeenGrows(c, r);
    EventIs(s, HubEvents(s, c), i);
    if i == c.hub {
      HubSends(s[i], b, v, Seen(c, r), c.other);
    } else if i == c.other {
      NodeIdles(s[i]);
      SamePlace(s[i], Idle(s[i]));
    } else {
      HearsHub(s, c, b, v, r, i);
    }
  }

  lemma SamePlace(n: Node, r: Node)
    requires SameState(n, r)
    ensures r.me == n.me && r.count == n.count
  {
  }

  lemma HubAllowed(s: Network, c: Cast)
    requires ValidCast(c) && |s| == c.count && s[c.hub].radio.state == Send && Awake(s[c.other])
    requires forall i :: 0 <= i < |s| && i != c.hub && i != c.other ==> s[i].radio.state == Listen
    ensures Allowed(s, Draws(HubEvents(s, c)))
  {
  }

  lemma HearsHub(s: Network, c: Cast, b: nat, v: nat, r: nat, i: nat)
    requires ValidCast(c) && AtHub(s, c, b, v, r) && i < |s| && i != c.hub && i != c.other
    ensures var t := Hear(s[i], s[c.hub].tx);
            t.me == i && t.count == |s| && Calm(t) && HasVoted(t, c, b, v, r)
  {
    hide Hear;
    SeenGrows(c, r);
    var q := s[c.hub].tx.proposal;
    assert s[c.hub].tx == Packet(b, ACCEPT, v, q, Seen(c, r));
    if r == 0 {
      FollowerAccepts(s[i], b, v, q, Seen(c, r), c.other);
    } else {
      SeenGrows(c, r - 1);
      NothingNew(c, r, i);
      FollowerRepeats(s[i], b, v, q, Seen(c, r), Seen(c, r - 1), c.other);
    }
  }

  function FollowerEvent(s: Network, c: Cast, f: nat, i: nat): Event
    requires i < |s|
  {
    if i == c.hub then Hears(f) else if i == c.other then IdleEvent(s[i])
    else if s[i].radio.state == Send then Sends else Silence
  }

  function FollowerEvents(s: Network, c: Cast, f: nat): (es: seq<Event>)
    ensures |es| == |s|
  {
    seq(|s|, i requires 0 <= i < |s| => FollowerEvent(s, c, f, i))
  }

  lemma FollowersAllowed(s: Network, c: Cast, f: nat)
    requires ValidCast(c) && |s| == c.count && s[c.hub].radio.state == Listen && Awake(s[c.other])
    requires forall i :: 0 <= i < |s| && i != c.hub && i != c.other ==> Awake(s[i])
    requires f < |s| && f != c.hub && f != c.other && s[f].radio.state == Send
    ensures Allowed(s, Draws(FollowerEvents(s, c, f)))
  {
  }

  /** The followers send and the hub hears the next one. */
  lemma FollowerSlot(s: Network, c: Cast, b: nat, v: nat, r: nat)
    requires ValidCast(c) && AtFollowers(s, c, b, v, r) && r < c.count / 2
    ensures var f := Helper(c.lo, c.hi, r); f < |s| && Allowed(s, Draws(FollowerEvents(s, c, f)))
    ensures var t := Slot(s, Draws(FollowerEvents(s, c, Helper(c.lo, c.hi, r))));
            && SameState(s[c.other], t[c.other])
            && (r + 1 < c.count / 2 ==> AtHub(t, c, b, v, r + 1))
            && (r + 1 == c.count / 2 ==> Finished(t, c, b, v))
  {
    hide Slot, Draws, Collects, Accepts, SameState, FollowerEvents, Seen, Wins;
    var f := Helper(c.lo, c.hi, r);
    HelperExists(c, r);
    assert HasVoted(s[f], c, b, v, r);
    assert s[f].radio.state == Send;
    FollowersAllowed(s, c, f);
    var t := Slot(s, Draws(FollowerEvents(s, c, f)));
    forall i | 0 <= i < |s|
      ensures t[i].me == i && t[i].count == |s| && Calm(t[i])
      ensures i == c.hub ==> t[i].radio.state == Send && HubAfter(t[i], c, b, v, r + 1)
      ensures i == c.other ==> Awake(t[i]) && SameState(s[i], t[i])
      ensures i != c.hub && i != c.other ==> t[i].radio.state == Listen && t[i].radio.missed <= 1 && Accepts(t[i], b, v, Seen(c, r))
    {
      hide *;
      FollowerSlotNode(s, c, b, v, r, i);
    }
  }

  /** The hub has heard `r` followers: it goes on collecting, or has learned. */
  ghost predicate HubAfter(n: Node, c: Cast, b: nat, v: nat, r: nat)
    requires ValidCast(c)
  {
    if r < c.count / 2 then Collects(n, b, v, Seen(c, r)) else Wins(n, b, v, Seen(c, r))
  }

  /** The hub has learned its value. */
  ghost predicate Finished(s: Network, c: Cast, b: nat, v: nat)
    requires ValidCast(c)
  {
    && InPlace(s, c) && Awake(s[c.other])
    && s[c.hub].radio.state == Send && Wins(s[c.hub], b, v, Seen(c, c.count / 2))
    && forall i :: 0 <= i < |s| && i != c.hub && i != c.other ==>
         s[i].radio.state == Listen && s[i].radio.missed <= 1 && Accepts(s[i], b, v, Seen(c, c.count / 2 - 1))
  }

  lemma FollowerSlotNode(s: Network, c: Cast, b: nat, v: nat, r: nat, i: nat)
    requires ValidCast(c) && AtFollowers(s, c, b, v, r) && r < c.count / 2 && i < |s|
    requires Helper(c.lo, c.hi, r) < |s| && Allowed(s, Draws(FollowerEvents(s, c, Helper(c.lo, c.hi, r))))
    ensures var n := Slot(s, Draws(FollowerEvents(s, c, Helper(c.lo, c.hi, r))))[i];
            && n.me == i && n.count == |s| && Calm(n)
            && (i == c.hub ==> n.radio.state == Send && HubAfter(n, c, b, v, r + 1))
            && (i == c.other ==> Awake(n) && SameState(s[i], n))
            && (i != c.hub && i != c.other ==> n.radio.state == Listen && n.radio.missed <= 1 && Accepts(n, b, v, Seen(c, r)))
  {
    hide Hear, Sent, Idle, Slot, Collects, Accepts, SameState, Draws, Seen, Calm, Wins;
    var f := Helper(c.lo, c.hi, r);
    SeenGrows(c, r);
    HelperExists(c, r);
    EventIs(s, FollowerEvents(s, c, f), i);
    if i == c.hub {
      assert HasVoted(s[f], c, b, v, r);
      VoterPacket(s[f], b, v, Seen(c, r));
      HubHears(s[i], b, v, Seen(c, r), f, c.other);
    } else if i == c.other {
      NodeIdles(s[i]);
      SamePlace(s[i], Idle(s[i]));
    } else {
      assert HasVoted(s[i], c, b, v, r);
      VoterRests(s[i], b, v, Seen(c, r), c, r);
    }
  }

  lemma VoterPacket(n: Node, b: nat, v: nat, s: set<nat>)
    requires Accepts(n, b, v, s)
    ensures n.tx == Packet(b, ACCEPT, v, b, s + {n.me})
  {
  }

  /** A follower that sends, or rests for one slot, listens in the next. */
  lemma VoterRests(n: Node, b: nat, v: nat, s: set<nat>, c: Cast, r: nat)
    requires ValidCast(c) && Accepts(n, b, v, s) && Calm(n) && AboutToSend(n, c, r)
    ensures var t := if n.radio.state == Send then Sent(n) else Idle(n);
            && t.me == n.me && t.count == n.count && Calm(t) && Accepts(t, b, v, s)
            && t.radio.state == Listen && t.radio.missed <= 1
  {
    hide Sent, Idle;
    if n.radio.state == Send { FollowerSends(n); } else { NodeIdles(n); }
  }

  /** From the first ACCEPT packet to the majority of votes. */
  lemma {:induction false} AcceptStage(u: Setup, k: nat, s: Network, c: Cast, b: nat, v: nat, r: nat) returns (t: Network)
    requires ValidCast(c) && Reaches(u, k, s) && AtHub(s, c, b, v, r) && r < c.count / 2
    requires k + 2 * (c.count / 2 - r) <= u.slots
    ensures Reaches(u, k + 2 * (c.count / 2 - r), t) && Finished(t, c, b, v) && SameState(s[c.other], t[c.other])
    decreases c.count - r
  {
    hide Reaches, AtHub, AtFollowers, Finished, Slot, Draws, HubEvents, FollowerEvents;
    HubSlot(s, c, b, v, r);
    var m := Slot(s, Draws(HubEvents(s, c)));
    ReachesSlot(u, k, s, Draws(HubEvents(s, c)));
    FollowerSlot(m, c, b, v, r);
    var es := FollowerEvents(m, c, Helper(c.lo, c.hi, r));
    t := Slot(m, Draws(es));
    ReachesSlot(u, k + 1, m, Draws(es));
    if r + 1 < c.count / 2 {
      t := AcceptStage(u, k + 2, t, c, b, v, r + 1);
    }
  }

  // ------------------------------------------------------------------
  // Collecting promises
  // ------------------------------------------------------------------

  /** The proposer at `lo` is about to send its PREPARE with the flags of `r` followers;
      the one at `hi` has heard nothing. */
  ghost predicate AtPreparer(s: Network, c: Cast, a: nat, b: nat, r: nat)
    requires ValidCast(c)
  {
    && InPlace(s, c) && c.hub == c.lo
    && s[c.hub].radio.state == Send && Prepares(s[c.hub], Ballot(1, c.lo), a, a, Seen(c, r))
    && s[c.other].radio.state == Listen && !s[c.other].radio.synced && Ready(s[c.other], Ballot(1, c.hi), b)
    && forall i :: 0 <= i < |s| && i != c.hub && i != c.other ==>
         s[i].radio.state == Listen
         && if r == 0 then Unaware(s[i], Ballot(1, c.lo)) else Replied(s[i], Ballot(1, c.lo), a, Seen(c, r - 1))
  }

  /** The followers have heard it; with the last PREPARE `hi` has heard it too. */
  ghost predicate AtRepliers(s: Network, c: Cast, a: nat, b: nat, r: nat)
    requires ValidCast(c)
  {
    && InPlace(s, c) && c.hub == c.lo
    && s[c.hub].radio.state == Listen && Prepares(s[c.hub], Ballot(1, c.lo), a, a, Seen(c, r))
    && OtherAfter(s[c.other], c, a, b, r)
    && forall i :: 0 <= i < |s| && i != c.hub && i != c.other ==>
         Replied(s[i], Ballot(1, c.lo), a, Seen(c, r)) && AboutToSend(s[i], c, r)
  }

  ghost predicate OtherAfter(n: Node, c: Cast, a: nat, b: nat, r: nat)
    requires ValidCast(c)
  {
    if r + 1 < c.count / 2 then n.radio.state == Listen && !n.radio.synced && Ready(n, Ballot(1, c.hi), b)
    else n.radio.state == Send && Prepares(n, Ballot(1, c.hi), b, a, Seen(c, r) + {c.hi})
  }

  function PrepareEvent(s: Network, c: Cast, r: nat, i: nat): Event
    requires i < |s|
  {
    if i == c.hub then Sends else if i == c.other && r + 1 < c.count / 2 then IdleEvent(s[i]) else Hears(c.hub)
  }

  function PrepareEvents(s: Network, c: Cast, r: nat): (es: seq<Event>)
    ensures |es| == |s|
  {
    seq(|s|, i requires 0 <= i < |s| => PrepareEvent(s, c, r, i))
  }

  lemma PrepareAllowed(s: Network, c: Cast, r: nat)
    requires ValidCast(c) && |s| == c.count && s[c.hub].radio.state == Send
    requires forall i :: 0 <= i < |s| && i != c.hub ==> s[i].radio.state == Listen
    ensures Allowed(s, Draws(PrepareEvents(s, c, r)))
  {
  }

  lemma PrepareSlot(s: Network, c: Cast, a: nat, b: nat, r: nat)
    requires ValidCast(c) && AtPreparer(s, c, a, b, r) && r < c.count / 2
    ensures Allowed(s, Draws(PrepareEvents(s, c, r)))
    ensures AtRepliers(Slot(s, Draws(PrepareEvents(s, c, r))), c, a, b, r)
  {
    hide Slot, Draws, Prepares, Replied, Ready, Unaware, PrepareEvents, Seen, Ballot;
    PrepareAllowed(s, c, r);
    var t := Slot(s, Draws(PrepareEvents(s, c, r)));
    forall i | 0 <= i < |s|
      ensures t[i].me == i && t[i].count == |s| && Calm(t[i])
      ensures i == c.hub ==> t[i].radio.state == Listen && Prepares(t[i], Ballot(1, c.lo), a, a, Seen(c, r))
      ensures i == c.other ==> OtherAfter(t[i], c, a, b, r)
      ensures i != c.hub && i != c.other ==> Replied(t[i], Ballot(1, c.lo), a, Seen(c, r)) && AboutToSend(t[i], c, r)
    {
      hide *;
      PrepareSlotNode(s, c, a, b, r, i);
    }
  }

  lemma PrepareSlotNode(s: Network, c: Cast, a: nat, b: nat, r: nat, i: nat)
    requires ValidCast(c) && AtPreparer(s, c, a, b, r) && r < c.count / 2 && i < |s|
    requires Allowed(s, Draws(PrepareEvents(s, c, r)))
    ensures var n := Slot(s, Draws(PrepareEvents(s, c, r)))[i];
            && n.me == i && n.count == |s| && Calm(n)
            && (i == c.hub ==> n.radio.state == Listen && Prepares(n, Ballot(1, c.lo), a, a, Seen(c, r)))
            && (i == c.other ==> OtherAfter(n, c, a, b, r))
            && (i != c.hub && i != c.other ==> Replied(n, Ballot(1, c.lo), a, Seen(c, r)) && AboutToSend(n, c, r))
  {
    hide Hear, Sent, Idle, Slot, Prepares, Replied, Ready, Unaware, SameState, Draws, Seen, Calm, Ballot;
    SeenGrows(c, r);
    Ballots(c);
    EventIs(s, PrepareEvents(s, c, r), i);
    PreparerPacket(s[c.hub], Ballot(1, c.lo), a, a, Seen(c, r));
    if i == c.hub {
      PreparerSends(s[i], Ballot(1, c.lo), a, a, Seen(c, r));
    } else if i == c.other {
      if r + 1 < c.count / 2 {
        MuteIdles(s[i]);
        SameReady(s[i], Idle(s[i]), Ballot(1, c.hi), b);
      } else {
        ChallengerStarts(s[i], Ballot(1, c.hi), b, Ballot(1, c.lo), a, Seen(c, r));
      }
    } else {
      RepliesToHub(s, c, a, b, r, i);
    }
  }

  lemma Ballots(c: Cast)
    requires ValidCast(c)
    ensures 0 < Ballot(1, c.lo) < Ballot(1, c.hi)
  {
  }

  lemma PreparerPacket(n: Node, b: nat, v: nat, w: nat, s: set<nat>)
    requires Prepares(n, b, v, w, s)
    ensures n.tx == Packet(b, PREPARE, w, 0, s)
  {
  }

  lemma SameReady(n: Node, r: Node, b: nat, v: nat)
    requires SameState(n, r) && Ready(n, b, v)
    ensures Ready(r, b, v) && r.me == n.me && r.count == n.count
  {
  }

  lemma RepliesToHub(s: Network, c: Cast, a: nat, b: nat, r: nat, i: nat)
    requires ValidCast(c) && AtPreparer(s, c, a, b, r) && i < |s| && i != c.hub && i != c.other
    ensures var t := Hear(s[i], Packet(Ballot(1, c.lo), PREPARE, a, 0, Seen(c, r)));
            t.me == i && t.count == |s| && Calm(t) && Replied(t, Ballot(1, c.lo), a, Seen(c, r)) && AboutToSend(t, c, r)
  {
    hide Hear, Ballot;
    Ballots(c);
    if r == 0 {
      FollowerReplies(s[i], Ballot(1, c.lo), a, Seen(c, r), {});
    } else {
      SeenGrows(c, r - 1);
      NothingNew(c, r, i);
      FollowerReplies(s[i], Ballot(1, c.lo), a, Seen(c, r), Seen(c, r - 1));
    }
  }

  function ReplyEvent(s: Network, c: Cast, f: nat, i: nat): Event
    requires i < |s|
  {
    if i == c.hub then Hears(f) else if s[i].radio.state == Send then Sends else Silence
  }

  function ReplyEvents(s: Network, c: Cast, f: nat): (es: seq<Event>)
    ensures |es| == |s|
  {
    seq(|s|, i requires 0 <= i < |s| => ReplyEvent(s, c, f, i))
  }

  lemma RepliesAllowed(s: Network, c: Cast, f: nat)
    requires ValidCast(c) && |s| == c.count && s[c.hub].radio.state == Listen
    requires forall i :: 0 <= i < |s| && i != c.hub ==> Awake(s[i])
    requires f < |s| && f != c.hub && s[f].radio.state == Send
    ensures Allowed(s, Draws(ReplyEvents(s, c, f)))
  {
  }

  /** The followers send and the preparer hears the next one; with the last one both
      proposers have a majority of flags and open. */
  lemma ReplySlot(s: Network, c: Cast, a: nat, b: nat, r: nat)
    requires ValidCast(c) && AtRepliers(s, c, a, b, r) && r < c.count / 2
    ensures var f := Helper(c.lo, c.hi, r); f < |s| && Allowed(s, Draws(ReplyEvents(s, c, f)))
    ensures var t := Slot(s, Draws(ReplyEvents(s, c, Helper(c.lo, c.hi, r))));
            && (r + 1 < c.count / 2 ==> AtPreparer(t, c, a, b, r + 1))
            && (r + 1 == c.count / 2 ==>
                  AtHub(t, c, Ballot(1, c.lo), a, 0) && Collects(t[c.other], Ballot(1, c.hi), b, {c.hi}))
  {
    hide Slot, Draws, Prepares, Replied, Ready, Collects, Before, Unaware, ReplyEvents, Ballot;
    var f := Helper(c.lo, c.hi, r);
    HelperExists(c, r);
    assert AboutToSend(s[f], c, r) && s[f].radio.state == Send;
    RepliesAllowed(s, c, f);
    var t := Slot(s, Draws(ReplyEvents(s, c, f)));
    forall i | 0 <= i < |s|
      ensures t[i].me == i && t[i].count == |s| && Calm(t[i])
      ensures i == c.hub ==> t[i].radio.state == Send && PreparerAfter(t[i], c, a, r + 1)
      ensures i == c.other ==> ChallengerAfter(t[i], c, b, r + 1)
      ensures i != c.hub && i != c.other ==> t[i].radio.state == Listen && Replied(t[i], Ballot(1, c.lo), a, Seen(c, r))
      ensures i != c.hub && i != c.other ==> Before(t[i], Ballot(1, c.lo))
    {
      hide *;
      ReplySlotNode(s, c, a, b, r, i);
    }
  }

  ghost predicate PreparerAfter(n: Node, c: Cast, a: nat, r: nat)
    requires ValidCast(c)
  {
    if r < c.count / 2 then Prepares(n, Ballot(1, c.lo), a, a, Seen(c, r)) else Collects(n, Ballot(1, c.lo), a, {c.lo})
  }

  ghost predicate ChallengerAfter(n: Node, c: Cast, b: nat, r: nat)
    requires ValidCast(c)
  {
    n.radio.state == Listen &&
    if r < c.count / 2 then !n.radio.synced && Ready(n, Ballot(1, c.hi), b) else Collects(n, Ballot(1, c.hi), b, {c.hi})
  }

  lemma ReplySlotNode(s: Network, c: Cast, a: nat, b: nat, r: nat, i: nat)
    requires ValidCast(c) && AtRepliers(s, c, a, b, r) && r < c.count / 2 && i < |s|
    requires Helper(c.lo, c.hi, r) < |s| && Allowed(s, Draws(ReplyEvents(s, c, Helper(c.lo, c.hi, r))))
    ensures var n := Slot(s, Draws(ReplyEvents(s, c, Helper(c.lo, c.hi, r))))[i];
            && n.me == i && n.count == |s| && Calm(n)
            && (i == c.hub ==> n.radio.state == Send && PreparerAfter(n, c, a, r + 1))
            && (i == c.other ==> ChallengerAfter(n, c, b, r + 1))
            && (i != c.hub && i != c.other ==>
                  n.radio.state == Listen && Replied(n, Ballot(1, c.lo), a, Seen(c, r)) && Before(n, Ballot(1, c.lo)))
  {
    hide Hear, Sent, Idle, Slot, Prepares, Replied, Ready, Collects, Before, SameState, Draws, Calm, Ballot;
    var f, low, high := Helper(c.lo, c.hi, r), Ballot(1, c.lo), Ballot(1, c.hi);
    SeenGrows(c, r);
    HelperExists(c, r);
    EventIs(s, ReplyEvents(s, c, f), i);
    if i == c.hub {
      ReplierPacket(s[f], low, a, Seen(c, r));
      PreparerHears(s[i], low, a, Seen(c, r), f);
    } else if i == c.other {
      if r + 1 < c.count / 2 {
        MuteIdles(s[i]);
        SameReady(s[i], Idle(s[i]), high, b);
      } else {
        assert |Seen(c, r) + {c.hi}| == r + 2;
        PreparerSends(s[i], high, b, a, Seen(c, r) + {c.hi});
      }
    } else {
      ReplierRests(s[i], low, a, Seen(c, r), c, r);
    }
  }

  lemma ReplierPacket(n: Node, b: nat, v: nat, s: set<nat>)
    requires Replied(n, b, v, s)
    ensures n.tx == Packet(b, PREPARE, v, 0, s + {n.me})
  {
  }

  lemma ReplierRests(n: Node, b: nat, v: nat, s: set<nat>, c: Cast, r: nat)
    requires ValidCast(c) && Replied(n, b, v, s) && Calm(n) && AboutToSend(n, c, r)
    ensures var t := if n.radio.state == Send then Sent(n) else Idle(n);
            t.me == n.me && t.count == n.count && Calm(t) && Replied(t, b, v, s) && Before(t, b) && t.radio.state == Listen
  {
    hide Sent, Idle;
    if n.radio.state == Send { FollowerSends(n); } else { NodeIdles(n); }
  }

  lemma {:induction false} PrepareStage(u: Setup, k: nat, s: Network, c: Cast, a: nat, b: nat, r: nat) returns (t: Network)
    requires ValidCast(c) && Reaches(u, k, s) && AtPreparer(s, c, a, b, r) && r < c.count / 2
    requires k + 2 * (c.count / 2 - r) <= u.slots
    ensures Reaches(u, k + 2 * (c.count / 2 - r), t) && AtHub(t, c, Ballot(1, c.lo), a, 0)
    ensures c.other < |t| && Collects(t[c.other], Ballot(1, c.hi), b, {c.hi})
    decreases c.count - r
  {
    hide Reaches, AtPreparer, AtRepliers, Slot, Draws, PrepareEvents, ReplyEvents, Collects, Ballot;
    PrepareSlot(s, c, a, b, r);
    var m := Slot(s, Draws(PrepareEvents(s, c, r)));
    ReachesSlot(u, k, s, Draws(PrepareEvents(s, c, r)));
    ReplySlot(m, c, a, b, r);
    var es := ReplyEvents(m, c, Helper(c.lo, c.hi, r));
    t := Slot(m, Draws(es));
    ReachesSlot(u, k + 1, m, Draws(es));
    if r + 1 < c.count / 2 {
      t := PrepareStage(u, k + 2, t, c, a, b, r + 1);
    }
  }

  // ------------------------------------------------------------------
  // From one hub to the other
  // ------------------------------------------------------------------

  function TurnEvent(s: Network, c: Cast, i: nat): Event
    requires i < |s|
  {
    if i == c.hub then Sends
    else if i == c.other && s[i].radio.state == Listen then Hears(c.hub)
    else IdleEvent(s[i])
  }

  function TurnEvents(s: Network, c: Cast): (es: seq<Event>)
    ensures |es| == |s|
  {
    seq(|s|, i requires 0 <= i < |s| => TurnEvent(s, c, i))
  }

  function Turned(c: Cast): (d: Cast)
    requires ValidCast(c)
    ensures ValidCast(d)
  {
    c.(hub := c.other, other := c.hub)
  }

  lemma TurnAllowed(s: Network, c: Cast)
    requires ValidCast(c) && |s| == c.count && s[c.hub].radio.state == Send && Awake(s[c.other])
    requires forall i :: 0 <= i < |s| && i != c.hub && i != c.other ==> s[i].radio.state == Listen
    ensures Allowed(s, Draws(TurnEvents(s, c)))
  {
  }

  /** The winner sends once more, heard only by the other proposer, which now sends. */
  lemma TurnSlot(s: Network, c: Cast, a: nat, b: nat)
    requires ValidCast(c) && c.hub == c.lo && Finished(s, c, Ballot(1, c.lo), a)
    requires Collects(s[c.other], Ballot(1, c.hi), b, {c.hi})
    ensures Allowed(s, Draws(TurnEvents(s, c)))
    ensures var t := Slot(s, Draws(TurnEvents(s, c)));
            AtHub(t, Turned(c), Ballot(1, c.hi), b, 0) && t[c.lo].learner == Learner(a, true)
  {
    hide Slot, Draws, Collects, Accepts, Before, Wins, TurnEvents, Ballot;
    TurnAllowed(s, c);
    var t := Slot(s, Draws(TurnEvents(s, c)));
    forall i | 0 <= i < |s|
      ensures t[i].me == i && t[i].count == |s| && Calm(t[i])
      ensures i == c.hub ==> t[i].radio.state == Listen && t[i].learner == Learner(a, true)
      ensures i == c.other ==> t[i].radio.state == Send && Collects(t[i], Ballot(1, c.hi), b, {c.hi})
      ensures i != c.hub && i != c.other ==> t[i].radio.state == Listen && Before(t[i], Ballot(1, c.hi))
    {
      hide *;
      TurnSlotNode(s, c, a, b, i);
    }
  }

  lemma TurnSlotNode(s: Network, c: Cast, a: nat, b: nat, i: nat)
    requires ValidCast(c) && c.hub == c.lo && Finished(s, c, Ballot(1, c.lo), a) && i < |s|
    requires Collects(s[c.other], Ballot(1, c.hi), b, {c.hi}) && Allowed(s, Draws(TurnEvents(s, c)))
    ensures var n := Slot(s, Draws(TurnEvents(s, c)))[i];
            && n.me == i && n.count == |s| && Calm(n)
            && (i == c.hub ==> n.radio.state == Listen && n.learner == Learner(a, true))
            && (i == c.other ==> n.radio.state == Send && Collects(n, Ballot(1, c.hi), b, {c.hi}))
            && (i != c.hub && i != c.other ==> n.radio.state == Listen && Before(n, Ballot(1, c.hi)))
  {
    hide Hear, Sent, Idle, Slot, Collects, Accepts, Before, Wins, Draws, Calm, Ballot, Seen;
    var low, high := Ballot(1, c.lo), Ballot(1, c.hi);
    Ballots(c);
    SeenGrows(c, c.count / 2);
    EventIs(s, TurnEvents(s, c), i);
    WinnerPacket(s[c.hub], low, a, Seen(c, c.count / 2));
    if i == c.hub {
      WinnerSends(s[i], low, a, Seen(c, c.count / 2), c.other);
    } else if i == c.other {
      if s[i].radio.state == Listen {
        OlderMakesSend(s[i], high, b, {c.hi}, s[c.hub].tx);
      } else {
        NodeIdles(s[i]);
        SameCollects(s[i], Idle(s[i]), high, b, {c.hi});
      }
    } else {
      NodeIdles(s[i]);
      VoterBefore(s[i], Idle(s[i]), low, a, Seen(c, c.count / 2 - 1), high);
    }
  }

  lemma WinnerPacket(n: Node, b: nat, v: nat, s: set<nat>)
    requires Wins(n, b, v, s)
    ensures n.tx.ballot == b
  {
  }

  lemma SameCollects(n: Node, r: Node, b: nat, v: nat, s: set<nat>)
    requires SameState(n, r) && Collects(n, b, v, s)
    ensures Collects(r, b, v, s) && r.me == n.me && r.count == n.count
  {
  }

  lemma VoterBefore(n: Node, r: Node, b: nat, v: nat, s: set<nat>, high: nat)
    requires SameState(n, r) && Accepts(n, b, v, s) && b < high
    ensures Before(r, high) && r.me == n.me && r.count == n.count
  {
  }

  // ------------------------------------------------------------------
  // The start
  // ------------------------------------------------------------------

  lemma BeginRoles(u: Setup, lo: nat, hi: nat, i: nat)
    requires ValidSetup(u) && TwoProposers(u, lo, hi) && i < |u.roles| && u.initiator != hi
    ensures var n := Begin(u)[i];
            && n.me == i && n.count == |u.roles| && Calm(n)
            && n.radio.state == (if i == u.initiator then Send else Listen) && n.radio.synced == (i == u.initiator)
            && (i == hi ==> Ready(n, Ballot(1, hi), u.roles[hi].value))
            && (i == lo && u.initiator == lo ==> Prepares(n, Ballot(1, lo), u.roles[lo].value, u.roles[lo].value, {lo}))
            && (i == lo && u.initiator != lo ==> Ready(n, Ballot(1, lo), u.roles[lo].value))
            && (i != lo && i != hi ==> Unaware(n, Ballot(1, lo)) && n.tx.phase == INIT)
  {
    assert Begin(u)[i] == Fresh(i, |u.roles|, WaitOf(u.slots), u.roles[i], i == u.initiator, u.thresholds[i]);
    assert IsThreshold(u.thresholds[i]);
  }

  function WakeEvent(u: Setup, lo: nat, i: nat): Event
  {
    if i == u.initiator then Sends else if i == lo then Hears(u.initiator) else Silence
  }

  function WakeEvents(u: Setup, lo: nat): (es: seq<Event>)
    ensures |es| == |u.roles|
  {
    seq(|u.roles|, i requires 0 <= i < |u.roles| => WakeEvent(u, lo, i))
  }

  lemma WakeAllowed(u: Setup, lo: nat, hi: nat)
    requires ValidSetup(u) && TwoProposers(u, lo, hi) && u.initiator != hi && u.initiator != lo
    ensures Allowed(Begin(u), Draws(WakeEvents(u, lo)))
  {
    hide Ready, Unaware, Prepares, Calm;
    forall i | 0 <= i < |u.roles|
      ensures Possible(Begin(u), Draws(WakeEvents(u, lo)), i)
    {
      BeginRoles(u, lo, hi, i);
      BeginRoles(u, lo, hi, u.initiator);
    }
  }

  lemma WakeSlotNode(u: Setup, lo: nat, hi: nat, i: nat)
    requires ValidSetup(u) && TwoProposers(u, lo, hi) && u.initiator != hi && u.initiator != lo && i < |u.roles|
    requires Allowed(Begin(u), Draws(WakeEvents(u, lo)))
    ensures var n, a, b := Slot(Begin(u), Draws(WakeEvents(u, lo)))[i], u.roles[lo].value, u.roles[hi].value;
            && n.me == i && n.count == |u.roles| && Calm(n)
            && (i == lo ==> n.radio.state == Send && Prepares(n, Ballot(1, lo), a, a, {lo}))
            && (i == hi ==> n.radio.state == Listen && !n.radio.synced && Ready(n, Ballot(1, hi), b))
            && (i != lo && i != hi ==> n.radio.state == Listen && Unaware(n, Ballot(1, lo)))
  {
    hide Hear, Sent, Idle, Slot, Draws, Ready, Prepares, Ballot, Begin, Calm;
    var s := Begin(u);
    BeginRoles(u, lo, hi, i);
    BeginRoles(u, lo, hi, u.initiator);
    EventIs(s, WakeEvents(u, lo), i);
    if i == lo {
      HeartbeatStarts(s[i], Ballot(1, lo), u.roles[lo].value, s[u.initiator].tx);
    } else if i == u.initiator {
      FollowerSends(s[i]);
    } else {
      MuteIdles(s[i]);
      if i == hi { SameReady(s[i], Idle(s[i]), Ballot(1, hi), u.roles[hi].value); }
    }
  }

  /** Every such round can get to the first PREPARE of the lower ballot: at once if its
      proposer initiates, after one heartbeat if a follower does. */
  lemma Wake(u: Setup, lo: nat, hi: nat) returns (k: nat, s: Network)
    requires ValidSetup(u) && TwoProposers(u, lo, hi) && |u.roles| >= 3 && u.initiator != hi
    ensures k <= 1 && Reaches(u, k, s)
    ensures AtPreparer(s, Cast(lo, hi, lo, hi, |u.roles|), u.roles[lo].value, u.roles[hi].value, 0)
  {
    hide Ready, Unaware, Prepares, Slot, Draws, Ballot, Begin, Reaches;
    ReachesBegin(u);
    if u.initiator == lo {
      k, s := 0, Begin(u);
      forall i | 0 <= i < |u.roles|
        ensures s[i].me == i && s[i].count == |u.roles| && Calm(s[i])
        ensures i == lo ==> s[i].radio.state == Send && Prepares(s[i], Ballot(1, lo), u.roles[lo].value, u.roles[lo].value, {lo})
        ensures i == hi ==> s[i].radio.state == Listen && !s[i].radio.synced && Ready(s[i], Ballot(1, hi), u.roles[hi].value)
        ensures i != lo && i != hi ==> s[i].radio.state == Listen && Unaware(s[i], Ballot(1, lo))
      {
        BeginRoles(u, lo, hi, i);
      }
    } else {
      WakeAllowed(u, lo, hi);
      ReachesSlot(u, 0, Begin(u), Draws(WakeEvents(u, lo)));
      k, s := 1, Slot(Begin(u), Draws(WakeEvents(u, lo)));
      forall i | 0 <= i < |u.roles|
        ensures s[i].me == i && s[i].count == |u.roles| && Calm(s[i])
        ensures i == lo ==> s[i].radio.state == Send && Prepares(s[i], Ballot(1, lo), u.roles[lo].value, u.roles[lo].value, {lo})
        ensures i == hi ==> s[i].radio.state == Listen && !s[i].radio.synced && Ready(s[i], Ballot(1, hi), u.roles[hi].value)
        ensures i != lo && i != hi ==> s[i].radio.state == Listen && Unaware(s[i], Ballot(1, lo))
      {
        WakeSlotNode(u, lo, hi, i);
      }
    }
  }

  // ------------------------------------------------------------------
  // Agreement
  // ------------------------------------------------------------------

  /** The round up to the lower ballot's majority of votes. */
  lemma FirstHalf(u: Setup, lo: nat, hi: nat, c: Cast, a: nat, b: nat) returns (k: nat, s: Network)
    requires ValidSetup(u) && TwoProposers(u, lo, hi) && |u.roles| >= 3 && u.initiator != hi
    requires c == Cast(lo, hi, lo, hi, |u.roles|) && ValidCast(c) && 4 * (c.count / 2) + 1 <= u.slots
    requires u.roles[lo] == Proposes(a) && u.roles[hi] == Proposes(b)
    ensures k <= 4 * (c.count / 2) + 1 && Reaches(u, k, s) && Finished(s, c, Ballot(1, lo), a)
    ensures hi < |s| && Collects(s[hi], Ballot(1, hi), b, {hi})
  {
    hide *;
    TurnedCast(c);
    var k0, s0 := Wake(u, lo, hi);
    var s1 := PrepareStage(u, k0, s0, c, a, b, 0);
    s := AcceptStage(u, k0 + 2 * (c.count / 2), s1, c, Ballot(1, lo), a, 0);
    k := k0 + 4 * (c.count / 2);
    HubSize(s1, c, Ballot(1, lo), a);
    FinishedFacts(s, c, Ballot(1, lo), a);
    SameCollects(s1[hi], s[hi], Ballot(1, hi), b, {hi});
  }

  /** From there to the higher ballot's majority of votes. */
  lemma SecondHalf(u: Setup, c: Cast, k: nat, s: Network, a: nat, b: nat) returns (t: Network)
    requires ValidCast(c) && c.hub == c.lo && Reaches(u, k, s) && k + 1 + 2 * (c.count / 2) <= u.slots
    requires Finished(s, c, Ballot(1, c.lo), a) && c.hi < |s| && Collects(s[c.hi], Ballot(1, c.hi), b, {c.hi})
    ensures Reaches(u, k + 1 + 2 * (c.count / 2), t) && Splits(t, c.lo, c.hi, a, b)
  {
    hide *;
    TurnedCast(c);
    TurnSlot(s, c, a, b);
    var m := Slot(s, Draws(TurnEvents(s, c)));
    ReachesSlot(u, k, s, Draws(TurnEvents(s, c)));
    t := AcceptStage(u, k + 1, m, Turned(c), Ballot(1, c.hi), b, 0);
    HubSize(m, Turned(c), Ballot(1, c.hi), b);
    FinishedFacts(t, Turned(c), Ballot(1, c.hi), b);
    SameLearner(m[c.lo], t[c.lo]);
    SplitsIntro(t, c.lo, c.hi, a, b);
  }

  /** Unless the proposer with the higher index initiates, some round ends with each
      proposer having learned the value it was given. */
  lemma CompetitionSplits(u: Setup, lo: nat, hi: nat) returns (k: nat, s: Network)
    requires ValidSetup(u) && TwoProposers(u, lo, hi) && |u.roles| >= 3 && u.initiator != hi
    requires 6 * (|u.roles| / 2) + 2 <= u.slots
    ensures Reaches(u, k, s) && Splits(s, lo, hi, u.roles[lo].value, u.roles[hi].value)
  {
    var c, a, b := Cast(lo, hi, lo, hi, |u.roles|), u.roles[lo].value, u.roles[hi].value;
    CastIsValid(u, lo, hi);
    hide *;
    var k1, s1 := FirstHalf(u, lo, hi, c, a, b);
    s := SecondHalf(u, c, k1, s1, a, b);
    k := k1 + 1 + 2 * (c.count / 2);
  }

  lemma CastIsValid(u: Setup, lo: nat, hi: nat)
    requires ValidSetup(u) && TwoProposers(u, lo, hi) && |u.roles| >= 3
    ensures ValidCast(Cast(lo, hi, lo, hi, |u.roles|)) && lo < 256 && hi < 256
  {
  }

  lemma TurnedCast(c: Cast)
    requires ValidCast(c)
    ensures Turned(c) == c.(hub := c.other, other := c.hub) && (c.hub == c.lo ==> c.other == c.hi)
    ensures c.lo < 256 && c.hi < 256 && c.count >= 3
  {
  }

  lemma HubSize(s: Network, c: Cast, b: nat, v: nat)
    requires ValidCast(c) && AtHub(s, c, b, v, 0)
    ensures |s| == c.count && c.hub < |s| && c.other < |s|
  {
  }

  lemma FinishedFacts(s: Network, c: Cast, b: nat, v: nat)
    requires ValidCast(c) && Finished(s, c, b, v)
    ensures |s| == c.count && c.hub < |s| && c.other < |s| && s[c.hub].learner == Learner(v, true)
  {
  }

  lemma SameLearner(n: Node, r: Node)
    requires SameState(n, r)
    ensures r.learner == n.learner
  {
  }

  lemma SplitsIntro(s: Network, lo: nat, hi: nat, a: nat, b: nat)
    requires lo < |s| && hi < |s| && s[lo].learner == Learner(a, true) && s[hi].learner == Learner(b, true)
    ensures Splits(s, lo, hi, a, b)
  {
  }

  /** Each of the two proposers has learned the value it was given. */
  predicate Splits(s: Network, lo: nat, hi: nat, a: nat, b: nat)
  {
    lo < |s| && hi < |s| && s[lo].learner == Learner(a, true) && s[hi].learner == Learner(b, true)
  }

  /** When two proposers agree, in a network of three or more and a round that is long
      enough to collect three majorities one by one, in a build in which no loser tries
      again:
      all rounds agree if and only if both were given the same value or the one with
      the higher index initiates. */
  lemma AgreementIff(u: Setup, lo: nat, hi: nat)
    requires ValidSetup(u) && TwoProposers(u, lo, hi) && |u.roles| >= 3
    requires 6 * (|u.roles| / 2) + 2 <= u.slots && NeverAgain(u.slots)
    ensures (forall run, choices :: IsRound(u, run, choices) ==> Agrees(run)) <==>
              u.roles[lo] == u.roles[hi] || u.initiator == hi
  {
    if u.roles[lo] == u.roles[hi] || u.initiator == hi {
      assert ContendersAlike(u);
      forall run, choices | IsRound(u, run, choices)
        ensures Agrees(run)
      {
        WholeRound(u, run, choices, |choices|);
        ContendersAgree(u, run, choices);
      }
    } else {
      var k, s := CompetitionSplits(u, lo, hi);
      var run, choices :| IsRound(u, run, choices) && |choices| == k && run[k] == s;
      DisagreesAt(run, k, lo, hi);
    }
  }

  lemma DisagreesAt(run: seq<Network>, k: nat, i: nat, j: nat)
    requires k < |run| && i < |run[k]| && j < |run[k]|
    requires run[k][i].learner.chosen && run[k][j].learner.chosen && run[k][i].learner.value != run[k][j].learner.value
    ensures !Agrees(run)
  {
  }

  // ------------------------------------------------------------------
  // The reasons
  // ------------------------------------------------------------------

  /** Whatever a node has accepted, its reply to a new PREPARE says just what the
      packet said. */
  lemma PrepareReplyIsSilent(n: Node, p: Packet, keep: bool)
    requires p.phase == PREPARE && p.ballot > n.tx.ballot
    ensures var r := AcceptorStep(n, p, false, keep);
            r.tx == p.(flags := p.flags + {n.me}) && r.acceptor.minProposal >= p.ballot
  {
    hide ChaosFlags.AllSet;
  }

  /** A proposer that starts late takes over the replies to another ballot. */
  lemma LateStartKeepsFlags(n: Node, p: Packet, keep: bool)
    requires n.proposer.active && n.proposer.phase == INIT && !n.proposer.gotMajority && n.proposer.loserTimeout == 0
    requires p.phase == PREPARE && n.tx.ballot < p.ballot < n.proposer.ballot
    ensures var r := OnPacket(n, p, false, keep);
            r.tx == Packet(n.proposer.ballot, PREPARE, p.value, p.proposal, p.flags + {n.me})
  {
    PrepareReplyIsSilent(n, p, keep);
    AcceptorDoes(n, p, false, keep);
    hide AcceptorStep;
  }

  /** Nor does a relay pass on a report: hearing one that is at least as high as
      what it has heard, it merges the flags and goes on sending its old report. */
  lemma RelayDropsReport(n: Node, p: Packet, keep: bool)
    requires p.phase == n.tx.phase == PREPARE && p.ballot == n.tx.ballot && p.proposal >= n.rx.acceptedProposal
    ensures var r := AcceptorStep(n, p, false, keep);
            && r.tx == n.tx.(flags := n.tx.flags + p.flags + {n.me})
            && r.rx.acceptedProposal == p.proposal && r.rx.acceptedValue == p.value
  {
    hide ChaosFlags.AllSet;
  }
}
