/** Progress of two-phase commit in the air: when the initiator decides, from which states
    a round can still bring every node to the decision, and from which it can still let
    every node see its completion.
 */
module TwoPhaseProgress {
  import ChaosFlags
  import opened TwoPhaseCommit

  // ------------------------------------------------------------------
  // What a packet does, told by its effect
  // ------------------------------------------------------------------

  predicate Decided(n: Node)
  {
    n.tx.phase != PROPOSE
  }

  predicate On(n: Node)
  {
    n.radio.state != Off
  }

  predicate SameEnd(n: Node, r: Node)
  {
    r.radio.complete == n.radio.complete && r.radio.progress == n.radio.progress
  }

  /** Node `n` hears `p` and becomes `r`, its radio's turn left aside. */
  ghost predicate Heeds(n: Node, p: Packet, r: Node)
  {
    var flags := n.tx.flags + p.flags;
    && r.me == n.me && r.count == n.count && r.initiator == n.initiator && r.synced
    && r.agree == (if n.synced then n.agree else n.tx.value == p.value)
    && (n.tx.phase < p.phase ==> r.tx.phase == p.phase && r.tx.flags == p.flags + {n.me} && SameEnd(n, r))
    && (n.tx.phase > p.phase ==> r.tx.phase == n.tx.phase && r.tx.flags == n.tx.flags && SameEnd(n, r))
    && (n.tx.phase == p.phase == PROPOSE ==>
         && SameEnd(n, r)
         && if n.initiator && ChaosFlags.AllSet(flags, n.count) then (r.tx.phase == COMMIT || r.tx.phase == ABORT) && r.tx.flags == {n.me}
            else r.tx.phase == PROPOSE && r.tx.flags == flags)
    && (n.tx.phase == p.phase != PROPOSE ==>
         && r.tx.phase == n.tx.phase && r.tx.flags == flags
         && r.radio.complete == (n.radio.complete || ChaosFlags.AllSet(flags, n.count))
         && r.radio.progress == (n.radio.progress || (ChaosFlags.AllSet(flags, n.count) && ChaosFlags.AllSet(p.flags, n.count))))
  }

  /** A slot in which `n` hears nothing. */
  ghost predicate Rests(n: Node, r: Node)
  {
    && r == n.(radio := r.radio, didTx := r.didTx) && SameEnd(n, r)
    && (!On(n) ==> !On(r)) && (On(n) && !n.radio.progress ==> On(r))
  }

  predicate IsPhase(phase: nat)
  {
    phase == PROPOSE || phase == COMMIT || phase == ABORT
  }

  lemma PacketHeeds(n: Node, p: Packet)
    requires IsPhase(n.tx.phase)
    ensures Heeds(n, p, OnPacket(n, p))
  {
    hide ChaosFlags.AllSet;
  }

  lemma SettleLeaves(n: Node, heard: bool, threshold: nat, crash: bool)
    ensures var r := Settle(n, heard, threshold, crash); r == n.(radio := r.radio, didTx := r.didTx) && SameEnd(n, r)
    ensures var r := Settle(n, heard, threshold, crash);
            !crash && (n.radio.state == Listen || (n.radio.state == Send && !n.radio.progress)) ==> On(r)
  {
  }

  predicate Hears(s: Network, c: seq<Choice>, i: nat)
    requires i < |s| == |c|
  {
    s[i].radio.state == Listen && c[i].hears && c[i].from < |s|
  }

  lemma NextHeeds(s: Network, c: seq<Choice>, i: nat)
    requires Allowed(s, c) && i < |s| && IsPhase(s[i].tx.phase)
    ensures var r := Next(s, c, i); if Hears(s, c, i) then Heeds(s[i], s[c[i].from].tx, r) else
              r == s[i].(radio := r.radio, didTx := r.didTx) && SameEnd(s[i], r) && (!c[i].crash ==> Rests(s[i], r))
    ensures Hears(s, c, i) && !c[i].crash ==> On(Next(s, c, i))
  {
    var n := s[i];
    hide ChaosFlags.AllSet;
    if Hears(s, c, i) {
      var p := s[c[i].from].tx;
      PacketHeeds(n, p);
      PacketKeepsRadio(n, p);
      SettleLeaves(OnPacket(n, p), c[i].hears, c[i].threshold, c[i].crash);
    } else if On(n) {
      SettleLeaves(n, c[i].hears, c[i].threshold, c[i].crash);
    }
    hide OnPacket, Settle;
  }

  // ------------------------------------------------------------------
  // What every round keeps besides
  // ------------------------------------------------------------------

  /** The radio's counters, and the initiator's flags: it has all of them only in
      completion. */
  ghost predicate Sound(n: Node)
  {
    && IsPhase(n.tx.phase) && IsThreshold(n.radio.threshold) && n.radio.missed <= n.radio.threshold
    && (n.radio.progress ==> n.radio.complete)
    && (n.initiator && n.count > 1 && !n.radio.complete ==> !ChaosFlags.AllSet(n.tx.flags, n.count))
  }

  ghost predicate AllSound(s: Network)
  {
    forall i :: 0 <= i < |s| ==> Sound(s[i])
  }

  lemma OneIsNotAll(i: nat, n: nat)
    requires i < n && n > 1
    ensures !ChaosFlags.AllSet({i}, n)
  {
    var other, flags := if i == 0 then 1 else 0, {i};
    assert !(other in flags);
  }

  lemma HeedsSound(n: Node, p: Packet, r: Node)
    requires Sound(n) && Heeds(n, p, r) && IsPhase(p.phase) && IsThreshold(r.radio.threshold) && r.radio.missed <= r.radio.threshold
    requires n.initiator ==> p.phase <= n.tx.phase && n.me < n.count
    ensures Sound(r)
  {
    hide ChaosFlags.AllSet;
    if n.initiator && n.count > 1 { OneIsNotAll(n.me, n.count); }
  }

  lemma RadioCounts(s: Network, c: seq<Choice>, i: nat)
    requires Allowed(s, c) && i < |s| && Sound(s[i])
    ensures var r := Next(s, c, i).radio; IsThreshold(r.threshold) && r.missed <= r.threshold
  {
    assert IsThreshold(c[i].threshold);
    hide ChaosFlags.AllSet, OnPacket;
    if Hears(s, c, i) { PacketKeepsCount(s[i], s[c[i].from].tx); }
  }

  lemma PacketKeepsCount(n: Node, p: Packet)
    ensures var r := OnPacket(n, p).radio; r.state == n.radio.state && r.missed == n.radio.missed && r.threshold == n.radio.threshold
  {
    hide ChaosFlags.AllSet;
  }

  lemma SlotSound(u: Setup, s: Network, c: seq<Choice>)
    requires ValidSetup(u) && Joint(u, s) && AllSound(s) && Allowed(s, c)
    ensures AllSound(Advance(s, c))
  {
    forall i | 0 <= i < |s|
      ensures Sound(Next(s, c, i))
    {
      assert Sound(s[i]) && Steady(u, i, s[i]);
      NextHeeds(s, c, i);
      RadioCounts(s, c, i);
      hide Next, Heeds, ChaosFlags.AllSet;
      if Hears(s, c, i) {
        var j := c[i].from;
        assert Sound(s[j]) && Steady(u, j, s[j]);
        if i == u.initiator && s[j].tx.phase != PROPOSE {
          DecidedIsVoted(u, j, s[j]);
          DecidedIsVoted(u, i, s[i]);
          SamePhase(u, s[i].tx, s[j].tx);
        }
        HeedsSound(s[i], s[j].tx, Next(s, c, i));
      }
    }
  }

  lemma {:induction false} RoundSound(u: Setup, run: seq<Network>, choices: seq<seq<Choice>>, k: nat)
    requires IsRound(u, run, choices) && k < |run|
    ensures AllSound(run[k]) && Joint(u, run[k])
  {
    RoundKeeps(u, run, choices, k);
    if k == 0 {
      forall i | 0 <= i < |u.values|
        ensures Sound(run[0][i])
      {
        assert run[0][i] == Fresh(i, |u.values|, u.values[i], i == u.initiator, u.thresholds[i]);
        if |u.values| > 1 { OneIsNotAll(i, |u.values|); }
      }
    } else {
      RoundSound(u, run, choices, k - 1);
      SlotSound(u, run[k - 1], choices[k - 1]);
    }
  }

  // ------------------------------------------------------------------
  // When the initiator decides
  // ------------------------------------------------------------------

  /** The initiator leaves PROPOSE in the slot in which its flags and those it hears are
      together all nodes, and in no other; to COMMIT if and only if the votes together are
      all nodes. */
  lemma InitiatorDecides(u: Setup, run: seq<Network>, choices: seq<seq<Choice>>, k: nat)
    requires IsRound(u, run, choices) && k < |choices|
    ensures |run[k]| == |choices[k]| == |run[k + 1]| == |u.values|
    ensures var n, c, r := run[k][u.initiator], choices[k][u.initiator], run[k + 1][u.initiator];
            n.tx.phase == PROPOSE ==>
              r.tx.phase ==
                if !Hears(run[k], choices[k], u.initiator) || !ChaosFlags.AllSet(n.tx.flags + run[k][c.from].tx.flags, |u.values|) then PROPOSE
                else if ChaosFlags.AllSet(n.tx.votes + run[k][c.from].tx.votes, |u.values|) then COMMIT
                else ABORT
  {
    RoundSound(u, run, choices, k);
    var s, m := run[k], u.initiator;
    var c := choices[k][m];
    assert Steady(u, m, s[m]) && Allowed(s, choices[k]);
    assert run[k + 1][m] == Next(s, choices[k], m);
    hide ChaosFlags.AllSet, Heeds;
    if Hears(s, choices[k], m) { assert Steady(u, c.from, s[c.from]); }
  }

  lemma PacketSends(n: Node, p: Packet)
    requires IsPhase(n.tx.phase)
    ensures OnPacket(n, p).radio.send == Wants(n, p)
  {
    hide ChaosFlags.AllSet;
  }

  /** What a node sends for after hearing `p`: they are in different phases, their flags
      differ, or all flags are in. */
  predicate Wants(n: Node, p: Packet)
  {
    || n.tx.phase != p.phase || n.tx.flags != p.flags
    || (ChaosFlags.AllSet(n.tx.flags + p.flags, n.count) && (n.initiator || n.tx.phase != PROPOSE))
  }

  lemma NextSends(s: Network, c: seq<Choice>, i: nat)
    requires Allowed(s, c) && i < |s| && IsPhase(s[i].tx.phase) && Hears(s, c, i) && !c[i].crash
    ensures Next(s, c, i).radio.state == if Wants(s[i], s[c[i].from].tx) then Send else Listen
  {
    PacketSends(s[i], s[c[i].from].tx);
    PacketKeepsRadio(s[i], s[c[i].from].tx);
    hide OnPacket, Wants;
  }

  /** A node that has heard a packet sends in the next slot if and only if it wants to. */
  lemma SendsIff(u: Setup, run: seq<Network>, choices: seq<seq<Choice>>, k: nat, i: nat)
    requires IsRound(u, run, choices) && k < |choices| && i < |u.values|
    ensures |run[k]| == |choices[k]| == |run[k + 1]| == |u.values|
    ensures Hears(run[k], choices[k], i) && !choices[k][i].crash ==>
              run[k + 1][i].radio.state == if Wants(run[k][i], run[k][choices[k][i].from].tx) then Send else Listen
  {
    RoundSound(u, run, choices, k);
    var s, c := run[k], choices[k];
    assert Allowed(s, c) && Sound(s[i]) && run[k + 1][i] == Next(s, c, i);
    if Hears(s, c, i) && !c[i].crash { NextSends(s, c, i); }
    hide IsRound, Wants, Next;
  }

  // ------------------------------------------------------------------
  // Continuing a round
  // ------------------------------------------------------------------

  function Last(run: seq<Network>): Network
    requires |run| > 0
  {
    run[|run| - 1]
  }

  /** The second round goes on from the first for at most `slots` slots. */
  ghost predicate Continues(u: Setup, run: seq<Network>, choices: seq<seq<Choice>>, slots: nat, more: seq<Network>, moreChoices: seq<seq<Choice>>)
  {
    && IsRound(u, run, choices) && IsRound(u, more, moreChoices)
    && |choices| <= |moreChoices| <= |choices| + slots
    && more[..|run|] == run && moreChoices[..|choices|] == choices
  }

  lemma ContinuesOn(u: Setup, r1: seq<Network>, c1: seq<seq<Choice>>, x: nat, r2: seq<Network>, c2: seq<seq<Choice>>,
                    y: nat, r3: seq<Network>, c3: seq<seq<Choice>>)
    requires Continues(u, r1, c1, x, r2, c2) && Continues(u, r2, c2, y, r3, c3)
    ensures Continues(u, r1, c1, x + y, r3, c3)
  {
    assert r3[..|r1|] == r3[..|r2|][..|r1|];
    assert c3[..|c1|] == c3[..|c2|][..|c1|];
  }

  lemma OneMore(u: Setup, run: seq<Network>, choices: seq<seq<Choice>>, c: seq<Choice>)
    requires IsRound(u, run, choices) && Allowed(Last(run), c)
    ensures Continues(u, run, choices, 1, run + [Advance(Last(run), c)], choices + [c])
  {
    var more, moreChoices := run + [Advance(Last(run), c)], choices + [c];
    forall k | 0 <= k < |moreChoices|
      ensures Allowed(more[k], moreChoices[k]) && more[k + 1] == Advance(more[k], moreChoices[k])
    {
      if k < |choices| { assert more[k] == run[k] && more[k + 1] == run[k + 1] && moreChoices[k] == choices[k]; }
    }
    hide Advance;
  }

  /** A draw that lets `j` send before anyone else. */
  function Draw(j: nat, x: nat): nat
  {
    if x == j then 6 else 7
  }

  /** Nobody hears anything. */
  function Quiet(n: nat, j: nat): seq<Choice>
  {
    seq(n, x requires 0 <= x < n => Choice(false, 0, Draw(j, x), false))
  }

  ghost predicate AllRest(s: Network, t: Network)
  {
    |t| == |s| && forall x :: 0 <= x < |s| ==> Rests(s[x], t[x])
  }

  lemma RestOn(s: Network, t: Network, v: Network)
    requires AllRest(s, t) && AllRest(t, v)
    ensures AllRest(s, v)
  {
    forall x | 0 <= x < |s|
      ensures Rests(s[x], v[x])
    {
      assert Rests(s[x], t[x]) && Rests(t[x], v[x]);
    }
  }

  lemma QuietSlot(u: Setup, run: seq<Network>, choices: seq<seq<Choice>>, j: nat)
      returns (more: seq<Network>, moreChoices: seq<seq<Choice>>)
    requires IsRound(u, run, choices)
    ensures Continues(u, run, choices, 1, more, moreChoices) && AllRest(Last(run), Last(more))
    ensures forall x :: 0 <= x < |Last(run)| && On(Last(run)[x]) ==>
              Last(more)[x].radio == NextRadio(Last(run)[x].radio, Last(run)[x].synced, false, Draw(j, x))
  {
    var s := Last(run);
    var c := Quiet(|s|, j);
    OneMore(u, run, choices, c);
    RoundSound(u, run, choices, |run| - 1);
    more, moreChoices := run + [Advance(s, c)], choices + [c];
    forall x | 0 <= x < |s|
      ensures Rests(s[x], Last(more)[x])
      ensures On(s[x]) ==> Last(more)[x].radio == NextRadio(s[x].radio, s[x].synced, false, Draw(j, x))
    {
      assert Sound(s[x]);
      NextHeeds(s, c, x);
      hide Sound, NextRadio, Rests;
    }
  }

  // ------------------------------------------------------------------
  // A node that sends while another listens
  // ------------------------------------------------------------------

  predicate Awake(n: Node)
  {
    On(n) && !n.radio.progress
  }

  function Due(r: Radio): nat
  {
    if r.missed < r.threshold then r.threshold - r.missed else 0
  }

  /** Node `i` listens, or it has started to send in this very slot. */
  predicate Aside(n: Node)
  {
    n.radio.state == Listen || (n.radio.state == Send && n.synced && n.radio.missed == 0 && n.radio.threshold == 7)
  }

  lemma {:induction false} AwaitSend(u: Setup, run: seq<Network>, choices: seq<seq<Choice>>, i: nat, j: nat)
      returns (more: seq<Network>, moreChoices: seq<seq<Choice>>)
    requires IsRound(u, run, choices) && i < |Last(run)| && j < |Last(run)| && i != j
    requires Awake(Last(run)[i]) && Awake(Last(run)[j])
    requires Last(run)[j].radio.state == Listen && Last(run)[j].synced
    ensures Continues(u, run, choices, Due(Last(run)[j].radio) + 1, more, moreChoices) && AllRest(Last(run), Last(more))
    ensures var r := Last(more)[j].radio; r.state == Send && r.missed == 0 && r.threshold == 6
    ensures Aside(Last(more)[i])
    decreases Due(Last(run)[j].radio)
  {
    more, moreChoices := QuietSlot(u, run, choices, j);
    var s, t := Last(run), Last(more);
    assert Rests(s[i], t[i]) && Rests(s[j], t[j]);
    hide IsRound;
    if t[j].radio.state != Send {
      var again, againChoices := AwaitSend(u, more, moreChoices, i, j);
      ContinuesOn(u, run, choices, 1, more, moreChoices, Due(t[j].radio) + 1, again, againChoices);
      RestOn(s, t, Last(again));
      more, moreChoices := again, againChoices;
    }
  }

  /** Two nodes that count from the same slot, `j` to 6 and `i` to 7. */
  lemma {:induction false} CountDown(u: Setup, run: seq<Network>, choices: seq<seq<Choice>>, i: nat, j: nat)
      returns (more: seq<Network>, moreChoices: seq<seq<Choice>>)
    requires IsRound(u, run, choices) && i < |Last(run)| && j < |Last(run)| && i != j
    requires var n := Last(run)[i]; Awake(n) && n.synced && n.radio.state == Listen && n.radio.threshold == 7
    requires var n := Last(run)[j]; Awake(n) && n.synced && n.radio.state == Listen && n.radio.threshold == 6
    requires Last(run)[i].radio.missed == Last(run)[j].radio.missed <= 6
    ensures Continues(u, run, choices, 7 - Last(run)[j].radio.missed, more, moreChoices) && AllRest(Last(run), Last(more))
    ensures Last(more)[j].radio.state == Send && Last(more)[i].radio.state == Listen
    decreases 6 - Last(run)[j].radio.missed
  {
    more, moreChoices := QuietSlot(u, run, choices, j);
    var s, t := Last(run), Last(more);
    assert Rests(s[i], t[i]) && Rests(s[j], t[j]);
    hide IsRound;
    if t[j].radio.state != Send {
      var again, againChoices := CountDown(u, more, moreChoices, i, j);
      ContinuesOn(u, run, choices, 1, more, moreChoices, 7 - t[j].radio.missed, again, againChoices);
      RestOn(s, t, Last(again));
      more, moreChoices := again, againChoices;
    }
  }

  /** From a slot in which `j` has just begun to send. */
  lemma MeetAgain(u: Setup, run: seq<Network>, choices: seq<seq<Choice>>, i: nat, j: nat)
      returns (more: seq<Network>, moreChoices: seq<seq<Choice>>)
    requires IsRound(u, run, choices) && i < |Last(run)| && j < |Last(run)| && i != j
    requires Awake(Last(run)[i]) && Awake(Last(run)[j]) && Last(run)[j].synced && Aside(Last(run)[i])
    requires var r := Last(run)[j].radio; r.state == Send && r.missed == 0 && r.threshold == 6
    ensures Continues(u, run, choices, 8, more, moreChoices) && AllRest(Last(run), Last(more))
    ensures Last(more)[j].radio.state == Send && Last(more)[i].radio.state == Listen
  {
    var s := Last(run);
    if s[i].radio.state == Listen {
      more, moreChoices := run, choices;
    } else {
      var r1, c1 := QuietSlot(u, run, choices, j);
      var t := Last(r1);
      assert Rests(s[i], t[i]) && Rests(s[j], t[j]);
      hide IsRound;
      more, moreChoices := CountDown(u, r1, c1, i, j);
      ContinuesOn(u, run, choices, 1, r1, c1, 7, more, moreChoices);
      RestOn(s, t, Last(more));
    }
  }

  /** Some quiet slots bring `i` and `j` to where `j` sends and `i` listens. */
  lemma Meet(u: Setup, run: seq<Network>, choices: seq<seq<Choice>>, i: nat, j: nat)
      returns (more: seq<Network>, moreChoices: seq<seq<Choice>>)
    requires IsRound(u, run, choices) && i < |Last(run)| && j < |Last(run)| && i != j
    requires Awake(Last(run)[i]) && Awake(Last(run)[j]) && Last(run)[j].synced
    ensures Continues(u, run, choices, 19, more, moreChoices) && AllRest(Last(run), Last(more))
    ensures Last(more)[j].radio.state == Send && Last(more)[i].radio.state == Listen
  {
    var s := Last(run);
    var r1, c1 := QuietUntilListens(u, run, choices, i, j);
    var t1 := Last(r1);
    assert Rests(s[i], t1[i]) && Rests(s[j], t1[j]);
    var r2, c2 := AwaitSend(u, r1, c1, i, j);
    var t2 := Last(r2);
    assert Rests(t1[i], t2[i]) && Rests(t1[j], t2[j]);
    more, moreChoices := MeetAgain(u, r2, c2, i, j);
    DueSoon(u, r1, c1, j);
    hide IsRound, Rests;
    ContinuesOn(u, run, choices, 1, r1, c1, Due(t1[j].radio) + 1, r2, c2);
    ContinuesOn(u, run, choices, Due(t1[j].radio) + 2, r2, c2, 8, more, moreChoices);
    RestOn(s, t1, t2);
    RestOn(s, t2, Last(more));
  }

  lemma DueSoon(u: Setup, run: seq<Network>, choices: seq<seq<Choice>>, j: nat)
    requires IsRound(u, run, choices) && j < |Last(run)|
    ensures Due(Last(run)[j].radio) <= 9
  {
    RoundSound(u, run, choices, |run| - 1);
    assert Sound(Last(run)[j]);
  }

  lemma QuietUntilListens(u: Setup, run: seq<Network>, choices: seq<seq<Choice>>, i: nat, j: nat)
      returns (more: seq<Network>, moreChoices: seq<seq<Choice>>)
    requires IsRound(u, run, choices) && i < |Last(run)| && j < |Last(run)| && i != j
    requires Awake(Last(run)[j])
    ensures Continues(u, run, choices, 1, more, moreChoices) && AllRest(Last(run), Last(more))
    ensures Last(more)[j].radio.state == Listen
  {
    if Last(run)[j].radio.state == Listen {
      more, moreChoices := run, choices;
    } else {
      more, moreChoices := QuietSlot(u, run, choices, j);
    }
  }

  /** One listens to the other, and nobody else to anything. */
  function Overhear(n: nat, i: nat, j: nat): seq<Choice>
  {
    seq(n, x requires 0 <= x < n => Choice(x == i, j, Draw(j, x), false))
  }

  ghost predicate OthersRest(s: Network, t: Network, i: nat)
  {
    |t| == |s| && forall x :: 0 <= x < |s| && x != i ==> Rests(s[x], t[x])
  }

  lemma OverhearSlot(u: Setup, run: seq<Network>, choices: seq<seq<Choice>>, i: nat, j: nat)
      returns (more: seq<Network>, moreChoices: seq<seq<Choice>>)
    requires IsRound(u, run, choices) && i < |Last(run)| && j < |Last(run)| && i != j
    requires Last(run)[j].radio.state == Send && Last(run)[i].radio.state == Listen
    ensures Continues(u, run, choices, 1, more, moreChoices) && OthersRest(Last(run), Last(more), i)
    ensures Heeds(Last(run)[i], Last(run)[j].tx, Last(more)[i]) && On(Last(more)[i])
  {
    var s := Last(run);
    var c := Overhear(|s|, i, j);
    OneMore(u, run, choices, c);
    RoundSound(u, run, choices, |run| - 1);
    more, moreChoices := run + [Advance(s, c)], choices + [c];
    forall x | 0 <= x < |s|
      ensures if x == i then Heeds(s[i], s[j].tx, Last(more)[i]) && On(Last(more)[i]) else Rests(s[x], Last(more)[x])
    {
      assert Sound(s[x]);
      NextHeeds(s, c, x);
      hide Sound, Next, Rests, Heeds;
    }
  }

  lemma HeedsRested(n: Node, w: Node, p: Packet, r: Node)
    requires Rests(n, w) && Heeds(w, p, r)
    ensures Heeds(n, p, r)
  {
  }

  lemma OthersRestOn(s: Network, t: Network, v: Network, i: nat)
    requires AllRest(s, t) && OthersRest(t, v, i)
    ensures OthersRest(s, v, i)
  {
    forall x | 0 <= x < |s| && x != i
      ensures Rests(s[x], v[x])
    {
      assert Rests(s[x], t[x]) && Rests(t[x], v[x]);
    }
  }

  /** Some slots after which `i` has heard `j`, and nobody else anything. */
  lemma Pull(u: Setup, run: seq<Network>, choices: seq<seq<Choice>>, i: nat, j: nat)
      returns (more: seq<Network>, moreChoices: seq<seq<Choice>>)
    requires IsRound(u, run, choices) && i < |Last(run)| && j < |Last(run)| && i != j
    requires Awake(Last(run)[i]) && Awake(Last(run)[j]) && Last(run)[j].synced
    ensures Continues(u, run, choices, 20, more, moreChoices) && OthersRest(Last(run), Last(more), i)
    ensures Heeds(Last(run)[i], Last(run)[j].tx, Last(more)[i]) && On(Last(more)[i])
  {
    var s := Last(run);
    var r1, c1 := Meet(u, run, choices, i, j);
    var t := Last(r1);
    assert Rests(s[i], t[i]) && Rests(s[j], t[j]);
    more, moreChoices := OverhearSlot(u, r1, c1, i, j);
    hide IsRound, Heeds;
    ContinuesOn(u, run, choices, 19, r1, c1, 1, more, moreChoices);
    OthersRestOn(s, t, Last(more), i);
    assert t[j].tx == s[j].tx;
    HeedsRested(s[i], t[i], s[j].tx, Last(more)[i]);
  }

  // ------------------------------------------------------------------
  // Which rounds can still be decided everywhere
  // ------------------------------------------------------------------

  predicate AllDecided(s: Network)
  {
    forall x :: 0 <= x < |s| ==> Decided(s[x])
  }

  predicate NoneComplete(s: Network)
  {
    forall x :: 0 <= x < |s| ==> !s[x].radio.complete
  }

  predicate AllOn(s: Network)
  {
    forall x :: 0 <= x < |s| ==> On(s[x])
  }

  /** The first `k` nodes are in `flags`, or have decided. */
  predicate AllTo(flags: set<nat>, k: nat)
  {
    forall x: nat :: x < k ==> x in flags
  }

  predicate DecidedTo(s: Network, k: nat)
  {
    forall x :: 0 <= x < k && x < |s| ==> Decided(s[x])
  }

  /** What a round says of one of its nodes. */
  ghost predicate Member(u: Setup, s: Network, i: nat)
    requires ValidSetup(u) && |s| == |u.values| && i < |s|
  {
    var n := s[i];
    && n.me == i && n.count == |s| && n.initiator == (i == u.initiator) && i in n.tx.flags && IsPhase(n.tx.phase)
    && (n.radio.progress ==> n.radio.complete) && (n.radio.complete ==> Decided(n) && AllDecided(s))
    && (Decided(n) ==> Decided(s[u.initiator]) && n.synced && n.tx.phase == s[u.initiator].tx.phase)
    && (n.initiator ==> n.synced && (|s| > 1 && !n.radio.complete ==> !ChaosFlags.AllSet(n.tx.flags, |s|)))
  }

  lemma MemberOfRound(u: Setup, run: seq<Network>, choices: seq<seq<Choice>>, i: nat)
    requires IsRound(u, run, choices) && i < |u.values|
    ensures |Last(run)| == |u.values| && Member(u, Last(run), i)
  {
    var s, k := Last(run), |run| - 1;
    RoundSound(u, run, choices, k);
    assert Steady(u, i, s[i]) && Steady(u, u.initiator, s[u.initiator]) && Sound(s[i]);
    hide ChaosFlags.AllSet;
    if Decided(s[i]) {
      DecisionIsRight(u, run, choices, k, i);
      DecisionIsRight(u, run, choices, k, u.initiator);
    }
    if s[i].radio.complete {
      forall x | 0 <= x < |s|
        ensures Decided(s[x])
      {
        CompleteMeansAll(u, run, choices, k, i, x);
      }
    }
  }

  lemma NoneCompleteYet(u: Setup, run: seq<Network>, choices: seq<seq<Choice>>)
    requires IsRound(u, run, choices) && !AllDecided(Last(run))
    ensures NoneComplete(Last(run))
  {
    hide IsRound, AllDecided;
    RoundLength(u, run, choices);
    forall x | 0 <= x < |Last(run)|
      ensures !Last(run)[x].radio.complete
    {
      MemberOfRound(u, run, choices, x);
    }
  }

  lemma RoundLength(u: Setup, run: seq<Network>, choices: seq<seq<Choice>>)
    requires IsRound(u, run, choices)
    ensures |Last(run)| == |u.values| && |choices| + 1 == |run|
  {
    RoundSound(u, run, choices, |run| - 1);
  }

  /** One node has heard another, and the rest is as it was: what that keeps. */
  lemma PullKeeps(u: Setup, run: seq<Network>, choices: seq<seq<Choice>>, i: nat, p: Packet, more: seq<Network>, moreChoices: seq<seq<Choice>>)
    requires IsRound(u, run, choices) && IsRound(u, more, moreChoices) && i < |Last(run)| && OthersRest(Last(run), Last(more), i)
    requires Heeds(Last(run)[i], p, Last(more)[i]) && On(Last(more)[i]) && NoneComplete(Last(run))
    ensures AllOn(Last(run)) ==> AllOn(Last(more))
    ensures forall x :: 0 <= x < |Last(run)| && On(Last(run)[x]) ==> On(Last(more)[x])
    ensures forall x :: 0 <= x < |Last(run)| && x != i ==> Last(more)[x].tx == Last(run)[x].tx && SameEnd(Last(run)[x], Last(more)[x])
  {
    var s, t := Last(run), Last(more);
    RoundLength(u, run, choices);
    forall x | 0 <= x < |s|
      ensures On(s[x]) ==> On(t[x])
      ensures x != i ==> t[x].tx == s[x].tx && SameEnd(s[x], t[x])
    {
      MemberOfRound(u, run, choices, x);
      hide IsRound, Heeds;
      if x != i { assert Rests(s[x], t[x]); }
    }
  }

  /** Node `k` hears the initiator, and the initiator node `k`. */
  lemma Exchange(u: Setup, run: seq<Network>, choices: seq<seq<Choice>>, k: nat)
      returns (more: seq<Network>, moreChoices: seq<seq<Choice>>)
    requires IsRound(u, run, choices) && k < |u.values| && k != u.initiator
    requires |Last(run)| == |u.values| && AllOn(Last(run)) && !Decided(Last(run)[u.initiator]) && AllTo(Last(run)[u.initiator].tx.flags, k)
    ensures Continues(u, run, choices, 40, more, moreChoices) && |Last(more)| == |u.values| && AllOn(Last(more)) && NoneComplete(Last(more))
    ensures Decided(Last(more)[u.initiator]) || AllTo(Last(more)[u.initiator].tx.flags, k + 1)
  {
    var s, m := Last(run), u.initiator;
    hide IsRound, ChaosFlags.AllSet, AllDecided, OthersRest;
    MemberOfRound(u, run, choices, k);
    MemberOfRound(u, run, choices, m);
    assert !AllDecided(s) by { NotAll(s, m); }
    NoneCompleteYet(u, run, choices);
    var r1, c1 := Pull(u, run, choices, k, m);
    var t := Last(r1);
    PullKeeps(u, run, choices, k, s[m].tx, r1, c1);
    assert !AllDecided(t) by { NotAll(t, m); }
    NoneCompleteYet(u, r1, c1);
    MemberOfRound(u, r1, c1, k);
    MemberOfRound(u, r1, c1, m);
    more, moreChoices := Pull(u, r1, c1, m, k);
    PullKeeps(u, r1, c1, m, t[k].tx, more, moreChoices);
    ContinuesOn(u, run, choices, 20, r1, c1, 20, more, moreChoices);
    RoundLength(u, more, moreChoices);
  }

  lemma NotAll(s: Network, x: nat)
    requires x < |s| && !Decided(s[x])
    ensures !AllDecided(s)
  {
  }

  /** The initiator hears all nodes from the `k`th on, until it decides. */
  lemma {:induction false} Collect(u: Setup, run: seq<Network>, choices: seq<seq<Choice>>, k: nat)
      returns (more: seq<Network>, moreChoices: seq<seq<Choice>>)
    requires IsRound(u, run, choices) && |Last(run)| == |u.values| > 1 && k <= |u.values| && AllOn(Last(run)) && NoneComplete(Last(run))
    requires Decided(Last(run)[u.initiator]) || AllTo(Last(run)[u.initiator].tx.flags, k)
    ensures Continues(u, run, choices, 40 * (|u.values| - k), more, moreChoices)
    ensures |Last(more)| == |u.values| && AllOn(Last(more)) && NoneComplete(Last(more)) && Decided(Last(more)[u.initiator])
    decreases |u.values| - k
  {
    var s, m := Last(run), u.initiator;
    hide IsRound, AllOn, NoneComplete;
    MemberOfRound(u, run, choices, m);
    NotComplete(s, m);
    if Decided(s[m]) {
      more, moreChoices := run, choices;
    } else if k == |u.values| {
      assert false;
    } else {
      var r1, c1 := run, choices;
      if k != m { r1, c1 := Exchange(u, run, choices, k); }
      more, moreChoices := Collect(u, r1, c1, k + 1);
      ContinuesOn(u, run, choices, 40, r1, c1, 40 * (|u.values| - k - 1), more, moreChoices);
    }
  }

  lemma NotComplete(s: Network, x: nat)
    requires NoneComplete(s) && x < |s|
    ensures !s[x].radio.complete
  {
  }

  /** Every node from the `k`th on that has not decided hears `j`, which has. */
  lemma {:induction false} Spread(u: Setup, run: seq<Network>, choices: seq<seq<Choice>>, j: nat, k: nat)
      returns (more: seq<Network>, moreChoices: seq<seq<Choice>>)
    requires IsRound(u, run, choices) && |Last(run)| == |u.values| && k <= |u.values| && j < |u.values| && NoneComplete(Last(run))
    requires Decided(Last(run)[j]) && On(Last(run)[j]) && DecidedTo(Last(run), k) && UndecidedOn(Last(run))
    ensures Continues(u, run, choices, 20 * (|u.values| - k), more, moreChoices)
    ensures |Last(more)| == |u.values| && AllDecided(Last(more)) && NoneComplete(Last(more))
    ensures AllOn(Last(run)) ==> AllOn(Last(more))
    decreases |u.values| - k
  {
    var s := Last(run);
    if k == |u.values| {
      more, moreChoices := run, choices;
    } else {
      var r1, c1 := run, choices;
      if !Decided(s[k]) { r1, c1 := SpreadOne(u, run, choices, j, k); }
      hide IsRound, AllOn, NoneComplete, UndecidedOn;
      more, moreChoices := Spread(u, r1, c1, j, k + 1);
      ContinuesOn(u, run, choices, 20, r1, c1, 20 * (|u.values| - k - 1), more, moreChoices);
    }
  }

  predicate UndecidedOn(s: Network)
  {
    forall x :: 0 <= x < |s| && !Decided(s[x]) ==> On(s[x])
  }

  lemma SpreadOne(u: Setup, run: seq<Network>, choices: seq<seq<Choice>>, j: nat, k: nat)
      returns (more: seq<Network>, moreChoices: seq<seq<Choice>>)
    requires IsRound(u, run, choices) && |Last(run)| == |u.values| && k < |u.values| && j < |u.values| && NoneComplete(Last(run))
    requires Decided(Last(run)[j]) && On(Last(run)[j]) && !Decided(Last(run)[k]) && DecidedTo(Last(run), k) && UndecidedOn(Last(run))
    ensures Continues(u, run, choices, 20, more, moreChoices) && |Last(more)| == |u.values| && NoneComplete(Last(more))
    ensures Decided(Last(more)[j]) && On(Last(more)[j]) && DecidedTo(Last(more), k + 1) && UndecidedOn(Last(more))
    ensures AllOn(Last(run)) ==> AllOn(Last(more))
  {
    var s := Last(run);
    hide IsRound, AllOn, ChaosFlags.AllSet;
    MemberOfRound(u, run, choices, j);
    MemberOfRound(u, run, choices, k);
    more, moreChoices := Pull(u, run, choices, k, j);
    RoundLength(u, more, moreChoices);
    PullKeeps(u, run, choices, k, s[j].tx, more, moreChoices);
    hide OthersRest, Heeds, Continues;
  }

  /** A round can still be decided everywhere: it is already, or there is more than one node,
      no undecided node is off, and if there is a decision, some node that is on has it. */
  ghost predicate CanFinish(s: Network)
  {
    || AllDecided(s)
    || (|s| > 1 && UndecidedOn(s) && (NoneDecided(s) || exists j :: 0 <= j < |s| && Decided(s[j]) && On(s[j])))
  }

  predicate NoneDecided(s: Network)
  {
    forall x :: 0 <= x < |s| ==> !Decided(s[x])
  }

  /** All nodes end up with the outcome of the vote. */
  ghost predicate Settled(u: Setup, s: Network)
    requires ValidSetup(u)
  {
    forall x :: 0 <= x < |s| ==>
      && s[x].tx.phase == (if Unanimous(u) then COMMIT else ABORT)
      && Decide(s[x]) == (if Unanimous(u) then Commits else Aborts)
  }

  lemma DecidedIsSettled(u: Setup, run: seq<Network>, choices: seq<seq<Choice>>)
    requires IsRound(u, run, choices) && AllDecided(Last(run))
    ensures Settled(u, Last(run))
  {
    var s := Last(run);
    forall x | 0 <= x < |s|
      ensures s[x].tx.phase == (if Unanimous(u) then COMMIT else ABORT)
      ensures Decide(s[x]) == (if Unanimous(u) then Commits else Aborts)
    {
      DecisionIsRight(u, run, choices, |run| - 1, x);
      NeverFails(u, run, choices, |run| - 1, x);
    }
  }

  lemma Finish(u: Setup, run: seq<Network>, choices: seq<seq<Choice>>)
      returns (more: seq<Network>, moreChoices: seq<seq<Choice>>)
    requires IsRound(u, run, choices) && CanFinish(Last(run))
    ensures Continues(u, run, choices, 60 * |u.values|, more, moreChoices) && AllDecided(Last(more))
    ensures AllOn(Last(run)) && NoneComplete(Last(run)) ==> AllOn(Last(more)) && NoneComplete(Last(more))
  {
    var s, m := Last(run), u.initiator;
    RoundLength(u, run, choices);
    if AllDecided(s) {
      more, moreChoices := run, choices;
    } else {
      NoneCompleteYet(u, run, choices);
      var r1, c1, j := run, choices, m;
      if NoneDecided(s) {
        hide IsRound;
        r1, c1 := Collect(u, run, choices, 0);
      } else {
        j :| 0 <= j < |s| && Decided(s[j]) && On(s[j]);
      }
      hide IsRound, NoneComplete;
      more, moreChoices := Spread(u, r1, c1, j, 0);
      ContinuesOn(u, run, choices, 40 * |u.values|, r1, c1, 20 * |u.values|, more, moreChoices);
    }
  }

  /** What cannot be finished stays so. */
  lemma StaysStuck(u: Setup, run: seq<Network>, choices: seq<seq<Choice>>, k: nat)
    requires IsRound(u, run, choices) && k < |choices| && !CanFinish(run[k])
    ensures !CanFinish(run[k + 1])
  {
    var s, c, t := run[k], choices[k], run[k + 1];
    RoundSound(u, run, choices, k);
    assert Allowed(s, c) && t == Advance(s, c);
    forall x | 0 <= x < |s|
      ensures Decided(s[x]) ==> Decided(t[x]) && (!On(s[x]) ==> !On(t[x]))
      ensures !Decided(s[x]) && (!On(s[x]) || |s| == 1 || StuckDecided(s)) ==> !Decided(t[x]) && (!On(s[x]) ==> !On(t[x]))
    {
      StuckNode(u, s, c, x);
    }
    hide IsRound, AllSound, Joint, Advance, Allowed;
  }

  /** There is a decision, but only at nodes that are off. */
  ghost predicate StuckDecided(s: Network)
  {
    !NoneDecided(s) && forall x :: 0 <= x < |s| && Decided(s[x]) ==> !On(s[x])
  }

  lemma StuckNode(u: Setup, s: Network, c: seq<Choice>, x: nat)
    requires ValidSetup(u) && Joint(u, s) && AllSound(s) && Allowed(s, c) && x < |s|
    ensures var r := Next(s, c, x); Decided(s[x]) ==> Decided(r) && (!On(s[x]) ==> !On(r))
    ensures var r := Next(s, c, x);
            !Decided(s[x]) && (!On(s[x]) || |s| == 1 || StuckDecided(s)) ==> !Decided(r) && (!On(s[x]) ==> !On(r))
  {
    assert Sound(s[x]) && Steady(u, x, s[x]);
    NextHeeds(s, c, x);
    hide ChaosFlags.AllSet;
    if Hears(s, c, x) { assert Sound(s[c[x].from]) && Steady(u, c[x].from, s[c[x].from]); }
    hide Next, Steady, Fair, Sound;
  }

  lemma {:induction false} RunStaysStuck(u: Setup, run: seq<Network>, choices: seq<seq<Choice>>, k: nat, l: nat)
    requires IsRound(u, run, choices) && k <= l < |run| && !CanFinish(run[k])
    ensures !CanFinish(run[l])
    decreases l
  {
    if k < l {
      RunStaysStuck(u, run, choices, k, l - 1);
      StaysStuck(u, run, choices, l - 1);
    }
  }

  /** From every state of every round: some continuation ends with every node in COMMIT and
      committing, if all were given the proposed value, and in ABORT and aborting if not, if
      and only if the round can be finished; then 60 slots a node are enough. */
  lemma FinishIff(u: Setup, run: seq<Network>, choices: seq<seq<Choice>>)
    requires IsRound(u, run, choices)
    ensures CanFinish(Last(run)) ==>
              exists more, moreChoices :: Continues(u, run, choices, 60 * |u.values|, more, moreChoices) && Settled(u, Last(more))
    ensures (exists slots, more, moreChoices :: Continues(u, run, choices, slots, more, moreChoices) && AllDecided(Last(more)))
              ==> CanFinish(Last(run))
  {
    if CanFinish(Last(run)) {
      var more, moreChoices := Finish(u, run, choices);
      DecidedIsSettled(u, more, moreChoices);
      hide IsRound, CanFinish, AllDecided, Settled;
      assert Continues(u, run, choices, 60 * |u.values|, more, moreChoices);
    } else if slots: nat, more, moreChoices :| Continues(u, run, choices, slots, more, moreChoices) && AllDecided(Last(more)) {
      assert more[|run| - 1] == Last(run);
      RunStaysStuck(u, more, moreChoices, |run| - 1, |more| - 1);
    }
  }

  /** As long as no node is off, a round of two nodes or more can be finished. */
  lemma AllOnCanFinish(u: Setup, run: seq<Network>, choices: seq<seq<Choice>>)
    requires IsRound(u, run, choices) && AllOn(Last(run)) && |u.values| > 1
    ensures exists more, moreChoices :: Continues(u, run, choices, 60 * |u.values|, more, moreChoices) && Settled(u, Last(more))
  {
    RoundLength(u, run, choices);
    FinishIff(u, run, choices);
    hide IsRound, Settled, Continues;
  }

  // ------------------------------------------------------------------
  // Completion
  // ------------------------------------------------------------------

  predicate AllComplete(s: Network)
  {
    forall x :: 0 <= x < |s| ==> s[x].radio.complete
  }

  predicate CompleteTo(s: Network, k: nat)
  {
    forall x :: 0 <= x < k && x < |s| ==> s[x].radio.complete
  }

  /** A node that has seen completion but no packet that had: it sends until the round ends. */
  predicate Hub(s: Network, h: nat)
  {
    h < |s| && s[h].radio.complete && !s[h].radio.progress && On(s[h]) && ChaosFlags.AllSet(s[h].tx.flags, |s|)
  }

  predicate IncompleteOn(s: Network)
  {
    forall x :: 0 <= x < |s| && !s[x].radio.complete ==> On(s[x])
  }

  /** `h` hears `i`, all nodes having decided and none having completed. */
  lemma Gather(u: Setup, run: seq<Network>, choices: seq<seq<Choice>>, h: nat, i: nat)
      returns (more: seq<Network>, moreChoices: seq<seq<Choice>>)
    requires IsRound(u, run, choices) && |Last(run)| == |u.values| && h < |u.values| && i < |u.values| && h != i
    requires AllDecided(Last(run)) && AllOn(Last(run)) && NoneComplete(Last(run))
    requires !ChaosFlags.AllSet(Last(run)[i].tx.flags, |u.values|)
    ensures Continues(u, run, choices, 20, more, moreChoices) && |Last(more)| == |u.values| && AllDecided(Last(more)) && AllOn(Last(more))
    ensures var flags := Last(run)[h].tx.flags + Last(run)[i].tx.flags;
            Last(more)[h].tx.flags == flags
            && if ChaosFlags.AllSet(flags, |u.values|) then Hub(Last(more), h) else NoneComplete(Last(more))
    ensures i in Last(more)[h].tx.flags
    ensures forall x :: 0 <= x < |u.values| && x != h ==> Last(more)[x].tx == Last(run)[x].tx
  {
    var s := Last(run);
    hide IsRound, ChaosFlags.AllSet;
    MemberOfRound(u, run, choices, h);
    MemberOfRound(u, run, choices, i);
    more, moreChoices := Pull(u, run, choices, h, i);
    RoundLength(u, more, moreChoices);
    PullKeeps(u, run, choices, h, s[i].tx, more, moreChoices);
    hide OthersRest, Continues;
  }

  predicate OthersLack(s: Network, h: nat)
  {
    forall x :: 0 <= x < |s| && x != h ==> !ChaosFlags.AllSet(s[x].tx.flags, |s|)
  }

  /** `h` hears one node after the other until it has all flags. */
  lemma {:induction false} GatherFrom(u: Setup, run: seq<Network>, choices: seq<seq<Choice>>, h: nat, k: nat)
      returns (more: seq<Network>, moreChoices: seq<seq<Choice>>)
    requires IsRound(u, run, choices) && |Last(run)| == |u.values| && h < |u.values| && k <= |u.values|
    requires AllDecided(Last(run)) && AllOn(Last(run)) && NoneComplete(Last(run)) && OthersLack(Last(run), h)
    requires AllTo(Last(run)[h].tx.flags, k) && !ChaosFlags.AllSet(Last(run)[h].tx.flags, |u.values|)
    ensures Continues(u, run, choices, 20 * (|u.values| - k), more, moreChoices)
    ensures |Last(more)| == |u.values| && AllDecided(Last(more)) && AllOn(Last(more)) && Hub(Last(more), h)
    decreases |u.values| - k
  {
    MemberOfRound(u, run, choices, h);
    if k == |u.values| {
      assert false;
    } else {
      var r1, c1 := run, choices;
      if k != h { r1, c1 := Gather(u, run, choices, h, k); }
      hide IsRound, AllDecided, AllOn, NoneComplete;
      if ChaosFlags.AllSet(Last(r1)[h].tx.flags, |u.values|) {
        more, moreChoices := r1, c1;
      } else {
        more, moreChoices := GatherFrom(u, r1, c1, h, k + 1);
        ContinuesOn(u, run, choices, 20, r1, c1, 20 * (|u.values| - k - 1), more, moreChoices);
      }
    }
  }

  /** Some node becomes a hub. */
  lemma MakeHub(u: Setup, run: seq<Network>, choices: seq<seq<Choice>>)
      returns (more: seq<Network>, moreChoices: seq<seq<Choice>>, h: nat)
    requires IsRound(u, run, choices) && |u.values| > 1 && AllDecided(Last(run)) && AllOn(Last(run)) && NoneComplete(Last(run))
    ensures Continues(u, run, choices, 20 * |u.values|, more, moreChoices)
    ensures |Last(more)| == |u.values| && AllDecided(Last(more)) && AllOn(Last(more)) && Hub(Last(more), h)
  {
    var s, m := Last(run), u.initiator;
    MemberOfRound(u, run, choices, m);
    h := if m == 0 then 1 else 0;
    hide IsRound;
    if OthersLack(s, h) && !ChaosFlags.AllSet(s[h].tx.flags, |s|) {
      more, moreChoices := GatherFrom(u, run, choices, h, 0);
    } else {
      if !ChaosFlags.AllSet(s[h].tx.flags, |s|) { h :| 0 <= h < |s| && ChaosFlags.AllSet(s[h].tx.flags, |s|); }
      AllStaysAll(s[h].tx.flags, s[m].tx.flags, |s|);
      more, moreChoices := Gather(u, run, choices, h, m);
    }
  }

  lemma AllStaysAll(x: set<nat>, y: set<nat>, n: nat)
    requires ChaosFlags.AllSet(x, n)
    ensures ChaosFlags.AllSet(x + y, n)
  {
  }

  /** Node `k` hears the hub. */
  lemma FloodOne(u: Setup, run: seq<Network>, choices: seq<seq<Choice>>, h: nat, k: nat)
      returns (more: seq<Network>, moreChoices: seq<seq<Choice>>)
    requires IsRound(u, run, choices) && |Last(run)| == |u.values| && k < |u.values| && h != k
    requires AllDecided(Last(run)) && IncompleteOn(Last(run)) && Hub(Last(run), h) && CompleteTo(Last(run), k) && !Last(run)[k].radio.complete
    ensures Continues(u, run, choices, 20, more, moreChoices) && |Last(more)| == |u.values|
    ensures AllDecided(Last(more)) && IncompleteOn(Last(more)) && Hub(Last(more), h) && CompleteTo(Last(more), k + 1)
  {
    var s := Last(run);
    hide IsRound, ChaosFlags.AllSet;
    MemberOfRound(u, run, choices, k);
    MemberOfRound(u, run, choices, h);
    AllStaysAll(s[h].tx.flags, s[k].tx.flags, |s|);
    assert s[k].tx.flags + s[h].tx.flags == s[h].tx.flags + s[k].tx.flags;
    more, moreChoices := Pull(u, run, choices, k, h);
    RoundLength(u, more, moreChoices);
    var t := Last(more);
    forall x | 0 <= x < |s|
      ensures Decided(t[x]) && (s[x].radio.complete ==> t[x].radio.complete) && (!t[x].radio.complete ==> On(t[x]))
      ensures x != k ==> t[x].tx == s[x].tx
    {
      MemberOfRound(u, run, choices, x);
      if x != k { assert Rests(s[x], t[x]); }
    }
    assert Rests(s[h], t[h]);
    hide OthersRest, Continues;
  }

  lemma {:induction false} Flood(u: Setup, run: seq<Network>, choices: seq<seq<Choice>>, h: nat, k: nat)
      returns (more: seq<Network>, moreChoices: seq<seq<Choice>>)
    requires IsRound(u, run, choices) && |Last(run)| == |u.values| && k <= |u.values|
    requires AllDecided(Last(run)) && IncompleteOn(Last(run)) && Hub(Last(run), h) && CompleteTo(Last(run), k)
    ensures Continues(u, run, choices, 20 * (|u.values| - k), more, moreChoices) && AllComplete(Last(more))
    decreases |u.values| - k
  {
    if k == |u.values| {
      more, moreChoices := run, choices;
    } else {
      var r1, c1 := run, choices;
      if !Last(run)[k].radio.complete { r1, c1 := FloodOne(u, run, choices, h, k); }
      hide IsRound, AllDecided, IncompleteOn;
      more, moreChoices := Flood(u, r1, c1, h, k + 1);
      ContinuesOn(u, run, choices, 20, r1, c1, 20 * (|u.values| - k - 1), more, moreChoices);
    }
  }

  /** From every state of a round of two nodes or more in which no node is off and none has
      seen completion yet, some continuation ends with every node having seen it, 100 slots
      a node being enough. */
  lemma CanComplete(u: Setup, run: seq<Network>, choices: seq<seq<Choice>>)
    requires IsRound(u, run, choices) && |u.values| > 1 && AllOn(Last(run)) && NoneComplete(Last(run))
    ensures exists more, moreChoices :: Continues(u, run, choices, 100 * |u.values|, more, moreChoices) && AllComplete(Last(more))
  {
    var n := |u.values|;
    RoundLength(u, run, choices);
    var r1, c1 := Finish(u, run, choices);
    hide IsRound;
    var r2, c2, h := MakeHub(u, r1, c1);
    var r3, c3 := Flood(u, r2, c2, h, 0);
    ContinuesOn(u, run, choices, 60 * n, r1, c1, 20 * n, r2, c2);
    ContinuesOn(u, run, choices, 80 * n, r2, c2, 20 * n, r3, c3);
    hide AllComplete;
    assert Continues(u, run, choices, 100 * n, r3, c3);
  }

  // ------------------------------------------------------------------
  // Switching off
  // ------------------------------------------------------------------

  /** How often node `i` has begun to send with completion seen, up to network `k`. */
  function Floods(run: seq<Network>, i: nat, k: nat): nat
    requires k < |run|
  {
    if k == 0 then 0
    else
      Floods(run, i, k - 1) +
      if i < |run[k]| && i < |run[k - 1]| && run[k - 1][i].radio.state == Listen && run[k][i].radio.state != Listen
         && run[k][i].radio.complete && On(run[k][i]) then 1 else 0
  }

  lemma PacketKeepsFlood(n: Node, p: Packet)
    ensures OnPacket(n, p).radio.flood == n.radio.flood
  {
    hide ChaosFlags.AllSet;
  }

  /** In a slot without a crash the flood counter counts just that. */
  lemma NextFlood(s: Network, c: seq<Choice>, i: nat)
    requires Allowed(s, c) && i < |s| && !c[i].crash
    ensures var n, r := s[i].radio, Next(s, c, i).radio;
            r.flood == n.flood + if n.state == Listen && r.state != Listen && r.complete && r.state != Off then 1 else 0
    ensures On(s[i]) ==> (!On(Next(s, c, i)) <==> s[i].radio.state == Send && s[i].radio.progress && s[i].radio.flood >= FINAL_FLOOD)
  {
    if Hears(s, c, i) {
      PacketKeepsFlood(s[i], s[c[i].from].tx);
      PacketKeepsRadio(s[i], s[c[i].from].tx);
    }
    hide OnPacket;
  }

  lemma {:induction false} FloodCounts(u: Setup, run: seq<Network>, choices: seq<seq<Choice>>, k: nat, i: nat)
    requires IsRound(u, run, choices) && k < |run| && i < |u.values|
    requires forall j :: 0 <= j < k && i < |choices[j]| ==> !choices[j][i].crash
    ensures |run[k]| == |u.values| && run[k][i].radio.flood == Floods(run, i, k)
  {
    RoundSound(u, run, choices, k);
    if k == 0 {
      assert run[0][i] == Fresh(i, |u.values|, u.values[i], i == u.initiator, u.thresholds[i]);
    } else {
      FloodCounts(u, run, choices, k - 1, i);
      var s, c := run[k - 1], choices[k - 1];
      assert Allowed(s, c) && run[k][i] == Next(s, c, i);
      NextFlood(s, c, i);
      hide Next, IsRound;
    }
  }

  /** A node that does not crash switches off when it has sent `FINAL_FLOOD` times since it
      saw completion and has heard a packet that had, and at no other time. */
  lemma SwitchesOffIff(u: Setup, run: seq<Network>, choices: seq<seq<Choice>>, k: nat, i: nat)
    requires IsRound(u, run, choices) && k < |choices| && i < |u.values|
    requires forall j :: 0 <= j <= k && i < |choices[j]| ==> !choices[j][i].crash
    ensures |run[k]| == |run[k + 1]| == |u.values|
    ensures On(run[k][i]) ==>
              (!On(run[k + 1][i]) <==>
                run[k][i].radio.state == Send && run[k][i].radio.progress && Floods(run, i, k) >= FINAL_FLOOD)
  {
    RoundSound(u, run, choices, k);
    RoundSound(u, run, choices, k + 1);
    FloodCounts(u, run, choices, k, i);
    var s, c := run[k], choices[k];
    assert Allowed(s, c) && run[k + 1][i] == Next(s, c, i);
    NextFlood(s, c, i);
    hide Next, IsRound;
  }

  /** A node that is off without having crashed has seen completion: all nodes have its
      decision. */
  lemma {:induction false} OffHasCompleted(u: Setup, run: seq<Network>, choices: seq<seq<Choice>>, k: nat, i: nat)
    requires IsRound(u, run, choices) && k < |run| && i < |u.values|
    requires forall j :: 0 <= j < k && i < |choices[j]| ==> !choices[j][i].crash
    ensures |run[k]| == |u.values| && (!On(run[k][i]) ==> run[k][i].radio.complete && AllDecided(run[k]))
  {
    RoundSound(u, run, choices, k);
    if k == 0 {
      assert run[0][i] == Fresh(i, |u.values|, u.values[i], i == u.initiator, u.thresholds[i]);
    } else {
      OffHasCompleted(u, run, choices, k - 1, i);
      RoundSound(u, run, choices, k - 1);
      SwitchesOffIff(u, run, choices, k - 1, i);
      var s, c := run[k - 1], choices[k - 1];
      assert Allowed(s, c) && run[k][i] == Next(s, c, i) && Sound(s[i]);
      NextHeeds(s, c, i);
      hide Next, IsRound, Heeds;
      if !On(run[k][i]) {
        forall x | 0 <= x < |run[k]|
          ensures Decided(run[k][x])
        {
          CompleteMeansAll(u, run, choices, k, i, x);
        }
      }
    }
  }


  // ------------------------------------------------------------------
  // Uncertainty
  // ------------------------------------------------------------------

  ghost predicate HasSent(run: seq<Network>, k: nat, i: nat)
  {
    exists j :: 0 <= j <= k && j < |run| && i < |run[j]| && run[j][i].radio.state == Send
  }

  lemma {:induction false} DidTxIff(u: Setup, run: seq<Network>, choices: seq<seq<Choice>>, k: nat, i: nat)
    requires IsRound(u, run, choices) && k < |run| && i < |u.values| && i != u.initiator
    ensures |run[k]| == |u.values| && (run[k][i].didTx <==> HasSent(run, k, i))
  {
    RoundSound(u, run, choices, k);
    if k == 0 {
      assert run[0][i] == Fresh(i, |u.values|, u.values[i], false, u.thresholds[i]);
    } else {
      DidTxIff(u, run, choices, k - 1, i);
      var s, c := run[k - 1], choices[k - 1];
      assert Allowed(s, c) && run[k][i] == Next(s, c, i);
      NextDidTx(s, c, i);
      assert run[k][i].radio.state == Send ==> HasSent(run, k, i);
      hide Next, IsRound;
    }
  }

  lemma PacketKeepsDidTx(n: Node, p: Packet)
    ensures OnPacket(n, p).didTx == n.didTx
  {
    hide ChaosFlags.AllSet;
  }

  lemma NextDidTx(s: Network, c: seq<Choice>, i: nat)
    requires Allowed(s, c) && i < |s|
    ensures Next(s, c, i).didTx <==> s[i].didTx || (On(s[i]) && Next(s, c, i).radio.state == Send)
  {
    if c[i].hears { PacketKeepsDidTx(s[i], s[c[i].from].tx); }
    hide OnPacket, NextRadio;
  }

  /** Wherever a round is cut off, a node is left uncertain if and only if it is no initiator,
      was given the proposed value, has sent, so that its vote may have been counted, and has
      not heard of a decision. */
  lemma UncertainIff(u: Setup, run: seq<Network>, choices: seq<seq<Choice>>, k: nat, i: nat)
    requires IsRound(u, run, choices) && k < |run| && i < |u.values|
    ensures |run[k]| == |u.values|
    ensures Decide(run[k][i]) == Uncertain <==>
              i != u.initiator && Agreeing(u, i) && HasSent(run, k, i) && run[k][i].tx.phase == PROPOSE
  {
    RoundSound(u, run, choices, k);
    assert Steady(u, i, run[k][i]);
    if i != u.initiator {
      DidTxIff(u, run, choices, k, i);
      if HasSent(run, k, i) { SentHasVoted(u, run, choices, k, i); }
    }
    hide IsRound;
  }

  lemma {:induction false} SentHasVoted(u: Setup, run: seq<Network>, choices: seq<seq<Choice>>, k: nat, i: nat)
    requires IsRound(u, run, choices) && k < |run| && i < |u.values| && HasSent(run, k, i)
    ensures |run[k]| == |u.values| && run[k][i].synced
  {
    SendsSynced(u, run, choices, k, i);
    if k > 0 && run[k][i].radio.state != Send {
      SentHasVoted(u, run, choices, k - 1, i);
      StaysSynced(u, run, choices, k - 1, i);
    }
  }

  lemma SendsSynced(u: Setup, run: seq<Network>, choices: seq<seq<Choice>>, k: nat, i: nat)
    requires IsRound(u, run, choices) && k < |run| && i < |u.values|
    ensures |run[k]| == |u.values| && (run[k][i].radio.state == Send ==> run[k][i].synced)
  {
    RoundSound(u, run, choices, k);
    hide IsRound;
    assert Steady(u, i, run[k][i]);
  }

  lemma StaysSynced(u: Setup, run: seq<Network>, choices: seq<seq<Choice>>, k: nat, i: nat)
    requires IsRound(u, run, choices) && k < |choices| && i < |u.values|
    ensures |run[k]| == |run[k + 1]| == |u.values| && (run[k][i].synced ==> run[k + 1][i].synced)
  {
    RoundSound(u, run, choices, k);
    var s, c := run[k], choices[k];
    assert Allowed(s, c) && run[k + 1][i] == Next(s, c, i) && Sound(s[i]);
    hide Next, IsRound;
    NextHeeds(s, c, i);
  }
}
