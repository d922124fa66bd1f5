/** Erbium's transaction layer: a pool of four transactions on a list, each with
    a retransmission timer that doubles until the message is given up (section
    4.2 of RFC 7252).

    `sends`, `base`, `ofCreator` and `ended` are history kept for the proofs:
    when a transaction went out, the first timeout drawn for it, whether its
    creator sent it first, and what became of transactions that are gone.
 */
module Transactions {
  import opened Common

  const POOL: nat := 4
  const MAX_RETRANSMIT: nat := 4

  /** An event timer counts as expired whenever it is not running, whether it
      ran out, was stopped, or was never started. */
  datatype Timer = Idle | Armed(due: nat)

  datatype Transaction = Transaction(
    mid: nat, confirmable: bool, counter: nat, interval: nat, timer: Timer,
    sends: seq<nat>, base: nat, ofCreator: bool)

  datatype Ending = Cleared | TimedOut | SentOnce

  datatype Ended = Ended(transaction: Transaction, how: Ending)

  datatype Pool = Pool(used: seq<bool>, slots: seq<Transaction>, list: seq<nat>, ended: seq<Ended>)

  /** The list holds exactly the allocated slots, each once. */
  ghost predicate Valid(p: Pool)
  {
    && |p.used| == |p.slots| == POOL && Distinct(p.list)
    && (forall x :: x in p.list ==> x < POOL && p.used[x])
    && (forall x :: 0 <= x < POOL && p.used[x] ==> x in p.list)
  }

  /** Transactions created so far: open or ended. */
  function Known(p: Pool): nat
  {
    |p.list| + |p.ended|
  }

  // ------------------------------------------------------------------
  // The operations
  // ------------------------------------------------------------------

  /** `list_remove`. */
  function Remove(s: seq<nat>, x: nat): (r: seq<nat>)
  {
    if s == [] then [] else if s[0] == x then s[1..] else [s[0]] + Remove(s[1..], x)
  }

  lemma {:induction false} RemoveMembers(s: seq<nat>, x: nat)
    requires Distinct(s)
    ensures Distinct(Remove(s, x))
    ensures forall y :: y in Remove(s, x) <==> y in s && y != x
    ensures x !in s ==> Remove(s, x) == s
  {
    if s != [] {
      assert s == [s[0]] + s[1..] && s[0] !in s[1..];
      if s[0] != x {
        RemoveMembers(s[1..], x);
        assert s[0] !in Remove(s[1..], x);
      }
    }
  }

  /** `memb_alloc`: the first free slot, or the pool size if there is none. */
  function FirstFree(used: seq<bool>): (i: nat)
    ensures i <= |used| && (i < |used| ==> !used[i]) && forall k :: 0 <= k < i ==> used[k]
  {
    if used == [] || !used[0] then 0
    else
      var r := FirstFree(used[1..]);
      assert forall k :: 0 < k < r + 1 ==> used[k] == used[1..][k - 1];
      r + 1
  }

  /** `coap_new_transaction`, with the message type its creator puts in. */
  function New(p: Pool, mid: nat, confirmable: bool): Pool
    requires |p.used| == |p.slots| == POOL
  {
    var i := FirstFree(p.used);
    if i == POOL then p
    else
      var t := Transaction(mid, confirmable, 0, p.slots[i].interval, Idle, [], 0, false);
      p.(used := p.used[i := true], slots := p.slots[i := t], list := Remove(p.list, i) + [i])
  }

  /** `coap_clear_transaction`. */
  function Clear(p: Pool, i: nat, how: Ending): Pool
    requires |p.used| == |p.slots| == POOL && i < POOL
  {
    p.(used := p.used[i := false], slots := p.slots[i := p.slots[i].(timer := Idle)], list := Remove(p.list, i),
       ended := p.ended + [Ended(p.slots[i], how)])
  }

  /** The retransmission timer after a transmission at `now`. */
  function Rearm(t: Transaction, now: nat, draw: nat): Transaction
  {
    var interval := if t.counter == 0 then draw else 2 * t.interval;
    t.(interval := interval, timer := Armed(now + interval), base := if t.counter == 0 then draw else t.base)
  }

  /** `coap_send_transaction`; `draw` is the random first timeout. */
  function Transmit(p: Pool, i: nat, now: nat, draw: nat): Pool
    requires |p.used| == |p.slots| == POOL && i < POOL
  {
    var t := p.slots[i].(sends := p.slots[i].sends + [now]);
    if !t.confirmable then Clear(p.(slots := p.slots[i := t]), i, SentOnce)
    else if t.counter < MAX_RETRANSMIT then p.(slots := p.slots[i := Rearm(t, now, draw)])
    else Clear(p.(slots := p.slots[i := t]), i, TimedOut)
  }

  /** The creator's own call of it. */
  function FirstSend(p: Pool, i: nat, now: nat, draw: nat): Pool
    requires |p.used| == |p.slots| == POOL && i < POOL
  {
    var t := p.slots[i];
    Transmit(p.(slots := p.slots[i := t.(ofCreator := t.sends == [])]), i, now, draw)
  }

  function Retransmit(p: Pool, i: nat, now: nat): Pool
    requires |p.used| == |p.slots| == POOL && i < POOL
  {
    var t := p.slots[i];
    Transmit(p.(slots := p.slots[i := t.(counter := t.counter + 1)]), i, now, 0)
  }

  /** `coap_check_transactions` from the `k`-th transaction of the list. Giving a
      transaction up takes it off the list with its link cut, which ends the
      walk; those behind it wait for the next call. */
  function CheckFrom(p: Pool, k: nat, now: nat): Pool
    requires Valid(p)
    decreases |p.list| - k
  {
    if k >= |p.list| then p
    else
    assert p.list[k] in p.list;
    if p.slots[p.list[k]].timer.Armed? then CheckFrom(p, k + 1, now)
    else
      var q := Retransmit(p, p.list[k], now);
      RetransmitKeeps(p, p.list[k], now);
      if |q.list| < |p.list| then q else CheckFrom(q, k + 1, now)
  }

  lemma ClearKeeps(p: Pool, i: nat, how: Ending)
    requires Valid(p) && i in p.list
    ensures Valid(Clear(p, i, how))
    ensures |Clear(p, i, how).list| == |p.list| - 1
  {
    RemoveMembers(p.list, i);
    RemoveShorter(p.list, i);
  }

  lemma {:induction false} RemoveShorter(s: seq<nat>, x: nat)
    ensures x in s ==> |Remove(s, x)| == |s| - 1
    ensures x !in s ==> Remove(s, x) == s
  {
    if s != [] {
      RemoveShorter(s[1..], x);
    }
  }

  lemma TransmitKeeps(p: Pool, i: nat, now: nat, draw: nat)
    requires Valid(p) && i in p.list
    ensures Valid(Transmit(p, i, now, draw))
    ensures var q := Transmit(p, i, now, draw); (q.list == p.list || |q.list| < |p.list|) && Known(q) == Known(p)
  {
    var t := p.slots[i].(sends := p.slots[i].sends + [now]);
    var m := p.(slots := p.slots[i := t]);
    ClearKeeps(m, i, SentOnce);
    ClearKeeps(m, i, TimedOut);
  }

  lemma RetransmitKeeps(p: Pool, i: nat, now: nat)
    requires Valid(p) && i in p.list
    ensures Valid(Retransmit(p, i, now))
    ensures var q := Retransmit(p, i, now); (q.list == p.list || |q.list| < |p.list|) && Known(q) == Known(p)
  {
    var t := p.slots[i];
    TransmitKeeps(p.(slots := p.slots[i := t.(counter := t.counter + 1)]), i, now, 0);
  }

  lemma NewKeeps(p: Pool, mid: nat, confirmable: bool)
    requires Valid(p)
    ensures Valid(New(p, mid, confirmable))
    ensures New(p, mid, confirmable) == p <==> |p.list| == POOL
    ensures New(p, mid, confirmable) != p ==> Known(New(p, mid, confirmable)) == Known(p) + 1
  {
    var i := FirstFree(p.used);
    if i < POOL {
      assert i !in p.list;
      RemoveMembers(p.list, i);
      assert New(p, mid, confirmable).list == p.list + [i];
      DistinctBound(p.list + [i], POOL);
    } else {
      AllInList(p);
    }
  }

  lemma {:induction false} DistinctBound(s: seq<nat>, n: nat)
    requires Distinct(s) && forall x :: x in s ==> x < n
    ensures |s| <= n
    decreases n
  {
    assert |s| > 0 ==> s[0] in s;
    if n > 0 {
      RemoveMembers(s, n - 1);
      RemoveShorter(s, n - 1);
      DistinctBound(Remove(s, n - 1), n - 1);
    }
  }

  lemma AllInList(p: Pool)
    requires Valid(p) && forall k :: 0 <= k < POOL ==> p.used[k]
    ensures |p.list| == POOL
  {
    DistinctBound(p.list, POOL);
    assert 0 in p.list && 1 in p.list && 2 in p.list && 3 in p.list;
    var a := Remove(p.list, 0);
    var b := Remove(a, 1);
    var c := Remove(b, 2);
    RemoveMembers(p.list, 0);
    RemoveShorter(p.list, 0);
    RemoveMembers(a, 1);
    RemoveShorter(a, 1);
    RemoveMembers(b, 2);
    RemoveShorter(b, 2);
  }

  // ------------------------------------------------------------------
  // The schedule
  // ------------------------------------------------------------------

  /** Each transmission is followed by the next when the timeout set for it is over,
      the first one drawn, then twice, four and eight times that: no earlier, and, if
      `exact`, no later either. */
  ghost predicate Spaced(sends: seq<nat>, base: nat, exact: bool)
  {
    forall k :: 0 <= k < |sends| - 1 ==> Gap(sends, base, k, exact)
  }

  predicate Gap(sends: seq<nat>, base: nat, k: nat, exact: bool)
    requires k + 1 < |sends|
  {
    && sends[k + 1] >= sends[k] + base * Pow2(k)
    && (exact ==> sends[k + 1] == sends[k] + base * Pow2(k))
  }

  /** A confirmable transaction that its creator sent and that is still open. */
  ghost predicate OnSchedule(t: Transaction, now: nat, exact: bool)
  {
    && t.counter < MAX_RETRANSMIT && |t.sends| == t.counter + 1
    && Spaced(t.sends, t.base, exact)
    && t.interval == t.base * Pow2(t.counter)
    && t.sends[t.counter] <= now
    && var due := t.sends[t.counter] + t.interval;
       if t.timer.Armed? then t.timer.due == due && (exact ==> now <= due) else due <= now && (exact ==> due == now)
  }

  ghost predicate Open(t: Transaction, now: nat, exact: bool)
  {
    && (t.ofCreator ==> t.sends != [])
    && (t.sends == [] ==> t.counter == 0 && t.timer == Idle)
    && (t.ofCreator && t.confirmable ==> OnSchedule(t, now, exact))
  }

  /** How a transaction that its creator sent first may have ended. */
  ghost predicate EndedRight(e: Ended, exact: bool)
  {
    e.transaction.ofCreator ==>
      && (e.how == TimedOut ==>
            && e.transaction.confirmable && |e.transaction.sends| == MAX_RETRANSMIT + 1
            && Spaced(e.transaction.sends, e.transaction.base, exact))
      && (e.how == SentOnce ==> !e.transaction.confirmable)
      && (e.how == Cleared && e.transaction.confirmable ==> 0 < |e.transaction.sends| <= MAX_RETRANSMIT)
  }

  ghost predicate Inv(p: Pool, now: nat, exact: bool)
  {
    && Valid(p)
    && (forall x :: x in p.list ==> Open(p.slots[x], now, exact))
    && (forall e :: e in p.ended ==> EndedRight(e, exact))
  }

  /** A transmission of a transaction whose timer ran out keeps the schedule, or
      is the fifth and last one. */
  lemma NextTransmission(t: Transaction, now: nat, exact: bool)
    requires OnSchedule(t, now, exact) && t.timer.Idle?
    ensures var u := t.(counter := t.counter + 1, sends := t.sends + [now]);
            if u.counter < MAX_RETRANSMIT then OnSchedule(Rearm(u, now, 0), now, exact)
            else |u.sends| == MAX_RETRANSMIT + 1 && Spaced(u.sends, u.base, exact)
  {
    var s := t.sends + [now];
    forall k | 0 <= k < |s| - 1
      ensures Gap(s, t.base, k, exact)
    {
      if k < |t.sends| - 1 { assert Gap(t.sends, t.base, k, exact); }
    }
    assert Spaced(s, t.base, exact);
    Doubling(t.base, t.counter);
  }

  lemma Doubling(base: nat, k: nat)
    ensures 2 * (base * Pow2(k)) == base * Pow2(k + 1)
  {
  }

  lemma ClearInv(p: Pool, i: nat, how: Ending, now: nat, exact: bool)
    requires Valid(p) && i in p.list && EndedRight(Ended(p.slots[i], how), exact)
    requires forall x :: x in p.list && x != i ==> Open(p.slots[x], now, exact)
    requires forall e :: e in p.ended ==> EndedRight(e, exact)
    ensures Inv(Clear(p, i, how), now, exact)
  {
    ClearKeeps(p, i, how);
    RemoveMembers(p.list, i);
  }

  lemma RetransmitInv(p: Pool, i: nat, now: nat, exact: bool)
    requires Inv(p, now, exact) && i in p.list && p.slots[i].timer.Idle?
    ensures Inv(Retransmit(p, i, now), now, exact)
  {
    RetransmitKeeps(p, i, now);
    var t := p.slots[i];
    assert Open(t, now, exact);
    if t.ofCreator && t.confirmable { NextTransmission(t, now, exact); }
    var u := t.(counter := t.counter + 1, sends := t.sends + [now]);
    var m := p.(slots := p.slots[i := u]);
    assert p.slots[i := t.(counter := t.counter + 1)][i := u] == p.slots[i := u];
    hide OnSchedule, Spaced, Remove;
    if !u.confirmable {
      ClearInv(m, i, SentOnce, now, exact);
    } else if u.counter >= MAX_RETRANSMIT {
      ClearInv(m, i, TimedOut, now, exact);
    } else {
      assert Retransmit(p, i, now).slots == p.slots[i := Rearm(u, now, 0)];
    }
  }

  lemma {:induction false} CheckInv(p: Pool, k: nat, now: nat, exact: bool)
    requires Inv(p, now, exact)
    ensures Inv(CheckFrom(p, k, now), now, exact) && Known(CheckFrom(p, k, now)) == Known(p)
    decreases |p.list| - k
  {
    if k < |p.list| {
      assert p.list[k] in p.list;
      hide Retransmit, Open, EndedRight;
      if p.slots[p.list[k]].timer.Armed? {
        CheckInv(p, k + 1, now, exact);
      } else {
        var q := Retransmit(p, p.list[k], now);
        RetransmitInv(p, p.list[k], now, exact);
        RetransmitKeeps(p, p.list[k], now);
        if |q.list| == |p.list| { CheckInv(q, k + 1, now, exact); }
      }
    }
  }

  lemma FirstSendInv(p: Pool, i: nat, now: nat, draw: nat, exact: bool)
    requires Inv(p, now, exact) && i in p.list && !p.slots[i].ofCreator
    ensures Inv(FirstSend(p, i, now, draw), now, exact) && Known(FirstSend(p, i, now, draw)) == Known(p)
  {
    var t := p.slots[i].(ofCreator := p.slots[i].sends == []);
    var u := t.(sends := t.sends + [now]);
    var m := p.(slots := p.slots[i := u]);
    TransmitKeeps(p.(slots := p.slots[i := t]), i, now, draw);
    assert p.slots[i := t][i := u] == p.slots[i := u];
    assert u.ofCreator && u.counter < MAX_RETRANSMIT && u.confirmable ==> OnSchedule(Rearm(u, now, draw), now, exact);
    hide OnSchedule, Spaced, Remove;
    if !u.confirmable {
      ClearInv(m, i, SentOnce, now, exact);
    } else if u.counter >= MAX_RETRANSMIT {
      ClearInv(m, i, TimedOut, now, exact);
    } else {
      assert FirstSend(p, i, now, draw).slots == p.slots[i := Rearm(u, now, draw)];
    }
  }

  lemma NewInv(p: Pool, mid: nat, confirmable: bool, now: nat, exact: bool)
    requires Inv(p, now, exact)
    ensures Inv(New(p, mid, confirmable), now, exact)
  {
    NewKeeps(p, mid, confirmable);
    var i := FirstFree(p.used);
    if i < POOL {
      RemoveMembers(p.list, i);
    }
    hide OnSchedule, EndedRight;
  }

  // ------------------------------------------------------------------
  // Runs
  // ------------------------------------------------------------------

  /** The steps that may come in any order: creating, the creator's send, a timer
      running out, the poll that follows, and a clear on an acknowledgement. */
  datatype Action =
    | Create(mid: nat, confirmable: bool)
    | Send(slot: nat, draw: nat)
    | Fire(slot: nat)
    | Poll
    | Acknowledge(slot: nat)

  /** A creator sends once; a timer runs out no earlier than it was set for. */
  predicate Enabled(p: Pool, now: nat, a: Action)
  {
    && |p.slots| == POOL
    && match a
       case Send(i, _) => i < POOL && i in p.list && !p.slots[i].ofCreator
       case Fire(i) => i < POOL && i in p.list && p.slots[i].timer.Armed? && p.slots[i].timer.due <= now
       case Acknowledge(i) => i < POOL && i in p.list
       case _ => true
  }

  function Step(p: Pool, now: nat, a: Action): Pool
    requires Valid(p) && Enabled(p, now, a)
  {
    match a
    case Create(mid, confirmable) => New(p, mid, confirmable)
    case Send(i, draw) => FirstSend(p, i, now, draw)
    case Fire(i) => p.(slots := p.slots[i := p.slots[i].(timer := Idle)])
    case Poll => CheckFrom(p, 0, now)
    case Acknowledge(i) => Clear(p, i, Cleared)
  }

  /** A fired timer that no poll has seen yet. */
  predicate Pending(p: Pool, x: nat)
    requires x < |p.slots|
  {
    p.slots[x].sends != [] && p.slots[x].timer == Idle
  }

  /** Going from `now` to `later` neither passes a due time nor leaves a fired timer
      waiting: timers are served on time. */
  ghost predicate Punctual(p: Pool, now: nat, later: nat)
  {
    forall x :: x in p.list && x < |p.slots| ==>
      (Pending(p, x) ==> later == now) && (p.slots[x].timer.Armed? ==> later <= p.slots[x].timer.due)
  }

  lemma Later(p: Pool, now: nat, later: nat, exact: bool)
    requires Inv(p, now, exact) && now <= later && (exact ==> Punctual(p, now, later))
    ensures Inv(p, later, exact)
  {
    forall x | x in p.list
      ensures Open(p.slots[x], later, exact)
    {
      assert Open(p.slots[x], now, exact);
    }
  }

  lemma StepInv(p: Pool, now: nat, a: Action, exact: bool)
    requires Inv(p, now, exact) && Enabled(p, now, a)
    ensures Inv(Step(p, now, a), now, exact)
    ensures Known(Step(p, now, a)) == Known(p) + if a.Create? && |p.list| < POOL then 1 else 0
  {
    match a
    case Create(mid, confirmable) =>
      DistinctBound(p.list, POOL);
      NewKeeps(p, mid, confirmable);
      NewInv(p, mid, confirmable, now, exact);
    case Send(i, draw) => FirstSendInv(p, i, now, draw, exact);
    case Fire(i) =>
      assert Open(p.slots[i], now, exact);
    case Poll => CheckInv(p, 0, now, exact);
    case Acknowledge(i) =>
      assert Open(p.slots[i], now, exact);
      ClearInv(p, i, Cleared, now, exact);
      ClearKeeps(p, i, Cleared);
  }

  /** A run: each action at its time, times never going back; if `exact`, with every
      timer served on time. */
  datatype Event = Event(at: nat, action: Action)

  ghost predicate IsRun(p: Pool, now: nat, es: seq<Event>, last: Pool, exact: bool)
    decreases |es|
  {
    if es == [] then last == p
    else
      && Valid(p) && now <= es[0].at && Enabled(p, es[0].at, es[0].action)
      && (exact ==> Punctual(p, now, es[0].at))
      && IsRun(Step(p, es[0].at, es[0].action), es[0].at, es[1..], last, exact)
  }

  lemma {:induction false} RunInv(p: Pool, now: nat, es: seq<Event>, last: Pool, exact: bool)
    requires Inv(p, now, exact) && IsRun(p, now, es, last, exact)
    ensures exists end: nat :: Inv(last, end, exact)
    decreases |es|
  {
    if es != [] {
      hide Inv, Step, Enabled, Punctual;
      Later(p, now, es[0].at, exact);
      StepInv(p, es[0].at, es[0].action, exact);
      RunInv(Step(p, es[0].at, es[0].action), es[0].at, es[1..], last, exact);
    }
  }

  ghost predicate Empty(p: Pool)
  {
    |p.used| == |p.slots| == POOL && p.list == [] && p.ended == [] && forall i :: 0 <= i < POOL ==> !p.used[i]
  }

  /** Over every run: the list holds distinct allocated slots of the pool, and a
      confirmable transaction that its creator sent first and that was given up
      went out exactly five times, each time after the timeout set for it and, in runs
      that serve timers on time, at that very moment. */
  lemma GivenUpAfterFive(p: Pool, es: seq<Event>, last: Pool, e: Ended, exact: bool)
    requires Empty(p) && IsRun(p, 0, es, last, exact) && e in last.ended
    ensures Valid(last) && |last.list| <= POOL
    ensures e.transaction.ofCreator && e.transaction.confirmable && e.how != Cleared ==>
              e.how == TimedOut && |e.transaction.sends| == 5 && Spaced(e.transaction.sends, e.transaction.base, exact)
  {
    assert Inv(p, 0, exact);
    RunInv(p, 0, es, last, exact);
    var end: nat :| Inv(last, end, exact);
    assert EndedRight(e, exact);
    DistinctBound(last.list, POOL);
  }

  /** As long as it is open it has gone out one to four times, and its timer is
      set for the next time or has run out for it. */
  lemma OpenOnSchedule(p: Pool, es: seq<Event>, last: Pool, i: nat, exact: bool)
    requires Empty(p) && IsRun(p, 0, es, last, exact) && i in last.list
    ensures i < |last.slots|
    ensures last.slots[i].ofCreator && last.slots[i].confirmable ==>
              1 <= |last.slots[i].sends| <= 4 && Spaced(last.slots[i].sends, last.slots[i].base, exact)
  {
    assert Inv(p, 0, exact);
    RunInv(p, 0, es, last, exact);
    var end: nat :| Inv(last, end, exact);
    assert Open(last.slots[i], end, exact);
  }

  /** Served on time, a transaction that is given up has gone out at the start and T, 3T,
      7T and 15T after it, where T is the timeout drawn first. */
  lemma OnTimeSchedule(p: Pool, es: seq<Event>, last: Pool, e: Ended)
    requires Empty(p) && IsRun(p, 0, es, last, true) && e in last.ended
    requires e.transaction.ofCreator && e.transaction.confirmable && e.how != Cleared
    ensures |e.transaction.sends| == 5
    ensures var s, t := e.transaction.sends[0], e.transaction.base;
            e.transaction.sends == [s, s + t, s + 3 * t, s + 7 * t, s + 15 * t]
  {
    GivenUpAfterFive(p, es, last, e, true);
    hide IsRun;
    var sends, t := e.transaction.sends, e.transaction.base;
    assert Pow2(0) == 1 && Pow2(1) == 2 && Pow2(2) == 4 && Pow2(3) == 8;
    assert Gap(sends, t, 0, true) && Gap(sends, t, 1, true) && Gap(sends, t, 2, true) && Gap(sends, t, 3, true);
  }

  // ------------------------------------------------------------------
  // Serving on time
  // ------------------------------------------------------------------

  /** The `i`-th transaction of the list. */
  ghost function Listed(p: Pool, i: nat): Transaction
    requires Valid(p) && i < |p.list|
  {
    assert p.list[i] in p.list;
    p.slots[p.list[i]]
  }

  /** One poll may not be enough: it ends where a transaction is given up, and those
      behind it are as they were. */
  lemma {:induction false} PollStopsAtGivenUp(p: Pool, j: nat, k: nat, now: nat)
    requires Valid(p) && j <= k < |p.list|
    requires forall i :: j <= i < k ==> Listed(p, i).timer.Armed?
    requires var t := Listed(p, k); t.timer == Idle && t.confirmable && t.counter + 1 >= MAX_RETRANSMIT
    ensures var q := CheckFrom(p, j, now);
            && Valid(q) && p.list[k] !in q.list
            && forall i :: k < i < |p.list| ==> p.list[i] in q.list && q.slots[p.list[i]] == Listed(p, i)
    decreases k - j
  {
    assert p.list[j] in p.list && p.list[k] in p.list;
    hide Distinct;
    if j < k {
      assert Listed(p, j).timer.Armed?;
      PollStopsAtGivenUp(p, j + 1, k, now);
    } else {
      RetransmitKeeps(p, p.list[k], now);
      RemoveMembers(p.list, p.list[k]);
      RemoveShorter(p.list, p.list[k]);
      forall i | k < i < |p.list|
        ensures p.list[i] in Remove(p.list, p.list[k]) && p.list[i] != p.list[k]
      {
        assert p.list[i] in p.list;
      }
    }
  }

  /** But a few are: a poll leaves no timer idle, or takes a transaction off the list. */
  lemma {:induction false} PollServes(p: Pool, k: nat, now: nat)
    requires Valid(p)
    requires forall i :: 0 <= i < k && i < |p.list| ==> Listed(p, i).timer.Armed?
    ensures var q := CheckFrom(p, k, now);
            && Valid(q) && |q.list| <= |p.list|
            && (|q.list| == |p.list| ==> q.list == p.list && forall i :: 0 <= i < |q.list| ==> Listed(q, i).timer.Armed?)
    decreases |p.list| - k
  {
    hide Retransmit, Distinct;
    if k < |p.list| {
      assert p.list[k] in p.list;
      if p.slots[p.list[k]].timer.Armed? {
        PollServes(p, k + 1, now);
      } else {
        var q := Retransmit(p, p.list[k], now);
        RetransmitKeeps(p, p.list[k], now);
        if |q.list| == |p.list| {
          RetransmitArms(p, k, now);
          forall i | 0 <= i < k + 1 && i < |q.list|
            ensures Listed(q, i).timer.Armed?
          {
            if i < k { assert Listed(q, i) == Listed(p, i); }
          }
          PollServes(q, k + 1, now);
        }
      }
    }
  }

  lemma RetransmitArms(p: Pool, k: nat, now: nat)
    requires Valid(p) && k < |p.list| && p.list[k] < POOL && |Retransmit(p, p.list[k], now).list| == |p.list|
    ensures var q := Retransmit(p, p.list[k], now);
            && Valid(q) && q.list == p.list && Listed(q, k).timer.Armed?
            && forall i :: 0 <= i < |q.list| && i != k ==> Listed(q, i) == Listed(p, i)
  {
    assert p.list[k] in p.list;
    RetransmitKeeps(p, p.list[k], now);
    RemoveShorter(p.list, p.list[k]);
    forall i | 0 <= i < |p.list| && i != k
      ensures p.list[i] != p.list[k] && p.list[i] < POOL
    {
      assert p.list[i] in p.list;
    }
  }

  /** A lone transaction on schedule, its timer running. */
  ghost predicate Lone(p: Pool, now: nat)
  {
    && Valid(p) && p.list == [0] && p.slots[0].ofCreator && p.slots[0].confirmable && p.slots[0].timer.Armed?
    && OnSchedule(p.slots[0], now, true)
  }

  /** Firing and polling it at its due time sends it again, or gives it up. */
  lemma FireAndPoll(p: Pool, now: nat)
    requires Lone(p, now)
    ensures var due := p.slots[0].timer.due;
            && now <= due && Enabled(p, due, Fire(0)) && Punctual(p, now, due)
            && Valid(Step(p, due, Fire(0)))
    ensures var due := p.slots[0].timer.due;
            var f := Step(p, due, Fire(0));
            Enabled(f, due, Poll) && Punctual(f, due, due)
    ensures var due := p.slots[0].timer.due;
            var q := Step(Step(p, due, Fire(0)), due, Poll);
            if p.slots[0].counter + 1 < MAX_RETRANSMIT
            then Lone(q, due) && q.slots[0].counter == p.slots[0].counter + 1
            else q.ended != [] && q.ended[|q.ended| - 1].how == TimedOut && q.ended[|q.ended| - 1].transaction.ofCreator
  {
    var due := p.slots[0].timer.due;
    var f := p.(slots := p.slots[0 := p.slots[0].(timer := Idle)]);
    assert OnSchedule(f.slots[0], due, true);
    NextTransmission(f.slots[0], due, true);
    RetransmitKeeps(f, 0, due);
    var q := Retransmit(f, 0, due);
    assert |q.list| == 1 ==> CheckFrom(q, 1, due) == q;
    hide OnSchedule;
  }

  /** Such runs exist: a lone transaction that nobody acknowledges can be served on time
      until it is given up. */
  lemma {:induction false} OnTimeRunExists(p: Pool, now: nat) returns (es: seq<Event>, last: Pool)
    requires Lone(p, now)
    ensures IsRun(p, now, es, last, true)
    ensures last.ended != [] && last.ended[|last.ended| - 1].how == TimedOut && last.ended[|last.ended| - 1].transaction.ofCreator
    decreases MAX_RETRANSMIT - p.slots[0].counter
  {
    FireAndPoll(p, now);
    hide Step, Enabled, Punctual, OnSchedule;
    var due := p.slots[0].timer.due;
    var f := Step(p, due, Fire(0));
    var q := Step(f, due, Poll);
    var rest := [];
    last := q;
    if p.slots[0].counter + 1 < MAX_RETRANSMIT {
      rest, last := OnTimeRunExists(q, due);
    }
    es := [Event(due, Fire(0)), Event(due, Poll)] + rest;
    assert es[1..][1..] == rest;
    assert IsRun(f, due, es[1..], last, true);
  }

  /** A poll leaves the transaction on the list. */
  predicate Survives(t: Transaction)
  {
    t.timer.Armed? || (t.confirmable && t.counter + 1 < MAX_RETRANSMIT)
  }

  /** The poll takes nothing off the list from `j` up to `k`. */
  ghost predicate AllSurvive(p: Pool, j: nat, k: nat)
    requires Valid(p) && k <= |p.list|
  {
    forall i :: j <= i < k ==> Survives(Listed(p, i))
  }

  lemma RetransmitSurvives(p: Pool, k: nat, now: nat)
    requires Valid(p) && k < |p.list| && p.list[k] < POOL && Listed(p, k).timer == Idle
    ensures |Retransmit(p, p.list[k], now).list| == |p.list| <==> Survives(Listed(p, k))
    ensures !Survives(Listed(p, k)) ==>
              forall x :: x in p.list && x != p.list[k] ==> Retransmit(p, p.list[k], now).slots[x] == p.slots[x]
  {
    assert p.list[k] in p.list;
    RetransmitKeeps(p, p.list[k], now);
    RemoveShorter(p.list, p.list[k]);
  }

  /** Transactions behind which the walk has come are done with. */
  lemma {:induction false} WalkLeaves(p: Pool, j: nat, k: nat, now: nat)
    requires Valid(p) && k < j && k < |p.list|
    ensures var q := CheckFrom(p, j, now); p.list[k] < |q.slots| && q.slots[p.list[k]] == Listed(p, k)
    decreases |p.list| - j
  {
    hide Retransmit, Distinct;
    assert p.list[k] in p.list;
    if j < |p.list| {
      assert p.list[j] in p.list;
      if Listed(p, j).timer.Armed? {
        WalkLeaves(p, j + 1, k, now);
      } else {
        var q := Retransmit(p, p.list[j], now);
        RetransmitKeeps(p, p.list[j], now);
        RetransmitSurvives(p, j, now);
        Apart(p.list, j, k);
        if |q.list| == |p.list| {
          RetransmitArms(p, j, now);
          assert Listed(q, k) == Listed(p, k);
          WalkLeaves(q, j + 1, k, now);
        }
      }
    }
  }

  lemma Apart(s: seq<nat>, j: nat, k: nat)
    requires Distinct(s) && j < |s| && k < |s| && j != k
    ensures s[j] != s[k]
  {
  }

  /** The transaction that the walk has come to. */
  lemma PollSends(p: Pool, k: nat, now: nat)
    requires Valid(p) && k < |p.list| && Listed(p, k).timer == Idle && Survives(Listed(p, k))
    ensures var q, t := CheckFrom(p, k, now), Listed(p, k);
            && p.list[k] < |q.slots|
            && q.slots[p.list[k]] == Rearm(t.(counter := t.counter + 1, sends := t.sends + [now]), now, 0)
  {
    assert p.list[k] in p.list;
    var q := Retransmit(p, p.list[k], now);
    RetransmitKeeps(p, p.list[k], now);
    RetransmitSurvives(p, k, now);
    RetransmitArms(p, k, now);
    WalkLeaves(q, k + 1, k, now);
  }

  /** What a poll that starts at `j` leaves of the `k`-th transaction. */
  ghost predicate Reached(p: Pool, j: nat, k: nat, now: nat, q: Pool)
    requires Valid(p) && j <= k < |p.list|
  {
    var t, x := Listed(p, k), p.list[k];
    && x < |q.slots|
    && q.slots[x] == if AllSurvive(p, j, k)
                     then Rearm(t.(counter := t.counter + 1, sends := t.sends + [now]), now, 0) else t
  }

  /** One step of the walk past the `j`-th transaction, which it retransmits. */
  lemma WalkPast(p: Pool, j: nat, k: nat, now: nat) returns (q: Pool)
    requires Valid(p) && j < k < |p.list| && Listed(p, j).timer == Idle
    ensures Valid(q) && CheckFrom(p, j, now) == if Survives(Listed(p, j)) then CheckFrom(q, j + 1, now) else q
    ensures Survives(Listed(p, j)) ==>
              q.list == p.list && Listed(q, k) == Listed(p, k) && (AllSurvive(q, j + 1, k) <==> AllSurvive(p, j, k))
    ensures !Survives(Listed(p, j)) ==> p.list[k] < |q.slots| && q.slots[p.list[k]] == Listed(p, k)
  {
    assert p.list[j] in p.list && p.list[k] in p.list;
    hide Retransmit, Distinct, Survives;
    q := Retransmit(p, p.list[j], now);
    Apart(p.list, j, k);
    RetransmitKeeps(p, p.list[j], now);
    RetransmitSurvives(p, j, now);
    if Survives(Listed(p, j)) {
      RetransmitArms(p, j, now);
      SurviveAlike(p, q, j, k);
    }
  }

  /** Whether a poll reaches a transaction whose timer is not running: exactly if it takes
      none off the list before it. */
  lemma {:induction false} PollReaches(p: Pool, j: nat, k: nat, now: nat)
    requires Valid(p) && j <= k < |p.list| && Listed(p, k).timer == Idle && Survives(Listed(p, k))
    ensures Reached(p, j, k, now, CheckFrom(p, j, now))
    decreases k - j
  {
    hide Retransmit, Rearm, Survives, Valid;
    if j == k {
      PollSends(p, k, now);
    } else if Listed(p, j).timer.Armed? {
      ArmedSurvives(p, j, k);
      PollReaches(p, j + 1, k, now);
      hide AllSurvive;
    } else {
      var q := WalkPast(p, j, k, now);
      if Survives(Listed(p, j)) {
        PollReaches(q, j + 1, k, now);
      }
    }
  }

  lemma ArmedSurvives(p: Pool, j: nat, k: nat)
    requires Valid(p) && j < k <= |p.list| && Listed(p, j).timer.Armed?
    ensures AllSurvive(p, j + 1, k) <==> AllSurvive(p, j, k)
  {
  }

  lemma SurviveAlike(p: Pool, q: Pool, j: nat, k: nat)
    requires Valid(p) && Valid(q) && q.list == p.list && j < k < |p.list| && Survives(Listed(p, j))
    requires forall i :: 0 <= i < |q.list| && i != j ==> Listed(q, i) == Listed(p, i)
    ensures Listed(q, k) == Listed(p, k) && (AllSurvive(q, j + 1, k) <==> AllSurvive(p, j, k))
  {
    assert forall i :: j < i <= k ==> Listed(q, i) == Listed(p, i);
  }

  /** A poll between creation and the creator's send takes the timer that was
      never started for an expired one: the message goes out as a
      retransmission, wherever in the list it is, exactly if the poll gets that far. */
  lemma PollBeforeSend(p: Pool, k: nat, now: nat)
    requires Valid(p) && k < |p.list| && Listed(p, k).confirmable
    requires var t := Listed(p, k); t.sends == [] && t.timer == Idle && t.counter == 0
    ensures var q, t := CheckFrom(p, 0, now), Listed(p, k);
            && p.list[k] < |q.slots|
            && var r := q.slots[p.list[k]];
               if AllSurvive(p, 0, k)
               then r.counter == 1 && r.sends == [now] && r.interval == 2 * t.interval && r.timer.Armed?
               else r == t
  {
    assert p.list[k] in p.list;
    PollReaches(p, 0, k, now);
  }

  // ------------------------------------------------------------------
  // In place
  // ------------------------------------------------------------------

  /** The static pool and list. */
  class Layer {
    var used: seq<bool>
    var slots: seq<Transaction>
    var list: seq<nat>
    ghost var ended: seq<Ended>

    constructor ()
      ensures Empty(State()) && Valid(State())
    {
      used := [false, false, false, false];
      var t := Transaction(0, false, 0, 0, Idle, [], 0, false);
      slots := [t, t, t, t];
      list, ended := [], [];
    }

    ghost function State(): Pool
      reads this
    {
      Pool(used, slots, list, ended)
    }

    /** `coap_new_transaction`. */
    method NewTransaction(mid: nat, confirmable: bool) returns (slot: nat)
      requires Valid(State())
      modifies this
      ensures State() == New(old(State()), mid, confirmable) && Valid(State())
      ensures slot == FirstFree(old(used)) && (slot == POOL <==> |old(list)| == POOL)
      ensures slot < POOL ==> slot in list && slot !in old(list) && slots[slot].mid == mid
    {
      NewKeeps(State(), mid, confirmable);
      slot := Allocate();
      if slot < POOL {
        RemoveAbsent(list, slot);
        slots := slots[slot := Transaction(mid, confirmable, 0, slots[slot].interval, Idle, [], 0, false)];
        used := used[slot := true];
        list := ListRemove(slot);
        list := list + [slot];
      } else {
        DistinctBound(list, POOL);
      }
    }

    /** The loop of `memb_alloc`. */
    method Allocate() returns (i: nat)
      requires |used| == POOL
      ensures i == FirstFree(used)
    {
      i := 0;
      assert used[0..] == used;
      while i < POOL && used[i]
        invariant i <= POOL && FirstFree(used) == i + FirstFree(used[i..])
      {
        assert used[i..][1..] == used[i + 1..];
        i := i + 1;
      }
    }

    /** The loop of `list_remove`. */
    method ListRemove(x: nat) returns (r: seq<nat>)
      ensures r == Remove(list, x)
    {
      hide Remove;
      var k := 0;
      r := [];
      assert list[0..] == list;
      while k < |list| && list[k] != x
        invariant k <= |list| && Remove(list, x) == r + Remove(list[k..], x)
      {
        RemoveFrom(list, k, x);
        assert r + ([list[k]] + Remove(list[k + 1..], x)) == (r + [list[k]]) + Remove(list[k + 1..], x);
        r := r + [list[k]];
        k := k + 1;
      }
      RemoveFrom(list, k, x);
      if k < |list| {
        r := r + list[k + 1..];
      }
    }

    /** `coap_clear_transaction`. */
    method ClearTransaction(i: nat, ghost how: Ending)
      requires |used| == |slots| == POOL && i < POOL
      modifies this
      ensures State() == Clear(old(State()), i, how)
    {
      ended := ended + [Ended(slots[i], how)];
      slots := slots[i := slots[i].(timer := Idle)];
      list := ListRemove(i);
      used := used[i := false];
    }

    /** `coap_send_transaction`. */
    method SendTransaction(i: nat, now: nat, draw: nat)
      requires |used| == |slots| == POOL && i < POOL
      modifies this
      ensures State() == Transmit(old(State()), i, now, draw)
    {
      slots := slots[i := slots[i].(sends := slots[i].sends + [now])];
      var t := slots[i];
      if !t.confirmable {
        ClearTransaction(i, SentOnce);
      } else if t.counter < MAX_RETRANSMIT {
        if t.counter == 0 {
          t := t.(interval := draw, base := draw);
        } else {
          t := t.(interval := 2 * t.interval);
        }
        slots := slots[i := t.(timer := Armed(now + t.interval))];
        assert slots == old(slots)[i := Rearm(old(slots)[i].(sends := old(slots)[i].sends + [now]), now, draw)];
      } else {
        ClearTransaction(i, TimedOut);
      }
    }

    /** `coap_get_transaction_by_mid`: the first on the list with that id. */
    method FindByMid(mid: nat) returns (slot: nat)
      requires Valid(State())
      ensures slot < POOL ==> slot in list && slots[slot].mid == mid
      ensures slot == POOL ==> forall x :: x in list ==> slots[x].mid != mid
      ensures slot <= POOL
    {
      for k := 0 to |list|
        invariant forall j :: 0 <= j < k ==> list[j] < POOL && slots[list[j]].mid != mid
      {
        assert list[k] in list;
        if slots[list[k]].mid == mid {
          return list[k];
        }
      }
      return POOL;
    }

    /** `coap_check_transactions`. */
    method CheckTransactions(now: nat)
      requires Valid(State())
      modifies this
      ensures State() == CheckFrom(old(State()), 0, now) && Valid(State())
    {
      hide Remove;
      var k := 0;
      while k < |list|
        invariant Valid(State()) && CheckFrom(old(State()), 0, now) == CheckFrom(State(), k, now)
        decreases |list| - k
      {
        assert list[k] in list;
        if !slots[list[k]].timer.Armed? {
          var i, before := list[k], |list|;
          RetransmitKeeps(State(), i, now);
          slots := slots[i := slots[i].(counter := slots[i].counter + 1)];
          SendTransaction(i, now, 0);
          if |list| < before {
            return;
          }
        }
        k := k + 1;
      }
    }
  }

  /** `Remove` unfolded once at position `k`. */
  lemma RemoveFrom(s: seq<nat>, k: nat, x: nat)
    requires k <= |s|
    ensures k == |s| ==> Remove(s[k..], x) == []
    ensures k < |s| && s[k] == x ==> Remove(s[k..], x) == s[k + 1..]
    ensures k < |s| && s[k] != x ==> Remove(s[k..], x) == [s[k]] + Remove(s[k + 1..], x)
  {
    if k < |s| { assert s[k..][1..] == s[k + 1..]; }
  }

  lemma RemoveAbsent(list: seq<nat>, i: nat)
    requires Distinct(list) && i !in list
    ensures Remove(list, i) == list
  {
    RemoveMembers(list, i);
  }
}
