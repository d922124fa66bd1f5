/** tunslip's SLIP link: packets are escaped into a queue that the serial line
    drains a few bytes at a time, and the bytes are put together again by a
    reader that may be cut off anywhere, even inside an escape pair (RFC 1055).
 */
module Slip {
  import opened Machine
  import opened Checksum

  const END: Byte := 192
  const ESC: Byte := 219
  const ESC_END: Byte := 220
  const ESC_ESC: Byte := 221

  // ------------------------------------------------------------------
  // Framing
  // ------------------------------------------------------------------

  function EscapeByte(c: Byte): (r: seq<Byte>)
    ensures 1 <= |r| <= 2
  {
    if c == END then [ESC, ESC_END] else if c == ESC then [ESC, ESC_ESC] else [c]
  }

  function Escape(p: seq<Byte>): (r: seq<Byte>)
    ensures |r| >= |p|
  {
    if p == [] then [] else EscapeByte(p[0]) + Escape(p[1..])
  }

  function Frame(p: seq<Byte>): (r: seq<Byte>)
    ensures |r| > |p|
  {
    Escape(p) + [END]
  }

  lemma {:induction false} EscapeAppend(p: seq<Byte>, c: Byte)
    ensures Escape(p + [c]) == Escape(p) + EscapeByte(c)
  {
    if p == [] {
      assert [c][1..] == [];
      assert Escape([c]) == EscapeByte(c) + [];
    } else {
      assert (p + [c])[1..] == p[1..] + [c];
      EscapeAppend(p[1..], c);
    }
  }

  lemma {:induction false} EscapeSplit(p: seq<Byte>, i: nat)
    requires i <= |p|
    ensures Escape(p) == Escape(p[..i]) + Escape(p[i..])
  {
    if i == 0 {
      assert p[..0] == [] && p[0..] == p;
    } else {
      EscapeSplit(p[1..], i - 1);
      assert p[1..][..i - 1] == p[..i][1..] && p[1..][i - 1..] == p[i..];
    }
  }

  // ------------------------------------------------------------------
  // The reader
  // ------------------------------------------------------------------

  /** The reader's static state: its buffer, stale bytes included, and how many
      bytes of the current packet it holds. */
  datatype Reader = Reader(inbuf: seq<Byte>, held: nat)
  {
    predicate Valid() { |inbuf| == BUFFER && held < BUFFER }
  }

  /** The wrap made before every byte but the first of a call. */
  function Wrap(held: nat): nat
  {
    if held >= BUFFER then 0 else held
  }

  function Store(s: Reader, c: Byte): (r: Reader)
    requires s.Valid()
    ensures r.Valid()
  {
    Reader(s.inbuf[s.held := c], Wrap(s.held + 1))
  }

  function Unescape(c: Byte): Byte
  {
    if c == ESC_END then END else if c == ESC_ESC then ESC else c
  }

  datatype Received = Received(state: Reader, packets: seq<seq<Byte>>, pushedBack: seq<Byte>)

  /** At an END the bytes held are a packet for the tunnel if `check_ip` accepts
      them, and are otherwise used up as an address report or debug text. */
  function Finish(s: Reader): (r: Received)
    requires s.Valid()
    ensures r.state.Valid()
  {
    if s.held == 0 || Check(s.inbuf, s.held) < 0 then Received(s.(held := 0), [], [])
    else Received(s.(held := 0), [s.inbuf[..s.held]], [])
  }

  function Prepend(packets: seq<seq<Byte>>, r: Received): Received
  {
    r.(packets := packets + r.packets)
  }

  /** All of `input` fed to the reader: the packets it writes to the tunnel, its
      state at the end, and the escape byte it pushes back when cut off there. */
  function Receive(s: Reader, input: seq<Byte>): (r: Received)
    requires s.Valid()
    ensures r.state.Valid()
    ensures r.pushedBack == [] || r.pushedBack == [ESC]
    decreases |input|
  {
    if input == [] then Received(s, [], [])
    else if input[0] == END then
      var f := Finish(s);
      Prepend(f.packets, Receive(f.state, input[1..]))
    else if input[0] == ESC then
      if |input| == 1 then Received(s, [], [ESC])
      else Receive(Store(s, Unescape(input[1])), input[2..])
    else Receive(Store(s, input[0]), input[1..])
  }

  /** Where a read is cut off does not matter: reading `a`, then what was pushed
      back followed by `b`, is reading `a + b`. */
  lemma {:induction false} ReceiveSplit(s: Reader, a: seq<Byte>, b: seq<Byte>)
    requires s.Valid()
    ensures var first := Receive(s, a);
            Receive(s, a + b) == Prepend(first.packets, Receive(first.state, first.pushedBack + b))
    decreases |a|
  {
    var first := Receive(s, a);
    if a == [] {
      assert a + b == b && [] + b == b;
    } else if a[0] == END {
      assert (a + b)[1..] == a[1..] + b;
      ReceiveSplit(Finish(s).state, a[1..], b);
      var rest := Receive(Finish(s).state, a[1..]);
      var last := Receive(rest.state, rest.pushedBack + b);
      assert Finish(s).packets + (rest.packets + last.packets) == first.packets + last.packets;
    } else if a[0] == ESC {
      if |a| == 1 {
        assert a == [ESC];
      } else {
        assert (a + b)[2..] == a[2..] + b;
        ReceiveSplit(Store(s, Unescape(a[1])), a[2..], b);
      }
    } else {
      assert (a + b)[1..] == a[1..] + b;
      ReceiveSplit(Store(s, a[0]), a[1..], b);
    }
  }

  /** The reader of `serial_to_tun`, updated in place. */
  class SerialReader {
    const inbuf: array<Byte>
    var inbufptr: nat

    constructor (buffer: array<Byte>)
      requires buffer.Length == BUFFER
      ensures inbuf == buffer && State() == Reader(buffer[..], 0) && State().Valid()
    {
      inbuf := buffer;
      inbufptr := 0;
    }

    function State(): Reader
      reads this, inbuf
    {
      Reader(inbuf[..], inbufptr)
    }

    /** The END case. */
    method FinishPacket() returns (packets: seq<seq<Byte>>)
      requires State().Valid()
      modifies this
      ensures Received(State(), packets, []) == Finish(old(State()))
    {
      hide Check;
      packets := [];
      if inbufptr > 0 {
        var ecode := CheckIp(inbuf, inbufptr);
        if ecode >= 0 {
          packets := [inbuf[..inbufptr]];
          assert inbuf[..inbufptr] == inbuf[..][..inbufptr];
        }
        inbufptr := 0;
      }
    }

    method StoreByte(c: Byte)
      requires State().Valid()
      modifies this, inbuf
      ensures State() == Store(old(State()), c)
    {
      inbuf[inbufptr] := c;
      inbufptr := inbufptr + 1;
      if inbufptr >= BUFFER {
        inbufptr := 0;
      }
    }

    /** One call of `serial_to_tun` with `input` waiting on the line. */
    method SerialToTun(input: seq<Byte>) returns (packets: seq<seq<Byte>>, pushedBack: seq<Byte>)
      requires State().Valid()
      modifies this, inbuf
      ensures State().Valid()
      ensures Received(State(), packets, pushedBack) == Receive(old(State()), input)
    {
      hide Receive, Finish, Store;
      packets := [];
      pushedBack := [];
      var i := 0;
      assert input[0..] == input;
      while i < |input|
        invariant i <= |input| && State().Valid()
        invariant Receive(old(State()), input) == Prepend(packets, Receive(State(), input[i..]))
        invariant pushedBack == []
      {
        ghost var before := State();
        ReceiveStep(before, input, i);
        if input[i] == END {
          var done := FinishPacket();
          PrependTwice(packets, done, Receive(State(), input[i + 1..]));
          packets := packets + done;
          i := i + 1;
        } else if input[i] == ESC {
          if i + 1 == |input| {
            pushedBack := [ESC];
            return;
          }
          StoreByte(Unescape(input[i + 1]));
          i := i + 2;
        } else {
          StoreByte(input[i]);
          i := i + 1;
        }
      }
      ReceiveNothing(State(), input[i..]);
    }
  }

  lemma PrependTwice(a: seq<seq<Byte>>, b: seq<seq<Byte>>, r: Received)
    ensures Prepend(a, Prepend(b, r)) == Prepend(a + b, r)
  {
    assert a + (b + r.packets) == (a + b) + r.packets;
  }

  lemma ReceiveNothing(s: Reader, input: seq<Byte>)
    requires s.Valid() && input == []
    ensures Receive(s, input) == Received(s, [], [])
  {
  }

  /** `Receive` unfolded once at position `i`. */
  lemma ReceiveStep(s: Reader, input: seq<Byte>, i: nat)
    requires s.Valid() && i < |input|
    ensures input[i] == END ==> Receive(s, input[i..]) == Prepend(Finish(s).packets, Receive(Finish(s).state, input[i + 1..]))
    ensures input[i] == ESC && i + 1 == |input| ==> Receive(s, input[i..]) == Received(s, [], [ESC])
    ensures input[i] == ESC && i + 1 < |input| ==>
              Receive(s, input[i..]) == Receive(Store(s, Unescape(input[i + 1])), input[i + 2..])
    ensures input[i] != END && input[i] != ESC ==> Receive(s, input[i..]) == Receive(Store(s, input[i]), input[i + 1..])
  {
    var t := input[i..];
    assert t[0] == input[i] && t[1..] == input[i + 1..];
    if i + 1 < |input| { assert t[1] == input[i + 1] && t[2..] == input[i + 2..]; }
  }

  // ------------------------------------------------------------------
  // One packet through the reader
  // ------------------------------------------------------------------

  lemma ReceiveOne(s: Reader, c: Byte, tail: seq<Byte>)
    requires s.Valid()
    ensures Receive(s, EscapeByte(c) + tail) == Receive(Store(s, c), tail)
  {
    var input := EscapeByte(c) + tail;
    assert input[0..] == input && input[|EscapeByte(c)|..] == tail;
    hide Receive, Store;
    ReceiveStep(s, input, 0);
  }

  /** An escape before a byte that needs none is passed over, and what follows is stored even
      if it ends a packet elsewhere. */
  lemma StrayEscape(s: Reader, c: Byte, tail: seq<Byte>)
    requires s.Valid() && c != ESC_END && c != ESC_ESC
    ensures Receive(s, [ESC, c] + tail) == Receive(Store(s, c), tail)
  {
    var input := [ESC, c] + tail;
    assert input[0..] == input && input[2..] == tail;
    hide Receive, Store;
    ReceiveStep(s, input, 0);
  }

  /** Feeding the escaped bytes of `p` stores them after those held. */
  lemma {:induction false} ReceiveEscaped(s: Reader, p: seq<Byte>, tail: seq<Byte>)
    requires s.Valid() && s.held + |p| < BUFFER
    ensures var t := Reader(s.inbuf[..s.held] + p + s.inbuf[s.held + |p|..], s.held + |p|);
            t.Valid() && Receive(s, Escape(p) + tail) == Receive(t, tail)
    decreases |p|
  {
    if p == [] {
      assert Escape(p) + tail == tail;
      assert s.inbuf[..s.held] + p + s.inbuf[s.held + |p|..] == s.inbuf;
    } else {
      var n := Store(s, p[0]);
      assert Escape(p) + tail == EscapeByte(p[0]) + (Escape(p[1..]) + tail);
      ReceiveOne(s, p[0], Escape(p[1..]) + tail);
      hide Receive, Escape;
      ReceiveEscaped(n, p[1..], tail);
      assert n.inbuf[..n.held] + p[1..] + n.inbuf[n.held + |p[1..]|..]
          == s.inbuf[..s.held] + p + s.inbuf[s.held + |p|..];
    }
  }

  /** The bytes `check_ip` looks at all lie inside the packet. */
  predicate SelfContained(p: seq<Byte>)
  {
    && 20 <= |p| < BUFFER
    && 4 * (p[0] % 16) <= |p|
    && (p[9] == 17 ==> |p| >= 28)
  }

  lemma CheckIgnoresRest(b: seq<Byte>, c: seq<Byte>, n: nat)
    requires |b| == |c| == BUFFER && n < BUFFER && b[..n] == c[..n]
    requires SelfContained(b[..n])
    ensures Check(b, n) == Check(c, n)
  {
    var hl := HeaderLength(b);
    SlicesAgree(b, c, n, 0, hl);
    assert b[0..hl] == b[..hl] && c[0..hl] == c[..hl];
    SlicesAgree(b, c, n, 12, 20);
    SlicesAgree(b, c, n, hl, n);
    assert b[..n][0] == c[..n][0] && b[..n][9] == c[..n][9] && b[..n][2] == c[..n][2] && b[..n][3] == c[..n][3];
    if n >= 28 { assert b[..n][26] == c[..n][26] && b[..n][27] == c[..n][27]; }
    hide SumsToZero, Word16;
  }

  lemma SlicesAgree(b: seq<Byte>, c: seq<Byte>, n: nat, i: nat, j: nat)
    requires n <= |b| && n <= |c| && b[..n] == c[..n] && i <= j <= n
    ensures b[i..j] == c[i..j]
  {
    assert b[i..j] == b[..n][i..j] && c[i..j] == c[..n][i..j];
  }

  /** The reader's buffer once `p` has been stored over its front. */
  function Overlaid(s: Reader, p: seq<Byte>): (b: seq<Byte>)
    requires s.Valid() && |p| <= BUFFER
    ensures |b| == BUFFER && b[..|p|] == p
  {
    p + s.inbuf[|p|..]
  }

  /** A framed packet is delivered if and only if `check_ip` accepts it together
      with the reader's leftover bytes; either way it is left in the buffer and the
      reader is ready again. */
  lemma FrameDeliversIff(s: Reader, p: seq<Byte>)
    requires s.Valid() && s.held == 0 && |p| < BUFFER
    ensures var r := Receive(s, Frame(p));
            && r.packets == (if p != [] && Check(Overlaid(s, p), |p|) == 0 then [p] else [])
            && r.state == Reader(Overlaid(s, p), 0) && r.pushedBack == []
  {
    ReceiveEscaped(s, p, [END]);
    hide Escape, Store, Check;
    var t := Reader(s.inbuf[..s.held] + p + s.inbuf[s.held + |p|..], s.held + |p|);
    assert t.inbuf == Overlaid(s, p);
    assert [END][1..] == [];
    assert Receive(t, [END]) == Prepend(Finish(t).packets, Receive(Finish(t).state, []));
  }

  /** A packet of the buffer's size or more fills it and starts over at its front. */
  lemma LongFrameStartsOver(s: Reader, p: seq<Byte>)
    requires s.Valid() && s.held == 0 && |p| >= BUFFER
    ensures Receive(s, Frame(p)) == Receive(Reader(p[..BUFFER], 0), Frame(p[BUFFER..]))
  {
    var front, c, rest := p[..BUFFER - 1], p[BUFFER - 1], p[BUFFER..];
    assert p == front + ([c] + rest);
    EscapeSplit(p, BUFFER - 1);
    assert p[..BUFFER - 1] == front && p[BUFFER - 1..] == [c] + rest && ([c] + rest)[1..] == rest;
    assert Escape([c] + rest) == EscapeByte(c) + Escape(rest);
    assert Frame(p) == Escape(front) + (EscapeByte(c) + Frame(rest));
    hide Receive, Escape, EscapeByte;
    ReceiveEscaped(s, front, EscapeByte(c) + Frame(rest));
    var t := Reader(s.inbuf[..s.held] + front + s.inbuf[s.held + |front|..], s.held + |front|);
    ReceiveOne(t, c, Frame(rest));
    assert t.inbuf[BUFFER - 1 := c] == p[..BUFFER];
  }

  /** What is left of `p` when as many whole buffers as fit are taken off its front. */
  function End(p: seq<Byte>): (e: seq<Byte>)
    ensures |e| < BUFFER && |e| <= |p|
  {
    if |p| < BUFFER then p else End(p[BUFFER..])
  }

  /** The last whole buffer before that, or `before` if there is none. */
  function LastWhole(before: seq<Byte>, p: seq<Byte>): (b: seq<Byte>)
    requires |before| == BUFFER
    ensures |b| == BUFFER
    decreases |p|
  {
    if |p| < BUFFER then before else LastWhole(p[..BUFFER], p[BUFFER..])
  }

  lemma {:induction false} EndIsLast(p: seq<Byte>)
    ensures |End(p)| == |p| % BUFFER && p[|p| - |End(p)|..] == End(p)
  {
    if |p| >= BUFFER { EndIsLast(p[BUFFER..]); }
  }

  /** So of a packet of any length it is the end that is checked, over the rest of the last
      whole buffer, and delivered. */
  lemma {:induction false} LongFrameDeliversIff(s: Reader, p: seq<Byte>)
    requires s.Valid() && s.held == 0
    ensures var n, b := |End(p)|, End(p) + LastWhole(s.inbuf, p)[|End(p)|..];
            && |b| == BUFFER
            && Receive(s, Frame(p)).packets == if n != 0 && Check(b, n) == 0 then [End(p)] else []
    decreases |p|
  {
    hide Receive, Frame, Check;
    if |p| < BUFFER {
      FrameDeliversIff(s, p);
    } else {
      LongFrameStartsOver(s, p);
      LongFrameDeliversIff(Reader(p[..BUFFER], 0), p[BUFFER..]);
    }
  }

  /** A buffer whose first four bytes are a packet that passes for IP; `proto`
      is a stale byte behind it. */
  function Short(proto: Byte): (b: seq<Byte>)
    ensures |b| == BUFFER && b[..4] == [64, 0, 0, 4]
  {
    seq(BUFFER, i => if i == 0 then 64 else if i == 3 then 4 else if i == 9 then proto else 0)
  }

  /** Short packets are judged by what an earlier packet left in the buffer. */
  lemma StaleBytesDecide()
    ensures Check(Short(0), 4) == 0 && Check(Short(6), 4) == -5
  {
    var b, c := Short(0), Short(6);
    assert b[0..4] == b[..4] && c[0..4] == c[..4] && b[9] == 0 && c[9] == 6;
    AllZero(c[12..20]);
    hide Short;
    ShortVerdict(b);
    ShortVerdict(c);
  }

  lemma ShortVerdict(b: seq<Byte>)
    requires |b| == BUFFER && b[0..4] == [64, 0, 0, 4]
    ensures b[9] == 0 ==> Check(b, 4) == 0
    ensures b[9] == 6 && Total(b[12..20]) == 0 ==> Check(b, 4) == -5
  {
    FourBytes(64, 0, 0, 4);
    NoBytes(b[..0]);
    hide Total;
    assert b[0] == b[0..4][0] && b[2] == b[0..4][2] && b[3] == b[0..4][3];
    assert HeaderLength(b) == 0 && Word16(b, 2) == 4;
  }

  lemma NoBytes(s: seq<Byte>)
    requires s == []
    ensures Total(s) == 0
  {
  }

  lemma FourBytes(w: Byte, x: Byte, y: Byte, z: Byte)
    ensures Total([w, x, y, z]) == Join(w, x) + Join(y, z)
  {
    TotalSplit([w, x, y, z], 2);
    assert [w, x, y, z][..2] == [w, x] && [w, x, y, z][2..] == [y, z];
    assert [w, x][2..] == [] && [y, z][2..] == [];
  }

  lemma {:induction false} AllZero(s: seq<Byte>)
    requires forall i :: 0 <= i < |s| ==> s[i] == 0
    ensures Total(s) == 0
    decreases |s|
  {
    if |s| >= 2 { AllZero(s[2..]); }
  }

  // ------------------------------------------------------------------
  // The writer and its queue
  // ------------------------------------------------------------------

  /** Whether `write_to_serial` gives the packet a number of its own. The flag
      word is read in host order, so on a little-endian machine the bit tested
      is one of the fragment offset, not "don't fragment". */
  predicate NeedsId(b: seq<Byte>)
    requires |b| == BUFFER
  {
    Word16(b, 4) == 0 && (b[7] / 64) % 2 == 1
  }

  function Prepared(b: seq<Byte>, id: Word): (r: seq<Byte>)
    requires |b| == BUFFER
    ensures |r| == BUFFER
  {
    if NeedsId(b) then Renumbered(b, id) else b
  }

  predicate Accepted(b: seq<Byte>, n: nat, id: Word)
    requires |b| == BUFFER && n <= BUFFER
  {
    Check(b, n) == 0 && Check(Prepared(b, id), n) == 0
  }

  /** Numbering a packet never makes the second check drop it. */
  lemma NumberingNeverDrops(b: seq<Byte>, n: nat, id: Word)
    requires |b| == BUFFER && n <= BUFFER && HeaderLength(b) >= 20
    ensures Accepted(b, n, id) <==> Check(b, n) == 0
  {
    hide Check, Renumbered, Word16;
    if NeedsId(b) && Check(b, n) == 0 {
      IncrementalUpdateIff(b, n, id);
    }
  }

  /** An ordinary "don't fragment" packet with identification 0 is not numbered. */
  lemma DontFragmentNotSeen(b: seq<Byte>, id: Word)
    requires |b| == BUFFER
    requires Word16(b, 4) == 0 && Word16(b, 6) == 0x4000
    ensures Prepared(b, id) == b
  {
    assert b[6] as int * 256 + b[7] as int == 0x4000;
    assert b[7] == 0;
  }

  datatype Outcome = Dropped | Queued | Overflow

  /** `slip_buf` with `slip_begin` and `slip_end`, and the packet counter. */
  class SerialWriter {
    const slipBuf: array<Byte>
    var slipBegin: nat
    var slipEnd: nat
    var ipId: Word

    constructor (buffer: array<Byte>, firstId: Word)
      requires buffer.Length == BUFFER
      ensures Valid() && Pending() == [] && slipBuf == buffer && ipId == firstId
    {
      slipBuf := buffer;
      slipBegin, slipEnd := 0, 0;
      ipId := firstId;
    }

    predicate Valid()
      reads this
    {
      slipBuf.Length == BUFFER && slipBegin <= slipEnd <= BUFFER && (slipBegin == slipEnd ==> slipEnd == 0)
    }

    /** The bytes queued and not yet on the line. */
    function Pending(): seq<Byte>
      requires Valid()
      reads this, slipBuf
    {
      slipBuf[slipBegin..slipEnd]
    }

    /** `slip_send`; false where the program would exit. */
    method Send(c: Byte) returns (ok: bool)
      requires Valid()
      modifies this`slipEnd, slipBuf
      ensures Valid() && ok == (old(slipEnd) < BUFFER)
      ensures slipEnd == old(slipEnd) + if ok then 1 else 0
      ensures Pending() == old(Pending()) + if ok then [c] else []
    {
      ok := slipEnd < BUFFER;
      if ok {
        slipBuf[slipEnd] := c;
        slipEnd := slipEnd + 1;
      }
    }

    method SendEscaped(c: Byte) returns (ok: bool)
      requires Valid()
      modifies this`slipEnd, slipBuf
      ensures Valid() && ok == (old(slipEnd) + |EscapeByte(c)| <= BUFFER)
      ensures ok ==> slipEnd == old(slipEnd) + |EscapeByte(c)|
      ensures ok ==> Pending() == old(Pending()) + EscapeByte(c)
    {
      if c == END {
        ok := Send(ESC);
        if ok { ok := Send(ESC_END); }
      } else if c == ESC {
        ok := Send(ESC);
        if ok { ok := Send(ESC_ESC); }
      } else {
        ok := Send(c);
      }
    }

    /** The loop of `write_to_serial` over the packet, and the closing END. */
    method SendFrame(b: array<Byte>, n: nat) returns (ok: bool)
      requires Valid() && n <= b.Length && b != slipBuf
      modifies this`slipEnd, slipBuf
      ensures Valid() && ok == (old(slipEnd) + |Frame(b[..n])| <= BUFFER)
      ensures ok ==> Pending() == old(Pending()) + Frame(b[..n])
    {
      hide Escape, EscapeByte;
      var i := 0;
      ok := true;
      EscapeNothing(b[..0]);
      while i < n
        invariant i <= n && Valid()
        invariant slipEnd == old(slipEnd) + |Escape(b[..i])|
        invariant Pending() == old(Pending()) + Escape(b[..i])
      {
        EscapeAppend(b[..i], b[i]);
        assert b[..i] + [b[i]] == b[..i + 1];
        ok := SendEscaped(b[i]);
        if !ok {
          EscapeSplit(b[..n], i + 1);
          assert b[..n][..i + 1] == b[..i + 1];
          return;
        }
        i := i + 1;
      }
      ok := Send(END);
    }

    /** `write_to_serial` for the first `n` bytes of `b`. */
    method WriteToSerial(b: array<Byte>, n: nat) returns (outcome: Outcome)
      requires Valid() && b.Length == BUFFER && n <= BUFFER && b != slipBuf
      modifies this, slipBuf, b
      ensures Valid() && slipBegin == old(slipBegin)
      ensures b[..] == if Check(old(b[..]), n) == 0 then Prepared(old(b[..]), old(ipId)) else old(b[..])
      ensures outcome == Dropped <==> !Accepted(old(b[..]), n, old(ipId))
      ensures outcome == Dropped ==> Pending() == old(Pending())
      ensures outcome == Queued ==> Pending() == old(Pending()) + Frame(b[..n])
      ensures outcome != Dropped ==> (outcome == Overflow <==> old(slipEnd) + |Frame(b[..n])| > BUFFER)
      ensures ipId == if Check(old(b[..]), n) == 0 && NeedsId(old(b[..])) then (old(ipId) + 1) % 0x1_0000 else old(ipId)
    {
      hide Frame, Accepted, Check, Prepared;
      var accepted := Prepare(b, n);
      if !accepted {
        return Dropped;
      }
      var ok := SendFrame(b, n);
      return if ok then Queued else Overflow;
    }

    /** The sanity checks of `write_to_serial`, with the numbering between them. */
    method Prepare(b: array<Byte>, n: nat) returns (accepted: bool)
      requires b.Length == BUFFER && n <= BUFFER
      modifies this`ipId, b
      ensures accepted == Accepted(old(b[..]), n, old(ipId))
      ensures b[..] == if Check(old(b[..]), n) == 0 then Prepared(old(b[..]), old(ipId)) else old(b[..])
      ensures ipId == if Check(old(b[..]), n) == 0 && NeedsId(old(b[..])) then (old(ipId) + 1) % 0x1_0000 else old(ipId)
    {
      hide *;
      AcceptedSteps(b[..], n, ipId);
      var ecode := CheckIp(b, n);
      if ecode < 0 {
        return false;
      }
      var needsId := TestNeedsId(b);
      if needsId {
        Renumber(b, ipId);
        ipId := (ipId + 1) % 0x1_0000;
        ecode := CheckIp(b, n);
      }
      return ecode >= 0;
    }

    method TestNeedsId(b: array<Byte>) returns (r: bool)
      requires b.Length == BUFFER
      ensures r == NeedsId(b[..])
    {
      return b[4] == 0 && b[5] == 0 && (b[7] / 64) % 2 == 1;
    }

    /** `slip_flushbuf` when the line takes `k` bytes. */
    method Flush(k: nat) returns (out: seq<Byte>)
      requires Valid() && k <= |Pending()|
      modifies this`slipBegin, this`slipEnd
      ensures Valid() && out == old(Pending())[..k] && Pending() == old(Pending())[k..]
    {
      out := slipBuf[slipBegin..slipBegin + k];
      slipBegin := slipBegin + k;
      if slipBegin == slipEnd {
        slipBegin, slipEnd := 0, 0;
      }
    }
  }

  lemma AcceptedSteps(b: seq<Byte>, n: nat, id: Word)
    requires |b| == BUFFER && n <= BUFFER
    ensures Accepted(b, n, id) <==> Check(b, n) == 0 && Check(Prepared(b, id), n) == 0
    ensures NeedsId(b) ==> Prepared(b, id) == Renumbered(b, id)
    ensures !NeedsId(b) ==> Prepared(b, id) == b
  {
  }

  lemma EscapeNothing(p: seq<Byte>)
    requires p == []
    ensures Escape(p) == []
  {
  }

  /** Writing the identification and adding its complement to the checksum. */
  method Renumber(b: array<Byte>, id: Word)
    requires b.Length == BUFFER
    modifies b
    ensures b[..] == Renumbered(old(b[..]), id)
  {
    hide Swap, AddCarry;
    var nid: Word := 0xffff - Swap(id);
    var sum: Word := Swap(Join(b[10], b[11]));
    b[4], b[5] := id / 256, id % 256;
    sum := AddWord(sum, nid);
    b[10], b[11] := sum % 256, sum / 256;
  }

  // ------------------------------------------------------------------
  // Whole runs of the link
  // ------------------------------------------------------------------

  /** Both ends of the link, the bytes on the line between them, and what has
      been sent and delivered so far. */
  datatype Link = Link(
    pending: seq<Byte>, queueBegin: nat, wire: seq<Byte>,
    reader: Reader, pushedBack: seq<Byte>,
    sent: seq<seq<Byte>>, delivered: seq<seq<Byte>>)

  datatype Action =
    | Packet(buffer: seq<Byte>, len: nat, id: Word)
    | FlushSome(count: nat)
    | ReadSome(count: nat)

  predicate Enabled(l: Link, a: Action)
  {
    l.reader.Valid() &&
    match a
    case Packet(b, n, id) =>
      && |b| == BUFFER && n <= BUFFER
      && (Accepted(b, n, id) ==> l.queueBegin + |l.pending| + |Frame(Prepared(b, id)[..n])| <= BUFFER)
    case FlushSome(k) => k <= |l.pending|
    case ReadSome(k) => k <= |l.wire|
  }

  function Step(l: Link, a: Action): (r: Link)
    requires Enabled(l, a)
  {
    match a
    case Packet(b, n, id) =>
      if Accepted(b, n, id) then
        var p := Prepared(b, id)[..n];
        l.(pending := l.pending + Frame(p), sent := l.sent + [p])
      else l
    case FlushSome(k) =>
      l.(pending := l.pending[k..], wire := l.wire + l.pending[..k],
         queueBegin := if k == |l.pending| then 0 else l.queueBegin + k)
    case ReadSome(k) =>
      var r := Receive(l.reader, l.pushedBack + l.wire[..k]);
      l.(wire := l.wire[k..], reader := r.state, pushedBack := r.pushedBack, delivered := l.delivered + r.packets)
  }

  predicate Fitting(ps: seq<seq<Byte>>)
  {
    forall p <- ps :: |p| < BUFFER
  }

  /** The packets that get through to the tunnel when `ps` arrive one after the other at a
      reader with buffer `inbuf`, and what they leave in it: each is judged together with
      the bytes that the earlier ones left behind it. */
  function Through(inbuf: seq<Byte>, ps: seq<seq<Byte>>): (r: Received)
    requires |inbuf| == BUFFER && Fitting(ps)
    ensures r.state.Valid() && r.state.held == 0 && r.pushedBack == []
  {
    if ps == [] then Received(Reader(inbuf, 0), [], [])
    else
      var before := Through(inbuf, ps[..|ps| - 1]);
      var p := ps[|ps| - 1];
      var b := Overlaid(before.state, p);
      Received(Reader(b, 0), before.packets + (if p != [] && Check(b, |p|) == 0 then [p] else []), [])
  }

  lemma ThroughSnoc(inbuf: seq<Byte>, ps: seq<seq<Byte>>, p: seq<Byte>)
    requires |inbuf| == BUFFER && Fitting(ps) && |p| < BUFFER
    ensures Fitting(ps + [p])
    ensures var before := Through(inbuf, ps);
            Through(inbuf, ps + [p]) == Prepend(before.packets, Receive(before.state, Frame(p)))
  {
    var before := Through(inbuf, ps);
    FrameDeliversIff(before.state, p);
    assert (ps + [p])[..|ps|] == ps;
    hide Check, Receive, Frame;
  }

  /** What `check_ip` says of a packet that it judges by its own bytes. */
  ghost predicate PassesAlone(p: seq<Byte>)
  {
    SelfContained(p) ==> Check(p + seq(BUFFER - |p|, _ => 0), |p|) == 0
  }

  /** What is still under way, read to the end, is exactly what is missing. */
  ghost predicate InTransit(inbuf: seq<Byte>, l: Link)
  {
    && |inbuf| == BUFFER && l.reader.Valid() && Fitting(l.sent) && (forall p <- l.sent :: PassesAlone(p))
    && Prepend(l.delivered, Receive(l.reader, l.pushedBack + l.wire + l.pending)) == Through(inbuf, l.sent)
  }

  lemma StepKeepsTransit(inbuf: seq<Byte>, l: Link, a: Action)
    requires InTransit(inbuf, l) && Enabled(l, a)
    ensures InTransit(inbuf, Step(l, a))
  {
    var all := l.pushedBack + l.wire + l.pending;
    hide Receive, Accepted, Check, SelfContained, Frame, Prepared, Through, PassesAlone;
    match a
    case Packet(b, n, id) =>
      if Accepted(b, n, id) {
        PacketKeepsTransit(inbuf, l, b, n, id);
      }
    case FlushSome(k) =>
      var s := Step(l, a);
      assert s.pushedBack + s.wire + s.pending == all by {
        assert l.pending == l.pending[..k] + l.pending[k..];
      }
    case ReadSome(k) =>
      var input, rest := l.pushedBack + l.wire[..k], l.wire[k..] + l.pending;
      assert input + rest == all;
      ReceiveSplit(l.reader, input, rest);
      var first := Receive(l.reader, input);
      var s := Step(l, a);
      assert s.pushedBack + s.wire + s.pending == first.pushedBack + rest;
      PrependTwice(l.delivered, first.packets, Receive(first.state, first.pushedBack + rest));
  }

  lemma PacketKeepsTransit(inbuf: seq<Byte>, l: Link, b: seq<Byte>, n: nat, id: Word)
    requires InTransit(inbuf, l) && Enabled(l, Packet(b, n, id)) && Accepted(b, n, id)
    ensures InTransit(inbuf, Step(l, Packet(b, n, id)))
  {
    var p := Prepared(b, id)[..n];
    AcceptedPasses(Prepared(b, id), n);
    hide Receive, Check, SelfContained, Frame, Prepared, Accepted, Through, PassesAlone, Prepend, Fitting;
    ThroughSnoc(inbuf, l.sent, p);
    Regroup(l.pushedBack + l.wire, l.pending, Frame(p));
    AppendFrame(l.reader, l.pushedBack + l.wire + l.pending, Frame(p), l.delivered, Through(inbuf, l.sent));
  }

  lemma AppendFrame(s: Reader, all: seq<Byte>, f: seq<Byte>, delivered: seq<seq<Byte>>, so: Received)
    requires s.Valid() && so.state.Valid() && so.pushedBack == [] && Prepend(delivered, Receive(s, all)) == so
    ensures Prepend(delivered, Receive(s, all + f)) == Prepend(so.packets, Receive(so.state, f))
  {
    hide *;
    var r := Receive(s, all);
    PrependIs(delivered, r);
    assert so == Received(r.state, delivered + r.packets, r.pushedBack);
    ReceiveSplit(s, all, f);
    NothingAhead(r.pushedBack, f);
    PrependTwice(delivered, r.packets, Receive(r.state, f));
  }

  lemma Regroup(a: seq<Byte>, b: seq<Byte>, c: seq<Byte>)
    ensures a + (b + c) == (a + b) + c
  {
  }

  lemma NothingAhead(a: seq<Byte>, b: seq<Byte>)
    requires a == []
    ensures a + b == b
  {
  }

  /** A packet that was accepted in the writer's buffer passes wherever it is judged by
      its own bytes. */
  lemma AcceptedPasses(b: seq<Byte>, n: nat)
    requires |b| == BUFFER && n < BUFFER && Check(b, n) == 0
    ensures PassesAlone(b[..n])
  {
    if SelfContained(b[..n]) {
      CheckIgnoresRest(b, b[..n] + seq(BUFFER - n, _ => 0), n);
    }
  }

  lemma PrependIs(a: seq<seq<Byte>>, r: Received)
    ensures Prepend(a, r) == Received(r.state, a + r.packets, r.pushedBack)
  {
  }

  /** The states of a run from `l` under `acts`. */
  ghost predicate IsRun(l: Link, acts: seq<Action>, last: Link)
    decreases |acts|
  {
    if acts == [] then last == l
    else Enabled(l, acts[0]) && IsRun(Step(l, acts[0]), acts[1..], last)
  }

  lemma {:induction false} RunKeepsTransit(inbuf: seq<Byte>, l: Link, acts: seq<Action>, last: Link)
    requires InTransit(inbuf, l) && IsRun(l, acts, last)
    ensures InTransit(inbuf, last)
    decreases |acts|
  {
    hide InTransit, Enabled, Step;
    if acts != [] {
      StepKeepsTransit(inbuf, l, acts[0]);
      RunKeepsTransit(inbuf, Step(l, acts[0]), acts[1..], last);
    }
  }

  function Idle(inbuf: seq<Byte>): Link
  {
    Link([], 0, [], Reader(inbuf, 0), [], [], [])
  }

  /** What the link delivers: in every run, whatever the splits of writes and reads, the
      tunnel has got an initial part of the packets sent that get through, unchanged and
      in order, and all of them once the queue and the line are empty. */
  lemma LinkDelivers(inbuf: seq<Byte>, acts: seq<Action>, last: Link)
    requires |inbuf| == BUFFER && IsRun(Idle(inbuf), acts, last)
    ensures Fitting(last.sent) && forall p <- last.sent :: PassesAlone(p)
    ensures last.delivered <= Through(inbuf, last.sent).packets
    ensures last.pending == [] && last.wire == [] ==> last.delivered == Through(inbuf, last.sent).packets
  {
    var l := Idle(inbuf);
    assert l.pushedBack + l.wire + l.pending == [];
    assert InTransit(inbuf, l);
    RunKeepsTransit(inbuf, l, acts, last);
    PrependIs(last.delivered, Receive(last.reader, last.pushedBack + last.wire + last.pending));
    if last.pending == [] && last.wire == [] {
      assert last.pushedBack + last.wire + last.pending == last.pushedBack;
      RunPushesBackEscape(l, acts, last);
    }
  }

  /** Packets that are judged by their own bytes all get through. */
  lemma {:induction false} SelfContainedGetThrough(inbuf: seq<Byte>, ps: seq<seq<Byte>>)
    requires |inbuf| == BUFFER && forall p <- ps :: PassesAlone(p) && SelfContained(p)
    ensures Fitting(ps) && Through(inbuf, ps).packets == ps
    decreases |ps|
  {
    if ps != [] {
      var p, rest := ps[|ps| - 1], ps[..|ps| - 1];
      SelfContainedGetThrough(inbuf, rest);
      assert p in ps;
      var b := Overlaid(Through(inbuf, rest).state, p);
      assert (p + seq(BUFFER - |p|, _ => 0))[..|p|] == p;
      assert ps == rest + [p];
      hide Check;
      CheckIgnoresRest(p + seq(BUFFER - |p|, _ => 0), b, |p|);
    }
  }

  /** The link is transparent for packets that `check_ip` judges by their own bytes. */
  lemma LinkIsTransparent(inbuf: seq<Byte>, acts: seq<Action>, last: Link)
    requires |inbuf| == BUFFER && IsRun(Idle(inbuf), acts, last)
    requires forall p <- last.sent :: SelfContained(p)
    ensures last.delivered <= last.sent
    ensures last.pending == [] && last.wire == [] ==> last.delivered == last.sent
  {
    LinkDelivers(inbuf, acts, last);
    SelfContainedGetThrough(inbuf, last.sent);
  }

  lemma {:induction false} RunPushesBackEscape(l: Link, acts: seq<Action>, last: Link)
    requires IsRun(l, acts, last) && (l.pushedBack == [] || l.pushedBack == [ESC])
    ensures last.pushedBack == [] || last.pushedBack == [ESC]
    decreases |acts|
  {
    hide Receive, Accepted, Prepared, Check, SelfContained, Frame;
    if acts != [] {
      RunPushesBackEscape(Step(l, acts[0]), acts[1..], last);
    }
  }
}
