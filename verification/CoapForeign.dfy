/** Messages as any sender may write them: options with any numbers and bodies, coded
    one after the other. What the parser makes of each option is said by its number in
    the registry (sections 5.4 and 5.10 of RFC 7252, RFC 7641, RFC 7959).
 */
module CoapForeign {
  import opened Common
  import opened Machine
  import opened CoapOptions
  import opened CoapMessage

  datatype Raw = Raw(number: nat, body: seq<Byte>)

  /** Options in the order in which they can be coded, behind option `prev`. */
  predicate Codable(prev: nat, opts: seq<Raw>)
    decreases |opts|
  {
    opts == [] || (prev <= opts[0].number < OPTION_LIMIT && |opts[0].body| <= 65536 && Codable(opts[0].number, opts[1..]))
  }

  function RawBytes(prev: nat, opts: seq<Raw>): seq<Byte>
    requires Codable(prev, opts)
    decreases |opts|
  {
    if opts == [] then []
    else OptionHeader(opts[0].number - prev, |opts[0].body|) + opts[0].body + RawBytes(opts[0].number, opts[1..])
  }

  /** The parts of a message that options do not touch. */
  datatype Frame = Frame(kind: nat, code: Byte, mid: nat, token: seq<Byte>, payload: seq<Byte>)

  predicate ValidFrame(f: Frame)
  {
    f.kind < 4 && f.mid < 0x1_0000 && |f.token| <= 8
  }

  /** Version 1, type and token length; code; message id; token; options; 0xff and the
      payload, if there is one. */
  function Written(f: Frame, opts: seq<Raw>): seq<Byte>
    requires ValidFrame(f) && Codable(0, opts)
  {
    [0x40 + 0x10 * f.kind + |f.token|, f.code, f.mid / 256, f.mid % 256] + f.token + RawBytes(0, opts)
    + (if f.payload == [] then [] else [0xff] + f.payload)
  }

  ghost function ApplyRaw(o: Options, opts: seq<Raw>): Applied
    decreases |opts|
  {
    if opts == [] then Next(o)
    else match Apply(o, opts[0].number, opts[0].body)
      case Stop(e) => Stop(e)
      case Next(o') => ApplyRaw(o', opts[1..])
  }

  // ----- Reading them -----

  /** Where the parser is after the options. */
  function LastNumber(prev: nat, opts: seq<Raw>): nat
    decreases |opts|
  {
    if opts == [] then prev else LastNumber(opts[0].number, opts[1..])
  }

  lemma {:induction false} RawParse(data: seq<Byte>, pos: nat, prev: nat, opts: seq<Raw>, rest: seq<Byte>, o: Options, chunk: nat)
    requires Codable(prev, opts) && Shows(data, pos, RawBytes(prev, opts), rest)
    ensures ParseOptions(data, pos, prev, o, chunk) ==
            match ApplyRaw(o, opts)
            case Stop(e) => Aborted(e)
            case Next(o') => ParseOptions(data, pos + |RawBytes(prev, opts)|, LastNumber(prev, opts), o', chunk)
    decreases |opts|
  {
    hide OptionHeader, Apply, ParseOptions;
    if opts != [] {
      var n, body := opts[0].number, opts[0].body;
      var one, more := OptionHeader(n - prev, |body|) + body, RawBytes(n, opts[1..]);
      Advance(data, pos, one, more, rest);
      OneOption(data, pos, prev, n, body, more + rest, o, chunk);
      if Apply(o, n, body).Next? {
        RawParse(data, pos + |one|, n, opts[1..], rest, Apply(o, n, body).o, chunk);
      }
    }
  }

  /** A payload as far as the parser keeps it. */
  function AtMost(payload: seq<Byte>, chunk: nat): seq<Byte>
  {
    if |payload| <= chunk then payload else payload[..chunk]
  }

  lemma RawEnd(data: seq<Byte>, pos: nat, prev: nat, payload: seq<Byte>, o: Options, chunk: nat)
    requires Shows(data, pos, [], if payload == [] then [] else [0xff] + payload)
    ensures ParseOptions(data, pos, prev, o, chunk) == Finished(o, AtMost(payload, chunk))
  {
    if payload == [] {
      assert |data[pos..]| == 0;
    } else {
      assert data[pos..] == [0xff] + payload;
      assert data[pos] == data[pos..][0] && data[pos + 1..] == data[pos..][1..];
    }
  }

  function Tail(payload: seq<Byte>): seq<Byte>
  {
    if payload == [] then [] else [0xff] + payload
  }

  /** Where the parts of such a message are. */
  lemma Layout(f: Frame, opts: seq<Raw>)
    requires ValidFrame(f) && Codable(0, opts)
    ensures var data, start := Written(f, opts), 4 + |f.token|;
            && |data| >= start && data[0] == 0x40 + 0x10 * f.kind + |f.token| && data[1] == f.code
            && data[2] == f.mid / 256 && data[3] == f.mid % 256 && data[4..start] == f.token
            && Shows(data, start, RawBytes(0, opts), Tail(f.payload))
            && Shows(data, start + |RawBytes(0, opts)|, [], Tail(f.payload))
  {
    hide RawBytes, Codable;
    var data, start := Written(f, opts), 4 + |f.token|;
    var head := [0x40 + 0x10 * f.kind + |f.token|, f.code, f.mid / 256, f.mid % 256];
    var bytes := RawBytes(0, opts);
    assert data == head + f.token + (bytes + Tail(f.payload));
    assert data[..4] == head && data[4..start] == f.token && data[start..] == bytes + Tail(f.payload);
    assert data[0] == head[0] && data[1] == head[1] && data[2] == head[2] && data[3] == head[3];
    assert bytes + [] == bytes;
    Advance(data, start, bytes, [], Tail(f.payload));
  }

  /** The parser on any such message; a payload longer than a chunk is cut off. */
  lemma ParseWritten(f: Frame, opts: seq<Raw>, chunk: nat)
    requires ValidFrame(f) && Codable(0, opts)
    ensures Parse(Written(f, opts), chunk) ==
            match ApplyRaw(NO_OPTIONS, opts)
            case Stop(e) => Failed(e)
            case Next(o) => Ok(Message(f.kind, f.code, f.mid, f.token, o.seen, o.values, AtMost(f.payload, chunk)))
  {
    hide ApplyRaw, ParseOptions, RawBytes, Codable, Written, Tail;
    var data, start, bytes := Written(f, opts), 4 + |f.token|, RawBytes(0, opts);
    Layout(f, opts);
    HeaderFields(f.kind, |f.token|);
    RawParse(data, start, 0, opts, Tail(f.payload), NO_OPTIONS, chunk);
    if ApplyRaw(NO_OPTIONS, opts).Next? {
      TailEnds(data, start + |bytes|, LastNumber(0, opts), f.payload, ApplyRaw(NO_OPTIONS, opts).o, chunk);
    }
  }

  lemma TailEnds(data: seq<Byte>, pos: nat, prev: nat, payload: seq<Byte>, o: Options, chunk: nat)
    requires Shows(data, pos, [], Tail(payload))
    ensures ParseOptions(data, pos, prev, o, chunk) == Finished(o, AtMost(payload, chunk))
  {
    RawEnd(data, pos, prev, payload, o, chunk);
  }

  // ----- The serializer writes such messages -----

  function Raws(n: nat, bodies: seq<seq<Byte>>): seq<Raw>
  {
    if bodies == [] then [] else [Raw(n, bodies[0])] + Raws(n, bodies[1..])
  }

  /** The options of a message from the `i`-th number on. */
  function RawsFrom(i: nat, values: map<nat, Value>, beyond: Byte): seq<Raw>
    requires i <= |ORDER| && AllFit(values)
    decreases |ORDER| - i
  {
    if i == |ORDER| then []
    else if ORDER[i] in values then Raws(ORDER[i], Bodies(ORDER[i], values[ORDER[i]], beyond)) + RawsFrom(i + 1, values, beyond)
    else RawsFrom(i + 1, values, beyond)
  }

  lemma RawCons(prev: nat, o: Raw, rest: seq<Raw>)
    requires prev <= o.number < OPTION_LIMIT && |o.body| <= 65536 && Codable(o.number, rest)
    ensures Codable(prev, [o] + rest)
    ensures RawBytes(prev, [o] + rest) == OptionHeader(o.number - prev, |o.body|) + o.body + RawBytes(o.number, rest)
  {
    assert ([o] + rest)[1..] == rest;
    hide OptionHeader;
  }

  lemma {:induction false} PartsNotNone(mem: seq<Byte>, len: nat, sep: Byte, j: nat, start: nat)
    requires len + 2 <= |mem| && start <= j <= len
    ensures |Parts(mem, len, sep, j, start)| > 0
    decreases len - j
  {
    if mem[j] != sep && j < len { PartsNotNone(mem, len, sep, j + 1, start); }
  }

  lemma BodiesNotNone(n: nat, v: Value, beyond: Byte)
    requires Fits(n, v)
    ensures |Bodies(n, v, beyond)| > 0
  {
    if KindOf(n).Split? { PartsNotNone(v.b + [0, beyond], |v.b|, KindOf(n).sep, 0, 0); }
    hide Parts;
  }

  lemma RepeatedSteps(prev: nat, n: nat, bodies: seq<seq<Byte>>)
    requires prev <= n < OPTION_LIMIT && Short(bodies) && bodies != []
    ensures Short(bodies[1..]) && |bodies[0]| <= 65536
    ensures Repeated(prev, n, bodies) == OptionHeader(n - prev, |bodies[0]|) + bodies[0] + Repeated(n, n, bodies[1..])
    ensures Repeated(n, n, []) == []
  {
    hide OptionHeader;
    assert bodies[0] in bodies;
  }

  lemma Regroup(a: seq<Byte>, b: seq<Byte>, c: seq<Byte>)
    ensures a + (b + c) == (a + b) + c
  {
  }

  lemma {:induction false} RepeatedRaw(prev: nat, n: nat, bodies: seq<seq<Byte>>, more: seq<Raw>)
    requires prev <= n < OPTION_LIMIT && Short(bodies) && bodies != [] && Codable(n, more)
    ensures Codable(prev, Raws(n, bodies) + more)
    ensures RawBytes(prev, Raws(n, bodies) + more) == Repeated(prev, n, bodies) + RawBytes(n, more)
    decreases |bodies|
  {
    hide RawBytes, OptionHeader, Repeated, Codable, Raws, Short;
    RepeatedSteps(prev, n, bodies);
    var o, rest, header := Raw(n, bodies[0]), Raws(n, bodies[1..]) + more, OptionHeader(n - prev, |bodies[0]|);
    RawsSteps(n, bodies, more);
    if |bodies| == 1 {
      RawCons(prev, o, rest);
      NothingBehind(header + o.body, Repeated(n, n, bodies[1..]));
    } else {
      RepeatedRaw(n, n, bodies[1..], more);
      RawCons(prev, o, rest);
      Regroup(header + o.body, Repeated(n, n, bodies[1..]), RawBytes(n, more));
    }
  }

  lemma RawsSteps(n: nat, bodies: seq<seq<Byte>>, more: seq<Raw>)
    requires bodies != []
    ensures Raws(n, bodies) + more == [Raw(n, bodies[0])] + (Raws(n, bodies[1..]) + more)
    ensures |bodies| == 1 ==> bodies[1..] == [] && Raws(n, bodies[1..]) + more == more
  {
  }

  lemma NothingBehind(a: seq<Byte>, b: seq<Byte>)
    requires b == []
    ensures a + b == a
  {
  }

  lemma {:induction false} OptionsRaw(i: nat, prev: nat, values: map<nat, Value>, beyond: Byte)
    requires i <= |ORDER| && AllFit(values) && (i < |ORDER| ==> prev <= ORDER[i])
    ensures Codable(prev, RawsFrom(i, values, beyond))
    ensures RawBytes(prev, RawsFrom(i, values, beyond)) == OptionsFrom(i, prev, values, beyond)
    decreases |ORDER| - i
  {
    hide Bodies, RawBytes, Codable, Raws, Repeated;
    if i == |ORDER| {
      RawNone(prev);
    } else {
      var n := ORDER[i];
      if i + 1 < |ORDER| { OrderIncreases(i, i + 1); }
      if n in values {
        OptionsRaw(i + 1, n, values, beyond);
        BodiesShort(n, values[n], beyond);
        BodiesNotNone(n, values[n], beyond);
        RepeatedRaw(prev, n, Bodies(n, values[n], beyond), RawsFrom(i + 1, values, beyond));
      } else {
        OptionsRaw(i + 1, prev, values, beyond);
      }
    }
  }

  /** What the serializer writes for a message with a code, if its header fits, is the
      message written out: its options in ascending order, and a payload only if there is
      one. */
  lemma WireIsWritten(m: Message, beyond: Byte)
    requires WellFormed(m) && m.code != 0 && |Head(m, beyond)| <= COAP_MAX_HEADER_SIZE
    ensures Codable(0, RawsFrom(0, m.values, beyond))
    ensures Wire(m, beyond) == Written(Frame(m.kind, m.code, m.mid, m.token, m.payload), RawsFrom(0, m.values, beyond))
  {
    hide OptionsFrom, RawBytes, RawsFrom;
    OptionsRaw(0, 0, m.values, beyond);
  }

  // ----- Bytes that are no message -----

  lemma {:induction false} OptionsAreNoBadRequest(data: seq<Byte>, pos: nat, number: nat, o: Options, chunk: nat)
    ensures ParseOptions(data, pos, number, o, chunk) != Aborted(BadRequest)
    decreases |data| - pos
  {
    hide Apply, ReadHeader;
    if pos < |data| && data[pos] < 0xF0 {
      match ReadHeader(data, pos)
      case HeaderShort =>
      case HeaderRead(delta, length, p) =>
        if p + length <= |data| {
          ApplyIsNoBadRequest(o, number + delta, data[p..p + length]);
          var r := Apply(o, number + delta, data[p..p + length]);
          if r.Next? { OptionsAreNoBadRequest(data, p + length, number + delta, r.o, chunk); }
        }
    }
  }

  lemma ApplyIsNoBadRequest(o: Options, n: nat, body: seq<Byte>)
    ensures Apply(o, n, body) != Stop(BadRequest)
  {
  }

  /** Any bytes are refused as a bad request if and only if there is a header and its version
      is not 1 or its token longer than eight bytes. */
  lemma BadRequestIff(data: seq<Byte>, chunk: nat)
    ensures Parse(data, chunk) == Failed(BadRequest) <==> |data| >= 4 && (data[0] / 0x40 != 1 || data[0] % 0x10 > 8)
  {
    hide ParseOptions;
    if |data| >= 4 { OptionsAreNoBadRequest(data, 4 + data[0] % 16, 0, NO_OPTIONS, chunk); }
  }

  // ----- Numbers that nobody knows -----

  /** The option numbers that `er-coap` handles. */
  const KNOWN: set<nat> := {1, 3, 4, 5, 6, 7, 8, 11, 12, 14, 15, 17, 20, 23, 27, 28, 35, 39, 60}

  lemma {:induction false} CodableSplit(prev: nat, a: seq<Raw>, b: seq<Raw>)
    ensures Codable(prev, a + b) <==> Codable(prev, a) && Codable(LastNumber(prev, a), b)
    decreases |a|
  {
    if a == [] {
      assert a + b == b;
    } else {
      assert (a + b)[1..] == a[1..] + b;
      CodableSplit(a[0].number, a[1..], b);
    }
  }

  lemma {:induction false} CodableEarlier(prev: nat, n: nat, b: seq<Raw>)
    requires prev <= n && Codable(n, b)
    ensures Codable(prev, b)
  {
  }

  lemma {:induction false} ApplySplit(o: Options, a: seq<Raw>, b: seq<Raw>)
    ensures ApplyRaw(o, a + b) == match ApplyRaw(o, a) case Stop(e) => Stop(e) case Next(o') => ApplyRaw(o', b)
    decreases |a|
  {
    hide Apply;
    if a == [] {
      assert a + b == b;
    } else {
      assert (a + b)[1..] == a[1..] + b;
      if Apply(o, a[0].number, a[0].body).Next? {
        ApplySplit(Apply(o, a[0].number, a[0].body).o, a[1..], b);
      }
    }
  }

  function Marked(r: Applied, n: nat): Applied
  {
    match r case Stop(e) => Stop(e) case Next(o) => Next(o.(seen := o.seen + {n}))
  }

  lemma MarkApply(o: Options, n: nat, k: nat, body: seq<Byte>)
    ensures Apply(o.(seen := o.seen + {n}), k, body) == Marked(Apply(o, k, body), n)
  {
    assert o.seen + {n} + {k} == o.seen + {k} + {n};
  }

  lemma {:induction false} MarkRaw(o: Options, n: nat, opts: seq<Raw>)
    ensures ApplyRaw(o.(seen := o.seen + {n}), opts) == Marked(ApplyRaw(o, opts), n)
    decreases |opts|
  {
    hide Apply;
    if opts != [] {
      MarkApply(o, n, opts[0].number, opts[0].body);
      var r := Apply(o, opts[0].number, opts[0].body);
      if r.Next? {
        MarkRaw(r.o, n, opts[1..]);
      }
    }
  }

  lemma UnknownApplied(o: Options, n: nat, body: seq<Byte>)
    requires n < OPTION_LIMIT && n !in KNOWN
    ensures Apply(o, n, body) == if n % 2 == 1 then Stop(BadOption) else Next(o.(seen := o.seen + {n}))
  {
  }

  /** An unknown option with an odd number is critical: the message is refused, if it was
      not before it. One with an even number is passed over: apart from its bit in the
      option map, everything is as it is without it. */
  lemma UnknownOption(f: Frame, before: seq<Raw>, n: nat, body: seq<Byte>, behind: seq<Raw>, chunk: nat)
    requires ValidFrame(f) && n !in KNOWN
    requires Codable(0, before + ([Raw(n, body)] + behind))
    ensures Codable(0, before) && Codable(0, before + behind)
    ensures var r, prefix := Parse(Written(f, before + ([Raw(n, body)] + behind)), chunk), Parse(Written(f, before), chunk);
            var without := Parse(Written(f, before + behind), chunk);
            if prefix.Failed? then r == prefix
            else if n % 2 == 1 then r == Failed(BadOption)
            else r == match without case Failed(e) => Failed(e) case Ok(m) => Ok(m.(seen := m.seen + {n}))
  {
    hide Apply, Parse, Written;
    CodableSplit(0, before, [Raw(n, body)] + behind);
    assert ([Raw(n, body)] + behind)[1..] == behind;
    CodableEarlier(LastNumber(0, before), n, behind);
    CodableSplit(0, before, behind);
    ParseWritten(f, before + ([Raw(n, body)] + behind), chunk);
    ParseWritten(f, before, chunk);
    ParseWritten(f, before + behind, chunk);
    ApplySplit(NO_OPTIONS, before, [Raw(n, body)] + behind);
    ApplySplit(NO_OPTIONS, before, behind);
    var r := ApplyRaw(NO_OPTIONS, before);
    if r.Next? {
      UnknownApplied(r.o, n, body);
      MarkRaw(r.o, n, behind);
    }
  }

  // ----- Numbers that are known -----

  /** A big-endian number. */
  function BigEndian(s: seq<Byte>): nat
  {
    if s == [] then 0 else BigEndian(s[..|s| - 1]) * 256 + s[|s| - 1]
  }

  lemma {:induction false} LastFourBytes(s: seq<Byte>)
    ensures ParseInt(s) == BigEndian(s) % 0x1_0000_0000
  {
    if s != [] {
      LastFourBytes(s[..|s| - 1]);
      ShiftIn(BigEndian(s[..|s| - 1]), s[|s| - 1]);
    }
  }

  lemma ShiftIn(v: nat, b: Byte)
    ensures (v % 0x1_0000_0000 * 256 + b) % 0x1_0000_0000 == (v * 256 + b) % 0x1_0000_0000
  {
    var q := v / 0x1_0000_0000;
    assert v * 256 + b == (v % 0x1_0000_0000 * 256 + b) + 256 * q * 0x1_0000_0000;
    ModuloMultiple(v % 0x1_0000_0000 * 256 + b, 256 * q);
  }

  lemma ModuloMultiple(v: nat, q: nat)
    ensures (v + q * 0x1_0000_0000) % 0x1_0000_0000 == v % 0x1_0000_0000
  {
  }

  lemma LowHalf(v: nat)
    ensures v % 0x1_0000_0000 % 0x1_0000 == v % 0x1_0000
  {
  }

  /** What a single option becomes, by number: opaque values are cut to eight bytes,
      numbers keep the last four bytes or the last two, and the proxy options are refused. */
  predicate Means(n: nat, body: seq<Byte>, r: Applied)
  {
    var v := BigEndian(body) % 0x1_0000_0000;
    if n == 35 || n == 39 then r == Stop(ProxyingNotSupported)
    else
      && r.Next? && r.o.seen == {n} && r.o.values.Keys == {n}
      && var x := r.o.values[n];
         if n == 1 || n == 4 then x == Bytes(if |body| > 8 then body[..8] else body)
         else if n == 5 then x == Present
         else if n == 7 || n == 12 || n == 17 then x == Num(BigEndian(body) % 0x1_0000)
         else if n == 6 || n == 14 || n == 28 || n == 60 then x == Num(v)
         else if n == 23 || n == 27 then
           x == BlockVal(v / 16, v / 8 % 2 == 1, [16, 32, 64, 128, 256, 512, 1024, 2048][v % 8])
         else x == Bytes(body)
  }

  lemma AppliedMeans(n: nat, body: seq<Byte>)
    requires n in KNOWN
    ensures Means(n, body, Apply(NO_OPTIONS, n, body))
  {
    hide ParseInt, BigEndian, Pow2, ParseBlock;
    LastFourBytes(body);
    if n == 23 || n == 27 {
      BlockMeans(body);
    } else {
      LowHalf(BigEndian(body));
    }
  }

  lemma BlockMeans(body: seq<Byte>)
    ensures var v := BigEndian(body) % 0x1_0000_0000;
            ParseBlock(ParseInt(body)) == BlockVal(v / 16, v / 8 % 2 == 1, [16, 32, 64, 128, 256, 512, 1024, 2048][v % 8])
  {
    hide ParseInt, BigEndian, Pow2;
    LastFourBytes(body);
    SizeOf(BigEndian(body) % 0x1_0000_0000 % 8);
  }

  lemma SizeOf(k: nat)
    requires k < 8
    ensures [16, 32, 64, 128, 256, 512, 1024, 2048][k] == 16 * Pow2(k)
  {
    PowersOfTwo(k);
  }

  lemma OneOptionMeans(n: nat, body: seq<Byte>)
    requires n in KNOWN
    ensures Means(n, body, ApplyRaw(NO_OPTIONS, [Raw(n, body)]))
  {
    hide Apply, Means;
    AppliedMeans(n, body);
    assert [Raw(n, body)][1..] == [];
    var r := Apply(NO_OPTIONS, n, body);
    assert r.Next? ==> ApplyRaw(r.o, []) == Next(r.o);
  }

  /** Repeated Location-Path and Uri-Path options are joined by `/`, Uri-Query and
      Location-Query options by `&`. */
  lemma RepeatedMeans(n: nat, x: seq<Byte>, y: seq<Byte>)
    requires n in {8, 11, 15, 20} && x != []
    ensures ApplyRaw(NO_OPTIONS, [Raw(n, x), Raw(n, y)]) ==
            Next(Options({n}, map[n := Bytes(x + [if n == 8 || n == 11 then '/' as int else '&' as int] + y)]))
  {
    var a, b := Raw(n, x), Raw(n, y);
    assert [a, b][1..] == [b] && [b][1..] == [];
    var r := Apply(NO_OPTIONS, n, x);
    assert r == Next(Options({n}, map[n := Bytes(x)]));
    var s := Apply(r.o, n, y);
    assert s.o.seen == {n};
    assert ApplyRaw(s.o, []) == s;
    assert ApplyRaw(r.o, [b]) == s;
  }

  // ----- On the wire -----

  /** A confirmable GET of `coap://.../a/b?c` with token 7, id 0x1234 and a Block2 option
      for block 5 of 64 bytes, byte for byte. */
  lemma WireExample()
    ensures Codable(0, [Raw(11, [97]), Raw(11, [98]), Raw(15, [99]), Raw(23, [0x52])])
    ensures WireBytes() == Written(Frame(0, 1, 0x1234, [7], [120]), [Raw(11, [97]), Raw(11, [98]), Raw(15, [99]), Raw(23, [0x52])])
  {
    hide RawBytes, Codable, OptionHeader;
    var o1, o2, o3, o4 := Raw(11, [97]), Raw(11, [98]), Raw(15, [99]), Raw(23, [0x52]);
    assert [o4] + [] == [o4] && [o3] + [o4] == [o3, o4] && [o2] + [o3, o4] == [o2, o3, o4];
    assert [o1] + [o2, o3, o4] == [o1, o2, o3, o4];
    RawNone(23);
    RawCons(15, o4, []);
    RawCons(11, o3, [o4]);
    RawCons(11, o2, [o3, o4]);
    RawCons(0, o1, [o2, o3, o4]);
    ShortHeaders();
    WireConcat();
  }

  lemma RawNone(prev: nat)
    ensures Codable(prev, []) && RawBytes(prev, []) == []
  {
  }

  function WireBytes(): seq<Byte>
  {
    [0x41, 0x01, 0x12, 0x34, 0x07, 0xb1, 97, 0x01, 98, 0x41, 99, 0x81, 0x52, 0xff, 120]
  }

  lemma WireConcat()
    ensures WireBytes() == [0x41, 0x01, 0x12, 0x34] + [7]
            + ([0xb1] + [97] + ([0x01] + [98] + ([0x41] + [99] + ([0x81] + [0x52] + [])))) + ([0xff] + [120])
  {
  }

  lemma ShortHeaders()
    ensures OptionHeader(8, 1) == [0x81] && OptionHeader(4, 1) == [0x41] && OptionHeader(0, 1) == [0x01] && OptionHeader(11, 1) == [0xb1]
  {
  }

  /** Longer deltas and lengths take one byte more from 13 and two from 269 on. */
  lemma HeaderExamples()
    ensures OptionHeader(12, 12) == [0xcc] && OptionHeader(13, 12) == [0xdc, 0] && OptionHeader(12, 268) == [0xcd, 255]
    ensures OptionHeader(60, 269) == [0xde, 47, 0, 0] && OptionHeader(13, 1024) == [0xde, 0, 2, 243]
  {
  }
}
