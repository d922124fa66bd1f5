/** CoAP messages and their wire format, as values: what `coap_serialize_message`
    writes and what `coap_parse_message` makes of it (section 3 of RFC 7252).
 */
module CoapMessage {
  import opened Common
  import opened Machine
  import opened CoapOptions

  const COAP_HEADER_LEN: nat := 4
  const COAP_TOKEN_LEN: nat := 8
  const COAP_ETAG_LEN: nat := 8
  const COAP_MAX_HEADER_SIZE: nat := 4 + COAP_TOKEN_LEN + 3 + 1 + COAP_ETAG_LEN + 4 + 4 + 30
  /** Bits in the option bitmap. */
  const OPTION_LIMIT: nat := 64

  const SLASH: Byte := 47
  const AMPERSAND: Byte := 38

  datatype Kind = Opaque | Text | Split(sep: Byte) | Empty | Uint(limit: nat) | Block | Proxy | Unknown

  function KindOf(n: nat): Kind
  {
    if n == 1 || n == 4 then Opaque                        // If-Match, ETag
    else if n == 3 then Text                               // Uri-Host
    else if n == 5 then Empty                              // If-None-Match
    else if n == 8 || n == 11 then Split(SLASH)            // Location-Path, Uri-Path
    else if n == 15 || n == 20 then Split(AMPERSAND)       // Uri-Query, Location-Query
    else if n == 7 || n == 12 || n == 17 then Uint(0x1_0000)  // Uri-Port, Content-Format, Accept
    else if n == 6 || n == 14 || n == 28 || n == 60 then Uint(TWO_32)  // Observe, Max-Age, Size2, Size1
    else if n == 23 || n == 27 then Block                  // Block2, Block1
    else if n == 35 || n == 39 then Proxy                  // Proxy-Uri, Proxy-Scheme
    else Unknown
  }

  /** The order in which options are written, proxy options aside. */
  const ORDER: seq<nat> := [1, 3, 4, 5, 6, 7, 8, 11, 12, 14, 15, 17, 20, 23, 27, 28, 60]

  datatype Value = Bytes(b: seq<Byte>) | Num(n: nat) | Present | BlockVal(num: nat, more: bool, size: nat)

  datatype Message = Message(kind: nat, code: Byte, mid: nat, token: seq<Byte>,
                             seen: set<nat>, values: map<nat, Value>, payload: seq<Byte>)

  // ----- Block options (section 2.2 of RFC 7959) -----

  /** `coap_log_2`. */
  function Log2(v: nat): nat
  {
    if v < 2 then 0 else 1 + Log2(v / 2)
  }

  function BlockWord(num: nat, more: bool, size: nat): nat
  {
    16 * num + (if more then 8 else 0) + Log2(size / 16)
  }

  function ParseBlock(w: nat): Value
  {
    BlockVal(w / 16, (w / 8) % 2 == 1, 16 * Pow2(w % 8))
  }

  /** `(w & ~0xF) << (w & 7)` on 32 bits. */
  function BlockOffset(w: nat): nat
  {
    (w - w % 16) * Pow2(w % 8) % TWO_32
  }

  lemma {:induction false} Log2Floor(v: nat)
    requires v > 0
    ensures Pow2(Log2(v)) <= v < 2 * Pow2(Log2(v))
  {
    if v >= 2 {
      Log2Floor(v / 2);
    }
  }

  lemma Log2Small(v: nat)
    requires v <= 128
    ensures Log2(v) <= 7
  {
    assert Log2(v) <= 1 + Log2(v / 2) && Log2(v / 2) <= 1 + Log2(v / 4) by { assert v / 2 / 2 == v / 4; }
    assert Log2(v / 4) <= 1 + Log2(v / 8) by { assert v / 4 / 2 == v / 8; }
    assert Log2(v / 8) <= 1 + Log2(v / 16) by { assert v / 8 / 2 == v / 16; }
    assert Log2(v / 16) <= 1 + Log2(v / 32) by { assert v / 16 / 2 == v / 32; }
    assert Log2(v / 32) <= 1 + Log2(v / 64) by { assert v / 32 / 2 == v / 64; }
    assert Log2(v / 64) <= 1 + Log2(v / 128) by { assert v / 64 / 2 == v / 128; }
  }

  /** A block option comes back with its size rounded down to a power of two, and
      its byte offset is number times that size. */
  lemma BlockRoundTrip(num: nat, more: bool, size: nat)
    requires num <= 0x0F_FFFF && 16 <= size <= 2048
    ensures var w := BlockWord(num, more, size);
            && w < TWO_32
            && ParseBlock(w) == BlockVal(num, more, 16 * Pow2(Log2(size / 16)))
            && BlockOffset(w) == num * ParseBlock(w).size % TWO_32
  {
    Log2Small(size / 16);
    hide Log2, Pow2;
    var k := Log2(size / 16);
    WordFields(num, if more then 1 else 0, k);
    Reassociate(num, Pow2(k));
  }

  lemma WordFields(num: nat, more: nat, k: nat)
    requires more <= 1 && k <= 7
    ensures var w := 16 * num + 8 * more + k;
            w / 16 == num && w / 8 % 2 == more && w % 8 == k && w - w % 16 == num * 16
  {
    assert (16 * num + 8 * more + k) / 8 == 2 * num + more;
  }

  lemma Reassociate(num: nat, p: nat)
    ensures (num * 16) * p == num * (16 * p)
  {
  }

  // ----- Serialization -----

  /** The parts of a terminated string behind which `beyond` happens to lie. */
  function SplitParts(s: seq<Byte>, sep: Byte, beyond: Byte): seq<seq<Byte>>
  {
    Parts(s + [0, beyond], |s|, sep, 0, 0)
  }

  /** A value a packet can hold for option `n`. */
  predicate Fits(n: nat, v: Value)
  {
    match KindOf(n)
    case Opaque => v.Bytes? && |v.b| <= COAP_ETAG_LEN
    case Text => v.Bytes? && |v.b| < 65536
    case Split(_) => v.Bytes? && |v.b| < 65536
    case Empty => v.Present?
    case Uint(limit) => v.Num? && v.n < limit
    case Block => v.BlockVal? && v.num <= 0x0F_FFFF && 16 <= v.size <= 2048
    case Proxy => false
    case Unknown => false
  }

  /** The bodies of the options that carry `v`. */
  function Bodies(n: nat, v: Value, beyond: Byte): seq<seq<Byte>>
    requires Fits(n, v)
  {
    match KindOf(n)
    case Opaque => [v.b]
    case Text => [v.b]
    case Split(sep) => SplitParts(v.b, sep, beyond)
    case Empty => [IntBytes(0)]
    case Uint(_) => [IntBytes(v.n)]
    case Block => [IntBytes(BlockWord(v.num, v.more, v.size))]
  }

  ghost predicate Short(bodies: seq<seq<Byte>>)
  {
    forall b <- bodies :: |b| <= 65536
  }

  /** Options with one number: the first carries the delta, the others delta 0. */
  function Repeated(prev: nat, n: nat, bodies: seq<seq<Byte>>): seq<Byte>
    requires prev <= n < OPTION_LIMIT && Short(bodies)
    decreases |bodies|
  {
    if bodies == [] then []
    else
      assert bodies[0] in bodies;
      OptionHeader(n - prev, |bodies[0]|) + bodies[0] + Repeated(n, n, bodies[1..])
  }

  lemma {:induction false} PartsShort(mem: seq<Byte>, len: nat, sep: Byte, j: nat, start: nat)
    requires len + 2 <= |mem| && start <= j && len < 65536
    ensures Short(Parts(mem, len, sep, j, start))
    decreases len + 2 - j
  {
    if j <= len + 1 {
      if mem[j] == sep || j == len {
        PartsShort(mem, len, sep, j + 2, j + 1);
      } else {
        PartsShort(mem, len, sep, j + 1, start);
      }
    }
  }

  lemma BodiesShort(n: nat, v: Value, beyond: Byte)
    requires Fits(n, v)
    ensures Short(Bodies(n, v, beyond))
  {
    match KindOf(n) {
      case Split(sep) => PartsShort(v.b + [0, beyond], |v.b|, sep, 0, 0);
      case Uint(_) => IntLength(v.n);
      case Block => BlockRoundTrip(v.num, v.more, v.size); IntLength(BlockWord(v.num, v.more, v.size));
      case _ =>
    }
  }

  ghost predicate WellFormed(m: Message)
  {
    && m.kind < 4 && m.mid < 0x1_0000 && |m.token| <= COAP_TOKEN_LEN
    && m.seen == m.values.Keys
    && (forall n <- m.values :: n in ORDER && Fits(n, m.values[n]))
  }

  predicate AllFit(values: map<nat, Value>)
  {
    forall n <- values :: n < OPTION_LIMIT && Fits(n, values[n])
  }

  /** The options from entry `i` of the writing order on. */
  function OptionsFrom(i: nat, prev: nat, values: map<nat, Value>, beyond: Byte): seq<Byte>
    requires i <= |ORDER| && AllFit(values)
    requires i < |ORDER| ==> prev <= ORDER[i]
    decreases |ORDER| - i
  {
    if i == |ORDER| then []
    else if ORDER[i] in values then
      BodiesShort(ORDER[i], values[ORDER[i]], beyond);
      Repeated(prev, ORDER[i], Bodies(ORDER[i], values[ORDER[i]], beyond)) + OptionsFrom(i + 1, ORDER[i], values, beyond)
    else OptionsFrom(i + 1, prev, values, beyond)
  }

  function FixedHeader(m: Message): (s: seq<Byte>)
    requires m.kind < 4 && m.mid < 0x1_0000 && |m.token| <= COAP_TOKEN_LEN
    ensures |s| == COAP_HEADER_LEN
  {
    [64 + 16 * m.kind + |m.token|, m.code, m.mid / 256, m.mid % 256]
  }

  /** Everything before the payload marker. */
  function Head(m: Message, beyond: Byte): (s: seq<Byte>)
    requires WellFormed(m)
  {
    FixedHeader(m) + m.token + OptionsFrom(0, 0, m.values, beyond)
  }

  function PayloadPart(payload: seq<Byte>): seq<Byte>
  {
    if payload == [] then [] else [0xFF] + payload
  }

  /** `coap_serialize_message`: the bytes of the message; none when the header is
      too long. */
  function Wire(m: Message, beyond: Byte): seq<Byte>
    requires WellFormed(m)
  {
    if m.code == 0 then FixedHeader(m)
    else if |Head(m, beyond)| > COAP_MAX_HEADER_SIZE then []
    else Head(m, beyond) + PayloadPart(m.payload)
  }

  // ----- Parsing -----

  datatype Failure = BadRequest | BadOption | ProxyingNotSupported | OutOfBounds

  /** The option bitmap and the option fields. */
  datatype Options = Options(seen: set<nat>, values: map<nat, Value>)
  datatype Applied = Next(o: Options) | Stop(why: Failure)
  datatype OptionsRead = Finished(o: Options, payload: seq<Byte>) | Aborted(why: Failure)
  datatype Parsed = Ok(m: Message) | Failed(why: Failure)

  function Old(o: Options, n: nat): seq<Byte>
  {
    if n in o.values && o.values[n].Bytes? then o.values[n].b else []
  }

  /** The option switch of `coap_parse_message`. */
  function Apply(o: Options, n: nat, body: seq<Byte>): Applied
  {
    if n >= OPTION_LIMIT then Stop(OutOfBounds) else
    var seen := o.seen + {n};
    match KindOf(n)
    case Opaque => Next(Options(seen, o.values[n := Bytes(if |body| <= COAP_ETAG_LEN then body else body[..COAP_ETAG_LEN])]))
    case Text => Next(Options(seen, o.values[n := Bytes(body)]))
    case Split(sep) => Next(Options(seen, o.values[n := Bytes(MergePart(Old(o, n), body, sep))]))
    case Empty => Next(Options(seen, o.values[n := Present]))
    case Uint(limit) => Next(Options(seen, o.values[n := Num(ParseInt(body) % (if limit == 0 then 1 else limit))]))
    case Block => Next(Options(seen, o.values[n := ParseBlock(ParseInt(body))]))
    case Proxy => Stop(ProxyingNotSupported)
    case Unknown => if n % 2 == 1 then Stop(BadOption) else Next(Options(seen, o.values))
  }

  datatype HeaderRead = HeaderRead(delta: nat, length: nat, pos: nat) | HeaderShort

  function ReadHeader(data: seq<Byte>, pos: nat): (r: HeaderRead)
    requires pos < |data|
    ensures r.HeaderRead? ==> pos < r.pos <= |data|
  {
    match ReadExtended(data[pos] / 16, data, pos + 1)
    case TooShort => HeaderShort
    case Extended(delta, p) =>
      match ReadExtended(data[pos] % 16, data, p)
      case TooShort => HeaderShort
      case Extended(length, q) => HeaderRead(delta, length, q)
  }

  function CutPayload(s: seq<Byte>, chunk: nat): seq<Byte>
  {
    if |s| > chunk then s[..chunk] else s
  }

  /** The option loop, from byte `pos` with the last option number `number`. */
  function ParseOptions(data: seq<Byte>, pos: nat, number: nat, o: Options, chunk: nat): OptionsRead
    decreases |data| - pos
  {
    if pos >= |data| then Finished(o, [])
    else if data[pos] >= 0xF0 then Finished(o, CutPayload(data[pos + 1..], chunk))
    else
      match ReadHeader(data, pos)
      case HeaderShort => Aborted(OutOfBounds)
      case HeaderRead(delta, length, p) =>
        if p + length > |data| then Aborted(OutOfBounds) else
        match Apply(o, number + delta, data[p..p + length])
        case Stop(e) => Aborted(e)
        case Next(o') => ParseOptions(data, p + length, number + delta, o', chunk)
  }

  const NO_OPTIONS: Options := Options({}, map[])

  /** `coap_parse_message` with payloads cut to `chunk` bytes. */
  function Parse(data: seq<Byte>, chunk: nat): Parsed
  {
    if |data| < COAP_HEADER_LEN then Failed(OutOfBounds)
    else if data[0] / 64 != 1 then Failed(BadRequest)
    else if data[0] % 16 > COAP_TOKEN_LEN then Failed(BadRequest)
    else if COAP_HEADER_LEN + data[0] % 16 > |data| then Failed(OutOfBounds)
    else
      var start := COAP_HEADER_LEN + data[0] % 16;
      match ParseOptions(data, start, 0, NO_OPTIONS, chunk)
      case Aborted(e) => Failed(e)
      case Finished(o, payload) =>
        Ok(Message(data[0] / 16 % 4, data[1], 256 * (data[2] as int) + data[3],
                   data[COAP_HEADER_LEN..start], o.seen, o.values, payload))
  }

  // ----- Parsing what was serialized -----

  /** What comes back for a value. */
  function Recovered(n: nat, v: Value, beyond: Byte): Value
    requires Fits(n, v)
  {
    match v
    case BlockVal(num, more, size) => BlockVal(num, more, 16 * Pow2(Log2(size / 16)))
    case Bytes(b) =>
      if KindOf(n).Split? then Bytes(MergeParts([], SplitParts(b, KindOf(n).sep, beyond), KindOf(n).sep)) else v
    case _ => v
  }

  /** Applying a run of options with one number. */
  ghost function ApplyAll(o: Options, n: nat, bodies: seq<seq<Byte>>): Applied
    decreases |bodies|
  {
    if bodies == [] then Next(o)
    else match Apply(o, n, bodies[0])
      case Stop(e) => Stop(e)
      case Next(o') => ApplyAll(o', n, bodies[1..])
  }

  lemma HeaderReadBack(delta: nat, length: nat, data: seq<Byte>, pos: nat, rest: seq<Byte>)
    requires delta < 269 + 65536 && length < 269 + 65536
    requires Shows(data, pos, OptionHeader(delta, length), rest)
    ensures pos < |data| && data[pos] < 0xF0
    ensures ReadHeader(data, pos) == HeaderRead(delta, length, pos + |OptionHeader(delta, length)|)
  {
    var first, d, l := [16 * Nibble(delta) + Nibble(length)], Extension(delta), Extension(length);
    assert OptionHeader(delta, length) == first + (d + l);
    Inside(data, pos, OptionHeader(delta, length), rest, 0);
    Advance(data, pos, first, d + l, rest);
    Advance(data, pos + 1, d, l, rest);
    ExtensionReadBack(delta, data, pos + 1, l + rest);
    ExtensionReadBack(length, data, pos + 1 + |d|, rest);
    assert data[pos] / 16 == Nibble(delta) && data[pos] % 16 == Nibble(length);
  }

  lemma OneOption(data: seq<Byte>, pos: nat, prev: nat, n: nat, body: seq<Byte>, rest: seq<Byte>, o: Options, chunk: nat)
    requires prev <= n < OPTION_LIMIT && |body| <= 65536
    requires Shows(data, pos, OptionHeader(n - prev, |body|) + body, rest)
    ensures var q := pos + |OptionHeader(n - prev, |body|)| + |body|;
            ParseOptions(data, pos, prev, o, chunk) ==
            match Apply(o, n, body) case Stop(e) => Aborted(e) case Next(o') => ParseOptions(data, q, n, o', chunk)
  {
    hide OptionHeader, Apply, ReadHeader;
    var h := OptionHeader(n - prev, |body|);
    Advance(data, pos, h, body, rest);
    HeaderReadBack(n - prev, |body|, data, pos, body + rest);
    assert data[pos + |h|..] == body + rest;
    assert data[pos + |h|..pos + |h| + |body|] == data[pos + |h|..][..|body|] == body;
  }

  lemma {:induction false} RepeatedParse(data: seq<Byte>, pos: nat, prev: nat, n: nat, bodies: seq<seq<Byte>>,
                                         rest: seq<Byte>, o: Options, chunk: nat)
    requires prev <= n < OPTION_LIMIT && Short(bodies) && bodies != []
    requires Shows(data, pos, Repeated(prev, n, bodies), rest)
    ensures ParseOptions(data, pos, prev, o, chunk) ==
            match ApplyAll(o, n, bodies)
            case Stop(e) => Aborted(e)
            case Next(o') => ParseOptions(data, pos + |Repeated(prev, n, bodies)|, n, o', chunk)
    decreases |bodies|
  {
    hide OptionHeader, Apply, ParseOptions;
    assert bodies[0] in bodies;
    var one, more := OptionHeader(n - prev, |bodies[0]|) + bodies[0], Repeated(n, n, bodies[1..]);
    Advance(data, pos, one, more, rest);
    OneOption(data, pos, prev, n, bodies[0], more + rest, o, chunk);
    if bodies[1..] != [] && Apply(o, n, bodies[0]).Next? {
      RepeatedParse(data, pos + |one|, n, n, bodies[1..], rest, Apply(o, n, bodies[0]).o, chunk);
    }
  }

  /** A run of options for a value not seen before sets that field to `Recovered`. */
  lemma ApplyValue(o: Options, n: nat, v: Value, beyond: Byte)
    requires n < OPTION_LIMIT && Fits(n, v) && n !in o.values
    ensures Bodies(n, v, beyond) != []
    ensures ApplyAll(o, n, Bodies(n, v, beyond)) ==
            Next(Options(o.seen + {n}, o.values[n := Recovered(n, v, beyond)]))
  {
    hide SplitParts, IntBytes, BlockWord, ParseBlock;
    match KindOf(n) {
      case Split(sep) =>
        FirstPart(v.b + [0, beyond], |v.b|, sep, 0, 0);
        assert SplitParts(v.b, sep, beyond) == Parts(v.b + [0, beyond], |v.b|, sep, 0, 0) by { SplitPartsDef(v.b, sep, beyond); }
        ApplySplit(o, n, SplitParts(v.b, sep, beyond));
      case Uint(limit) =>
        IntRoundTrip(v.n);
        assert Bodies(n, v, beyond)[1..] == [];
      case Block =>
        BlockRoundTrip(v.num, v.more, v.size);
        IntRoundTrip(BlockWord(v.num, v.more, v.size));
        assert Bodies(n, v, beyond)[1..] == [];
      case Opaque =>
        assert Bodies(n, v, beyond)[1..] == [];
      case Text =>
        assert Bodies(n, v, beyond)[1..] == [];
      case Empty =>
        assert Bodies(n, v, beyond)[1..] == [];
    }
  }

  lemma SplitPartsDef(s: seq<Byte>, sep: Byte, beyond: Byte)
    ensures SplitParts(s, sep, beyond) == Parts(s + [0, beyond], |s|, sep, 0, 0)
  {
  }

  lemma {:induction false} ApplySplit(o: Options, n: nat, parts: seq<seq<Byte>>)
    requires n < OPTION_LIMIT && KindOf(n).Split? && parts != []
    ensures ApplyAll(o, n, parts) ==
            Next(Options(o.seen + {n}, o.values[n := Bytes(MergeParts(Old(o, n), parts, KindOf(n).sep))]))
    decreases |parts|
  {
    var o' := Apply(o, n, parts[0]).o;
    if parts[1..] != [] {
      ApplySplit(o', n, parts[1..]);
      assert o'.seen + {n} == o.seen + {n};
      assert o'.values[n := Bytes(MergeParts(Old(o', n), parts[1..], KindOf(n).sep))] ==
             o.values[n := Bytes(MergeParts(Old(o, n), parts, KindOf(n).sep))];
    }
  }

  /** The fields recovered from the first `i` entries of the writing order. */
  ghost function RecoveredUpTo(i: nat, values: map<nat, Value>, beyond: Byte): map<nat, Value>
    requires i <= |ORDER| && AllFit(values)
  {
    map n | n in values && n in ORDER[..i] :: Recovered(n, values[n], beyond)
  }

  lemma OrderIncreases(i: nat, j: nat)
    requires i < j < |ORDER|
    ensures ORDER[i] < ORDER[j] < OPTION_LIMIT
  {
  }

  lemma {:induction false} OptionsParse(i: nat, prev: nat, data: seq<Byte>, pos: nat, values: map<nat, Value>,
                                        beyond: Byte, rest: seq<Byte>, chunk: nat)
    requires i <= |ORDER| && AllFit(values) && (i < |ORDER| ==> prev <= ORDER[i])
    requires Shows(data, pos, OptionsFrom(i, prev, values, beyond), rest)
    requires rest == [] || rest[0] == 0xFF
    ensures var done := RecoveredUpTo(i, values, beyond);
            var all := RecoveredUpTo(|ORDER|, values, beyond);
            ParseOptions(data, pos, prev, Options(done.Keys, done), chunk) ==
            Finished(Options(all.Keys, all), CutPayload(if rest == [] then [] else rest[1..], chunk))
    decreases |ORDER| - i
  {
    hide Repeated, Bodies, Fits, Recovered, ApplyAll, Shows, ParseOptions, CutPayload, RecoveredUpTo;
    var done := RecoveredUpTo(i, values, beyond);
    var o := Options(done.Keys, done);
    if i == |ORDER| {
      OptionsEnd(data, pos, values, beyond, rest, o, chunk);
    } else {
      var n := ORDER[i];
      if i + 1 < |ORDER| { OrderIncreases(i, i + 1); }
      NotYet(i);
      RecoveredStep(i, values, beyond);
      if n in values {
        BodiesShort(n, values[n], beyond);
        var bodies := Bodies(n, values[n], beyond);
        ApplyValue(o, n, values[n], beyond);
        var a, b := Repeated(prev, n, bodies), OptionsFrom(i + 1, n, values, beyond);
        Advance(data, pos, a, b, rest);
        RepeatedParse(data, pos, prev, n, bodies, b + rest, o, chunk);
        OptionsParse(i + 1, n, data, pos + |a|, values, beyond, rest, chunk);
      } else {
        OptionsParse(i + 1, prev, data, pos, values, beyond, rest, chunk);
      }
    }
  }

  lemma RecoveredStep(i: nat, values: map<nat, Value>, beyond: Byte)
    requires i < |ORDER| && AllFit(values)
    ensures var done, next := RecoveredUpTo(i, values, beyond), RecoveredUpTo(i + 1, values, beyond);
            var n := ORDER[i];
            && n !in done
            && (n in values ==> next == done[n := Recovered(n, values[n], beyond)] && next.Keys == done.Keys + {n})
            && (n !in values ==> next == done)
  {
    hide Recovered, Fits;
    NotYet(i);
    var done, next := RecoveredUpTo(i, values, beyond), RecoveredUpTo(i + 1, values, beyond);
    var n := ORDER[i];
    assert ORDER[..i + 1] == ORDER[..i] + [n];
    if n in values {
      assert next == done[n := Recovered(n, values[n], beyond)];
    } else {
      assert next == done;
    }
  }

  lemma OptionsEnd(data: seq<Byte>, pos: nat, values: map<nat, Value>, beyond: Byte, rest: seq<Byte>, o: Options, chunk: nat)
    requires Shows(data, pos, [], rest)
    requires rest == [] || rest[0] == 0xFF
    ensures ParseOptions(data, pos, 0, o, chunk) == Finished(o, CutPayload(if rest == [] then [] else rest[1..], chunk))
    ensures forall prev :: ParseOptions(data, pos, prev, o, chunk) == ParseOptions(data, pos, 0, o, chunk)
  {
    assert data[pos..] == rest;
    assert rest != [] ==> data[pos] == rest[0] && data[pos + 1..] == rest[1..];
  }

  lemma NotYet(i: nat)
    requires i < |ORDER|
    ensures ORDER[i] !in ORDER[..i] && ORDER[i] < OPTION_LIMIT
  {
    forall j | 0 <= j < i
      ensures ORDER[j] != ORDER[i]
    {
      OrderIncreases(j, i);
    }
  }

  lemma HeaderFields(kind: nat, len: nat)
    requires kind < 4 && len < 16
    ensures var b := 64 + 16 * kind + len; b / 64 == 1 && b % 16 == len && b / 16 % 4 == kind
  {
    assert (64 + 16 * kind + len) / 16 == 4 + kind;
  }

  /** What parsing makes of a serialized message: the same message, except that
      split strings and block sizes come back as `Recovered`. */
  lemma ParseSerialized(m: Message, beyond: Byte, chunk: nat)
    requires WellFormed(m) && m.code != 0 && |m.payload| <= chunk
    requires |Head(m, beyond)| <= COAP_MAX_HEADER_SIZE
    ensures Parse(Wire(m, beyond), chunk) ==
            Ok(m.(values := map n | n in m.values :: Recovered(n, m.values[n], beyond)))
  {
    hide Fits, Recovered, OptionsFrom, ParseOptions;
    var data := Wire(m, beyond);
    var opts, tail := OptionsFrom(0, 0, m.values, beyond), PayloadPart(m.payload);
    var start := COAP_HEADER_LEN + |m.token|;
    assert data == FixedHeader(m) + m.token + (opts + tail);
    assert data[0] == 64 + 16 * m.kind + |m.token|;
    assert data[1] == m.code && data[2] == m.mid / 256 && data[3] == m.mid % 256;
    assert data[COAP_HEADER_LEN..start] == m.token;
    assert data[start..] == opts + tail;
    OptionsParse(0, 0, data, start, m.values, beyond, tail, chunk);
    assert RecoveredUpTo(0, m.values, beyond) == map[];
    assert RecoveredUpTo(0, m.values, beyond).Keys == {};
    HeaderFields(m.kind, |m.token|);
    assert tail != [] ==> tail[1..] == m.payload;
    var all := RecoveredUpTo(|ORDER|, m.values, beyond);
    assert ORDER[..|ORDER|] == ORDER;
    assert all == map n | n in m.values :: Recovered(n, m.values[n], beyond);
    assert all.Keys == m.seen;
  }

  // ----- When the message itself comes back -----

  /** The string survives splitting and merging: empty, or no leading separator and
      an even run of trailing ones. */
  predicate Survives(n: nat, v: Value)
  {
    match v
    case Bytes(b) =>
      KindOf(n).Split? && b != [] ==> b[0] != KindOf(n).sep && TrailingRun(b, KindOf(n).sep) % 2 == 0
    case BlockVal(_, _, size) => size in {16, 32, 64, 128, 256, 512, 1024, 2048}
    case _ => true
  }

  lemma PowersOfTwo(k: nat)
    requires k <= 7
    ensures 16 * Pow2(k) in {16, 32, 64, 128, 256, 512, 1024, 2048}
  {
    assert Pow2(1) == 2 && Pow2(2) == 4 && Pow2(3) == 8;
    assert Pow2(4) == 2 * Pow2(3) && Pow2(5) == 2 * Pow2(4) && Pow2(6) == 2 * Pow2(5) && Pow2(7) == 2 * Pow2(6);
  }

  lemma BlockSizeSurvives(size: nat)
    requires 16 <= size <= 2048
    ensures 16 * Pow2(Log2(size / 16)) == size <==> size in {16, 32, 64, 128, 256, 512, 1024, 2048}
  {
    Log2Small(size / 16);
    PowersOfTwo(Log2(size / 16));
    if size in {16, 32, 64, 128, 256, 512, 1024, 2048} {
      Log2Floor(size / 16);
      assert size % 16 == 0;
      PowerIsFloor(size / 16, Log2(size / 16));
    }
  }

  /** Among the powers of two up to 128, only `v` itself lies in (v/2, v]. */
  lemma PowerIsFloor(v: nat, k: nat)
    requires v in {1, 2, 4, 8, 16, 32, 64, 128} && k <= 7
    requires Pow2(k) <= v < 2 * Pow2(k)
    ensures Pow2(k) == v
  {
    PowersOfTwo(k);
  }

  lemma RecoveredIff(n: nat, v: Value, beyond: Byte)
    requires Fits(n, v)
    ensures Recovered(n, v, beyond) == v <==> Survives(n, v)
  {
    match v {
      case Bytes(b) =>
        if KindOf(n).Split? {
          var mem := b + [0, beyond];
          assert mem[..|b|] == b;
          SplitRoundTripIff(mem, |b|, KindOf(n).sep);
        }
      case BlockVal(_, _, size) => BlockSizeSurvives(size);
      case _ =>
    }
  }

  /** Round trip: a message with a code, no proxy option, a header that fits and a
      payload within the chunk size is parsed back exactly, with type, code, id,
      token, option set, every value and payload, if and only if every value
      survives its own coding. */
  lemma RoundTripIff(m: Message, beyond: Byte, chunk: nat)
    requires WellFormed(m) && m.code != 0 && |m.payload| <= chunk
    requires |Head(m, beyond)| <= COAP_MAX_HEADER_SIZE
    ensures Parse(Wire(m, beyond), chunk) == Ok(m) <==> forall n <- m.values :: Survives(n, m.values[n])
  {
    hide Fits, Recovered, Survives, Parse, Wire, Head;
    ParseSerialized(m, beyond, chunk);
    var back := map n | n in m.values :: Recovered(n, m.values[n], beyond);
    forall n | n in m.values
      ensures back[n] == m.values[n] <==> Survives(n, m.values[n])
    {
      RecoveredIff(n, m.values[n], beyond);
    }
    if forall n <- m.values :: Survives(n, m.values[n]) {
      assert back == m.values;
    } else {
      var n :| n in m.values && !Survives(n, m.values[n]);
      assert back[n] != m.values[n];
    }
  }
}
