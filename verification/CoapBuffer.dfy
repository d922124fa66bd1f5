/** The CoAP codec on buffers: options written behind one another into an array, and
    a parser that merges repeated options inside the receive buffer.
 */
module CoapBuffer {
  import opened Machine
  import opened CoapOptions
  import opened CoapMessage

  // ----- Writing -----

  method Put(buffer: array<Byte>, at: nat, bytes: seq<Byte>)
    requires at + |bytes| <= buffer.Length
    modifies buffer
    ensures buffer[..at + |bytes|] == old(buffer[..at]) + bytes
  {
    forall i | 0 <= i < |bytes| {
      buffer[at + i] := bytes[i];
    }
  }

  /** The extension bytes of a delta or a length. */
  method PutExtension(v: nat, buffer: array<Byte>, at: nat) returns (next: nat)
    requires v < 269 + 65536 && at + |Extension(v)| <= buffer.Length
    modifies buffer
    ensures next == at + |Extension(v)|
    ensures buffer[..next] == old(buffer[..at]) + Extension(v)
  {
    next := at;
    if v > 268 {
      buffer[at] := (v - 269) / 256;
      buffer[at + 1] := (v - 269) % 256;
      next := at + 2;
    } else if v > 12 {
      buffer[at] := v - 13;
      next := at + 1;
    }
  }

  /** `coap_set_option_header`. */
  method SetOptionHeader(delta: nat, length: nat, buffer: array<Byte>, at: nat) returns (written: nat)
    requires delta < 269 + 65536 && length < 269 + 65536
    requires at + |OptionHeader(delta, length)| <= buffer.Length
    modifies buffer
    ensures written == |OptionHeader(delta, length)|
    ensures buffer[..at + written] == old(buffer[..at]) + OptionHeader(delta, length)
  {
    hide Extension;
    ghost var start, d, l := buffer[..at], Extension(delta), Extension(length);
    var first := 16 * Nibble(delta) + Nibble(length);
    buffer[at] := first;
    assert buffer[..at + 1] == start + [first];
    var next := PutExtension(delta, buffer, at + 1);
    next := PutExtension(length, buffer, next);
    written := next - at;
    assert ((start + [first]) + d) + l == start + ([first] + d + l);
  }

  /** One option: header and body. */
  method PutOption(prev: nat, n: nat, body: seq<Byte>, buffer: array<Byte>, at: nat) returns (next: nat)
    requires prev <= n < OPTION_LIMIT && |body| <= 65536
    requires at + |OptionHeader(n - prev, |body|) + body| <= buffer.Length
    modifies buffer
    ensures next == at + |OptionHeader(n - prev, |body|) + body|
    ensures buffer[..next] == old(buffer[..at]) + (OptionHeader(n - prev, |body|) + body)
  {
    hide OptionHeader;
    ghost var start, header := buffer[..at], OptionHeader(n - prev, |body|);
    var written := SetOptionHeader(n - prev, |body|, buffer, at);
    Put(buffer, at + written, body);
    next := at + written + |body|;
    assert (start + header) + body == start + (header + body);
  }

  /** `coap_serialize_int_option`: one mask test per byte. */
  method SerializeIntOption(prev: nat, n: nat, value: nat, buffer: array<Byte>, at: nat) returns (next: nat)
    requires prev <= n < OPTION_LIMIT && value < TWO_32
    requires |IntBytes(value)| <= 4
    requires at + |OptionHeader(n - prev, |IntBytes(value)|) + IntBytes(value)| <= buffer.Length
    modifies buffer
    ensures next == at + |OptionHeader(n - prev, |IntBytes(value)|) + IntBytes(value)|
    ensures buffer[..next] == old(buffer[..at]) + (OptionHeader(n - prev, |IntBytes(value)|) + IntBytes(value))
  {
    var body: seq<Byte> := [];
    if value >= 0x100_0000 { body := body + [value / 0x100_0000]; }
    if value >= 0x1_0000 { body := body + [value / 0x1_0000 % 256]; }
    if value >= 0x100 { body := body + [value / 0x100 % 256]; }
    if value >= 1 { body := body + [value % 256]; }
    FourBytes(value);
    assert body == IntBytes(value);
    next := PutOption(prev, n, body, buffer, at);
  }

  lemma FourBytes(v: nat)
    requires v < TWO_32
    ensures IntBytes(v) ==
            (if v >= 0x100_0000 then [v / 0x100_0000] else []) + (if v >= 0x1_0000 then [v / 0x1_0000 % 256] else [])
            + (if v >= 0x100 then [v / 0x100 % 256] else []) + (if v >= 1 then [v % 256] else [])
  {
    var a := v / 256;
    var b := a / 256;
    var c := b / 256;
    assert b == v / 0x1_0000 && c == v / 0x100_0000 && c < 256;
    assert IntBytes(v) == if v == 0 then [] else IntBytes(a) + [v % 256];
    assert IntBytes(a) == if a == 0 then [] else IntBytes(b) + [a % 256];
    assert IntBytes(b) == if b == 0 then [] else IntBytes(c) + [b % 256];
    assert IntBytes(c) == if c == 0 then [] else IntBytes(c / 256) + [c % 256];
    assert c / 256 == 0 && IntBytes(0) == [];
  }

  /** The splitting loop of `coap_serialize_array_option`. */
  method SerializeSplit(prev: nat, n: nat, mem: seq<Byte>, len: nat, sep: Byte, buffer: array<Byte>, at: nat)
    returns (next: nat)
    requires prev <= n < OPTION_LIMIT && len + 2 <= |mem| && len < 65536
    requires Short(Parts(mem, len, sep, 0, 0))
    requires at + |Repeated(prev, n, Parts(mem, len, sep, 0, 0))| <= buffer.Length
    modifies buffer
    ensures next == at + |Repeated(prev, n, Parts(mem, len, sep, 0, 0))|
    ensures buffer[..next] == old(buffer[..at]) + Repeated(prev, n, Parts(mem, len, sep, 0, 0))
  {
    hide OptionHeader, Parts, Repeated;
    ghost var all := old(buffer[..at]) + Repeated(prev, n, Parts(mem, len, sep, 0, 0));
    var current: nat, j: nat, start: nat := prev, 0, 0;
    next := at;
    while j <= len + 1
      invariant start <= j && current <= n
      invariant Short(Parts(mem, len, sep, j, start))
      invariant next <= |all| <= buffer.Length
      invariant buffer[..next] + Repeated(current, n, Parts(mem, len, sep, j, start)) == all
      decreases len + 2 - j
    {
      PartsStep(mem, len, sep, j, start);
      if mem[j] == sep || j == len {
        var part := mem[start..j];
        ghost var rest := Parts(mem, len, sep, j + 2, j + 1);
        RepeatedStep(current, n, part, rest);
        ghost var before, here := buffer[..next], OptionHeader(n - current, |part|) + part;
        assert before + (here + Repeated(n, n, rest)) == (before + here) + Repeated(n, n, rest);
        next := PutOption(current, n, part, buffer, next);
        j := j + 1;
        current, start := n, j;
      }
      j := j + 1;
    }
    PartsStep(mem, len, sep, j, start);
    RepeatedEmpty(current, n);
  }

  lemma PartsStep(mem: seq<Byte>, len: nat, sep: Byte, j: nat, start: nat)
    requires len + 2 <= |mem| && start <= j
    ensures Parts(mem, len, sep, j, start) ==
            if j > len + 1 then []
            else if mem[j] == sep || j == len then [mem[start..j]] + Parts(mem, len, sep, j + 2, j + 1)
            else Parts(mem, len, sep, j + 1, start)
  {
  }

  lemma RepeatedStep(prev: nat, n: nat, part: seq<Byte>, rest: seq<seq<Byte>>)
    requires prev <= n < OPTION_LIMIT && Short([part] + rest)
    ensures |part| <= 65536 && Short(rest)
    ensures Repeated(prev, n, [part] + rest) == (OptionHeader(n - prev, |part|) + part) + Repeated(n, n, rest)
  {
    assert part in [part] + rest;
    assert ([part] + rest)[1..] == rest;
    assert forall b <- rest :: b in [part] + rest;
  }

  lemma RepeatedEmpty(prev: nat, n: nat)
    requires prev <= n < OPTION_LIMIT
    ensures Repeated(prev, n, []) == []
  {
  }

  lemma RepeatedOne(prev: nat, n: nat, body: seq<Byte>)
    requires prev <= n < OPTION_LIMIT && |body| <= 65536
    ensures Short([body]) && Repeated(prev, n, [body]) == OptionHeader(n - prev, |body|) + body
  {
    assert [body] == [body] + [];
    assert Short([body] + []);
    RepeatedStep(prev, n, body, []);
    RepeatedEmpty(n, n);
  }

  /** One `COAP_SERIALIZE_*` macro for an option that is set. */
  method SerializeOption(prev: nat, n: nat, v: Value, beyond: Byte, buffer: array<Byte>, at: nat) returns (next: nat)
    requires prev <= n < OPTION_LIMIT && Fits(n, v) && Short(Bodies(n, v, beyond))
    requires at + |Repeated(prev, n, Bodies(n, v, beyond))| <= buffer.Length
    modifies buffer
    ensures next == at + |Repeated(prev, n, Bodies(n, v, beyond))|
    ensures buffer[..next] == old(buffer[..at]) + Repeated(prev, n, Bodies(n, v, beyond))
  {
    hide Parts, Repeated, OptionHeader, IntBytes;
    match KindOf(n) {
      case Split(sep) =>
        next := SerializeSplit(prev, n, v.b + [0, beyond], |v.b|, sep, buffer, at);
      case Uint(_) =>
        IntLength(v.n);
        RepeatedOne(prev, n, IntBytes(v.n));
        next := SerializeIntOption(prev, n, v.n, buffer, at);
      case Block =>
        BlockRoundTrip(v.num, v.more, v.size);
        var w := BlockWord(v.num, v.more, v.size);
        IntLength(w);
        RepeatedOne(prev, n, IntBytes(w));
        next := SerializeIntOption(prev, n, w, buffer, at);
      case Empty =>
        IntLength(0);
        RepeatedOne(prev, n, IntBytes(0));
        next := SerializeIntOption(prev, n, 0, buffer, at);
      case Opaque =>
        RepeatedOne(prev, n, v.b);
        next := PutOption(prev, n, v.b, buffer, at);
      case Text =>
        RepeatedOne(prev, n, v.b);
        next := PutOption(prev, n, v.b, buffer, at);
    }
  }

  lemma OptionsFromStep(i: nat, prev: nat, values: map<nat, Value>, beyond: Byte)
    requires i < |ORDER| && AllFit(values) && prev <= ORDER[i]
    ensures i + 1 < |ORDER| ==> ORDER[i] <= ORDER[i + 1]
    ensures ORDER[i] < OPTION_LIMIT
    ensures ORDER[i] in values ==>
              && Short(Bodies(ORDER[i], values[ORDER[i]], beyond))
              && OptionsFrom(i, prev, values, beyond) ==
                 Repeated(prev, ORDER[i], Bodies(ORDER[i], values[ORDER[i]], beyond))
                 + OptionsFrom(i + 1, ORDER[i], values, beyond)
    ensures ORDER[i] !in values ==> OptionsFrom(i, prev, values, beyond) == OptionsFrom(i + 1, prev, values, beyond)
  {
    hide Repeated, Bodies;
    if i + 1 < |ORDER| { OrderIncreases(i, i + 1); }
    NotYet(i);
    if ORDER[i] in values {
      BodiesShort(ORDER[i], values[ORDER[i]], beyond);
    }
  }

  lemma OptionsFromEnd(prev: nat, values: map<nat, Value>, beyond: Byte)
    requires AllFit(values)
    ensures OptionsFrom(|ORDER|, prev, values, beyond) == []
  {
  }

  /** The option macros in the order of their numbers. */
  method SerializeOptions(values: map<nat, Value>, beyond: Byte, buffer: array<Byte>, at: nat) returns (option: nat)
    requires AllFit(values) && at + |OptionsFrom(0, 0, values, beyond)| <= buffer.Length
    modifies buffer
    ensures option == at + |OptionsFrom(0, 0, values, beyond)|
    ensures buffer[..option] == old(buffer[..at]) + OptionsFrom(0, 0, values, beyond)
  {
    hide OptionsFrom, Fits, Repeated, Bodies, KindOf;
    ghost var all := buffer[..at] + OptionsFrom(0, 0, values, beyond);
    option := at;
    var current: nat := 0;
    for i := 0 to |ORDER|
      invariant i < |ORDER| ==> current <= ORDER[i]
      invariant option <= |all| <= buffer.Length
      invariant buffer[..option] + OptionsFrom(i, current, values, beyond) == all
    {
      OptionsFromStep(i, current, values, beyond);
      if ORDER[i] in values {
        ghost var before := buffer[..option];
        ghost var here := Repeated(current, ORDER[i], Bodies(ORDER[i], values[ORDER[i]], beyond));
        ghost var rest := OptionsFrom(i + 1, ORDER[i], values, beyond);
        assert before + (here + rest) == (before + here) + rest;
        option := SerializeOption(current, ORDER[i], values[ORDER[i]], beyond, buffer, option);
        current := ORDER[i];
      }
    }
    OptionsFromEnd(current, values, beyond);
  }

  /** `coap_serialize_message`: writes the message into the buffer and returns its
      length, or returns 0 when the header is too long. */
  method SerializeMessage(m: Message, beyond: Byte, buffer: array<Byte>) returns (length: nat)
    requires WellFormed(m)
    requires |Head(m, beyond)| + |PayloadPart(m.payload)| <= buffer.Length
    modifies buffer
    ensures length == |Wire(m, beyond)|
    ensures buffer[..length] == Wire(m, beyond)
  {
    assert AllFit(m.values);
    hide OptionsFrom, AllFit, PayloadPart;
    Put(buffer, 0, [64 + 16 * m.kind + |m.token|, m.code, m.mid / 256, m.mid % 256]);
    assert buffer[..COAP_HEADER_LEN] == FixedHeader(m);
    if m.code == 0 { return COAP_HEADER_LEN; }
    Put(buffer, COAP_HEADER_LEN, m.token);
    var option := SerializeOptions(m.values, beyond, buffer, COAP_HEADER_LEN + |m.token|);
    assert buffer[..option] == Head(m, beyond);
    if option > COAP_MAX_HEADER_SIZE { return 0; }
    Put(buffer, option, PayloadPart(m.payload));
    length := option + |PayloadPart(m.payload)|;
  }

  // ----- Parsing in place -----

  /** A packet field: a value of its own, or a string inside the receive buffer. */
  datatype Field = Held(v: Value) | Slice(start: nat, len: nat)

  ghost predicate Within(fields: map<nat, Field>, limit: nat)
  {
    forall n <- fields :: fields[n].Slice? ==> fields[n].start + fields[n].len <= limit
  }

  ghost function Look(data: seq<Byte>, f: Field): Value
    requires f.Slice? ==> f.start + f.len <= |data|
  {
    match f
    case Held(v) => v
    case Slice(start, len) => Bytes(data[start..start + len])
  }

  /** The fields as the application reads them through the buffer. */
  ghost function Resolve(data: seq<Byte>, fields: map<nat, Field>): map<nat, Value>
    requires Within(fields, |data|)
  {
    map n | n in fields :: Look(data, fields[n])
  }

  /** Strings of earlier options lie before the current run of equal options, which
      starts at `run`; the string of the current option lies inside the run. */
  ghost predicate Arranged(fields: map<nat, Field>, number: nat, run: nat, pos: nat)
  {
    forall n <- fields ::
      && n <= number
      && (KindOf(n).Split? ==> fields[n].Slice?)
      && (fields[n].Slice? ==>
            && fields[n].start + fields[n].len <= pos
            && (n != number ==> fields[n].start + fields[n].len <= run)
            && (n == number ==> run <= fields[n].start))
  }

  /** `memmove` of `n` bytes to a lower address. */
  function Moved(s: seq<Byte>, to: nat, from: nat, n: nat): (r: seq<Byte>)
    requires to <= from && from + n <= |s|
    ensures |r| == |s|
  {
    s[..to] + s[from..from + n] + s[to + n..]
  }

  method CopyDown(data: array<Byte>, to: nat, from: nat, length: nat)
    requires to <= from && from + length <= data.Length
    modifies data
    ensures data[..] == Moved(old(data[..]), to, from, length)
  {
    forall i | 0 <= i < length {
      data[to + i] := data[from + i];
    }
    ghost var was := old(data[..]);
    hide Moved;
    forall k | 0 <= k < data.Length
      ensures data[k] == Moved(was, to, from, length)[k]
    {
      MovedAt(was, to, from, length, k);
    }
    assert data[..] == Moved(was, to, from, length);
  }

  lemma MovedAt(s: seq<Byte>, to: nat, from: nat, n: nat, k: nat)
    requires to <= from && from + n <= |s| && k < |s|
    ensures Moved(s, to, from, n)[k] == if to <= k < to + n then s[from + (k - to)] else s[k]
  {
  }

  /** Writing the separator behind the string and moving the body up to it. */
  lemma MergedPieces(s: seq<Byte>, start: nat, len: nat, p: nat, length: nat, sep: Byte)
    requires start + len < p && p + length <= |s|
    ensures var m := Moved(s[start + len := sep], start + len + 1, p, length);
            && m[..start + len] == s[..start + len]
            && m[p + length..] == s[p + length..]
            && m[start..start + len + 1 + length] == s[start..start + len] + [sep] + s[p..p + length]
  {
    var e := start + len;
    var t := s[e := sep];
    assert t[p..p + length] == s[p..p + length];
    var m := Moved(t, e + 1, p, length);
    assert m[..e] == t[..e] == s[..e];
    assert m[p + length..] == t[p + length..] == s[p + length..];
    assert m[start..e + 1 + length] == t[start..e + 1] + t[p..p + length];
    assert t[start..e + 1] == s[start..e] + [sep];
  }

  /** `coap_merge_multi_option`: appends the option at `p` to the string at `start`.
      Everything before the end of the string and behind the option stays as it was. */
  method MergeMultiOption(data: array<Byte>, start: nat, len: nat, p: nat, length: nat, sep: Byte)
    returns (start': nat, len': nat)
    requires start + len < p && p + length <= data.Length
    modifies data
    ensures start' + len' <= p + length && start' >= start
    ensures data[..start + len] == old(data[..start + len])
    ensures data[p + length..] == old(data[p + length..])
    ensures data[start'..start' + len'] == MergePart(old(data[start..start + len]), old(data[p..p + length]), sep)
  {
    if len > 0 {
      hide Moved;
      MergedPieces(data[..], start, len, p, length, sep);
      data[start + len] := sep;
      CopyDown(data, start + len + 1, p, length);
      start', len' := start, len + 1 + length;
    } else {
      start', len' := p, length;
    }
  }

  datatype Status = NoError | Error(why: Failure)

  class Packet {
    var seen: set<nat>
    var fields: map<nat, Field>
    var payloadStart: nat
    var payloadLen: nat

    constructor ()
      ensures seen == {} && fields == map[] && payloadLen == 0 && payloadStart == 0
    {
      seen, fields, payloadStart, payloadLen := {}, map[], 0, 0;
    }

    /** A string option that may repeat. */
    method MergeInto(data: array<Byte>, n: nat, sep: Byte, p: nat, length: nat, ghost run: nat, ghost pos: nat)
      requires run <= pos < p && p + length <= data.Length && Arranged(fields, n, run, pos) && KindOf(n) == Split(sep)
      modifies this`fields, data
      ensures Arranged(fields, n, run, p + length)
      ensures var was := old(Resolve(data[..], fields));
              Resolve(data[..], fields) ==
              was[n := Bytes(MergePart(Old(Options({}, was), n), old(data[p..p + length]), sep))]
      ensures data[p + length..] == old(data[p + length..])
    {
      hide MergePart, KindOf;
      ghost var before, body := data[..], data[p..p + length];
      ghost var was := Old(Options({}, Resolve(before, fields)), n);
      var at: nat, len: nat := p, 0;
      if n in fields {
        at, len := fields[n].start, fields[n].len;
        assert was == data[at..at + len];
      }
      if n !in fields {
        MergeEmpty(body, sep);
        at, len := p, length;
      } else {
        at, len := MergeMultiOption(data, at, len, p, length, sep);
      }
      assert data[at..at + len] == MergePart(was, body, sep);
      assert data[..run] == before[..run];
      Keep2(before, data[..], fields, n, at, len, run, pos, p + length);
      fields := fields[n := Slice(at, len)];
    }

    /** The option switch for option `n` whose body lies at `p`. */
    method ApplyOption(data: array<Byte>, n: nat, p: nat, length: nat, ghost run: nat, ghost pos: nat) returns (status: Status)
      requires run <= pos < p && p + length <= data.Length && Arranged(fields, n, run, pos)
      modifies this`seen, this`fields, data
      ensures Arranged(old(fields), n, run, pos)
      ensures match Apply(Options(old(seen), old(Resolve(data[..], fields))), n, old(data[p..p + length]))
              case Stop(e) => status == Error(e)
              case Next(o) =>
                && status == NoError && Arranged(fields, n, run, p + length)
                && o == Options(seen, Resolve(data[..], fields))
                && data[p + length..] == old(data[p + length..])
    {
      hide MergePart, ParseInt, ParseBlock, Resolve;
      ghost var body := data[p..p + length];
      if n >= OPTION_LIMIT { return Error(OutOfBounds); }
      seen := seen + {n};
      match KindOf(n) {
        case Opaque =>
          var len := if length <= COAP_ETAG_LEN then length else COAP_ETAG_LEN;
          SliceOfSlice(data[..], p, p + length, len);
          Keep(data[..], fields, n, Bytes(data[p..p + len]), run, pos, p + length);
          fields := fields[n := Held(Bytes(data[p..p + len]))];
        case Text =>
          Keep2(data[..], data[..], fields, n, p, length, run, pos, p + length);
          fields := fields[n := Slice(p, length)];
        case Split(sep) =>
          MergeInto(data, n, sep, p, length, run, pos);
        case Empty =>
          Keep(data[..], fields, n, Present, run, pos, p + length);
          fields := fields[n := Held(Present)];
        case Uint(limit) =>
          var v := Num(ParseInt(data[p..p + length]) % (if limit == 0 then 1 else limit));
          Keep(data[..], fields, n, v, run, pos, p + length);
          fields := fields[n := Held(v)];
        case Block =>
          var v := ParseBlock(ParseInt(data[p..p + length]));
          Keep(data[..], fields, n, v, run, pos, p + length);
          fields := fields[n := Held(v)];
        case Proxy =>
          return Error(ProxyingNotSupported);
        case Unknown =>
          if n % 2 == 1 { return Error(BadOption); }
      }
      status := NoError;
    }

    /** Behind the payload marker at `pos`: the rest, cut and terminated. */
    method TakePayload(data: array<Byte>, dataLen: nat, pos: nat, chunk: nat)
      requires pos < dataLen < data.Length && Within(fields, pos)
      modifies this`payloadStart, this`payloadLen, data
      ensures payloadStart + payloadLen <= data.Length
      ensures data[payloadStart..payloadStart + payloadLen] == CutPayload(old(data[..dataLen][pos + 1..]), chunk)
      ensures Resolve(data[..], fields) == old(Resolve(data[..], fields))
    {
      hide Resolve;
      ghost var before := data[..];
      payloadStart := pos + 1;
      payloadLen := dataLen - payloadStart;
      if payloadLen > chunk { payloadLen := chunk; }
      assert data[payloadStart..payloadStart + payloadLen] == CutPayload(data[..dataLen][pos + 1..], chunk);
      data[payloadStart + payloadLen] := 0;
      ResolveSame(before, data[..], fields, pos);
    }

    /** The option loop, reading the bytes that merging has left alone. */
    method ParseOptionsInPlace(data: array<Byte>, dataLen: nat, start: nat, chunk: nat) returns (status: Status)
      requires start <= dataLen < data.Length
      requires seen == {} && fields == map[] && payloadStart == 0 && payloadLen == 0
      modifies this, data
      ensures match ParseOptions(old(data[..dataLen]), start, 0, NO_OPTIONS, chunk)
              case Aborted(e) => status == Error(e)
              case Finished(o, payload) =>
                && status == NoError
                && Within(fields, data.Length) && o == Options(seen, Resolve(data[..], fields))
                && payloadStart + payloadLen <= data.Length
                && data[payloadStart..payloadStart + payloadLen] == payload
    {
      hide Apply, ReadHeader, Resolve, ParseOptions, Agree;
      ghost var original := data[..dataLen];
      ghost var goal := ParseOptions(original, start, 0, NO_OPTIONS, chunk);
      assert Resolve(data[..], fields) == map[] by { ResolveNothing(data[..]); }
      assert Agree(data[..dataLen], original, start) by { AgreeStart(original, start); }
      var pos: nat, number: nat := start, 0;
      ghost var run: nat := start;
      while pos < dataLen
        invariant pos <= dataLen && run <= pos && Arranged(fields, number, run, pos)
        invariant Agree(data[..dataLen], original, pos)
        invariant payloadStart == 0 && payloadLen == 0
        invariant goal == ParseOptions(original, pos, number, Options(seen, Resolve(data[..], fields)), chunk)
        decreases dataLen - pos
      {
        ghost var from, o := pos, Options(seen, Resolve(data[..], fields));
        OptionStep(original, pos, number, o, chunk);
        SameFirst(data[..dataLen], original, pos);
        if data[pos] >= 0xF0 {
          AgreeOn(data[..dataLen], original, pos, pos + 1, dataLen);
          TakePayload(data, dataLen, pos, chunk);
          return NoError;
        }
        ReadHeaderLocal(data[..dataLen], original, pos);
        var h := ReadHeader(data[..dataLen], pos);
        if h.HeaderShort? || h.pos + h.length > dataLen { return Error(OutOfBounds); }
        AgreeOn(data[..dataLen], original, pos, h.pos, h.pos + h.length);
        SliceOfPrefix(data[..], dataLen, h.pos, h.pos + h.length);
        if h.delta > 0 { run := pos; }
        ghost var before := data[..];
        number := number + h.delta;
        status := ApplyOption(data, number, h.pos, h.length, run, pos);
        if status.Error? { return; }
        pos := h.pos + h.length;
        AgreeAfter(before, data[..], original, dataLen, from, pos);
      }
      ParseAtEnd(original, pos, number, Options(seen, Resolve(data[..], fields)), chunk);
      status := NoError;
    }
  }

  /** `coap_parse_message`: whatever merging does to the buffer, the packet read
      through it afterwards is the one that the original bytes encode. */
  method ParseMessage(data: array<Byte>, dataLen: nat, chunk: nat)
    returns (status: Status, packet: Packet, kind: nat, code: Byte, mid: nat, token: seq<Byte>)
    requires dataLen < data.Length
    modifies data
    ensures match Parse(old(data[..dataLen]), chunk)
            case Failed(e) => status == Error(e)
            case Ok(m) =>
              && status == NoError
              && Within(packet.fields, data.Length) && packet.payloadStart + packet.payloadLen <= data.Length
              && m == Message(kind, code, mid, token, packet.seen, Resolve(data[..], packet.fields),
                              data[packet.payloadStart..packet.payloadStart + packet.payloadLen])
  {
    hide ParseOptions, Resolve;
    packet := new Packet();
    kind, code, mid, token := 0, 0, 0, [];
    if dataLen < COAP_HEADER_LEN { status := Error(OutOfBounds); return; }
    kind := data[0] / 16 % 4;
    code := data[1];
    mid := 256 * (data[2] as int) + data[3];
    if data[0] / 64 != 1 { status := Error(BadRequest); return; }
    var tokenLen := data[0] % 16;
    if tokenLen > COAP_TOKEN_LEN { status := Error(BadRequest); return; }
    if COAP_HEADER_LEN + tokenLen > dataLen { status := Error(OutOfBounds); return; }
    token := data[COAP_HEADER_LEN..COAP_HEADER_LEN + tokenLen];
    assert token == data[..dataLen][COAP_HEADER_LEN..COAP_HEADER_LEN + tokenLen];
    status := packet.ParseOptionsInPlace(data, dataLen, COAP_HEADER_LEN + tokenLen, chunk);
  }

  lemma ResolveNothing(data: seq<Byte>)
    ensures Resolve(data, map[]) == map[]
  {
  }

  lemma SameFirst(a: seq<Byte>, b: seq<Byte>, pos: nat)
    requires pos < |a| && Agree(a, b, pos)
    ensures a[pos] == b[pos]
  {
    assert a[pos] == a[pos..][0] && b[pos] == b[pos..][0];
  }

  /** Equal from `pos` on. */
  ghost predicate Agree(a: seq<Byte>, b: seq<Byte>, pos: nat)
  {
    pos <= |a| == |b| && a[pos..] == b[pos..]
  }

  lemma AgreeStart(a: seq<Byte>, pos: nat)
    requires pos <= |a|
    ensures Agree(a, a, pos)
  {
  }

  lemma AgreeOn(a: seq<Byte>, b: seq<Byte>, pos: nat, i: nat, j: nat)
    requires Agree(a, b, pos) && pos <= i <= j <= |a|
    ensures a[i..j] == b[i..j] && a[i..] == b[i..]
  {
    SliceOfSuffix(a, pos, i, j);
    SliceOfSuffix(b, pos, i, j);
    SliceOfSuffix(a, pos, i, |a|);
    SliceOfSuffix(b, pos, i, |b|);
  }

  lemma SliceOfSuffix(a: seq<Byte>, pos: nat, i: nat, j: nat)
    requires pos <= i <= j <= |a|
    ensures a[i..j] == a[pos..][i - pos..j - pos]
  {
    var x, y := a[i..j], a[pos..][i - pos..j - pos];
    assert |x| == |y|;
    assert forall k :: 0 <= k < |x| ==> x[k] == y[k];
  }

  lemma SliceOfSlice(a: seq<Byte>, i: nat, j: nat, n: nat)
    requires i <= j <= |a| && n <= j - i
    ensures a[i..i + n] == a[i..j][..n]
  {
    var x, y := a[i..i + n], a[i..j][..n];
    assert |x| == |y|;
    assert forall k :: 0 <= k < |x| ==> x[k] == y[k];
  }

  lemma PrefixThenSuffix(a: seq<Byte>, n: nat, i: nat)
    requires i <= n <= |a|
    ensures a[..n][i..] == a[i..][..n - i]
  {
    var x, y := a[..n][i..], a[i..][..n - i];
    assert |x| == |y|;
    assert forall k :: 0 <= k < |x| ==> x[k] == y[k];
  }

  lemma SliceOfPrefix(a: seq<Byte>, n: nat, i: nat, j: nat)
    requires i <= j <= n <= |a|
    ensures a[..n][i..j] == a[i..j]
  {
    var x, y := a[..n][i..j], a[i..j];
    assert |x| == |y|;
    assert forall k :: 0 <= k < |x| ==> x[k] == y[k];
  }

  lemma AgreeAfter(before: seq<Byte>, after: seq<Byte>, original: seq<Byte>, n: nat, pos: nat, next: nat)
    requires pos <= next <= n <= |before| == |after|
    requires before[next..] == after[next..] && Agree(before[..n], original, pos)
    ensures Agree(after[..n], original, next)
  {
    AgreeOn(before[..n], original, pos, next, n);
    PrefixThenSuffix(after, n, next);
    PrefixThenSuffix(before, n, next);
  }

  lemma ReadHeaderLocal(a: seq<Byte>, b: seq<Byte>, pos: nat)
    requires pos < |a| && Agree(a, b, pos)
    ensures ReadHeader(a, pos) == ReadHeader(b, pos)
  {
    forall i | pos <= i < |a|
      ensures a[i] == b[i]
    {
      assert a[i] == a[pos..][i - pos] && b[i] == b[pos..][i - pos];
    }
  }

  lemma OptionStep(data: seq<Byte>, pos: nat, number: nat, o: Options, chunk: nat)
    requires pos < |data|
    ensures ParseOptions(data, pos, number, o, chunk) ==
            if data[pos] >= 0xF0 then Finished(o, CutPayload(data[pos + 1..], chunk)) else
            var h := ReadHeader(data, pos);
            if h.HeaderShort? || h.pos + h.length > |data| then Aborted(OutOfBounds) else
            match Apply(o, number + h.delta, data[h.pos..h.pos + h.length])
            case Stop(e) => Aborted(e)
            case Next(o') => ParseOptions(data, h.pos + h.length, number + h.delta, o', chunk)
  {
    hide Apply, ReadHeader;
  }

  lemma ParseAtEnd(data: seq<Byte>, pos: nat, number: nat, o: Options, chunk: nat)
    requires pos >= |data|
    ensures ParseOptions(data, pos, number, o, chunk) == Finished(o, [])
  {
  }

  lemma ResolveSame(before: seq<Byte>, after: seq<Byte>, fields: map<nat, Field>, limit: nat)
    requires limit <= |before| == |after| && Within(fields, limit) && before[..limit] == after[..limit]
    ensures Resolve(after, fields) == Resolve(before, fields)
  {
    forall k | k in fields
      ensures Look(after, fields[k]) == Look(before, fields[k])
    {
      if fields[k].Slice? {
        var s, e := fields[k].start, fields[k].start + fields[k].len;
        assert before[s..e] == before[..limit][s..e] == after[..limit][s..e] == after[s..e];
      }
    }
  }

  lemma MergeEmpty(body: seq<Byte>, sep: Byte)
    ensures MergePart([], body, sep) == body
  {
  }

  lemma Keep(data: seq<Byte>, fields: map<nat, Field>, n: nat, v: Value, run: nat, pos: nat, end: nat)
    requires run <= pos <= end <= |data| && Arranged(fields, n, run, pos) && !KindOf(n).Split?
    ensures var fields' := fields[n := Held(v)];
            && Arranged(fields', n, run, end)
            && Resolve(data, fields') == Resolve(data, fields)[n := v]
  {
  }

  lemma SharedSlice(before: seq<Byte>, after: seq<Byte>, run: nat, s: nat, e: nat)
    requires s <= e <= run <= |before| && run <= |after| && before[..run] == after[..run]
    ensures before[s..e] == after[s..e]
  {
    assert before[s..e] == before[..run][s..e];
    assert after[s..e] == after[..run][s..e];
  }

  /** Rewriting the buffer inside the current run leaves every other field alone. */
  lemma Keep2(before: seq<Byte>, after: seq<Byte>, fields: map<nat, Field>, n: nat, at: nat, len: nat,
              run: nat, pos: nat, end: nat)
    requires run <= pos <= end <= |before| == |after| && Arranged(fields, n, run, pos)
    requires run <= at && at + len <= end
    requires before[..run] == after[..run]
    ensures var fields' := fields[n := Slice(at, len)];
            && Arranged(fields', n, run, end)
            && Resolve(after, fields') == Resolve(before, fields)[n := Bytes(after[at..at + len])]
  {
    var fields' := fields[n := Slice(at, len)];
    forall k | k in fields && k != n
      ensures Look(after, fields[k]) == Look(before, fields[k])
    {
      if fields[k].Slice? {
        var s, e := fields[k].start, fields[k].start + fields[k].len;
        SharedSlice(before, after, run, s, e);
      }
    }
    assert Resolve(after, fields') == Resolve(before, fields)[n := Bytes(after[at..at + len])];
  }
}
