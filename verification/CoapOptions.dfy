/** Option-level coding of CoAP messages: headers with delta and length nibbles,
    unsigned integers, and strings split into one option per segment.
 */
module CoapOptions {
  import opened Machine

  // ----- Option header (section 3.1 of RFC 7252) -----

  function Nibble(v: nat): Byte
  {
    if v < 13 then v else if v <= 0xFF + 13 then 13 else 14
  }

  function Extension(v: nat): seq<Byte>
    requires v < 269 + 65536
  {
    if v > 268 then [(v - 269) / 256, (v - 269) % 256]
    else if v > 12 then [v - 13]
    else []
  }

  /** `coap_set_option_header`. */
  function OptionHeader(delta: nat, length: nat): (s: seq<Byte>)
    requires delta < 269 + 65536 && length < 269 + 65536
    ensures 1 <= |s| <= 5
  {
    [16 * Nibble(delta) + Nibble(length)] + Extension(delta) + Extension(length)
  }

  datatype Extended = Extended(value: nat, pos: nat) | TooShort

  /** Undoing one nibble; 15 is not an extension here. */
  function ReadExtended(nibble: nat, data: seq<Byte>, pos: nat): (r: Extended)
    ensures r.Extended? ==> pos <= r.pos && (pos <= |data| ==> r.pos <= |data|)
  {
    if nibble == 13 then
      if pos + 1 > |data| then TooShort else Extended(13 + data[pos] as int, pos + 1)
    else if nibble == 14 then
      if pos + 2 > |data| then TooShort else Extended(14 + 255 + 256 * (data[pos] as int) + data[pos + 1] as int, pos + 2)
    else Extended(nibble, pos)
  }

  /** `data` from `pos` on is `part` followed by `rest`. */
  ghost predicate Shows(data: seq<Byte>, pos: nat, part: seq<Byte>, rest: seq<Byte>)
  {
    pos <= |data| && data[pos..] == part + rest
  }

  lemma Advance(data: seq<Byte>, pos: nat, a: seq<Byte>, b: seq<Byte>, rest: seq<Byte>)
    requires Shows(data, pos, a + b, rest)
    ensures Shows(data, pos, a, b + rest) && Shows(data, pos + |a|, b, rest)
  {
    assert (a + b) + rest == a + (b + rest);
    assert data[pos + |a|..] == data[pos..][|a|..];
  }

  lemma Inside(data: seq<Byte>, pos: nat, part: seq<Byte>, rest: seq<Byte>, i: nat)
    requires Shows(data, pos, part, rest) && i < |part|
    ensures pos + |part| <= |data| && data[pos + i] == part[i]
    ensures data[pos..pos + |part|] == part
  {
    assert data[pos + i] == data[pos..][i];
    assert data[pos..pos + |part|] == data[pos..][..|part|];
  }

  lemma ExtensionReadBack(v: nat, data: seq<Byte>, pos: nat, rest: seq<Byte>)
    requires v < 269 + 65536 && Shows(data, pos, Extension(v), rest)
    ensures ReadExtended(Nibble(v), data, pos) == Extended(v, pos + |Extension(v)|)
  {
    if v > 12 { Inside(data, pos, Extension(v), rest, 0); }
    if v > 268 { Inside(data, pos, Extension(v), rest, 1); }
  }

  // ----- Integers -----

  const TWO_32: nat := 0x1_0000_0000

  /** Big-endian with no leading zero byte; zero takes no byte. */
  function IntBytes(v: nat): seq<Byte>
  {
    if v == 0 then [] else IntBytes(v / 256) + [v % 256]
  }

  /** `coap_parse_int_option` on a 32-bit accumulator. */
  function ParseInt(s: seq<Byte>): (v: nat)
    ensures v < TWO_32
  {
    if s == [] then 0 else (ParseInt(s[..|s| - 1]) * 256 + s[|s| - 1]) % TWO_32
  }

  lemma {:induction false} IntRoundTrip(v: nat)
    requires v < TWO_32
    ensures ParseInt(IntBytes(v)) == v
  {
    if v > 0 {
      var s := IntBytes(v);
      assert s[..|s| - 1] == IntBytes(v / 256);
      IntRoundTrip(v / 256);
    }
  }

  lemma IntLength(v: nat)
    requires v < TWO_32
    ensures |IntBytes(v)| <= 4
    ensures |IntBytes(v)| == (if v == 0 then 0 else if v < 0x100 then 1 else if v < 0x1_0000 then 2
                              else if v < 0x100_0000 then 3 else 4)
  {
    var a := v / 256;
    var b := a / 256;
    var c := b / 256;
    assert IntBytes(v) == if v == 0 then [] else IntBytes(a) + [v % 256];
    assert IntBytes(a) == if a == 0 then [] else IntBytes(b) + [a % 256];
    assert IntBytes(b) == if b == 0 then [] else IntBytes(c) + [b % 256];
    assert IntBytes(c) == if c == 0 then [] else IntBytes(c / 256) + [c % 256];
    assert c < 256 && c / 256 == 0;
  }

  // ----- Split strings -----

  /** The parts that the splitting loop of `coap_serialize_array_option` emits for
      the string `mem[..len]`, from scan position `j` with the current part starting at
      `start`. After a separator the scan steps over one character unseen, and it may
      look one character behind the terminator. */
  function Parts(mem: seq<Byte>, len: nat, sep: Byte, j: nat, start: nat): seq<seq<Byte>>
    requires len + 2 <= |mem| && start <= j
    decreases len + 2 - j
  {
    if j > len + 1 then []
    else if mem[j] == sep || j == len then [mem[start..j]] + Parts(mem, len, sep, j + 2, j + 1)
    else Parts(mem, len, sep, j + 1, start)
  }

  /** `coap_merge_multi_option` on values: an empty destination is replaced. */
  function MergePart(acc: seq<Byte>, part: seq<Byte>, sep: Byte): seq<Byte>
  {
    if acc == [] then part else acc + [sep] + part
  }

  function MergeParts(acc: seq<Byte>, parts: seq<seq<Byte>>, sep: Byte): seq<Byte>
    decreases |parts|
  {
    if parts == [] then acc else MergeParts(MergePart(acc, parts[0], sep), parts[1..], sep)
  }

  /** The separator-join. */
  function JoinParts(parts: seq<seq<Byte>>, sep: Byte): seq<Byte>
  {
    if parts == [] then []
    else if |parts| == 1 then parts[0]
    else parts[0] + [sep] + JoinParts(parts[1..], sep)
  }

  function DropEmpty(parts: seq<seq<Byte>>): seq<seq<Byte>>
  {
    if parts != [] && parts[0] == [] then DropEmpty(parts[1..]) else parts
  }

  lemma {:induction false} MergeFull(acc: seq<Byte>, parts: seq<seq<Byte>>, sep: Byte)
    requires acc != []
    ensures MergeParts(acc, parts, sep) == JoinParts([acc] + parts, sep)
    decreases |parts|
  {
    if parts != [] {
      var next := acc + [sep] + parts[0];
      MergeFull(next, parts[1..], sep);
      assert ([acc] + parts)[1..] == parts;
      assert ([next] + parts[1..])[1..] == parts[1..];
      if |parts| == 1 {
        assert parts[1..] == [];
      }
    }
  }

  /** Merging repeated options gives the separator-join of the parts after dropping
      leading empty ones. */
  lemma {:induction false} MergeIsJoin(parts: seq<seq<Byte>>, sep: Byte)
    ensures MergeParts([], parts, sep) == JoinParts(DropEmpty(parts), sep)
  {
    if parts != [] {
      if parts[0] == [] {
        MergeIsJoin(parts[1..], sep);
      } else {
        MergeFull(parts[0], parts[1..], sep);
        assert [parts[0]] + parts[1..] == parts;
      }
    }
  }

  /** Length of the run of separators at the end of `s`. */
  function TrailingRun(s: seq<Byte>, sep: Byte): (n: nat)
    ensures n <= |s|
  {
    if s == [] then 0
    else if s[0] == sep && TrailingRun(s[1..], sep) == |s| - 1 then |s|
    else TrailingRun(s[1..], sep)
  }

  /** The scan arrives at the end of the string, so that the last part is emitted. */
  predicate Completes(s: seq<Byte>, sep: Byte)
    decreases |s|
  {
    if s == [] then true
    else if s[0] == sep then |s| >= 2 && Completes(s[2..], sep)
    else Completes(s[1..], sep)
  }

  lemma {:induction false} CompletesIff(s: seq<Byte>, sep: Byte)
    ensures Completes(s, sep) <==> TrailingRun(s, sep) % 2 == 0
  {
    if s != [] {
      if s[0] != sep {
        CompletesIff(s[1..], sep);
      } else if |s| >= 2 {
        CompletesIff(s[2..], sep);
        assert s[1..][1..] == s[2..];
      } else {
        assert s[1..] == [];
      }
    }
  }

  ghost predicate Terminated(mem: seq<Byte>, len: nat, sep: Byte)
  {
    len + 2 <= |mem| && mem[len] == 0 && sep != 0
  }

  /** What the parts from a scan position join to. A scan that misses the end loses
      the last separator, or picks up the terminator when a separator happens to lie
      behind it. */
  function Joined(mem: seq<Byte>, len: nat, sep: Byte, j: nat, start: nat): seq<Byte>
    requires len + 2 <= |mem| && start <= j <= len
  {
    if Completes(mem[j..len], sep) then mem[start..len]
    else if mem[len + 1] == sep then mem[start..len] + [0]
    else if start < len then mem[start..len - 1] else []
  }

  lemma JoinCons(p: seq<Byte>, rest: seq<seq<Byte>>, sep: Byte)
    ensures JoinParts([p] + rest, sep) == if rest == [] then p else p + [sep] + JoinParts(rest, sep)
  {
    assert ([p] + rest)[1..] == rest;
  }

  lemma {:induction false} PartsJoin(mem: seq<Byte>, len: nat, sep: Byte, j: nat, start: nat)
    requires Terminated(mem, len, sep) && start <= j <= len
    ensures Parts(mem, len, sep, j, start) != []
    ensures JoinParts(Parts(mem, len, sep, j, start), sep) == Joined(mem, len, sep, j, start)
    ensures !Completes(mem[j..len], sep) ==> mem[len - 1] == sep && start < len
    decreases len - j
  {
    if j == len {
      assert Parts(mem, len, sep, len + 2, len + 1) == [];
      assert Parts(mem, len, sep, j, start) == [mem[start..len]];
    } else if mem[j] != sep {
      hide JoinParts;
      assert mem[j..len][1..] == mem[j + 1..len];
      PartsJoin(mem, len, sep, j + 1, start);
    } else if j + 2 <= len {
      PartsJoin(mem, len, sep, j + 2, j + 1);
      SplitStep(mem, len, sep, j, start);
    } else {
      SplitAtEnd(mem, len, sep, start);
    }
  }

  lemma SplitStep(mem: seq<Byte>, len: nat, sep: Byte, j: nat, start: nat)
    requires Terminated(mem, len, sep) && start <= j && j + 2 <= len && mem[j] == sep
    requires Parts(mem, len, sep, j + 2, j + 1) != []
    requires JoinParts(Parts(mem, len, sep, j + 2, j + 1), sep) == Joined(mem, len, sep, j + 2, j + 1)
    ensures Completes(mem[j..len], sep) == Completes(mem[j + 2..len], sep)
    ensures JoinParts(Parts(mem, len, sep, j, start), sep) == Joined(mem, len, sep, j, start)
  {
    hide JoinParts;
    assert mem[j..len][2..] == mem[j + 2..len];
    JoinCons(mem[start..j], Parts(mem, len, sep, j + 2, j + 1), sep);
    var head := mem[start..j] + [sep];
    assert head + mem[j + 1..len] == mem[start..len];
    assert head + (mem[j + 1..len] + [0]) == mem[start..len] + [0];
    assert head + mem[j + 1..len - 1] == mem[start..len - 1];
  }

  lemma SplitAtEnd(mem: seq<Byte>, len: nat, sep: Byte, start: nat)
    requires Terminated(mem, len, sep) && start < len && mem[len - 1] == sep
    ensures !Completes(mem[len - 1..len], sep)
    ensures JoinParts(Parts(mem, len, sep, len - 1, start), sep) == Joined(mem, len, sep, len - 1, start)
  {
    hide JoinParts;
    var rest := Parts(mem, len, sep, len + 1, len);
    assert Parts(mem, len, sep, len + 2, len) == [] && Parts(mem, len, sep, len + 3, len + 2) == [];
    JoinCons(mem[start..len - 1], rest, sep);
    if mem[len + 1] == sep {
      assert rest == [mem[len..len + 1]] + [];
      JoinCons(mem[len..len + 1], [], sep);
      assert mem[start..len - 1] + [sep] + [0] == mem[start..len] + [0];
    }
  }

  /** The first part is empty exactly when the string is empty or starts with the
      separator. */
  lemma {:induction false} FirstPart(mem: seq<Byte>, len: nat, sep: Byte, j: nat, start: nat)
    requires len + 2 <= |mem| && start <= j <= len
    ensures var parts := Parts(mem, len, sep, j, start);
            parts != [] && (parts[0] == [] <==> start == j && (j == len || mem[j] == sep))
    decreases len - j
  {
    if j < len && mem[j] != sep {
      FirstPart(mem, len, sep, j + 1, start);
    }
  }

  /** A split string survives serialization and merging exactly when it is empty, or
      does not start with the separator and ends with an even run of separators. In
      particular it does when it neither starts nor ends with one. */
  lemma SplitRoundTripIff(mem: seq<Byte>, len: nat, sep: Byte)
    requires Terminated(mem, len, sep)
    ensures MergeParts([], Parts(mem, len, sep, 0, 0), sep) == mem[..len] <==>
            len == 0 || (mem[0] != sep && TrailingRun(mem[..len], sep) % 2 == 0)
  {
    var s, parts := mem[..len], Parts(mem, len, sep, 0, 0);
    assert s == mem[0..len];
    PartsJoin(mem, len, sep, 0, 0);
    FirstPart(mem, len, sep, 0, 0);
    CompletesIff(s, sep);
    MergeIsJoin(parts, sep);
    if len > 0 && mem[0] == sep {
      LeadingSeparatorLost(mem, len, sep);
    }
  }

  lemma LeadingSeparatorLost(mem: seq<Byte>, len: nat, sep: Byte)
    requires Terminated(mem, len, sep) && len > 0 && mem[0] == sep
    ensures MergeParts([], Parts(mem, len, sep, 0, 0), sep) != mem[..len]
  {
    var parts, rest := Parts(mem, len, sep, 0, 0), Parts(mem, len, sep, 2, 1);
    assert parts == [[]] + rest && parts[1..] == rest;
    assert MergeParts([], parts, sep) == MergeParts([], rest, sep);
    MergeIsJoin(rest, sep);
    if len == 1 {
      assert Parts(mem, 1, sep, 3, 1) == [] && Parts(mem, 1, sep, 4, 3) == [];
      assert rest == if mem[2] == sep then [mem[1..2]] else [];
    } else {
      FirstPart(mem, len, sep, 2, 1);
      PartsJoin(mem, len, sep, 2, 1);
      assert DropEmpty(rest) == rest;
      var joined := JoinParts(rest, sep);
      if |joined| == len {
        assert joined[len - 1] == 0;
      }
    }
  }
}
