/** What `check_ip` accepts, said of the bytes of a packet as the protocols' own
    documents say it: sums as big-endian numbers, and the pseudo-header of TCP and UDP
    written out (RFC 791, RFC 793, RFC 768, RFC 1071).
 */
module Verdict {
  import opened Machine
  import opened Checksum

  // ----- One's-complement zero as divisibility -----

  /** The bytes as one big-endian number. */
  function Number(s: seq<Byte>): nat
  {
    if s == [] then 0 else Number(s[..|s| - 1]) * 256 + s[|s| - 1]
  }

  /** A zero is added to an odd number of bytes. */
  function Padded(s: seq<Byte>): (r: seq<Byte>)
    ensures |r| % 2 == 0
  {
    if |s| % 2 == 0 then s else s + [0]
  }

  /** The 16-bit words add up to zero in one's complement: the number they make is
      divisible by 0xffff. */
  predicate ZeroSum(s: seq<Byte>)
  {
    Number(Padded(s)) % 0xffff == 0
  }

  lemma TwoMore(s: seq<Byte>)
    requires |s| >= 2
    ensures Number(s) == Number(s[..|s| - 2]) * 0x1_0000 + Join(s[|s| - 2], s[|s| - 1])
  {
    assert s[..|s| - 1][..|s| - 2] == s[..|s| - 2];
  }

  lemma ResidueStep(x: int, y: int, w: int)
    requires Zero(x - y)
    ensures Zero(x * 0x1_0000 + w - (y + w))
  {
    var d := (x - y) / 0xffff;
    assert x * 0x1_0000 + w - (y + w) == 0xffff * (d + x);
  }

  lemma {:induction false} NumberIsTotal(s: seq<Byte>)
    requires |s| % 2 == 0
    ensures Zero(Number(s) - Total(s))
    decreases |s|
  {
    hide Zero;
    if s != [] {
      var k := |s| - 2;
      TwoMore(s);
      TotalSplit(s, k);
      assert s[k..] == [s[k], s[k + 1]] && s[k..][2..] == [];
      NumberIsTotal(s[..k]);
      ResidueStep(Number(s[..k]), Total(s[..k]), Join(s[k], s[k + 1]));
    } else {
      assert Zero(0) by { ZeroIsZero(); }
    }
  }

  lemma ZeroIsZero()
    ensures Zero(0)
  {
  }

  lemma PaddingAddsNothing(s: seq<Byte>)
    ensures Total(Padded(s)) == Total(s)
  {
    if |s| % 2 == 1 {
      var k := |s| - 1;
      TotalSplit(s, k);
      TotalSplit(s + [0], k);
      assert (s + [0])[..k] == s[..k] && s[k..] == [s[k]] && (s + [0])[k..] == [s[k], 0];
      assert [s[k], 0][2..] == [];
    }
  }

  lemma ZeroSumIs(s: seq<Byte>)
    ensures ZeroSum(s) <==> Zero(Total(s))
  {
    hide Total, Number, Zero, Padded;
    NumberIsTotal(Padded(s));
    PaddingAddsNothing(s);
    ZeroSumIsNumber(s);
    Shifted(Total(s), Number(Padded(s)) - Total(s));
  }

  lemma ZeroSumIsNumber(s: seq<Byte>)
    ensures ZeroSum(s) <==> Zero(Number(Padded(s)))
  {
    hide Number, Padded;
  }

  // ----- The packet's parts -----

  /** Four bytes per word of the header length field. */
  function HeaderEnd(b: seq<Byte>): nat
    requires |b| == BUFFER
  {
    4 * (b[0] % 16)
  }

  /** Source, destination, zero, protocol, length. */
  function Pseudo(b: seq<Byte>, len: nat): (s: seq<Byte>)
    requires |b| == BUFFER && len < 0x1_0000
    ensures |s| == 12
  {
    b[12..16] + b[16..20] + [0, b[9], len / 256, len % 256]
  }

  lemma PseudoTotal(b: seq<Byte>, len: nat, seg: seq<Byte>)
    requires |b| == BUFFER && len < 0x1_0000
    ensures Total(Pseudo(b, len) + seg) == Total(b[12..20]) + b[9] + len + Total(seg)
  {
    var last := [0, b[9], len / 256, len % 256];
    var s := Pseudo(b, len) + seg;
    TotalSplit(s, 12);
    assert s[..12] == Pseudo(b, len) && s[12..] == seg;
    TotalSplit(Pseudo(b, len), 8);
    assert Pseudo(b, len)[..8] == b[12..20] && Pseudo(b, len)[8..] == last;
    FourByteTotal(last);
    hide Total;
    assert Join(0, b[9]) == b[9] && Join(len / 256, len % 256) == len;
  }

  lemma FourByteTotal(s: seq<Byte>)
    requires |s| == 4
    ensures Total(s) == Join(s[0], s[1]) + Join(s[2], s[3])
  {
    TotalSplit(s, 2);
    assert s[..2] == [s[0], s[1]] && s[2..] == [s[2], s[3]];
    assert s[..2][2..] == [] && s[2..][2..] == [];
  }

  /** The sum that the transport protocol asks for. */
  ghost predicate SegmentSumIsZero(b: seq<Byte>, n: nat)
    requires |b| == BUFFER && HeaderEnd(b) <= n <= BUFFER
  {
    ZeroSum(Pseudo(b, n - HeaderEnd(b)) + b[HeaderEnd(b)..n])
  }

  /** A packet of version 4 with the length it claims, as far as its header. */
  predicate WellFormed(b: seq<Byte>, n: nat)
    requires |b| == BUFFER
  {
    b[0] / 16 == 4 && b[2] as int * 256 + b[3] as int == n && HeaderEnd(b) <= n <= BUFFER
  }

  // ----- The verdict -----

  const TCP: nat := 6
  const UDP: nat := 17
  const ICMP: nat := 1

  lemma SumsMatch(s: seq<Byte>)
    ensures SumsToZero(0, s) <==> ZeroSum(s)
  {
    hide Total, Number, Zero, ZeroSum;
    ZeroSumIs(s);
    assert 0 + Total(s) == Total(s);
  }

  lemma SegmentMatches(b: seq<Byte>, n: nat)
    requires |b| == BUFFER && HeaderEnd(b) <= n <= BUFFER
    ensures SumsToZero(PseudoHeader(b, n), b[HeaderLength(b)..n]) <==> SegmentSumIsZero(b, n)
  {
    hide Total, Number, Zero, ZeroSum, Pseudo;
    var hl := HeaderEnd(b);
    assert HeaderLength(b) == hl;
    PseudoTotal(b, n - hl, b[hl..n]);
    ZeroSumIs(Pseudo(b, n - hl) + b[hl..n]);
  }

  lemma FieldsMatch(b: seq<Byte>, n: nat)
    requires |b| == BUFFER
    ensures HeaderLength(b) == HeaderEnd(b)
    ensures Word16(b, 2) == b[2] as int * 256 + b[3] as int
    ensures Word16(b, 26) == 0 <==> b[26] == 0 && b[27] == 0
  {
  }

  /** What `check_ip` answers for the `n` bytes at the front of the buffer. */
  lemma AcceptedIff(b: seq<Byte>, n: nat)
    requires |b| == BUFFER && n <= BUFFER && WellFormed(b, n)
    ensures var header, segment := ZeroSum(b[..HeaderEnd(b)]), b[HeaderEnd(b)..n];
            && (b[9] == TCP ==> (Check(b, n) == 0 <==> header && SegmentSumIsZero(b, n)))
            && (b[9] == UDP ==> (Check(b, n) == 0 <==> header && (SegmentSumIsZero(b, n) || (b[26] == 0 && b[27] == 0))))
            && (b[9] == ICMP ==> (Check(b, n) == 0 <==> header && ZeroSum(segment)))
            && (b[9] != TCP && b[9] != UDP && b[9] != ICMP ==> (Check(b, n) == 0 <==> header))
    ensures Check(b, n) < 0 ==>
              Check(b, n) == if !ZeroSum(b[..HeaderEnd(b)]) then -4 else if b[9] == TCP then -5 else if b[9] == UDP then -6 else -7
  {
    hide SumsToZero, ZeroSum, PseudoHeader, SegmentSumIsZero, Word16, HeaderLength, HeaderEnd;
    FieldsMatch(b, n);
    SumsMatch(b[..HeaderEnd(b)]);
    SumsMatch(b[HeaderEnd(b)..n]);
    SegmentMatches(b, n);
  }

  /** Anything else is refused for its version or its length, or would be read past its
      end. */
  lemma RefusedUnlessWellFormed(b: seq<Byte>, n: nat)
    requires |b| == BUFFER && n <= BUFFER && !WellFormed(b, n)
    ensures Check(b, n) == -1 <==> b[0] / 16 != 4
    ensures Check(b, n) == -2 <==> b[0] / 16 == 4 && b[2] as int * 256 + b[3] as int > n
    ensures Check(b, n) == -3 <==> b[0] / 16 == 4 && b[2] as int * 256 + b[3] as int < n
    ensures Check(b, n) == 0 ==> HeaderEnd(b) > n && ZeroSum(b[..HeaderEnd(b)]) && b[9] != TCP && b[9] != UDP && b[9] != ICMP
  {
    hide SumsToZero, ZeroSum, PseudoHeader;
    SumsMatch(b[..HeaderEnd(b)]);
  }

  // ----- Checksums filled in -----

  /** The word at `i` is the complement of the sum of the rest. */
  predicate FilledIn(s: seq<Byte>, i: nat)
    requires i + 2 <= |s|
  {
    (Number(Padded(Cleared(s, i))) + s[i] as int * 256 + s[i + 1] as int) % 0xffff == 0
  }

  lemma FilledInSums(s: seq<Byte>, i: nat)
    requires i % 2 == 0 && i + 2 <= |s|
    ensures FilledIn(s, i) <==> ZeroSum(s)
  {
    hide Total, Number, ZeroSum, Padded, Cleared;
    var z := Cleared(s, i);
    ClearedSum(s, i);
    ZeroSumIs(s);
    NumberIsTotal(Padded(z));
    PaddingAddsNothing(z);
    Shifted(Total(s), Number(Padded(z)) - Total(z));
  }

  function Cleared(s: seq<Byte>, i: nat): (z: seq<Byte>)
    requires i + 2 <= |s|
    ensures |z| == |s|
  {
    s[i := 0][i + 1 := 0]
  }

  lemma ClearedParts(s: seq<Byte>, i: nat)
    requires i + 2 <= |s|
    ensures var z := Cleared(s, i); z[..i] == s[..i] && z[i + 2..] == s[i + 2..] && Word16(z, i) == 0
  {
  }

  /** A word contributes its value to the sum. */
  lemma ClearedSum(s: seq<Byte>, i: nat)
    requires i % 2 == 0 && i + 2 <= |s|
    ensures Total(s) == Total(Cleared(s, i)) + s[i] as int * 256 + s[i + 1] as int
  {
    hide Total, Cleared;
    ClearedParts(s, i);
    TotalOfChange(Cleared(s, i), s, i);
  }

  /** A TCP packet whose two checksums were filled in is accepted. */
  lemma FilledInIsAccepted(b: seq<Byte>, n: nat)
    requires |b| == BUFFER && n <= BUFFER && WellFormed(b, n) && b[9] == TCP
    requires 20 <= HeaderEnd(b) && HeaderEnd(b) + 20 <= n
    requires FilledIn(b[..HeaderEnd(b)], 10)
    requires FilledIn(Pseudo(b, n - HeaderEnd(b)) + b[HeaderEnd(b)..n], 28)
    ensures Check(b, n) == 0
  {
    FilledInSums(b[..HeaderEnd(b)], 10);
    FilledInSums(Pseudo(b, n - HeaderEnd(b)) + b[HeaderEnd(b)..n], 28);
    hide FilledIn, Check, ZeroSum, Pseudo;
    AcceptedIff(b, n);
  }
}
