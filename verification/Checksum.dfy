/** tunslip's Internet checksum: the folding loop `ip4sum`, the packet test
    `check_ip`, and the incremental update made when a packet gets a new
    identification.

    The buffers are the 2000-byte ones of the program. `check_ip` reads header
    fields at fixed offsets, so for a short packet it reads bytes that an
    earlier packet left behind; the model keeps that.
 */
module Checksum {
  import opened Machine

  const BUFFER: nat := 2000

  /** A 16-bit value in one's complement: 0 and 0xffff both stand for zero. */
  type Word = w: int | 0 <= w < 0x1_0000

  // ------------------------------------------------------------------
  // The sum as a number
  // ------------------------------------------------------------------

  /** The big-endian 16-bit words of `s` added up without any carry folding; a
      trailing odd byte is padded with zero (section 1 of RFC 1071). */
  function Total(s: seq<Byte>): (t: nat)
  {
    if |s| == 0 then 0
    else if |s| == 1 then Join(s[0], 0)
    else Join(s[0], s[1]) + Total(s[2..])
  }

  /** Two bytes in network order. */
  function Join(hi: Byte, lo: Byte): (w: Word)
    ensures w == 0 <==> hi == 0 && lo == 0
  {
    hi as int * 256 + lo as int
  }

  /** Zero in one's complement arithmetic. */
  predicate Zero(x: int)
  {
    x % 0xffff == 0
  }

  /** The representative that end-around carry leaves: zero only for zero. */
  function Fold(t: nat): (w: Word)
    ensures w == 0 <==> t == 0
    ensures (w == 0 || w == 0xffff) <==> Zero(t)
  {
    if t == 0 then 0 else (t - 1) % 0xffff + 1
  }

  /** Addition with end-around carry, as the C code does it on 16 bits. */
  function AddCarry(sum: Word, t: Word): (r: Word)
  {
    var s := (sum + t) % 0x1_0000;
    if s < t then s + 1 else s
  }

  lemma AddCarryFolds(total: nat, t: Word)
    ensures AddCarry(Fold(total), t) == Fold(total + t)
  {
    var s := Fold(total);
    if s + t > 0xffff {
      assert AddCarry(s, t) == s + t - 0xffff;
    } else {
      assert AddCarry(s, t) == s + t;
    }
    FoldUnique(total + t, AddCarry(s, t));
  }

  /** `Fold(t)` is the only word congruent to `t` that is zero just for zero. */
  lemma FoldUnique(t: nat, w: Word)
    requires w == 0 <==> t == 0
    requires Zero(t - w)
    ensures w == Fold(t)
  {
    if t > 0 {
      var f := (t - 1) % 0xffff;
      assert Zero(t - 1 - f);
      SameResidue(t - 1, f, w - 1);
    }
  }

  lemma SameResidue(t: int, f: nat, w: nat)
    requires f < 0xffff && w < 0xffff
    requires Zero(t - f) && Zero(t - w)
    ensures f == w
  {
    var p, q := (t - f) / 0xffff, (t - w) / 0xffff;
    assert f - w == 0xffff * (q - p);
  }

  // ------------------------------------------------------------------
  // ip4sum
  // ------------------------------------------------------------------

  /** `ip4sum` over `b[from..from+len]`, started at `sum`. */
  method Ip4Sum(sum: Word, b: array<Byte>, from: nat, len: nat) returns (r: Word)
    requires from + len <= b.Length
    ensures r == Fold(sum + Total(b[from..from + len]))
  {
    hide Total, Fold, Join;
    r := sum;
    FoldOfWord(sum);
    var p, end := from, from + len;
    TotalOfNothing(b[from..p]);
    while p < end - 1
      invariant from <= p <= end
      invariant (p - from) % 2 == 0
      invariant r == Fold(sum + Total(b[from..p]))
    {
      r := AddWord(r, Join(b[p], b[p + 1]));
      AddCarryFolds(sum + Total(b[from..p]), Join(b[p], b[p + 1]));
      TotalNextWord(b[..], from, p);
      assert b[..][from..p + 2] == b[from..p + 2] && b[..][from..p] == b[from..p];
      p := p + 2;
    }
    if p < end {
      r := AddWord(r, Join(b[p], 0));
      AddCarryFolds(sum + Total(b[from..p]), Join(b[p], 0));
      TotalLastByte(b[..], from, p);
      assert b[..][from..p + 1] == b[from..p + 1] && b[..][from..p] == b[from..p];
    }
  }

  lemma FoldOfWord(w: Word)
    ensures Fold(w) == w
  {
  }

  lemma TotalOfNothing(s: seq<Byte>)
    ensures s == [] ==> Total(s) == 0
  {
  }

  /** One step of the loop: `sum += t; if(sum < t) sum++`. */
  method AddWord(sum: Word, t: Word) returns (r: Word)
    ensures r == AddCarry(sum, t)
  {
    r := (sum + t) % 0x1_0000;
    if r < t { r := r + 1; }
  }

  /** The slice `[from..p+1]` that ends in a lone byte. */
  lemma TotalLastByte(s: seq<Byte>, from: nat, p: nat)
    requires from <= p < |s| && (p - from) % 2 == 0
    ensures Total(s[from..p + 1]) == Total(s[from..p]) + Join(s[p], 0)
  {
    var w := s[from..p + 1];
    TotalSplit(w, p - from);
    assert w[..p - from] == s[from..p];
    assert w[p - from..] == [s[p]];
  }

  lemma {:induction false} TotalSplit(s: seq<Byte>, k: nat)
    requires k <= |s| && k % 2 == 0
    ensures Total(s) == Total(s[..k]) + Total(s[k..])
  {
    if k >= 2 {
      TotalSplit(s[2..], k - 2);
      assert s[..k][2..] == s[2..][..k - 2];
      assert s[2..][k - 2..] == s[k..];
    } else {
      assert s[..k] == [] && s[k..] == s;
    }
  }

  lemma TotalNextWord(s: seq<Byte>, from: nat, p: nat)
    requires from <= p && p + 2 <= |s| && (p - from) % 2 == 0
    ensures Total(s[from..p + 2]) == Total(s[from..p]) + Join(s[p], s[p + 1])
  {
    var w := s[from..p + 2];
    TotalSplit(w, p - from);
    assert w[..p - from] == s[from..p];
    assert w[p - from..] == [s[p], s[p + 1]];
    assert [s[p], s[p + 1]][2..] == [];
  }

  // ------------------------------------------------------------------
  // check_ip
  // ------------------------------------------------------------------

  function HeaderLength(b: seq<Byte>): nat
    requires |b| == BUFFER
  {
    4 * (b[0] % 16)
  }

  function Word16(b: seq<Byte>, i: nat): (w: Word)
    requires i + 1 < |b|
  {
    Join(b[i], b[i + 1])
  }

  /** One's-complement zero: the words of the slice add up to 0 or 0xffff. */
  predicate SumsToZero(start: nat, s: seq<Byte>)
  {
    Zero(start + Total(s))
  }

  /** What the pseudo-header contributes: protocol, length and addresses. */
  function PseudoHeader(b: seq<Byte>, n: nat): (t: nat)
    requires |b| == BUFFER && HeaderLength(b) <= n
  {
    b[9] as int + (n - HeaderLength(b)) + Total(b[12..20])
  }

  const OUT_OF_BOUNDS: int := -8

  /** What `check_ip` answers for the `n` bytes at the front of buffer `b`: the
      first check that fails, in its order, or 0. A payload length that wraps
      below zero would make it read past the buffer; that is `OUT_OF_BOUNDS`. */
  function Check(b: seq<Byte>, n: nat): (code: int)
    requires |b| == BUFFER && n <= BUFFER
    ensures -8 <= code <= 0
  {
    var hl := HeaderLength(b);
    if b[0] / 16 != 4 then -1
    else if Word16(b, 2) > n then -2
    else if Word16(b, 2) < n then -3
    else if !SumsToZero(0, b[..hl]) then -4
    else if b[9] == 6 || b[9] == 17 then
      if n < hl then OUT_OF_BOUNDS
      else if SumsToZero(PseudoHeader(b, n), b[hl..n]) then 0
      else if b[9] == 6 then -5
      else if Word16(b, 26) != 0 then -6
      else 0
    else if b[9] == 1 then
      if n < hl then OUT_OF_BOUNDS
      else if SumsToZero(0, b[hl..n]) then 0 else -7
    else 0
  }

  method CheckIp(b: array<Byte>, n: nat) returns (code: int)
    requires b.Length == BUFFER && n <= BUFFER
    ensures code == Check(b[..], n)
  {
    hide Total, Fold, Zero, Join;
    if b[0] / 16 != 4 { return -1; }
    if Join(b[2], b[3]) > n { return -2; }
    if Join(b[2], b[3]) < n { return -3; }
    var hl := 4 * (b[0] % 16);
    var sum := Ip4Sum(0, b, 0, hl);
    assert b[..][..hl] == b[0..0 + hl];
    if sum != 0xffff && sum != 0 { return -4; }
    if b[9] == 6 || b[9] == 17 {
      if n < hl { return OUT_OF_BOUNDS; }
      var len := n - hl;
      sum := b[9] + len;
      var start := sum;
      sum := Ip4Sum(sum, b, 12, 8);
      var pseudo := sum;
      sum := Ip4Sum(sum, b, hl, len);
      assert b[..][12..20] == b[12..12 + 8] && b[..][hl..n] == b[hl..hl + len];
      FoldOfFold(start + Total(b[12..12 + 8]), Total(b[hl..hl + len]));
      if sum != 0xffff && sum != 0 {
        if b[9] == 6 { return -5; }
        if b[26] != 0 || b[27] != 0 { return -6; }
      }
    } else if b[9] == 1 {
      if n < hl { return OUT_OF_BOUNDS; }
      sum := Ip4Sum(0, b, hl, n - hl);
      assert b[..][hl..n] == b[hl..hl + (n - hl)];
      if sum != 0xffff && sum != 0 { return -7; }
    }
    return 0;
  }

  lemma FoldOfFold(s: nat, t: nat)
    ensures Fold(Fold(s) + t) == Fold(s + t)
  {
    if s > 0 {
      var f := Fold(s);
      assert Zero(s - f);
      var g := Fold(f + t);
      assert Zero(f + t - g);
      SumOfMultiples(s - f, f + t - g);
      FoldUnique(s + t, g);
    }
  }

  lemma SumOfMultiples(a: int, b: int)
    requires Zero(a) && Zero(b)
    ensures Zero(a + b)
  {
    assert a + b == 0xffff * (a / 0xffff + b / 0xffff);
  }

  // ------------------------------------------------------------------
  // The incremental update
  // ------------------------------------------------------------------

  /** The other byte order of a 16-bit value. */
  function Swap(w: Word): (r: Word)
  {
    (w % 256) * 256 + w / 256
  }

  /** Swapping bytes is multiplication by 256 in one's complement. */
  lemma SwapIsShift(w: Word)
    ensures Zero(256 * w - Swap(w))
  {
    assert 256 * w - Swap(w) == 0xffff * (w / 256);
  }

  /** The checksum field after the update: read and written in host (little
      endian) order, with the complement of the stored identification added
      and the carry brought round. */
  function UpdatedSum(b: seq<Byte>, id: Word): (r: Word)
    requires |b| == BUFFER
  {
    AddCarry(Swap(Word16(b, 10)), 0xffff - Swap(id))
  }

  /** The packet with identification `id` stored in network order and the
      checksum field updated. */
  function Renumbered(b: seq<Byte>, id: Word): (r: seq<Byte>)
    requires |b| == BUFFER
    ensures |r| == BUFFER
    ensures Word16(r, 4) == id && Word16(r, 10) == Swap(UpdatedSum(b, id))
    ensures forall i :: 0 <= i < BUFFER && i != 4 && i != 5 && i != 10 && i != 11 ==> r[i] == b[i]
  {
    var s := UpdatedSum(b, id);
    b[4 := id / 256][5 := id % 256][10 := s % 256][11 := s / 256]
  }

  /** In network order the update subtracts the identification. */
  lemma UpdateSubtracts(b: seq<Byte>, id: Word)
    requires |b| == BUFFER
    ensures Zero(Word16(b, 10) - id - Swap(UpdatedSum(b, id)))
  {
    hide Zero, Swap, AddCarry, Word16, Join;
    var sw, nid := Swap(Word16(b, 10)), Swap(id);
    AddCarryResidue(sw, 0xffff - nid);
    SwapIsShift(UpdatedSum(b, id));
    SwapIsShift(sw);
    SwapIsShift(nid);
    SwapTwice(Word16(b, 10));
    SwapTwice(id);
    UpdateResidues(Word16(b, 10), sw, id, nid, UpdatedSum(b, id), Swap(UpdatedSum(b, id)));
  }

  lemma SwapTwice(w: Word)
    ensures Swap(Swap(w)) == w
  {
  }

  lemma UpdateResidues(w: int, sw: int, id: int, nid: int, s: int, ss: int)
    requires Zero(256 * sw - w) && Zero(256 * nid - id)
    requires Zero(256 * s - ss) && Zero(sw + (0xffff - nid) - s)
    ensures Zero(w - id - ss)
  {
    var x, y, z := (256 * s - ss) / 0xffff, (256 * sw - w) / 0xffff, (256 * nid - id) / 0xffff;
    var k := (sw + (0xffff - nid) - s) / 0xffff;
    var m := x - y + z + 256 * k - 256;
    assert w - id - ss == 0xffff * m;
  }

  lemma AddCarryResidue(sum: Word, t: Word)
    ensures Zero(sum + t - AddCarry(sum, t))
  {
    if sum + t > 0xffff {
      assert AddCarry(sum, t) == sum + t - 0xffff;
    } else {
      assert AddCarry(sum, t) == sum + t;
    }
  }

  /** Changing one aligned word of a slice changes its total by that word. */
  lemma TotalOfChange(s: seq<Byte>, r: seq<Byte>, i: nat)
    requires |s| == |r| && i % 2 == 0 && i + 2 <= |s|
    requires s[..i] == r[..i] && s[i + 2..] == r[i + 2..]
    ensures Total(r) - Total(s) == Word16(r, i) - Word16(s, i)
  {
    TotalSplit(s, i);
    TotalSplit(r, i);
    assert s[i..][2..] == s[i + 2..] && r[i..][2..] == r[i + 2..];
  }

  /** A slice that holds both fields keeps its residue; one that holds neither
      keeps its bytes. */
  lemma SliceKeepsResidue(b: seq<Byte>, id: Word, from: nat, to: nat)
    requires |b| == BUFFER && Word16(b, 4) == 0
    requires from <= 4 && from % 2 == 0 && 12 <= to <= BUFFER
    ensures Zero(Total(Renumbered(b, id)[from..to]) - Total(b[from..to]))
  {
    hide Zero, Total, UpdatedSum, Swap;
    var r := Renumbered(b, id);
    var m := b[4 := r[4]][5 := r[5]];
    var s, t, u := b[from..to], m[from..to], r[from..to];
    assert s[..4 - from] == t[..4 - from] && s[6 - from..] == t[6 - from..];
    TotalOfChange(s, t, 4 - from);
    assert t[..10 - from] == u[..10 - from] && t[12 - from..] == u[12 - from..];
    TotalOfChange(t, u, 10 - from);
    assert Word16(s, 4 - from) == Word16(b, 4) && Word16(t, 4 - from) == id;
    assert Word16(t, 10 - from) == Word16(b, 10) && Word16(u, 10 - from) == Word16(r, 10);
    UpdateSubtracts(b, id);
    var d := Word16(b, 10) - id - Word16(r, 10);
    assert Total(u) - Total(s) == -d;
    NegatedMultiple(d, 0);
  }

  lemma ResidueTransfers(start: nat, s: seq<Byte>, r: seq<Byte>)
    requires Zero(Total(r) - Total(s))
    ensures SumsToZero(start, s) <==> SumsToZero(start, r)
  {
    Shifted(start + Total(s), Total(r) - Total(s));
  }

  lemma Shifted(a: int, d: int)
    requires Zero(d)
    ensures Zero(a) <==> Zero(a + d)
  {
    if Zero(a) {
      SumOfMultiples(a, d);
    } else if Zero(a + d) {
      NegatedMultiple(d, 0);
      SumOfMultiples(a + d, -d);
    }
  }

  /** Incremental update (RFC 1624), and exactly when it is right: a packet
      accepted with identification 0 is accepted again with every identification,
      unless the header length field says 8, where the header ends between the
      two fields and only the two zeros of one's complement survive. */
  lemma IncrementalUpdateIff(b: seq<Byte>, n: nat, id: Word)
    requires |b| == BUFFER && n <= BUFFER && (12 <= n || 12 <= HeaderLength(b))
    requires Check(b, n) == 0 && Word16(b, 4) == 0
    ensures Check(Renumbered(b, id), n) == 0 <==> HeaderLength(b) != 8 || id == 0 || id == 0xffff
  {
    var r, hl := Renumbered(b, id), HeaderLength(b);
    RenumberedFields(b, id, n);
    hide Check, Total, Renumbered, SumsToZero, Word16, Zero, Join;
    if hl == 8 {
      EightByteHeader(b, id) by { AcceptedHeader(b, n); }
      AcceptedHeader(r, n);
    }
    if hl != 8 || id == 0 || id == 0xffff {
      UpdateKeepsSums(b, n, id);
      SameVerdict(b, r, n);
    }
  }

  lemma AcceptedHeader(b: seq<Byte>, n: nat)
    requires |b| == BUFFER && n <= BUFFER
    ensures Check(b, n) == 0 ==> SumsToZero(0, b[..HeaderLength(b)])
  {
  }

  /** Both sums stay zero, or stay non-zero, when header and payload each hold
      both changed fields or neither of them. */
  lemma UpdateKeepsSums(b: seq<Byte>, n: nat, id: Word)
    requires |b| == BUFFER && n <= BUFFER && Word16(b, 4) == 0
    requires 12 <= n || 12 <= HeaderLength(b)
    requires HeaderLength(b) != 8 || (SumsToZero(0, b[..8]) && (id == 0 || id == 0xffff))
    ensures SameSums(b, Renumbered(b, id), n)
  {
    var hl := HeaderLength(b);
    var start := if hl <= n then PseudoHeader(b, n) else 0;
    RenumberedFields(b, id, n);
    hide HeaderLength, PseudoHeader, Total, Renumbered, SumsToZero, Word16, Zero, Join;
    if hl >= 12 {
      LongHeaderSums(b, id, hl);
    } else {
      if hl == 8 {
        EightByteHeader(b, id);
      }
      ShortHeaderSums(b, n, id, hl, start);
    }
  }

  lemma LongHeaderSums(b: seq<Byte>, id: Word, hl: nat)
    requires |b| == BUFFER && Word16(b, 4) == 0 && 12 <= hl <= BUFFER
    ensures SumsToZero(0, b[..hl]) <==> SumsToZero(0, Renumbered(b, id)[..hl])
  {
    var r := Renumbered(b, id);
    hide *;
    SliceKeepsResidue(b, id, 0, hl);
    assert r[0..hl] == r[..hl] && b[0..hl] == b[..hl];
    ResidueTransfers(0, b[..hl], r[..hl]);
  }

  lemma ShortHeaderSums(b: seq<Byte>, n: nat, id: Word, hl: nat, start: nat)
    requires |b| == BUFFER && Word16(b, 4) == 0 && 12 <= n <= BUFFER
    requires hl == 0 || hl == 4 || (hl == 8 && (id == 0 || id == 0xffff))
    ensures SumsToZero(0, b[hl..n]) <==> SumsToZero(0, Renumbered(b, id)[hl..n])
    ensures SumsToZero(start, b[hl..n]) <==> SumsToZero(start, Renumbered(b, id)[hl..n])
  {
    hide *;
    if hl == 8 {
      EightByteRest(b, n, id);
    } else {
      SliceKeepsResidue(b, id, hl, n);
    }
    ResidueTransfers(0, b[hl..n], Renumbered(b, id)[hl..n]);
    ResidueTransfers(start, b[hl..n], Renumbered(b, id)[hl..n]);
  }

  /** The two buffers sum to zero in the same places. */
  predicate SameSums(b: seq<Byte>, r: seq<Byte>, n: nat)
    requires |b| == |r| == BUFFER && n <= BUFFER && b[0] == r[0]
  {
    var hl := HeaderLength(b);
    && (SumsToZero(0, b[..hl]) <==> SumsToZero(0, r[..hl]))
    && (hl <= n ==> (SumsToZero(0, b[hl..n]) <==> SumsToZero(0, r[hl..n])))
    && (hl <= n ==> (SumsToZero(PseudoHeader(b, n), b[hl..n]) <==> SumsToZero(PseudoHeader(b, n), r[hl..n])))
  }

  lemma SameVerdict(b: seq<Byte>, r: seq<Byte>, n: nat)
    requires |b| == |r| == BUFFER && n <= BUFFER
    requires b[0] == r[0] && b[9] == r[9] && Word16(b, 2) == Word16(r, 2) && Word16(b, 26) == Word16(r, 26)
    requires b[12..20] == r[12..20]
    requires SameSums(b, r, n)
    ensures Check(b, n) == Check(r, n)
  {
    hide SumsToZero, Word16;
  }

  /** The header sum moves by `id` alone, so it stays zero just for the zeros. */
  lemma EightByteHeader(b: seq<Byte>, id: Word)
    requires |b| == BUFFER && Word16(b, 4) == 0 && SumsToZero(0, b[..8])
    ensures SumsToZero(0, Renumbered(b, id)[..8]) <==> id == 0 || id == 0xffff
  {
    hide Zero, Total, UpdatedSum, Swap, Renumbered;
    var r, m := Renumbered(b, id)[..8], b[..8];
    assert m[..4] == r[..4] && m[6..] == r[6..];
    TotalOfChange(m, r, 4);
    assert Word16(m, 4) == Word16(b, 4) && Word16(r, 4) == id;
    assert Total(r) == Total(m) + id;
    Shifted(id, Total(m));
    ZeroWords(id);
  }

  lemma ZeroWords(w: Word)
    ensures Zero(w) <==> w == 0 || w == 0xffff
  {
  }

  /** Past an eight-byte header the update changes only the checksum word. */
  lemma EightByteRest(b: seq<Byte>, n: nat, id: Word)
    requires |b| == BUFFER && 12 <= n <= BUFFER
    requires id == 0 || id == 0xffff
    ensures Zero(Total(Renumbered(b, id)[8..n]) - Total(b[8..n]))
  {
    hide Zero, Total, UpdatedSum, Swap, Renumbered;
    var r := Renumbered(b, id);
    var s, u := b[8..n], r[8..n];
    assert s[..2] == u[..2] && s[4..] == u[4..];
    TotalOfChange(s, u, 2);
    assert Word16(s, 2) == Word16(b, 10) && Word16(u, 2) == Word16(r, 10);
    UpdateSubtracts(b, id);
    var d := Word16(b, 10) - id - Word16(r, 10);
    assert Total(u) - Total(s) == -d - id;
    NegatedMultiple(d, id);
  }

  lemma NegatedMultiple(d: int, id: int)
    requires Zero(d) && (id == 0 || id == 0xffff)
    ensures Zero(-d - id)
  {
    var m := -(d / 0xffff) - (if id == 0 then 0 else 1);
    assert -d - id == 0xffff * m;
  }

  /** The update and `check_ip` meet only in these facts. */
  lemma RenumberedFields(b: seq<Byte>, id: Word, n: nat)
    requires |b| == BUFFER && n <= BUFFER
    ensures var r, hl := Renumbered(b, id), HeaderLength(b);
            && r[0] == b[0] && r[9] == b[9] && Word16(r, 2) == Word16(b, 2) && Word16(r, 26) == Word16(b, 26)
            && r[12..20] == b[12..20] && HeaderLength(r) == hl
            && (hl <= 4 || hl == 8 || hl >= 12) && (hl == 0 || hl >= 4)
            && (hl <= 4 ==> r[..hl] == b[..hl])
            && (12 <= hl <= n ==> r[hl..n] == b[hl..n])
  {
    var r, hl := Renumbered(b, id), HeaderLength(b);
    HeaderLengths(b);
    hide Renumbered, UpdatedSum, Swap, HeaderLength;
    if hl <= 4 { assert r[..hl] == b[..hl]; }
    if 12 <= hl <= n { assert r[hl..n] == b[hl..n]; }
    assert HeaderLength(r) == hl by { SameHeaderLength(b, r); }
  }

  lemma HeaderLengths(b: seq<Byte>)
    requires |b| == BUFFER
    ensures var hl := HeaderLength(b); (hl == 0 || hl == 4 || hl == 8 || hl >= 12) && hl <= 60
  {
  }

  lemma SameHeaderLength(b: seq<Byte>, r: seq<Byte>)
    requires |b| == |r| == BUFFER && b[0] == r[0]
    ensures HeaderLength(b) == HeaderLength(r)
  {
  }
}
