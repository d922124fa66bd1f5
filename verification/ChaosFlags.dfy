/** Synchrotron's participation flags as the bytes on the air: one bit per node,
    merged, counted and compared with the full set byte by byte. The protocols
    above reason about the set of nodes these bytes stand for.
 */
module ChaosFlags {
  import opened Common
  import opened Machine

  /** Bit `j` of a byte. */
  predicate Bit(u: nat, j: nat)
  {
    if j == 0 then u % 2 == 1 else Bit(u / 2, j - 1)
  }

  /** The indices, counted from `base`, of the bits of `u` at `j` and above. */
  function BitsFrom(u: nat, base: nat, j: nat): (s: set<nat>)
    requires j <= 8
    ensures forall x: nat :: x in s <==> base + j <= x < base + 8 && Bit(u, x - base)
    decreases 8 - j
  {
    if j == 8 then {} else (if Bit(u, j) then {base + j} else {}) + BitsFrom(u, base, j + 1)
  }

  /** The nodes whose flag is set. */
  function Members(flags: seq<Byte>): (s: set<nat>)
  {
    if flags == [] then {}
    else
      var k := |flags| - 1;
      Members(flags[..k]) + BitsFrom(flags[k], 8 * k, 0)
  }

  lemma {:induction false} InMembers(flags: seq<Byte>, x: nat)
    ensures x in Members(flags) <==> x / 8 < |flags| && Bit(flags[x / 8], x % 8)
  {
    if flags != [] {
      InMembers(flags[..|flags| - 1], x);
    }
  }

  /** All of the nodes `lo`, ..., `hi - 1`. */
  ghost predicate HasAll(s: set<nat>, lo: nat, hi: nat)
  {
    forall x: nat :: lo <= x < hi ==> x in s
  }

  /** Every node of a network of `count` has its flag set. */
  predicate AllSet(flags: set<nat>, count: nat)
  {
    forall i :: 0 <= i < count ==> i in flags
  }

  // ------------------------------------------------------------------
  // Counting
  // ------------------------------------------------------------------

  /** `bit_count`. */
  function BitCount(u: Byte): int
  {
    u - u / 2 - u / 4 - u / 8 - u / 16 - u / 32 - u / 64 - u / 128
  }

  function Sum(u: nat, j: nat): nat
    requires j <= 8
    decreases 8 - j
  {
    if j == 8 then 0 else (if Bit(u, j) then 1 else 0) + Sum(u, j + 1)
  }

  /** Halving, and the bit it drops. */
  lemma Halves(u: Byte)
    ensures u / 2 / 2 == u / 4 && u / 4 / 2 == u / 8 && u / 8 / 2 == u / 16 && u / 16 / 2 == u / 32
    ensures u / 32 / 2 == u / 64 && u / 64 / 2 == u / 128 && u / 128 / 2 == 0
  {
  }

  lemma LowBits(u: Byte)
    ensures Bit(u, 0) == (u % 2 == 1) && Bit(u, 1) == (u / 2 % 2 == 1) && Bit(u, 2) == (u / 4 % 2 == 1)
    ensures Bit(u, 3) == (u / 8 % 2 == 1) && Bit(u, 4) == (u / 16 % 2 == 1) && Bit(u, 5) == (u / 32 % 2 == 1)
    ensures Bit(u, 6) == (u / 64 % 2 == 1) && Bit(u, 7) == (u / 128 % 2 == 1)
  {
    Halves(u);
    assert Bit(u / 2, 1) == Bit(u / 4, 0);
    assert Bit(u / 2, 2) == Bit(u / 4, 1) == Bit(u / 8, 0);
    assert Bit(u / 2, 3) == Bit(u / 4, 2) == Bit(u / 8, 1) == Bit(u / 16, 0);
    assert Bit(u / 2, 4) == Bit(u / 4, 3) == Bit(u / 8, 2) == Bit(u / 16, 1) == Bit(u / 32, 0);
    assert Bit(u / 2, 5) == Bit(u / 4, 4) == Bit(u / 8, 3) == Bit(u / 16, 2) == Bit(u / 32, 1) == Bit(u / 64, 0);
    assert Bit(u / 2, 6) == Bit(u / 4, 5) == Bit(u / 8, 4) == Bit(u / 16, 3) == Bit(u / 32, 2) == Bit(u / 64, 1) == Bit(u / 128, 0);
  }

  lemma OddPart(v: nat)
    ensures (if v % 2 == 1 then 1 else 0) == v - v / 2 - v / 2
  {
  }

  /** The bits from one on, given its value by halves. */
  lemma SumStep(u: nat, j: nat, v: nat)
    requires j < 8 && Bit(u, j) == (v % 2 == 1)
    ensures Sum(u, j) == v - v / 2 - v / 2 + Sum(u, j + 1)
  {
    OddPart(v);
  }

  lemma BitCountCounts(u: Byte)
    ensures BitCount(u) == Sum(u, 0)
  {
    hide Sum;
    LowBits(u);
    Halves(u);
    hide Bit;
    SumStep(u, 7, u / 128);
    SumStep(u, 6, u / 64);
    SumStep(u, 5, u / 32);
    SumStep(u, 4, u / 16);
    SumStep(u, 3, u / 8);
    SumStep(u, 2, u / 4);
    SumStep(u, 1, u / 2);
    SumStep(u, 0, u);
    SumOver(u);
  }

  lemma SumOver(u: nat)
    ensures Sum(u, 8) == 0
  {
  }

  lemma {:induction false} BitsAreCounted(u: nat, base: nat, j: nat)
    requires j <= 8
    ensures |BitsFrom(u, base, j)| == Sum(u, j)
    decreases 8 - j
  {
    if j < 8 {
      BitsAreCounted(u, base, j + 1);
      var rest := BitsFrom(u, base, j + 1);
      assert base + j !in rest;
      if Bit(u, j) {
        assert {base + j} !! rest;
      } else {
        assert {} + rest == rest;
      }
    }
  }

  /** The loop that counts replies counts nodes. */
  method CountFlags(flags: seq<Byte>) returns (replies: nat)
    ensures replies == |Members(flags)|
  {
    hide *;
    NoMembers(flags[..0]);
    replies := 0;
    var i := 0;
    while i < |flags|
      invariant i <= |flags| && replies == |Members(flags[..i])|
    {
      OneMoreByte(flags, i);
      replies := replies + BitCount(flags[i]);
      i := i + 1;
    }
    assert flags[..i] == flags;
  }

  lemma NoMembers(flags: seq<Byte>)
    requires flags == []
    ensures |Members(flags)| == 0
  {
  }

  lemma OneMoreByte(flags: seq<Byte>, i: nat)
    requires i < |flags|
    ensures BitCount(flags[i]) >= 0
    ensures |Members(flags[..i + 1])| == |Members(flags[..i])| + BitCount(flags[i])
  {
    hide *;
    BitCountCounts(flags[i]);
    BitsAreCounted(flags[i], 8 * i, 0);
    LastByte(flags, i);
  }

  lemma LastByte(flags: seq<Byte>, i: nat)
    requires i < |flags|
    ensures Members(flags[..i + 1]) == Members(flags[..i]) + BitsFrom(flags[i], 8 * i, 0)
    ensures |Members(flags[..i + 1])| == |Members(flags[..i])| + |BitsFrom(flags[i], 8 * i, 0)|
  {
    var s := flags[..i + 1];
    assert s[..i] == flags[..i];
    forall x | x in Members(flags[..i])
      ensures x !in BitsFrom(flags[i], 8 * i, 0)
    {
      InMembers(flags[..i], x);
    }
    assert Members(flags[..i]) !! BitsFrom(flags[i], 8 * i, 0);
  }

  // ------------------------------------------------------------------
  // Merging
  // ------------------------------------------------------------------

  /** Bitwise or on `n` bits. */
  function Or(a: nat, b: nat, n: nat): (u: nat)
    ensures u < Pow2(n)
  {
    if n == 0 then 0
    else (if a % 2 == 1 || b % 2 == 1 then 1 else 0) + 2 * Or(a / 2, b / 2, n - 1)
  }

  function OrByte(a: Byte, b: Byte): (u: Byte)
  {
    EightBits();
    Or(a, b, 8)
  }

  lemma EightBits()
    ensures Pow2(8) == 256
  {
    assert Pow2(4) == 2 * Pow2(3) && Pow2(6) == 2 * Pow2(5) && Pow2(8) == 2 * Pow2(7);
  }

  lemma {:induction false} OrBits(a: nat, b: nat, n: nat, j: nat)
    requires j < n
    ensures Bit(Or(a, b, n), j) <==> Bit(a, j) || Bit(b, j)
  {
    if j > 0 {
      OrBits(a / 2, b / 2, n - 1, j - 1);
      assert Or(a, b, n) / 2 == Or(a / 2, b / 2, n - 1);
    }
  }

  lemma OrMembers(a: seq<Byte>, b: seq<Byte>, c: seq<Byte>)
    requires |a| == |b| == |c| && forall k :: 0 <= k < |a| ==> c[k] == OrByte(a[k], b[k])
    ensures Members(c) == Members(a) + Members(b)
  {
    forall x: nat
      ensures x in Members(c) <==> x in Members(a) || x in Members(b)
    {
      InMembers(a, x);
      InMembers(b, x);
      InMembers(c, x);
      if x / 8 < |a| {
        OrBits(a[x / 8], b[x / 8], 8, x % 8);
      }
    }
  }

  // ------------------------------------------------------------------
  // Completion
  // ------------------------------------------------------------------

  /** `FLAGS_LEN`, `LAST_FLAGS` and `FLAG_SUM` for `count` nodes. */
  function FlagsLength(count: nat): nat
  {
    count / 8 + if count % 8 == 0 then 0 else 1
  }

  function LastFlags(count: nat): nat
    requires count > 0
  {
    Pow2((count - 1) % 8 + 1) - 1
  }

  function FullSum(count: nat): int
    requires count > 0
  {
    (FlagsLength(count) - 1) * 256 - (FlagsLength(count) - 1) + LastFlags(count)
  }

  function ByteSum(flags: seq<Byte>): nat
  {
    if flags == [] then 0 else ByteSum(flags[..|flags| - 1]) + flags[|flags| - 1]
  }

  ghost predicate Ones(u: nat, m: nat)
  {
    forall j: nat :: j < m ==> Bit(u, j)
  }

  /** A value on `m` bits is all ones exactly when every bit is set. */
  lemma {:induction false} AllOnes(u: nat, m: nat)
    requires u < Pow2(m)
    ensures u == Pow2(m) - 1 <==> Ones(u, m)
  {
    if m > 0 {
      AllOnes(u / 2, m - 1);
      assert u == Pow2(m) - 1 <==> u % 2 == 1 && u / 2 == Pow2(m - 1) - 1;
      if Ones(u, m) {
        assert Bit(u, 0);
        forall j: nat | j < m - 1
          ensures Bit(u / 2, j)
        {
          assert Bit(u, j + 1);
        }
      }
      if u % 2 == 1 && Ones(u / 2, m - 1) {
        forall j: nat | j < m
          ensures Bit(u, j)
        {
          if j > 0 { assert Bit(u / 2, j - 1); }
        }
      }
    }
  }

  /** A value without bits from `m` on fits in `m` bits. */
  lemma {:induction false} NoHighBits(u: nat, m: nat, n: nat)
    requires m <= n && u < Pow2(n) && forall j :: m <= j < n ==> !Bit(u, j)
    ensures u < Pow2(m)
  {
    if m < n {
      if m == 0 {
        forall j | 0 <= j < n - 1
          ensures !Bit(u / 2, j)
        {
          assert !Bit(u, j + 1);
        }
        assert !Bit(u, 0);
        NoHighBits(u / 2, 0, n - 1);
      } else {
        forall j | m - 1 <= j < n - 1
          ensures !Bit(u / 2, j)
        {
          assert !Bit(u, j + 1);
        }
        NoHighBits(u / 2, m - 1, n - 1);
      }
    }
  }

  lemma {:induction false} SumOfFull(flags: seq<Byte>)
    ensures ByteSum(flags) <= 255 * |flags|
    ensures ByteSum(flags) == 255 * |flags| <==> forall k :: 0 <= k < |flags| ==> flags[k] == 255
  {
    if flags != [] {
      SumOfFull(flags[..|flags| - 1]);
    }
  }

  /** Byte `i` holds the flags of nodes `8i`, `8i + 1`, ... */
  lemma ByteHolds(flags: seq<Byte>, i: nat, m: nat)
    requires i < |flags| && m <= 8
    ensures Ones(flags[i], m) <==> HasAll(Members(flags), 8 * i, 8 * i + m)
  {
    hide Members, Bit;
    if Ones(flags[i], m) {
      forall x: nat | 8 * i <= x < 8 * i + m
        ensures x in Members(flags)
      {
        InMembers(flags, x);
        assert x / 8 == i && x % 8 < m;
      }
    }
    if HasAll(Members(flags), 8 * i, 8 * i + m) {
      forall j: nat | j < m
        ensures Bit(flags[i], j)
      {
        var x := 8 * i + j;
        InMembers(flags, x);
        assert x / 8 == i && x % 8 == j && x in Members(flags);
      }
    }
  }

  lemma LastByteFits(flags: seq<Byte>, count: nat)
    requires count > 0 && |flags| == FlagsLength(count)
    requires forall x :: x in Members(flags) ==> x < count
    ensures flags[|flags| - 1] <= LastFlags(count)
  {
    var k, m := |flags| - 1, (count - 1) % 8 + 1;
    forall j | m <= j < 8
      ensures !Bit(flags[k], j)
    {
      var x := 8 * k + j;
      InMembers(flags, x);
      assert x / 8 == k && x % 8 == j && x !in Members(flags);
    }
    EightBits();
    NoHighBits(flags[k], m, 8);
  }

  /** The largest sum is reached only by the largest bytes. */
  lemma SumTellsBytes(flags: seq<Byte>, count: nat)
    requires count > 0 && |flags| == FlagsLength(count) && flags[|flags| - 1] <= LastFlags(count)
    ensures ByteSum(flags) >= FullSum(count) <==>
              (forall i :: 0 <= i < |flags| - 1 ==> flags[i] == 255) && flags[|flags| - 1] == LastFlags(count)
  {
    var front := flags[..|flags| - 1];
    SumOfFull(front);
    assert forall i :: 0 <= i < |front| ==> front[i] == flags[i];
  }

  /** Comparing the sum of the bytes with `FLAG_SUM` tells whether every node has
      its flag set. */
  lemma SumTellsCompletion(flags: seq<Byte>, count: nat)
    requires count > 0 && |flags| == FlagsLength(count)
    requires forall x :: x in Members(flags) ==> x < count
    ensures ByteSum(flags) >= FullSum(count) <==> AllSet(Members(flags), count)
  {
    var k, m := |flags| - 1, (count - 1) % 8 + 1;
    LastByteFits(flags, count);
    SumTellsBytes(flags, count);
    assert count == 8 * k + m;
    hide Members, Bit, Ones, ByteSum, FullSum, FlagsLength;
    EightBits();
    AllOnes(flags[k], m);
    ByteHolds(flags, k, m);
    forall i | 0 <= i < k
      ensures flags[i] == 255 <==> HasAll(Members(flags), 8 * i, 8 * i + 8)
    {
      AllOnes(flags[i], 8);
      ByteHolds(flags, i, 8);
    }
    BytesTellAll(flags, Members(flags), k, m);
  }

  lemma BytesTellAll(flags: seq<Byte>, s: set<nat>, k: nat, m: nat)
    requires |flags| == k + 1
    requires forall i :: 0 <= i < k ==> (flags[i] == 255 <==> HasAll(s, 8 * i, 8 * i + 8))
    ensures (forall i :: 0 <= i < k ==> flags[i] == 255) && HasAll(s, 8 * k, 8 * k + m) <==> HasAll(s, 0, 8 * k + m)
  {
    if forall i :: 0 <= i < k ==> flags[i] == 255 {
      forall x: nat | x < 8 * k
        ensures x in s
      {
        var i := x / 8;
        assert flags[i] == 255 && HasAll(s, 8 * i, 8 * i + 8);
      }
    }
    if HasAll(s, 0, 8 * k + m) {
      forall i | 0 <= i < k
        ensures flags[i] == 255
      {
        assert HasAll(s, 8 * i, 8 * i + 8);
      }
    }
  }

  // ------------------------------------------------------------------
  // Bytes and sets
  // ------------------------------------------------------------------

  lemma {:induction false} BitsDetermine(u: nat, v: nat, n: nat)
    requires u < Pow2(n) && v < Pow2(n) && forall j: nat :: j < n ==> Bit(u, j) == Bit(v, j)
    ensures u == v
  {
    if n > 0 {
      assert Bit(u, 0) == Bit(v, 0);
      forall j: nat | j < n - 1
        ensures Bit(u / 2, j) == Bit(v / 2, j)
      {
        assert Bit(u, j + 1) == Bit(v, j + 1);
      }
      BitsDetermine(u / 2, v / 2, n - 1);
    }
  }

  /** The bytes of a set of nodes are determined by the set: comparing flag bytes is
      comparing sets. */
  lemma SameSetSameBytes(a: seq<Byte>, b: seq<Byte>)
    requires |a| == |b|
    ensures Members(a) == Members(b) <==> a == b
  {
    if Members(a) == Members(b) {
      forall i | 0 <= i < |a|
        ensures a[i] == b[i]
      {
        forall j: nat | j < 8
          ensures Bit(a[i], j) == Bit(b[i], j)
        {
          InMembers(a, 8 * i + j);
          InMembers(b, 8 * i + j);
          assert (8 * i + j) / 8 == i && (8 * i + j) % 8 == j;
        }
        EightBits();
        BitsDetermine(a[i], b[i], 8);
      }
    }
  }

  /** The byte with just bit `j` set. */
  lemma {:induction false} BitOfPower(j: nat, m: nat)
    ensures Bit(Pow2(j), m) <==> m == j
  {
    if j == 0 {
      if m > 0 { ZeroBits(m - 1); }
    } else if m > 0 {
      BitOfPower(j - 1, m - 1);
    }
  }

  lemma {:induction false} ZeroBits(m: nat)
    ensures !Bit(0, m)
  {
    if m > 0 { ZeroBits(m - 1); }
  }

  lemma {:induction false} PowerFits(j: nat, n: nat)
    requires j < n
    ensures Pow2(j) < Pow2(n)
  {
    if j + 1 < n { PowerFits(j, n - 1); }
  }

  function OneBit(j: nat): (u: Byte)
    requires j < 8
  {
    PowerFits(j, 8);
    EightBits();
    Pow2(j)
  }

  /** `u & ~(1 << j)`. */
  function Without(u: nat, j: nat): (r: nat)
    ensures r <= u
  {
    if j == 0 then u - u % 2 else u % 2 + 2 * Without(u / 2, j - 1)
  }

  lemma {:induction false} WithoutBits(u: nat, j: nat, m: nat)
    ensures Bit(Without(u, j), m) <==> Bit(u, m) && m != j
  {
    if j > 0 && m > 0 {
      WithoutBits(u / 2, j - 1, m - 1);
      assert Without(u, j) / 2 == Without(u / 2, j - 1);
    } else if m > 0 {
      assert Without(u, j) / 2 == u / 2;
    }
  }

  /** Replacing the byte of node `i` changes that byte's nodes only. */
  lemma MembersOfUpdate(a: seq<Byte>, i: nat, u: Byte, x: nat)
    requires i / 8 < |a|
    ensures x in Members(a[i / 8 := u]) <==>
              x / 8 < |a| && if x / 8 == i / 8 then Bit(u, x % 8) else x in Members(a)
  {
    InMembers(a, x);
    InMembers(a[i / 8 := u], x);
  }

  // ------------------------------------------------------------------
  // The flags of a packet
  // ------------------------------------------------------------------

  /** Flag bytes as a packet brings them, for a network of `count` nodes. */
  ghost predicate WellSized(rx: seq<Byte>, count: nat)
  {
    |rx| == FlagsLength(count) && forall x :: x in Members(rx) ==> x < count
  }

  /** The flag bytes of a packet buffer. */
  class FlagBytes {
    const count: nat
    const bytes: array<Byte>

    constructor (nodes: nat, me: nat)
      requires me < nodes
      ensures count == nodes && fresh(bytes) && Valid() && Nodes() == {me}
    {
      count := nodes;
      bytes := new Byte[FlagsLength(nodes)](_ => 0);
      new;
      Reset(me);
    }

    constructor Empty(nodes: nat)
      requires nodes > 0
      ensures count == nodes && fresh(bytes) && Valid() && Nodes() == {}
    {
      count := nodes;
      bytes := new Byte[FlagsLength(nodes)](_ => 0);
      new;
      NoneSet(bytes[..]);
    }

    ghost predicate Valid()
      reads this, bytes
    {
      count > 0 && WellSized(bytes[..], count)
    }

    ghost function Nodes(): set<nat>
      reads this, bytes
    {
      Members(bytes[..])
    }

    /** `flags[i / 8] |= 1 << (i % 8)`. */
    method Add(i: nat)
      requires Valid() && i < count
      modifies bytes
      ensures Valid() && Nodes() == old(Nodes()) + {i}
    {
      ghost var was := bytes[..];
      bytes[i / 8] := OrByte(bytes[i / 8], OneBit(i % 8));
      assert bytes[..] == was[i / 8 := OrByte(was[i / 8], OneBit(i % 8))];
      AddsOne(was, i);
    }

    /** `votes[i / 8] &= ~(1 << (i % 8))`. */
    method Drop(i: nat)
      requires Valid() && i < count
      modifies bytes
      ensures Valid() && Nodes() == old(Nodes()) - {i}
    {
      ghost var was := bytes[..];
      bytes[i / 8] := Without(bytes[i / 8], i % 8);
      assert bytes[..] == was[i / 8 := Without(was[i / 8], i % 8)];
      DropsOne(was, i);
    }

    /** `memset` to zero, then the node's own flag. */
    method Reset(i: nat)
      requires count > 0 && bytes.Length == FlagsLength(count) && i < count
      modifies bytes
      ensures Valid() && Nodes() == {i}
    {
      forall k | 0 <= k < bytes.Length {
        bytes[k] := 0;
      }
      NoneSet(bytes[..]);
      Add(i);
    }

    /** `memcpy` of a packet's flags. */
    method Copy(rx: seq<Byte>)
      requires Valid() && WellSized(rx, count)
      modifies bytes
      ensures Valid() && bytes[..] == rx && Nodes() == Members(rx)
    {
      forall k | 0 <= k < bytes.Length {
        bytes[k] := rx[k];
      }
      assert bytes[..] == rx;
    }

    /** `tx->flags[i] |= rx->flags[i]` over all bytes: the union of the sets; the
        difference noted on the way is a difference of the sets. */
    method Merge(rx: seq<Byte>) returns (differ: bool)
      requires Valid() && WellSized(rx, count)
      modifies bytes
      ensures Valid() && Nodes() == old(Nodes()) + Members(rx)
      ensures differ <==> Members(rx) != old(Nodes())
    {
      ghost var was := bytes[..];
      differ := false;
      var i := 0;
      while i < bytes.Length
        invariant i <= bytes.Length && |was| == bytes.Length
        invariant forall k :: 0 <= k < i ==> bytes[k] == OrByte(was[k], rx[k])
        invariant forall k :: i <= k < bytes.Length ==> bytes[k] == was[k]
        invariant differ <==> exists k :: 0 <= k < i && was[k] != rx[k]
      {
        differ := differ || rx[i] != bytes[i];
        bytes[i] := OrByte(bytes[i], rx[i]);
        i := i + 1;
      }
      OrMembers(was, rx, bytes[..]);
      SameSetSameBytes(was, rx);
    }

    /** The reply count. */
    method Count() returns (replies: nat)
      ensures replies == |Nodes()|
    {
      replies := CountFlags(bytes[..]);
    }

    /** The completeness test. */
    method Full() returns (complete: bool)
      requires Valid()
      ensures complete <==> AllSet(Nodes(), count)
    {
      complete := SumFlags(bytes[..], count);
    }
  }

  lemma AddsOne(a: seq<Byte>, i: nat)
    requires i / 8 < |a|
    ensures Members(a[i / 8 := OrByte(a[i / 8], OneBit(i % 8))]) == Members(a) + {i}
  {
    hide Members, Bit;
    var u := OrByte(a[i / 8], OneBit(i % 8));
    var b := a[i / 8 := u];
    forall x: nat
      ensures x in Members(b) <==> x in Members(a) + {i}
    {
      MembersOfUpdate(a, i, u, x);
      InMembers(a, x);
      OrBits(a[i / 8], OneBit(i % 8), 8, x % 8);
      BitOfPower(i % 8, x % 8);
    }
    assert Members(b) == Members(a) + {i};
  }

  lemma DropsOne(a: seq<Byte>, i: nat)
    requires i / 8 < |a|
    ensures Without(a[i / 8], i % 8) < 256
    ensures Members(a[i / 8 := Without(a[i / 8], i % 8)]) == Members(a) - {i}
  {
    hide Members, Bit, Without;
    var u := Without(a[i / 8], i % 8);
    var b := a[i / 8 := u];
    forall x: nat
      ensures x in Members(b) <==> x in Members(a) - {i}
    {
      MembersOfUpdate(a, i, u, x);
      InMembers(a, x);
      WithoutBits(a[i / 8], i % 8, x % 8);
    }
    assert Members(b) == Members(a) - {i};
  }

  lemma NoneSet(a: seq<Byte>)
    requires forall k :: 0 <= k < |a| ==> a[k] == 0
    ensures Members(a) == {}
  {
    hide Members, Bit;
    forall x | x in Members(a)
      ensures false
    {
      InMembers(a, x);
      ZeroBits(x % 8);
    }
  }

  /** The loop that adds the bytes up. */
  method SumFlags(flags: seq<Byte>, count: nat) returns (complete: bool)
    requires count > 0 && |flags| == FlagsLength(count)
    requires forall x :: x in Members(flags) ==> x < count
    ensures complete <==> AllSet(Members(flags), count)
  {
    hide Members;
    var sum, i := 0, 0;
    while i < |flags|
      invariant i <= |flags| && sum == ByteSum(flags[..i])
    {
      assert flags[..i + 1][..i] == flags[..i];
      sum := sum + flags[i];
      i := i + 1;
    }
    assert flags[..i] == flags;
    SumTellsCompletion(flags, count);
    return sum >= FullSum(count);
  }
}
