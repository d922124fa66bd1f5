/** Antelope's inline index: no structure of its own, just binary search over a
    relation whose rows were inserted with growing attribute values, and an
    iterator that walks the run of rows it finds.

    Tuple ids are 32-bit unsigned, so the search arithmetic wraps.
 */
module InlineIndex {

  const TUPLES: nat := 0x1_0000_0000
  const INVALID_TUPLE: nat := TUPLES - 1

  /** The row file is addressed with signed 32-bit offsets. */
  const MAX_ROWS: nat := 0x7fff_ffff

  /** The values of the indexed attribute, in row order. */
  ghost predicate Increasing(v: seq<int>)
  {
    |v| <= MAX_ROWS && forall i, j :: 0 <= i < j < |v| ==> v[i] < v[j]
  }

  /** How a search ends: at a row, with an exact match missing, or by taking the
      value of a row that does not exist. */
  datatype Probe = At(row: nat) | Missing | OutOfTable

  /** `c` is the row of `target`, or one of the two rows it falls between. */
  ghost predicate Near(v: seq<int>, target: int, c: nat)
  {
    && c < |v|
    && (v[c] < target ==> c + 1 == |v| || target < v[c + 1])
    && (target < v[c] ==> c > 0 && v[c - 1] < target)
  }

  /** `t - 1` on tuple ids. */
  function Below(t: nat): (r: nat)
    requires t < TUPLES
    ensures r < TUPLES
  {
    if t == 0 then INVALID_TUPLE else t - 1
  }

  /** `binary_search`: where it ends for every table and target, the wrapped
      upper bound included. It leaves the table exactly when no row is at or
      below the target. */
  method BinarySearch(v: seq<int>, target: int, exact: bool) returns (r: Probe)
    requires Increasing(v)
    ensures r.OutOfTable? <==> v == [] || target < v[0]
    ensures r.Missing? <==> !r.OutOfTable? && exact && target !in v
    ensures r.At? ==> Near(v, target, r.row) && (target in v ==> v[r.row] == target)
  {
    var min, max := 0, Below(|v|);
    ghost var below := v == [] || target < v[0];
    var center: nat, cmp;
    while true
      invariant 0 <= min <= max < TUPLES
      invariant below ==> min == 0 && (max < |v| || max == INVALID_TUPLE)
      invariant !below ==> max < |v| && forall i :: 0 <= i < min ==> v[i] < target
      invariant !below ==> forall i :: max < i < |v| ==> target < v[i]
      decreases if max == INVALID_TUPLE then 0 else max + 1 - min
    {
      center := min + (max - min) / 2;
      if center >= |v| {
        return OutOfTable;
      }
      cmp := v[center];
      if target > cmp {
        min := center + 1;
      } else {
        max := Below(center);
      }
      if !(min <= max && target != cmp) {
        break;
      }
    }
    assert !below && target != cmp ==> forall i :: 0 <= i < |v| ==> v[i] != target by {
      forall i | 0 <= i < |v| && !below && target != cmp
        ensures v[i] != target
      {
        if i == center {} else if i < min {} else {}
      }
    }
    if exact && target != cmp {
      return Missing;
    }
    return At(center);
  }

  // ------------------------------------------------------------------
  // The iterator
  // ------------------------------------------------------------------

  datatype Cursor = Cursor(low: int, high: int, nextItem: nat)

  /** The index module with its static cache of the last search. */
  class Index {
    const values: seq<int>
    var cachedStart: nat
    var cachedEnd: nat

    constructor (v: seq<int>)
      ensures values == v
    {
      values := v;
      cachedStart, cachedEnd := 0, 0;
    }

    /** `range_search`: both ends, or the probe that failed. */
    method RangeSearch(low: int, high: int) returns (failed: bool, start: nat, end: nat, undefined: bool)
      requires Increasing(values)
      ensures undefined <==> values == [] || low < values[0] || high < values[0]
      ensures !undefined ==> (failed <==> low == high && low !in values)
      ensures !undefined && !failed ==> Near(values, low, start) && Near(values, high, end)
      ensures !undefined && !failed && low in values ==> values[start] == low
      ensures !undefined && !failed && high in values ==> values[end] == high
    {
      failed, start, end, undefined := false, 0, 0, false;
      var p := BinarySearch(values, low, low == high);
      if p == OutOfTable { undefined := true; return; }
      if p == Missing {
        failed := true;
        return;
      }
      start := p.row;
      p := BinarySearch(values, high, low == high);
      if p == OutOfTable { undefined := true; return; }
      if p == Missing { failed := true; return; }
      end := p.row;
    }

    /** `get_next`: the search on the first call, then one step per call. */
    method GetNext(c: Cursor) returns (r: Next, c': Cursor)
      requires Increasing(values)
      modifies this
      ensures c' == if r.Row? then c.(nextItem := c.nextItem + 1) else c
      ensures c.nextItem == 0 ==>
                && (r.Undefined? <==> values == [] || c.low < values[0] || c.high < values[0])
                && (r.NoRow? <==> !r.Undefined? && c.low == c.high && c.low !in values)
                && (r.Row? ==> r.id == cachedStart && Ends(values, c.low, c.high, cachedStart, cachedEnd))
      ensures c.nextItem > 0 ==>
                && cachedStart == old(cachedStart) && cachedEnd == old(cachedEnd)
                && r == if cachedStart + c.nextItem <= cachedEnd then Row(cachedStart + c.nextItem) else NoRow
    {
      c' := c;
      if c.nextItem == 0 {
        var failed, start, end, undefined := RangeSearch(c.low, c.high);
        if undefined {
          return Undefined, c;
        }
        if failed {
          cachedStart, cachedEnd := 0, 0;
          return NoRow, c;
        }
        cachedStart, cachedEnd := start, end;
        return Row(start), c.(nextItem := 1);
      }
      if cachedStart + c.nextItem <= cachedEnd {
        return Row(cachedStart + c.nextItem), c.(nextItem := c.nextItem + 1);
      }
      return NoRow, c;
    }

    /** All answers of an iterator over `[low, high]`: nothing for an equality
        search without a match, and otherwise a run of consecutive rows, each
        once, that holds every row in range and goes past it by at most the
        first and the last row. */
    method Collect(low: int, high: int) returns (ids: seq<nat>, undefined: bool)
      requires Increasing(values) && low <= high
      modifies this
      ensures undefined <==> values == [] || low < values[0]
      ensures !undefined && low == high ==> forall k: nat :: k in ids <==> k < |values| && values[k] == low
      ensures !undefined && low == high ==> |ids| <= 1
      ensures !undefined && low < high ==> ids != []
      ensures forall i :: 0 <= i < |ids| ==> ids[i] == ids[0] + i && ids[i] < |values|
      ensures !undefined ==> forall k :: 0 <= k < |values| && low <= values[k] <= high ==> k in ids
      ensures forall i :: 0 < i < |ids| - 1 ==> low <= values[ids[i]] <= high
    {
      ids := [];
      var r, c := GetNext(Cursor(low, high, 0));
      if !r.Row? {
        undefined := r.Undefined?;
        return;
      }
      ghost var start, end := cachedStart, cachedEnd;
      undefined := false;
      ids := [r.id];
      while true
        invariant cachedStart == start && cachedEnd == end
        invariant c == Cursor(low, high, |ids|) && |ids| > 0
        invariant forall i :: 0 <= i < |ids| ==> ids[i] == start + i
        invariant |ids| == 1 || start + |ids| - 1 <= end
        decreases end + 1 - start - |ids|
      {
        r, c := GetNext(c);
        if !r.Row? { break; }
        ids := ids + [r.id];
      }
      RunIsRight(values, low, high, start, end, ids);
    }
  }

  datatype Next = Row(id: nat) | NoRow | Undefined

  /** The rows a successful search caches. */
  ghost predicate Ends(v: seq<int>, low: int, high: int, start: nat, end: nat)
  {
    && Near(v, low, start) && Near(v, high, end)
    && (low in v ==> v[start] == low) && (high in v ==> v[end] == high)
    && (low == high ==> low in v)
  }

  lemma RunIsRight(v: seq<int>, low: int, high: int, start: nat, end: nat, ids: seq<nat>)
    requires Increasing(v) && low <= high && v != [] && v[0] <= low && Ends(v, low, high, start, end)
    requires |ids| == (if start <= end then end - start else 0) + 1
    requires forall i :: 0 <= i < |ids| ==> ids[i] == start + i
    ensures low == high ==> ids == [start] && v[start] == low
    ensures forall k :: 0 <= k < |v| && low <= v[k] <= high ==> k in ids
    ensures forall i :: 0 < i < |ids| - 1 ==> low <= v[ids[i]] <= high
    ensures forall i :: 0 <= i < |ids| ==> ids[i] < |v|
  {
    forall k | 0 <= k < |v| && low <= v[k] <= high
      ensures k in ids
    {
      BeforeIsSmaller(v, low, start, k);
      AfterIsLarger(v, high, end, k);
      assert ids[k - start] == k;
    }
    if low == high {
      assert start == end;
    }
    forall i | 0 < i < |ids| - 1
      ensures low <= v[ids[i]] <= high
    {
      assert v[start] < v[start + i] < v[end];
      InnerRow(v, low, high, start, end, start + i);
    }
  }

  lemma BeforeIsSmaller(v: seq<int>, low: int, start: nat, k: nat)
    requires Increasing(v) && Near(v, low, start) && (low in v ==> v[start] == low) && k < |v|
    ensures low <= v[k] ==> start <= k
  {
    if k < start {
      assert v[k] < v[start];
      if low < v[start] && k < start - 1 { assert v[k] < v[start - 1]; }
    }
  }

  lemma AfterIsLarger(v: seq<int>, high: int, end: nat, k: nat)
    requires Increasing(v) && Near(v, high, end) && (high in v ==> v[end] == high) && k < |v|
    ensures v[k] <= high ==> k <= end
  {
    if end < k {
      assert v[end] < v[k];
      if v[end] < high && end + 1 < k { assert v[end + 1] < v[k]; }
    }
  }

  lemma InnerRow(v: seq<int>, low: int, high: int, start: nat, end: nat, k: nat)
    requires Increasing(v) && Ends(v, low, high, start, end) && start < k < end
    ensures low <= v[k] <= high
  {
    assert v[start + 1] <= v[k] by { if start + 1 < k { assert v[start + 1] < v[k]; } }
    assert v[k] <= v[end - 1] by { if k < end - 1 { assert v[k] < v[end - 1]; } }
    assert v[start] < v[k] < v[end];
  }
}
