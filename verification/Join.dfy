/** Antelope's equi-join: every call of `relation_process_join` resumes inside a
    two-level loop, jumping back into the inner one, and hands out one row.
 */
module Join {
  import opened Common
  import opened Machine
  import opened InlineIndex

  type Row = seq<Byte>

  /** One entry of the source map: which row buffer an attribute of the result
      is copied from, where it starts and how long it is. */
  datatype Source = Source(fromLeft: bool, offset: nat, size: nat)

  /** What a join works on: both relations, the join value of a row of each, an
      index that lists right rows by value, and the map of the projection. */
  datatype Query = Query(
    left: seq<Row>, right: seq<Row>,
    leftValue: Row -> int, rightValue: Row -> int,
    lookup: int -> seq<nat>,
    sources: seq<Source>)

  /** A result row: the mapped attributes one after the other. */
  function Project(l: Row, r: Row, sources: seq<Source>): (p: Row)
  {
    if sources == [] then []
    else Slice(if sources[0].fromLeft then l else r, sources[0].offset, sources[0].size) + Project(l, r, sources[1..])
  }

  /** `memcpy` from a row buffer; buffers are longer than any attribute needs. */
  function Slice(row: Row, offset: nat, size: nat): (p: Row)
    ensures |p| == size
    decreases size
  {
    if size == 0 then []
    else [if offset < |row| then row[offset] else 0] + Slice(row, offset + 1, size - 1)
  }

  function Width(sources: seq<Source>): nat
  {
    if sources == [] then 0 else sources[0].size + Width(sources[1..])
  }

  /** Where attribute `k` starts in a result row: behind those mapped before it. */
  function Position(sources: seq<Source>, k: nat): (n: nat)
    requires k < |sources|
    ensures n + sources[k].size <= Width(sources)
  {
    if k == 0 then 0 else sources[0].size + Position(sources[1..], k - 1)
  }

  /** Attribute `k` of a result row is the bytes of the tuple that its source names. */
  predicate Carries(row: Row, l: Row, r: Row, sources: seq<Source>, k: nat)
    requires k < |sources| && |row| == Width(sources)
  {
    var s, at := sources[k], Position(sources, k);
    var tuple := if s.fromLeft then l else r;
    s.offset + s.size <= |tuple| ==> row[at..at + s.size] == tuple[s.offset..s.offset + s.size]
  }

  /** A row of the mapped width whose attributes all come from the two tuples. */
  ghost predicate Combines(row: Row, l: Row, r: Row, sources: seq<Source>)
  {
    |row| == Width(sources) && forall k :: 0 <= k < |sources| ==> Carries(row, l, r, sources, k)
  }

  lemma {:induction false} SliceIs(row: Row, offset: nat, size: nat)
    requires offset + size <= |row|
    ensures Slice(row, offset, size) == row[offset..offset + size]
    decreases size
  {
    if size > 0 {
      SliceIs(row, offset + 1, size - 1);
    }
  }

  lemma CarriesLater(first: Row, rest: Row, l: Row, r: Row, sources: seq<Source>, k: nat)
    requires 0 < k < |sources| && |first| == sources[0].size && |rest| == Width(sources[1..])
    requires Carries(rest, l, r, sources[1..], k - 1)
    ensures Carries(first + rest, l, r, sources, k)
  {
    var at, n := Position(sources[1..], k - 1), sources[k].size;
    assert Position(sources, k) == |first| + at;
    assert (first + rest)[|first| + at..|first| + at + n] == rest[at..at + n];
  }

  lemma CarriesFirst(rest: Row, l: Row, r: Row, sources: seq<Source>)
    requires sources != [] && |rest| == Width(sources[1..])
    ensures var s := sources[0]; Carries(Slice(if s.fromLeft then l else r, s.offset, s.size) + rest, l, r, sources, 0)
  {
    var s := sources[0];
    var tuple := if s.fromLeft then l else r;
    if s.offset + s.size <= |tuple| {
      SliceIs(tuple, s.offset, s.size);
      hide Slice;
      var part := Slice(tuple, s.offset, s.size);
      assert (part + rest)[0..s.size] == part;
    }
  }

  lemma {:induction false} ProjectCombines(l: Row, r: Row, sources: seq<Source>)
    ensures Combines(Project(l, r, sources), l, r, sources)
  {
    hide Slice, Carries;
    if sources != [] {
      var s, rest := sources[0], Project(l, r, sources[1..]);
      var first := Slice(if s.fromLeft then l else r, s.offset, s.size);
      ProjectCombines(l, r, sources[1..]);
      CarriesFirst(rest, l, r, sources);
      forall k | 0 < k < |sources|
        ensures Carries(first + rest, l, r, sources, k)
      {
        CarriesLater(first, rest, l, r, sources, k);
      }
    }
  }

  // ------------------------------------------------------------------
  // The nested loop
  // ------------------------------------------------------------------

  type Pair = (nat, nat)

  /** Row `i` of the left relation with each of `ids`, in order. */
  function Beside(i: nat, ids: seq<nat>): (ps: seq<Pair>)
    ensures |ps| == |ids|
    ensures forall k :: 0 <= k < |ids| ==> ps[k] == (i, ids[k])
  {
    seq(|ids|, k requires 0 <= k < |ids| => (i, ids[k]))
  }

  /** The pairs of the left rows from `i` on: the outer loop over the left rows,
      the inner one over the rows the index lists. */
  function Pairs(q: Query, i: nat): (ps: seq<Pair>)
    decreases |q.left| - i
  {
    if i >= |q.left| then []
    else Beside(i, q.lookup(q.leftValue(q.left[i]))) + Pairs(q, i + 1)
  }

  /** The index lists right row `j` under `v` just when that is its join value. */
  predicate ListsRight(q: Query, v: int, j: nat)
  {
    j in q.lookup(v) <==> j < |q.right| && q.rightValue(q.right[j]) == v
  }

  /** `v` is the join value of some left row: the only values that are looked up. */
  ghost predicate LookedUp(q: Query, v: int)
  {
    exists l <- q.left :: q.leftValue(l) == v
  }

  /** The index lists exactly the matching right rows, each once. */
  ghost predicate Exact(q: Query)
  {
    && (forall v, j: nat :: LookedUp(q, v) ==> ListsRight(q, v, j))
    && NoRepeats(q)
  }

  ghost predicate NoRepeats(q: Query)
  {
    forall v :: LookedUp(q, v) ==> Distinct(q.lookup(v))
  }

  ghost predicate Joins(q: Query, i: nat, j: nat)
  {
    i < |q.left| && j < |q.right| && q.leftValue(q.left[i]) == q.rightValue(q.right[j])
  }

  lemma BesideMember(i: nat, ids: seq<nat>, p: Pair)
    ensures p in Beside(i, ids) <==> p.0 == i && p.1 in ids
  {
    if p.0 == i && p.1 in ids {
      var k :| 0 <= k < |ids| && ids[k] == p.1;
      assert Beside(i, ids)[k] == p;
    }
  }

  lemma ExactAt(q: Query, v: int, j: nat)
    requires Exact(q) && LookedUp(q, v)
    ensures j in q.lookup(v) <==> j < |q.right| && q.rightValue(q.right[j]) == v
  {
    assert ListsRight(q, v, j);
  }

  /** The nested loop lists exactly the pairs with equal join values. */
  lemma {:induction false} PairListedIff(q: Query, from: nat, p: Pair)
    requires Exact(q)
    ensures p in Pairs(q, from) <==> from <= p.0 && Joins(q, p.0, p.1)
    decreases |q.left| - from
  {
    if from < |q.left| {
      hide Beside, Exact;
      var value := q.leftValue(q.left[from]);
      assert LookedUp(q, value);
      PairListedIff(q, from + 1, p);
      BesideMember(from, q.lookup(value), p);
      ExactAt(q, value, p.1);
    }
  }

  ghost predicate ByLeftRow(ps: seq<Pair>, from: nat)
  {
    && (forall k :: 0 <= k < |ps| ==> from <= ps[k].0)
    && (forall k, m :: 0 <= k < m < |ps| ==> ps[k].0 <= ps[m].0)
  }

  /** It lists each pair once, by left row. */
  lemma {:induction false} PairsInOrder(q: Query, from: nat)
    requires NoRepeats(q)
    ensures Distinct(Pairs(q, from)) && ByLeftRow(Pairs(q, from), from)
    decreases |q.left| - from
  {
    if from < |q.left| {
      PairsInOrder(q, from + 1);
      assert LookedUp(q, q.leftValue(q.left[from]));
      OneMoreRow(from, q.lookup(q.leftValue(q.left[from])), Pairs(q, from + 1));
    }
  }

  lemma OneMoreRow(i: nat, ids: seq<nat>, rest: seq<Pair>)
    requires Distinct(ids) && Distinct(rest) && ByLeftRow(rest, i + 1)
    ensures Distinct(Beside(i, ids) + rest) && ByLeftRow(Beside(i, ids) + rest, i)
  {
  }

  // ------------------------------------------------------------------
  // The resumable join
  // ------------------------------------------------------------------

  datatype Result = GotRow | Finished | ImplementationError

  /** The fields of the query handle that the join uses, with the static row
      buffers. */
  class Handle {
    const q: Query
    var indexStep: bool
    var tupleId: nat
    var indexIterator: seq<nat>  // the right rows the iterator has still to name
    var leftRow: Row
    var rightRow: Row
    var joinRow: Row
    var currentRow: nat

    /** `relation_join`: the first call is to step to the first left row. */
    constructor (query: Query)
      ensures Valid() && q == query && currentRow == 0
      ensures Remaining() == Pairs(q, 0)
    {
      q := query;
      indexStep := true;
      tupleId, currentRow := 0, 0;
      indexIterator := [];
      leftRow, rightRow, joinRow := [], [], [];
    }

    /** Between calls, either the next call starts over, or it resumes in the
        inner loop of a left row that is still in its buffer. */
    predicate Valid()
      reads this
    {
      indexStep || InInnerLoop()
    }

    predicate InInnerLoop()
      reads this
    {
      tupleId < |q.left| && leftRow == q.left[tupleId]
    }

    /** The pairs still to come. */
    ghost function Remaining(): seq<Pair>
      requires Valid()
      reads this
    {
      if indexStep then Pairs(q, 0)
      else Beside(tupleId, indexIterator) + Pairs(q, tupleId + 1)
    }

    /** `index_get_next` on the handle's iterator. */
    method GetNext() returns (id: nat, found: bool)
      modifies this`indexIterator
      ensures found <==> old(indexIterator) != []
      ensures found ==> old(indexIterator) == [id] + indexIterator
      ensures !found ==> indexIterator == []
    {
      if indexIterator == [] {
        return INVALID_TUPLE, false;
      }
      id, found := indexIterator[0], true;
      indexIterator := indexIterator[1..];
    }

    /** The loop over the source map that fills `join_row`. */
    method FillJoinRow()
      modifies this`joinRow
      ensures joinRow == Project(leftRow, rightRow, q.sources)
      ensures Combines(joinRow, leftRow, rightRow, q.sources)
    {
      ProjectCombines(leftRow, rightRow, q.sources);
      hide Slice, Combines;
      joinRow := [];
      var i := 0;
      while i < |q.sources|
        invariant i <= |q.sources|
        invariant joinRow + Project(leftRow, rightRow, q.sources[i..]) == Project(leftRow, rightRow, q.sources)
      {
        var s := q.sources[i];
        assert q.sources[i..][1..] == q.sources[i + 1..];
        joinRow := joinRow + Slice(if s.fromLeft then leftRow else rightRow, s.offset, s.size);
        i := i + 1;
      }
    }

    /** The body of the inner loop once the index has named a right row. */
    method Emit(rightId: nat) returns (result: Result)
      modifies this`rightRow, this`joinRow, this`currentRow
      ensures result == if rightId < |q.right| then GotRow else ImplementationError
      ensures result == GotRow ==>
                joinRow == Project(leftRow, q.right[rightId], q.sources) && currentRow == old(currentRow) + 1
      ensures result != GotRow ==> currentRow == old(currentRow)
    {
      if rightId >= |q.right| {
        return ImplementationError;
      }
      rightRow := q.right[rightId];
      FillJoinRow();
      currentRow := currentRow + 1;
      return GotRow;
    }

    /** The answer handed out for the pair `p`. */
    ghost predicate Answers(result: Result, p: Pair, rowsBefore: nat)
      reads this
    {
      && (result == GotRow <==> p.1 < |q.right|)
      && (result == ImplementationError <==> p.1 >= |q.right|)
      && (result == GotRow ==> p.0 < |q.left| && joinRow == Project(q.left[p.0], q.right[p.1], q.sources))
      && currentRow == rowsBefore + if result == GotRow then 1 else 0
    }

    /** One round of the inner loop, entered by falling into it or by the jump. */
    method InnerLoop() returns (got: bool, result: Result)
      requires !indexStep && InInnerLoop()
      modifies this
      ensures tupleId == old(tupleId)
      ensures got ==>
                && !indexStep && InInnerLoop()
                && |old(Remaining())| > 0 && Remaining() == old(Remaining())[1..]
                && Answers(result, old(Remaining())[0], old(currentRow))
      ensures got ==> result != Finished
      ensures !got ==> indexStep && old(Remaining()) == Pairs(q, tupleId + 1) && currentRow == old(currentRow)
    {
      hide Pairs, Beside, Project;
      BesideTail(tupleId, indexIterator, Pairs(q, tupleId + 1));
      var id;
      id, got := GetNext();
      if !got {
        indexStep := true;
        return got, Finished;
      }
      assert old(indexIterator)[1..] == indexIterator;
      result := Emit(id);
    }

    /** `relation_process_join`: hands out the first of the remaining pairs and
        leaves the others, or reports the end, after which it starts over. An
        index entry for a row that does not exist is reported and passed over. */
    method Process() returns (result: Result)
      requires Valid()
      modifies this
      ensures Valid()
      ensures result == Finished <==> old(Remaining()) == []
      ensures result == Finished ==> indexStep && currentRow == old(currentRow)
      ensures result != Finished ==>
                && |old(Remaining())| > 0 && Remaining() == old(Remaining())[1..]
                && Answers(result, old(Remaining())[0], old(currentRow))
    {
      hide Project, Answers, Pairs, Beside;
      ghost var todo := Remaining();
      var got;
      if indexStep {
        tupleId := 0;
      } else {
        got, result := InnerLoop();
        if got {
          return;
        }
        tupleId := tupleId + 1;
      }
      while true
        invariant indexStep && tupleId <= |q.left|
        invariant Pairs(q, tupleId) == todo
        invariant currentRow == old(currentRow)
        decreases |q.left| - tupleId
      {
        PairsUnfold(q, tupleId);
        if tupleId >= |q.left| {
          return Finished;
        }
        leftRow := q.left[tupleId];
        indexIterator := q.lookup(q.leftValue(leftRow));
        indexStep := false;
        got, result := InnerLoop();
        if got {
          return;
        }
        tupleId := tupleId + 1;
      }
    }
  }

  lemma PairsUnfold(q: Query, i: nat)
    ensures i >= |q.left| ==> Pairs(q, i) == []
    ensures i < |q.left| ==> Pairs(q, i) == Beside(i, q.lookup(q.leftValue(q.left[i]))) + Pairs(q, i + 1)
  {
  }

  lemma BesideTail(i: nat, ids: seq<nat>, tail: seq<Pair>)
    ensures ids == [] ==> Beside(i, ids) + tail == tail
    ensures ids != [] ==> (Beside(i, ids) + tail)[0] == (i, ids[0])
    ensures ids != [] ==> (Beside(i, ids) + tail)[1..] == Beside(i, ids[1..]) + tail
  {
  }

  // ------------------------------------------------------------------
  // Whole joins
  // ------------------------------------------------------------------

  /** The result rows of a list of pairs. */
  function Rows(q: Query, ps: seq<Pair>): (rows: seq<Row>)
    requires forall p :: p in ps ==> p.0 < |q.left| && p.1 < |q.right|
    ensures |rows| == |ps|
  {
    if ps == [] then [] else [Project(q.left[ps[0].0], q.right[ps[0].1], q.sources)] + Rows(q, ps[1..])
  }

  /** The rows carry the attributes of their pairs. */
  lemma {:induction false} RowsCombine(q: Query, ps: seq<Pair>, n: nat)
    requires (forall p :: p in ps ==> p.0 < |q.left| && p.1 < |q.right|) && n < |ps|
    ensures ps[n] in ps && Combines(Rows(q, ps)[n], q.left[ps[n].0], q.right[ps[n].1], q.sources)
  {
    if n == 0 {
      ProjectCombines(q.left[ps[0].0], q.right[ps[0].1], q.sources);
    } else {
      RowsCombine(q, ps[1..], n - 1);
    }
  }

  lemma PairsInRange(q: Query)
    requires Exact(q)
    ensures forall p :: p in Pairs(q, 0) ==> p.0 < |q.left| && p.1 < |q.right|
  {
    forall p | p in Pairs(q, 0)
      ensures p.0 < |q.left| && p.1 < |q.right|
    {
      PairListedIff(q, 0, p);
    }
  }

  /** A join read to its end: the rows of the nested loop, none lost or repeated
      across resumptions, in one call more than there are rows. */
  method ReadJoin(q: Query) returns (rows: seq<Row>, calls: nat)
    requires Exact(q)
    ensures (forall p :: p in Pairs(q, 0) ==> p.0 < |q.left| && p.1 < |q.right|) && rows == Rows(q, Pairs(q, 0))
    ensures |rows| == |Pairs(q, 0)| && calls == |rows| + 1
    ensures forall n :: 0 <= n < |rows| ==>
              var p := Pairs(q, 0)[n];
              p.0 < |q.left| && p.1 < |q.right| && Combines(rows[n], q.left[p.0], q.right[p.1], q.sources)
  {
    hide Combines, Slice, Project, Pairs, Exact, Handle.Remaining;
    PairsInRange(q);
    var h := new Handle(q);
    rows, calls := [], 0;
    ghost var all := Pairs(q, 0);
    assert all[0..] == all;
    while true
      invariant h.Valid() && h.q == q && fresh(h)
      invariant calls <= |all| && h.Remaining() == all[calls..]
      invariant rows + Rows(q, all[calls..]) == Rows(q, all)
      decreases |all| - calls
    {
      var result := h.Process();
      calls := calls + 1;
      if result == Finished { break; }
      assert all[calls - 1..][1..] == all[calls..];
      assert all[calls - 1] in all;
      rows := rows + [h.joinRow];
    }
    forall n | 0 <= n < |all|
      ensures all[n] in all && Combines(Rows(q, all)[n], q.left[all[n].0], q.right[all[n].1], q.sources)
    {
      RowsCombine(q, all, n);
    }
  }

  // ------------------------------------------------------------------
  // With the inline index
  // ------------------------------------------------------------------

  /** The rows an inline index finds for one value. */
  ghost function InlineRows(v: seq<int>, value: int): (ids: seq<nat>)
    requires Increasing(v)
  {
    if exists k :: 0 <= k < |v| && v[k] == value then
      var k: nat :| k < |v| && v[k] == value;
      [k]
    else []
  }

  /** The search of an inline index stays in the table: its first row is not above the value. */
  predicate Defined(v: seq<int>, value: int)
  {
    v != [] && v[0] <= value
  }

  /** An inline index over a growing attribute makes the join exact when no left value is
      below the first right row. */
  lemma InlineLookupIsExact(q: Query, v: seq<int>)
    requires Increasing(v) && |v| == |q.right|
    requires forall j :: 0 <= j < |v| ==> v[j] == q.rightValue(q.right[j])
    requires forall value :: LookedUp(q, value) ==> Defined(v, value) && q.lookup(value) == InlineRows(v, value)
    ensures Exact(q)
  {
    forall value, j: nat | LookedUp(q, value)
      ensures ListsRight(q, value, j) && Distinct(q.lookup(value))
    {
      assert q.lookup(value) == InlineRows(v, value);
    }
  }

  /** What the inline index returns for an equality search is that list. */
  method InlineEquality(index: Index, value: int) returns (ids: seq<nat>)
    requires Increasing(index.values) && Defined(index.values, value)
    modifies index
    ensures ids == InlineRows(index.values, value)
  {
    var undefined;
    ids, undefined := index.Collect(value, value);
    if |ids| == 1 {
      assert ids[0] in ids;
    } else {
      assert forall k: nat :: k < |index.values| && index.values[k] == value ==> k in ids;
    }
  }
}
