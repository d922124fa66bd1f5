/** Exactly when brackets do no harm: a clause with sub-clauses runs as it is written
    for all truth values of its comparisons just when the first connective of every
    sub-clause is also every connective of the clause around it.
 */
module AqlBrackets {
  import opened LvmCode
  import opened LvmEval
  import opened LvmInstance
  import opened AqlSyntax
  import opened AqlGroups

  // ----- Trees under truth values -----

  function Apply(conn: Connective, x: bool, y: bool): bool
  {
    if conn.AndOp? then x && y else x || y
  }

  /** The comparisons of a tree. */
  function Leaves(p: Pred): (n: nat)
    ensures n >= 1
  {
    match p
    case Compare(_, _, _) => 1
    case Connect(_, l, r) => Leaves(l) + Leaves(r)
    case Not(a) => Leaves(a)
  }

  /** The tree's value when its comparisons, from left to right, have the values `vals`,
      each chosen freely. */
  function PredOn(p: Pred, vals: seq<bool>): bool
    requires |vals| == Leaves(p)
  {
    match p
    case Compare(_, _, _) => vals[0]
    case Connect(c, l, r) => Apply(c, PredOn(l, vals[..Leaves(l)]), PredOn(r, vals[Leaves(l)..]))
    case Not(a) => !PredOn(a, vals)
  }

  ghost predicate SameTruth(p: Pred, q: Pred)
  {
    Leaves(p) == Leaves(q) && forall vals: seq<bool> :: |vals| == Leaves(p) ==> PredOn(p, vals) == PredOn(q, vals)
  }

  // ----- Clauses under truth values -----

  function Fold(conns: seq<Connective>, sides: seq<bool>, last: bool): bool
    requires |conns| == |sides|
  {
    if conns == [] then last else Apply(conns[0], sides[0], Fold(conns[1..], sides[1..], last))
  }

  /** How many comparisons a clause has. */
  function Size(clause: Clause): (n: nat)
    ensures n > |clause.parts|
    decreases clause
  {
    if HasInner(clause) then |clause.parts| + Size(Inner(clause)) else |clause.parts| + 1
  }

  /** The value of what runs, behind open frames. */
  function RunOn(conns: seq<Connective>, sides: seq<bool>, clause: Clause, vals: seq<bool>): bool
    requires |conns| == |sides| && |vals| == Size(clause)
    decreases clause
  {
    var k, start := |clause.parts|, Fold(conns, sides, vals[0]);
    if k == 0 then start
    else if HasInner(clause) then RunOn(Conns(clause), [start] + vals[1..k], Inner(clause), vals[k..])
    else Fold(Conns(clause), [start] + vals[1..k], vals[k])
  }

  /** The value of what is written. */
  function WrittenOn(clause: Clause, vals: seq<bool>): bool
    requires |vals| == Size(clause)
    decreases clause
  {
    var k := |clause.parts|;
    Fold(Conns(clause), vals[..k], if HasInner(clause) then WrittenOn(Inner(clause), vals[k..]) else vals[k])
  }

  // ----- Harmless brackets -----

  predicate Only(conns: seq<Connective>, c: Connective)
  {
    forall k :: 0 <= k < |conns| ==> conns[k] == c
  }

  lemma {:induction false} FoldAssociates(conns: seq<Connective>, sides: seq<bool>, c: Connective, x: bool, y: bool)
    requires |conns| == |sides| && Only(conns, c)
    ensures Apply(c, Fold(conns, sides, x), y) == Fold(conns, sides, Apply(c, x, y))
  {
    if conns != [] {
      FoldAssociates(conns[1..], sides[1..], c, x, y);
    }
  }

  /** What `WrittenOn` does behind the first comparison. */
  function Behind(clause: Clause, vals: seq<bool>): bool
    requires clause.parts != [] && |vals| == Size(clause)
  {
    var k := |clause.parts|;
    Fold(Conns(clause)[1..], vals[1..k], if HasInner(clause) then WrittenOn(Inner(clause), vals[k..]) else vals[k])
  }

  lemma WrittenSplits(clause: Clause, vals: seq<bool>)
    requires clause.parts != [] && |vals| == Size(clause)
    ensures WrittenOn(clause, vals) == Apply(clause.parts[0].conn, vals[0], Behind(clause, vals))
  {
    assert vals[..|clause.parts|][1..] == vals[1..|clause.parts|];
  }

  lemma FoldSplits(conns: seq<Connective>, start: bool, rest: seq<bool>, last: bool)
    requires |conns| == |rest| + 1
    ensures Fold(conns, [start] + rest, last) == Apply(conns[0], start, Fold(conns[1..], rest, last))
  {
    assert ([start] + rest)[1..] == rest;
  }

  lemma {:induction false} HarmlessOn(conns: seq<Connective>, sides: seq<bool>, clause: Clause, vals: seq<bool>)
    requires |conns| == |sides| && |vals| == Size(clause) && Harmless(conns, clause)
    ensures RunOn(conns, sides, clause, vals) == Fold(conns, sides, WrittenOn(clause, vals))
    decreases clause
  {
    var k := |clause.parts|;
    if k > 0 {
      var start := Fold(conns, sides, vals[0]);
      InnerHarmlessOn(conns, sides, clause, vals);
      WrittenSplits(clause, vals);
      FoldAssociates(conns, sides, clause.parts[0].conn, vals[0], Behind(clause, vals));
    }
  }

  /** With a harmless sub-clause, or none, only the first comparison is out of place. */
  lemma {:induction false} InnerHarmlessOn(conns: seq<Connective>, sides: seq<bool>, clause: Clause, vals: seq<bool>)
    requires |conns| == |sides| && |vals| == Size(clause) && clause.parts != []
    requires HasInner(clause) ==> Harmless(Conns(clause), Inner(clause))
    ensures RunOn(conns, sides, clause, vals) == Apply(clause.parts[0].conn, Fold(conns, sides, vals[0]), Behind(clause, vals))
    decreases clause, 0
  {
    var k, start := |clause.parts|, Fold(conns, sides, vals[0]);
    if HasInner(clause) {
      HarmlessOn(Conns(clause), [start] + vals[1..k], Inner(clause), vals[k..]);
      FoldSplits(Conns(clause), start, vals[1..k], WrittenOn(Inner(clause), vals[k..]));
    } else {
      FoldSplits(Conns(clause), start, vals[1..k], vals[k]);
    }
  }

  // ----- Harmful ones -----

  /** The value that leaves the other side as it is. */
  function Neutral(c: Connective): bool
  {
    c.AndOp?
  }

  /** Sides that let a connective other than `c` decide, and `c` pass. */
  function Deciding(conns: seq<Connective>, c: Connective): (sides: seq<bool>)
    ensures |sides| == |conns|
  {
    seq(|conns|, k requires 0 <= k < |conns| => if conns[k] == c then Neutral(c) else !Neutral(conns[k]))
  }

  lemma {:induction false} DecidesOne(conns: seq<Connective>, c: Connective, x: bool)
    ensures Fold(conns, Deciding(conns, c), x) == if Only(conns, c) then x else Neutral(c)
  {
    if conns != [] {
      DecidesOne(conns[1..], c, x);
      assert Deciding(conns, c)[1..] == Deciding(conns[1..], c);
      assert Only(conns, c) <==> conns[0] == c && Only(conns[1..], c) by {
        if conns[0] == c && Only(conns[1..], c) {
          forall k | 0 <= k < |conns|
            ensures conns[k] == c
          {
            if k > 0 { assert conns[1..][k - 1] == c; }
          }
        }
      }
    }
  }

  function Neutrals(conns: seq<Connective>): (sides: seq<bool>)
    ensures |sides| == |conns|
  {
    seq(|conns|, k requires 0 <= k < |conns| => Neutral(conns[k]))
  }

  lemma {:induction false} NeutralsPass(conns: seq<Connective>, x: bool)
    ensures Fold(conns, Neutrals(conns), x) == x
  {
    if conns != [] {
      NeutralsPass(conns[1..], x);
      assert Neutrals(conns)[1..] == Neutrals(conns[1..]);
    }
  }

  function All(n: nat, x: bool): (vals: seq<bool>)
    ensures |vals| == n
  {
    seq(n, _ => x)
  }

  lemma {:induction false} FoldOfAll(conns: seq<Connective>, x: bool)
    ensures Fold(conns, All(|conns|, x), x) == x
  {
    if conns != [] {
      FoldOfAll(conns[1..], x);
      assert All(|conns|, x)[1..] == All(|conns[1..]|, x);
    }
  }

  /** Where everything has one value, so has the clause. */
  lemma {:induction false} WrittenOfAll(clause: Clause, x: bool)
    ensures WrittenOn(clause, All(Size(clause), x)) == x
    decreases clause
  {
    var k, vals := |clause.parts|, All(Size(clause), x);
    assert vals[..k] == All(k, x);
    if HasInner(clause) {
      assert vals[k..] == All(Size(Inner(clause)), x);
      WrittenOfAll(Inner(clause), x);
    }
    FoldOfAll(Conns(clause), x);
  }

  /** Values for which a clause with a harmful bracket does not run as written. */
  lemma {:induction false} HarmfulOn(conns: seq<Connective>, clause: Clause) returns (sides: seq<bool>, vals: seq<bool>)
    requires !Harmless(conns, clause)
    ensures |sides| == |conns| && |vals| == Size(clause)
    ensures RunOn(conns, sides, clause, vals) != Fold(conns, sides, WrittenOn(clause, vals))
    decreases clause
  {
    if HasInner(clause) && !Harmless(Conns(clause), Inner(clause)) {
      sides, vals := HarmfulInside(conns, clause);
    } else {
      sides, vals := HarmfulHere(conns, clause);
    }
  }

  /** The sub-clause differs already: nothing around it hides that. */
  lemma {:induction false} HarmfulInside(conns: seq<Connective>, clause: Clause) returns (sides: seq<bool>, vals: seq<bool>)
    requires HasInner(clause) && !Harmless(Conns(clause), Inner(clause))
    ensures |sides| == |conns| && |vals| == Size(clause)
    ensures RunOn(conns, sides, clause, vals) != Fold(conns, sides, WrittenOn(clause, vals))
    decreases clause, 0
  {
    var k := |clause.parts|;
    var inner, rest := HarmfulOn(Conns(clause), Inner(clause));
    sides, vals := Neutrals(conns), inner + rest;
    NeutralsPass(conns, vals[0]);
    NeutralsPass(conns, WrittenOn(clause, vals));
    assert [vals[0]] + vals[1..k] == inner && vals[..k] == inner && vals[k..] == rest;
  }

  /** A connective around differs from the first one inside. */
  lemma HarmfulHere(conns: seq<Connective>, clause: Clause) returns (sides: seq<bool>, vals: seq<bool>)
    requires clause.parts != [] && !Only(conns, clause.parts[0].conn)
    requires HasInner(clause) ==> Harmless(Conns(clause), Inner(clause))
    ensures |sides| == |conns| && |vals| == Size(clause)
    ensures RunOn(conns, sides, clause, vals) != Fold(conns, sides, WrittenOn(clause, vals))
  {
    var c, k := clause.parts[0].conn, |clause.parts|;
    sides, vals := Deciding(conns, c), All(Size(clause), !Neutral(c));
    DecidesOne(conns, c, vals[0]);
    DecidesOne(conns, c, WrittenOn(clause, vals));
    InnerHarmlessOn(conns, sides, clause, vals);
    assert vals[1..k] == All(k - 1, !Neutral(c));
    if HasInner(clause) {
      assert vals[k..] == All(Size(Inner(clause)), !Neutral(c));
      WrittenOfAll(Inner(clause), !Neutral(c));
    }
    FoldOfAll(Conns(clause)[1..], !Neutral(c));
    assert Behind(clause, vals) == !Neutral(c);
  }

  // ----- Trees and clauses have the same values -----

  function SideLeaves(frames: seq<Frame>): nat
  {
    if frames == [] then 0 else Leaves(frames[0].side) + SideLeaves(frames[1..])
  }

  /** The values of the sides of open frames. */
  function SideVals(frames: seq<Frame>, vals: seq<bool>): (sides: seq<bool>)
    requires |vals| == SideLeaves(frames)
    ensures |sides| == |frames|
  {
    if frames == [] then []
    else
      var n := Leaves(frames[0].side);
      [PredOn(frames[0].side, vals[..n])] + SideVals(frames[1..], vals[n..])
  }

  lemma ConnectOn(c: Connective, l: Pred, r: Pred, x: seq<bool>, y: seq<bool>)
    requires |x| == Leaves(l) && |y| == Leaves(r)
    ensures Leaves(Connect(c, l, r)) == |x + y| && PredOn(Connect(c, l, r), x + y) == Apply(c, PredOn(l, x), PredOn(r, y))
  {
    assert (x + y)[..|x|] == x && (x + y)[|x|..] == y;
  }

  lemma {:induction false} SpineOn(frames: seq<Frame>, p: Pred, vals: seq<bool>, rest: seq<bool>)
    requires |vals| == SideLeaves(frames) && |rest| == Leaves(p)
    ensures Leaves(Spine(frames, p)) == SideLeaves(frames) + Leaves(p)
    ensures PredOn(Spine(frames, p), vals + rest) == Fold(FrameConns(frames), SideVals(frames, vals), PredOn(p, rest))
  {
    hide Leaves, PredOn, Apply;
    if frames == [] {
      assert vals + rest == rest;
    } else {
      var f, n := frames[0], Leaves(frames[0].side);
      SpineOn(frames[1..], p, vals[n..], rest);
      ConnectOn(f.conn, f.side, Spine(frames[1..], p), vals[..n], vals[n..] + rest);
      assert vals[..n] + (vals[n..] + rest) == vals + rest;
      assert FrameConns(frames)[1..] == FrameConns(frames[1..]);
    }
  }

  /** Sides that are comparisons have their own values. */
  lemma {:induction false} PlainSides(frames: seq<Frame>, vals: seq<bool>)
    requires |vals| == |frames| && forall k :: 0 <= k < |frames| ==> frames[k].side.Compare?
    ensures SideLeaves(frames) == |frames| && SideVals(frames, vals) == vals
  {
    if frames != [] {
      PlainSides(frames[1..], vals[1..]);
      assert vals[..1] == [vals[0]];
    }
  }

  /** The frames that a clause opens. */
  lemma OpenedSides(start: Pred, clause: Clause, t: Table, before: seq<bool>, vals: seq<bool>)
    requires GroupLast(clause) && clause.parts != [] && |before| == Leaves(start) && |vals| == |clause.parts| - 1
    ensures var init, part := clause.parts[..|clause.parts| - 1], clause.parts[|clause.parts| - 1];
            && Plains(init)
            && var open := Opened(start, init, part.conn, t);
               && FrameConns(open) == Conns(clause) && SideLeaves(open) == |before + vals|
               && SideVals(open, before + vals) == [PredOn(start, before)] + vals
  {
    OpenedConns(start, clause, t);
    var init, part := clause.parts[..|clause.parts| - 1], clause.parts[|clause.parts| - 1];
    OpenedIs(start, init, part.conn, t);
    var open := Opened(start, init, part.conn, t);
    forall k | 0 <= k < |open[1..]|
      ensures open[1..][k].side.Compare?
    {
      assert open[k + 1].side == CompareTree(init[k].arm.c, t);
    }
    hide Opened, ViewOf, SimpleComparison;
    PlainSides(open[1..], vals);
    assert (before + vals)[..|before|] == before && (before + vals)[|before|..] == vals;
  }

  lemma {:induction false} RunsOn(frames: seq<Frame>, clause: Clause, t: Table, before: seq<bool>, vals: seq<bool>)
    requires GroupLast(clause) && |before| == SideLeaves(frames) && |vals| == Size(clause)
    ensures Leaves(RunsAs(frames, clause, t)) == |before + vals|
    ensures PredOn(RunsAs(frames, clause, t), before + vals)
         == RunOn(FrameConns(frames), SideVals(frames, before), clause, vals)
    decreases clause
  {
    hide SimpleComparison, SideVals, SideLeaves, Fold, Opened, Spine;
    var k, first := |clause.parts|, CompareTree(clause.first, t);
    var start := Spine(frames, first);
    SpineOn(frames, first, before, vals[..1]);
    assert vals[..1] == [vals[0]];
    if k == 0 {
      assert vals == vals[..1];
    } else {
      InitPlain(clause);
      var init, part := clause.parts[..k - 1], clause.parts[k - 1];
      var open := Opened(start, init, part.conn, t);
      var sides := before + vals[..1] + vals[1..k];
      OpenedSides(start, clause, t, before + vals[..1], vals[1..k]);
      assert sides + vals[k..] == before + vals;
      if part.arm.Nested? {
        RunsOn(open, part.arm.clause, t, sides, vals[k..]);
      } else {
        assert vals[k..] == [vals[k]];
        SpineOn(open, CompareTree(part.arm.c, t), sides, vals[k..]);
      }
    }
  }

  lemma {:induction false} WritesOn(clause: Clause, t: Table, vals: seq<bool>)
    requires GroupLast(clause) && |vals| == Size(clause)
    ensures Leaves(Written(clause, t)) == |vals| && PredOn(Written(clause, t), vals) == WrittenOn(clause, vals)
    decreases clause
  {
    hide SimpleComparison, SideVals, SideLeaves, Fold, Opened, Spine;
    var k, first := |clause.parts|, CompareTree(clause.first, t);
    if k > 0 {
      InitPlain(clause);
      var init, part := clause.parts[..k - 1], clause.parts[k - 1];
      WrittenInFrames(first, clause.parts, t);
      OpenedSides(first, clause, t, vals[..1], vals[1..k]);
      assert vals[..1] + vals[1..k] == vals[..k] && [vals[0]] + vals[1..k] == vals[..k] && vals[..k] + vals[k..] == vals;
      if part.arm.Nested? {
        WritesOn(part.arm.clause, t, vals[k..]);
      } else {
        assert vals[k..] == [vals[k]];
      }
      SpineOn(Opened(first, init, part.conn, t), PartTree(part, true, t), vals[..k], vals[k..]);
    } else {
      WrittenAlone(clause, t, vals);
    }
  }

  lemma WrittenAlone(clause: Clause, t: Table, vals: seq<bool>)
    requires GroupLast(clause) && clause.parts == [] && |vals| == Size(clause)
    ensures Written(clause, t) == CompareTree(clause.first, t) && WrittenOn(clause, vals) == vals[0]
  {
  }

  // ----- The exact condition -----

  lemma NothingAround(frames: seq<Frame>)
    requires frames == []
    ensures FrameConns(frames) == [] && SideLeaves(frames) == 0 && SideVals(frames, []) == []
  {
  }

  /** A clause runs as written for all values of its comparisons if and only if its
      brackets are harmless. */
  lemma RunsAsWrittenIff(clause: Clause, t: Table)
    requires GroupLast(clause)
    ensures SameTruth(RunsAs([], clause, t), Written(clause, t)) <==> Harmless([], clause)
  {
    hide RunsAs, Written, PredOn, Leaves, RunOn, WrittenOn, Harmless, GroupLast;
    NothingAround([]);
    var p, q := RunsAs([], clause, t), Written(clause, t);
    forall vals: seq<bool> | |vals| == Size(clause)
      ensures Leaves(p) == Leaves(q) == |vals|
      ensures PredOn(p, vals) == RunOn([], [], clause, vals) && PredOn(q, vals) == WrittenOn(clause, vals)
    {
      RunsOn([], clause, t, [], vals);
      assert [] + vals == vals;
      WritesOn(clause, t, vals);
    }
    assert |All(Size(clause), true)| == Size(clause);
    if Harmless([], clause) {
      forall vals: seq<bool> | |vals| == Leaves(p)
        ensures PredOn(p, vals) == PredOn(q, vals)
      {
        HarmlessOn([], [], clause, vals);
      }
    } else {
      var sides, vals := HarmfulOn([], clause);
      assert PredOn(p, vals) != PredOn(q, vals);
    }
  }

  /** For example `a c1 (b c2 d)` does if and only if the connectives are the same. */
  lemma TripleIff(clause: Clause, a: Comparison, c1: Connective, b: Comparison, c2: Connective, d: Comparison, t: Table)
    requires IsTriple(clause, a, c1, b, c2, d) && SimpleComparison(a) && SimpleComparison(b) && SimpleComparison(d)
    ensures GroupLast(clause) && (SameTruth(RunsAs([], clause, t), Written(clause, t)) <==> c1 == c2)
  {
    BracketsRegroup(clause, a, c1, b, c2, d, t);
    RunsAsWrittenIff(clause, t);
    var inner := Inner(clause);
    assert !HasInner(inner);
    assert Conns(clause) == [c1];
    hide RunsAs, Written, SameTruth, GroupLast;
    assert Harmless([], clause) <==> Harmless([c1], inner);
    assert inner.parts[0].conn == c2;
    if Harmless([c1], inner) { assert [c1][0] == c2; }
  }

  // ----- Truth values of a row -----

  predicate Evaluates(p: Pred, vars: Variables)
  {
    match p
    case Compare(_, _, _) => DenotePred(p, vars).Value?
    case Connect(_, l, r) => Evaluates(l, vars) && Evaluates(r, vars)
    case Not(a) => Evaluates(a, vars)
  }

  /** The values that the comparisons have on a row. */
  function Truths(p: Pred, vars: Variables): (vals: seq<bool>)
    requires Evaluates(p, vars)
    ensures |vals| == Leaves(p)
  {
    match p
    case Compare(_, _, _) => [DenotePred(p, vars).v]
    case Connect(_, l, r) => Truths(l, vars) + Truths(r, vars)
    case Not(a) => Truths(a, vars)
  }

  /** Execution on a row is one such valuation. */
  lemma {:induction false} DenotesOn(p: Pred, vars: Variables)
    requires Evaluates(p, vars)
    ensures DenotePred(p, vars) == Value(PredOn(p, Truths(p, vars)))
  {
    match p {
      case Compare(_, _, _) =>
      case Connect(_, l, r) =>
        DenotesOn(l, vars);
        DenotesOn(r, vars);
        var x, y := Truths(l, vars), Truths(r, vars);
        assert (x + y)[..|x|] == x && (x + y)[|x|..] == y;
      case Not(a) =>
        DenotesOn(a, vars);
    }
  }
}
