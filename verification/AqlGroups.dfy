/** WHERE clauses with bracketed sub-clauses. The parser reads a sub-clause with a call
    of itself, and that call inserts its first connective in front of all the code there
    is, so that brackets do not group what they enclose.
 */
module AqlGroups {
  import opened Machine
  import opened LvmCode
  import opened LvmEval
  import opened LvmInstance
  import opened AqlSyntax

  datatype Clause = Clause(first: Comparison, parts: seq<Part>)
  datatype Part = Part(conn: Connective, arm: Arm)
  datatype Arm = One(c: Comparison) | Nested(clause: Clause)

  // ----- Reading tokens -----

  /** How a call of `parse_where` ends: with OK, with the 0 of a failed comparison, with a
      syntax error; or it has gone on after a call for a sub-clause that returned 0, with
      whatever that call had emitted. */
  datatype Reading<+T> = Got(value: T, pos: nat) | Zero | Refused | Astray

  function CodeOfReading<T>(r: Reading<T>): ReturnCode
  {
    match r case Got(_, _) => CodeOk case Zero => CodeZero case Refused => CodeSyntaxError case Astray => CodeUnknown
  }

  function ReadClause(ts: seq<Token>, pos: nat): (r: Reading<Clause>)
    ensures r.Got? ==> pos < r.pos <= |ts|
    decreases |ts| - pos, 2
  {
    match ReadComparison(ts, pos)
    case Bad => Refused
    case Done(c, p) => Begun(c, ReadParts(ts, p))
  }

  function Begun(c: Comparison, r: Reading<seq<Part>>): Reading<Clause>
  {
    match r
    case Got(parts, p) => Got(Clause(c, parts), p)
    case Zero => Zero
    case Refused => Refused
    case Astray => Astray
  }

  function ReadParts(ts: seq<Token>, pos: nat): (r: Reading<seq<Part>>)
    requires pos <= |ts|
    ensures r.Got? ==> pos <= r.pos <= |ts|
    decreases |ts| - pos, 1
  {
    if !At(ts, pos).ConnTok? then Got([], pos) else
    match ReadArm(ts, pos + 1)
    case Got(arm, p) => Prefixed([Part(ts[pos].conn, arm)], ReadParts(ts, p))
    case Zero => Zero
    case Refused => Refused
    case Astray => Astray
  }

  function Prefixed(parts: seq<Part>, r: Reading<seq<Part>>): Reading<seq<Part>>
  {
    if r.Got? then Got(parts + r.value, r.pos) else r
  }

  /** What follows a connective. */
  function ReadArm(ts: seq<Token>, pos: nat): (r: Reading<Arm>)
    ensures r.Got? ==> pos < r.pos <= |ts|
    decreases |ts| - pos, 3
  {
    if At(ts, pos) == LeftParen then
      match ReadClause(ts, pos + 1)
      case Got(clause, p) => if At(ts, p) == RightParen then Got(Nested(clause), p + 1) else Refused
      case Refused => Refused
      case _ => Astray
    else
      match ReadComparison(ts, pos)
      case Bad => Zero
      case Done(c, p) => Got(One(c), p)
  }

  // ----- Emitted code -----

  /** The code, and where the next connective goes. */
  datatype Emitted = Emitted(code: seq<Byte>, saved: nat)

  /** `node` put in front of what is at `at`. */
  function Insert(code: seq<Byte>, at: nat, node: seq<Byte>): (r: seq<Byte>)
    requires at <= |code|
    ensures |r| == |code| + |node|
  {
    code[..at] + node + code[at..]
  }

  function EmitClause(code: seq<Byte>, clause: Clause, t: Table): (r: seq<Byte>)
    ensures |r| >= |code| + OP_NODE
    decreases clause, 1
  {
    EmitParts(code + ComparisonCode(clause.first, t), clause.parts, t).code
  }

  /** Connectives and arms behind the first comparison, which ends `code`. The first
      connective goes to the very front, every later one in front of the arm before it, or
      where that arm began before a sub-clause shifted the code. */
  function EmitParts(code: seq<Byte>, parts: seq<Part>, t: Table): (e: Emitted)
    ensures |e.code| >= |code| && e.saved <= |e.code|
    decreases parts, 0
  {
    if parts == [] then Emitted(code, 0)
    else
      var last := |parts| - 1;
      EmitPart(EmitParts(code, parts[..last], t), parts[last], t)
  }

  function EmitPart(e: Emitted, part: Part, t: Table): (r: Emitted)
    requires e.saved <= |e.code|
    ensures |r.code| >= |e.code| && r.saved <= |r.code|
    decreases part, 2
  {
    var code := Insert(e.code, e.saved, OpNode(CMP_OP, ConnCode(part.conn)));
    match part.arm
    case One(c) => Emitted(code + ComparisonCode(c, t), |code|)
    case Nested(clause) => Emitted(EmitClause(code, clause, t), |code|)
  }

  // ----- Names -----

  predicate ClauseIn(clause: Clause, t: Table)
    decreases clause, 1
  {
    ComparisonIn(clause.first, t) && PartsIn(clause.parts, t)
  }

  predicate PartsIn(parts: seq<Part>, t: Table)
    decreases parts, 0
  {
    forall p <- parts :: PartIn(p, t)
  }

  predicate PartIn(part: Part, t: Table)
    decreases part, 2
  {
    match part.arm case One(c) => ComparisonIn(c, t) case Nested(clause) => ClauseIn(clause, t)
  }

  lemma {:induction false} ClauseStable(clause: Clause, t: Table, u: Table, code: seq<Byte>)
    requires t <= u && ClauseIn(clause, t)
    ensures ClauseIn(clause, u) && EmitClause(code, clause, u) == EmitClause(code, clause, t)
    decreases clause, 1
  {
    ComparisonStable(clause.first, t, u);
    hide ComparisonCode, ComparisonIn;
    PartsStable(clause.parts, t, u, code + ComparisonCode(clause.first, t));
  }

  lemma {:induction false} PartsStable(parts: seq<Part>, t: Table, u: Table, code: seq<Byte>)
    requires t <= u && PartsIn(parts, t)
    ensures PartsIn(parts, u) && EmitParts(code, parts, u) == EmitParts(code, parts, t)
    decreases parts, 0
  {
    if parts != [] {
      var last := |parts| - 1;
      var init := parts[..last];
      assert parts == init + [parts[last]];
      assert parts[last] in parts;
      assert PartsIn(init, t);
      PartsStable(init, t, u, code);
      PartStable(EmitParts(code, init, t), parts[last], t, u);
    }
  }

  lemma {:induction false} PartStable(e: Emitted, part: Part, t: Table, u: Table)
    requires t <= u && PartIn(part, t) && e.saved <= |e.code|
    ensures PartIn(part, u) && EmitPart(e, part, u) == EmitPart(e, part, t)
    decreases part, 2
  {
    match part.arm {
      case One(c) => ComparisonStable(c, t, u);
      case Nested(clause) => ClauseStable(clause, t, u, Insert(e.code, e.saved, OpNode(CMP_OP, ConnCode(part.conn))));
    }
  }

  lemma EmitPartsSnoc(code: seq<Byte>, parts: seq<Part>, part: Part, t: Table)
    ensures EmitParts(code, parts + [part], t) == EmitPart(EmitParts(code, parts, t), part, t)
  {
    assert (parts + [part])[..|parts|] == parts;
  }

  /** The parts from a connective on, after those read before. */
  lemma PartsContinue(ts: seq<Token>, pos: nat, done: seq<Part>)
    requires pos <= |ts|
    ensures !At(ts, pos).ConnTok? ==> Prefixed(done, ReadParts(ts, pos)) == Got(done, pos)
    ensures At(ts, pos).ConnTok? ==>
              var arm := ReadArm(ts, pos + 1);
              && (arm.Got? ==> Prefixed(done, ReadParts(ts, pos)) == Prefixed(done + [Part(ts[pos].conn, arm.value)], ReadParts(ts, arm.pos)))
              && (!arm.Got? ==> CodeOfReading(Prefixed(done, ReadParts(ts, pos))) == CodeOfReading(arm))
              && (!arm.Got? ==> !Prefixed(done, ReadParts(ts, pos)).Got?)
  {
    hide ReadArm;
    if At(ts, pos).ConnTok? {
      var arm := ReadArm(ts, pos + 1);
      if arm.Got? {
        PrefixedTwice(done, [Part(ts[pos].conn, arm.value)], ReadParts(ts, arm.pos));
      }
    } else {
      assert done + [] == done;
    }
  }

  lemma PrefixedNone(r: Reading<seq<Part>>)
    ensures Prefixed([], r) == r
  {
    if r.Got? {
      assert [] + r.value == r.value;
    }
  }

  lemma CodeOfBegun(c: Comparison, r: Reading<seq<Part>>)
    ensures CodeOfReading(Begun(c, r)) == CodeOfReading(r) && (Begun(c, r).Got? <==> r.Got?)
  {
  }

  lemma PrefixedTwice(a: seq<Part>, b: seq<Part>, r: Reading<seq<Part>>)
    ensures Prefixed(a, Prefixed(b, r)) == Prefixed(a + b, r)
  {
    if r.Got? {
      assert a + (b + r.value) == (a + b) + r.value;
    }
  }

  // ----- Clauses without sub-clauses -----

  function Flat(w: Where): Clause
  {
    match w
    case Last(c) => Clause(c, [])
    case Joined(c, conn, more) => Clause(c, [Part(conn, One(Flat(more).first))] + Flat(more).parts)
  }

  /** No connective is followed by a bracket. */
  predicate NoGroups(ts: seq<Token>)
  {
    forall i :: 0 <= i < |ts| && ts[i].ConnTok? ==> At(ts, i + 1) != LeftParen
  }

  ghost predicate Same(r: Reading<Clause>, w: WhereResult)
  {
    match w
    case Parsed(v, p) => r == Got(Flat(v), p)
    case Swallowed => r == Zero
    case SyntaxError => r == Refused
  }

  lemma {:induction false} FlatMore(c: Comparison, ts: seq<Token>, pos: nat)
    requires NoGroups(ts) && pos <= |ts|
    ensures Same(Begun(c, ReadParts(ts, pos)), ReadMore(c, ts, pos))
    decreases |ts| - pos
  {
    hide ReadComparison;
    if At(ts, pos).ConnTok? {
      var r := ReadComparison(ts, pos + 1);
      if r.Done? {
        FlatMore(r.value, ts, r.pos);
      }
    }
  }

  /** Without sub-clauses the grammar is that of `ReadWhere`. */
  lemma FlatRead(ts: seq<Token>, pos: nat)
    requires NoGroups(ts)
    ensures Same(ReadClause(ts, pos), ReadWhere(ts, pos))
  {
    hide ReadComparison, ReadParts, ReadMore;
    var r := ReadComparison(ts, pos);
    if r.Done? {
      FlatMore(r.value, ts, r.pos);
    }
  }

  /** The comparison that ends the code behind plain arms. */
  function LastOf(c: Comparison, parts: seq<Part>): Comparison
    requires forall k :: 0 <= k < |parts| ==> parts[k].arm.One?
  {
    if parts == [] then c else parts[|parts| - 1].arm.c
  }

  /** The code in front of it. */
  function Ahead(c: Comparison, parts: seq<Part>, t: Table): seq<Byte>
    requires forall k :: 0 <= k < |parts| ==> parts[k].arm.One?
  {
    if parts == [] then []
    else
      var init := parts[..|parts| - 1];
      Ahead(c, init, t) + OpNode(CMP_OP, ConnCode(parts[|parts| - 1].conn)) + ComparisonCode(LastOf(c, init), t)
  }

  lemma {:induction false} EmitsAhead(c: Comparison, parts: seq<Part>, t: Table)
    requires forall k :: 0 <= k < |parts| ==> parts[k].arm.One?
    ensures var ahead := Ahead(c, parts, t);
            EmitParts(ComparisonCode(c, t), parts, t) == Emitted(ahead + ComparisonCode(LastOf(c, parts), t), |ahead|)
    decreases |parts|
  {
    hide ComparisonCode, OpNode;
    if parts == [] {
      assert [] + ComparisonCode(c, t) == ComparisonCode(c, t);
    } else {
      var init := parts[..|parts| - 1];
      EmitsAhead(c, init, t);
      var a, b := Ahead(c, init, t), ComparisonCode(LastOf(c, init), t);
      assert (a + b)[..|a|] == a && (a + b)[|a|..] == b;
    }
  }

  lemma {:induction false} AheadCons(c: Comparison, part: Part, more: seq<Part>, t: Table)
    requires part.arm.One? && forall k :: 0 <= k < |more| ==> more[k].arm.One?
    ensures forall k :: 0 <= k < |[part] + more| ==> ([part] + more)[k].arm.One?
    ensures Ahead(c, [part] + more, t) ==
            (OpNode(CMP_OP, ConnCode(part.conn)) + ComparisonCode(c, t)) + Ahead(part.arm.c, more, t)
    ensures LastOf(c, [part] + more) == LastOf(part.arm.c, more)
    decreases |more|
  {
    hide ComparisonCode, OpNode;
    var node, parts := OpNode(CMP_OP, ConnCode(part.conn)), [part] + more;
    if more == [] {
      assert parts == [part] && parts[..0] == [];
      assert [] + node + ComparisonCode(c, t) == (node + ComparisonCode(c, t)) + [];
    } else {
      var init := more[..|more| - 1];
      assert parts[..|parts| - 1] == [part] + init;
      AheadCons(c, part, init, t);
      var a, b, d := node + ComparisonCode(c, t), Ahead(part.arm.c, init, t), ComparisonCode(LastOf(part.arm.c, init), t);
      var n := OpNode(CMP_OP, ConnCode(more[|more| - 1].conn));
      assert (a + b) + n + d == a + (b + n + d);
    }
  }

  lemma {:induction false} FlatCode(w: Where, t: Table)
    ensures var f := Flat(w);
            && f.first == w.c && (forall k :: 0 <= k < |f.parts| ==> f.parts[k].arm.One?)
            && WhereCode(w, t) == Ahead(w.c, f.parts, t) + ComparisonCode(LastOf(w.c, f.parts), t)
  {
    hide ComparisonCode, OpNode;
    match w {
      case Last(c) =>
        assert [] + ComparisonCode(c, t) == ComparisonCode(c, t);
      case Joined(c, conn, more) =>
        FlatCode(more, t);
        var f := Flat(more);
        AheadCons(c, Part(conn, One(f.first)), f.parts, t);
        var a, b, d := OpNode(CMP_OP, ConnCode(conn)) + ComparisonCode(c, t), Ahead(f.first, f.parts, t), ComparisonCode(LastOf(f.first, f.parts), t);
        assert (a + b) + d == a + (b + d);
    }
  }

  /** And the code is that of `WhereCode`. */
  lemma FlatEmits(w: Where, t: Table)
    ensures EmitClause([], Flat(w), t) == WhereCode(w, t)
  {
    FlatCode(w, t);
    EmitsAhead(w.c, Flat(w).parts, t);
    assert [] + ComparisonCode(w.c, t) == ComparisonCode(w.c, t);
  }

  lemma {:induction false} FlatIn(w: Where, t: Table)
    ensures Flat(w).first == w.c && (ClauseIn(Flat(w), t) <==> WhereIn(w, t))
  {
    hide ComparisonIn;
    match w {
      case Last(c) =>
      case Joined(c, conn, more) =>
        FlatIn(more, t);
        var f, part := Flat(more), Part(conn, One(Flat(more).first));
        assert PartIn(part, t) <==> ComparisonIn(more.c, t);
        PartsInCons(part, f.parts, t);
    }
  }

  lemma PartsInCons(part: Part, parts: seq<Part>, t: Table)
    ensures PartsIn([part] + parts, t) <==> PartIn(part, t) && PartsIn(parts, t)
  {
    assert part in [part] + parts;
    assert forall p :: p in [part] + parts <==> p == part || p in parts;
  }

  lemma PartsInSnoc(parts: seq<Part>, part: Part, t: Table)
    ensures PartsIn(parts + [part], t) <==> PartIn(part, t) && PartsIn(parts, t)
  {
    assert part in parts + [part];
    assert forall p :: p in parts + [part] <==> p == part || p in parts;
  }

  // ----- Brackets have to be closed twice -----

  /** What was read up to `p` took in a closing bracket at its end, or there is none. */
  predicate TakesBracket(ts: seq<Token>, p: nat)
  {
    At(ts, p) == RightParen ==> p > 0 && ts[p - 1] == RightParen
  }

  lemma {:induction false} LinksTakeBracket(ts: seq<Token>, pos: nat)
    requires pos <= |ts|
    ensures var r := ReadLinks(ts, pos); r.Done? ==> TakesBracket(ts, r.pos)
    decreases |ts| - pos
  {
    hide ReadItem;
    if At(ts, pos).ArithTok? {
      var i := ReadItem(ts, pos + 1);
      if i.Done? {
        LinksTakeBracket(ts, i.pos);
      }
    }
  }

  lemma ComparisonTakesBracket(ts: seq<Token>, pos: nat)
    ensures var r := ReadComparison(ts, pos); r.Done? ==> TakesBracket(ts, r.pos)
  {
    hide ReadHead, ReadLinks, TakesBracket;
    var l := ReadChain(ts, pos);
    if l.Done? && At(ts, l.pos).CmpTok? {
      var h := ReadHead(ts, l.pos + 1);
      if h.Done? {
        LinksTakeBracket(ts, h.pos);
      }
    }
  }

  lemma {:induction false} PartsTakeBracket(ts: seq<Token>, pos: nat)
    requires pos <= |ts| && TakesBracket(ts, pos)
    ensures var r := ReadParts(ts, pos); r.Got? ==> TakesBracket(ts, r.pos)
    decreases |ts| - pos
  {
    hide ReadComparison, ReadClause;
    if At(ts, pos).ConnTok? {
      var arm := ReadArm(ts, pos + 1);
      if arm.Got? {
        ComparisonTakesBracket(ts, pos + 1);
        PartsTakeBracket(ts, arm.pos);
      }
    }
  }

  /** The expression that ends a sub-clause takes a closing bracket for its own, so the
      sub-clause itself is closed by a second one and is refused with just one. */
  lemma SubClauseClosedTwice(ts: seq<Token>, pos: nat)
    ensures var r := ReadArm(ts, pos);
            r.Got? && r.value.Nested? ==> r.pos >= 2 && ts[r.pos - 1] == RightParen && ts[r.pos - 2] == RightParen
  {
    hide ReadComparison, ReadParts;
    if At(ts, pos) == LeftParen {
      var c := ReadComparison(ts, pos + 1);
      if c.Done? {
        ComparisonTakesBracket(ts, pos + 1);
        PartsTakeBracket(ts, c.pos);
      }
    }
  }

  // ----- What a clause runs as -----

  /** A connective with its left side, waiting for the right one. */
  datatype Frame = Frame(conn: Connective, side: Pred)

  function Spine(frames: seq<Frame>, p: Pred): Pred
  {
    if frames == [] then p else Connect(frames[0].conn, frames[0].side, Spine(frames[1..], p))
  }

  function SpineCode(frames: seq<Frame>): seq<Byte>
  {
    if frames == [] then [] else FrameCode(frames[0]) + SpineCode(frames[1..])
  }

  function FrameCode(f: Frame): seq<Byte>
  {
    OpNode(CMP_OP, ConnCode(f.conn)) + PredCode(f.side)
  }

  lemma ConnectCode(conn: Connective, p: Pred, q: Pred)
    ensures PredCode(Connect(conn, p, q)) == FrameCode(Frame(conn, p)) + PredCode(q)
  {
    hide OpNode;
    var n, a, b := OpNode(CMP_OP, ConnCode(conn)), PredCode(p), PredCode(q);
    assert n + (a + b) == (n + a) + b;
  }

  lemma {:induction false} SpineIsCode(frames: seq<Frame>, p: Pred)
    ensures SpineCode(frames) + PredCode(p) == PredCode(Spine(frames, p))
  {
    hide PredCode, FrameCode;
    if frames == [] {
      assert SpineCode(frames) + PredCode(p) == PredCode(p);
    } else {
      SpineIsCode(frames[1..], p);
      ConnectCode(frames[0].conn, frames[0].side, Spine(frames[1..], p));
      var f, m := FrameCode(frames[0]), SpineCode(frames[1..]);
      assert f + m + PredCode(p) == f + (m + PredCode(p));
    }
  }

  lemma {:induction false} SpineSnoc(frames: seq<Frame>, f: Frame, p: Pred)
    ensures SpineCode(frames + [f]) == SpineCode(frames) + FrameCode(f)
    ensures Spine(frames + [f], p) == Spine(frames, Connect(f.conn, f.side, p))
  {
    hide FrameCode;
    if frames == [] {
      assert frames + [f] == [f] && [f][1..] == [];
    } else {
      assert (frames + [f])[1..] == frames[1..] + [f];
      SpineSnoc(frames[1..], f, p);
      assert FrameCode(frames[0]) + (SpineCode(frames[1..]) + FrameCode(f)) ==
             (FrameCode(frames[0]) + SpineCode(frames[1..])) + FrameCode(f);
    }
  }

  predicate SimpleComparison(c: Comparison)
  {
    Simple(c.lhs) && Simple(c.rhs)
  }

  /** Comparisons with simple sides, and no sub-clause but as the last arm. */
  predicate GroupLast(clause: Clause)
    decreases clause, 1
  {
    && SimpleComparison(clause.first)
    && forall k :: 0 <= k < |clause.parts| ==> ArmFits(clause.parts[k].arm, k + 1 == |clause.parts|)
  }

  predicate ArmFits(arm: Arm, last: bool)
    decreases arm, 2
  {
    match arm case One(c) => SimpleComparison(c) case Nested(clause) => last && GroupLast(clause)
  }

  function CompareTree(c: Comparison, t: Table): Pred
    requires SimpleComparison(c)
  {
    Compare(c.rel, ChainTree(c.lhs, t), ChainTree(c.rhs, t))
  }

  predicate Plains(parts: seq<Part>)
  {
    forall k :: 0 <= k < |parts| ==> parts[k].arm.One? && SimpleComparison(parts[k].arm.c)
  }

  /** The code after some arms: frames, then the tree that ends it. */
  datatype View = View(frames: seq<Frame>, last: Pred)

  function ViewOf(start: Pred, parts: seq<Part>, t: Table): View
    requires Plains(parts)
    decreases |parts|, 0
  {
    if parts == [] then View([], start)
    else
      var part := parts[|parts| - 1];
      View(Opened(start, parts[..|parts| - 1], part.conn, t), CompareTree(part.arm.c, t))
  }

  /** The frames once `conn` has been inserted behind `parts`. */
  function Opened(start: Pred, parts: seq<Part>, conn: Connective, t: Table): seq<Frame>
    requires Plains(parts)
    decreases |parts|, 1
  {
    var v := ViewOf(start, parts, t);
    v.frames + [Frame(conn, v.last)]
  }

  lemma InitPlain(clause: Clause)
    requires GroupLast(clause) && clause.parts != []
    ensures Plains(clause.parts[..|clause.parts| - 1]) && ArmFits(clause.parts[|clause.parts| - 1].arm, true)
  {
    forall k | 0 <= k < |clause.parts| - 1
      ensures ArmFits(clause.parts[k].arm, false)
    {
    }
  }

  /** What the code runs as that the parser leaves for the clause behind the open frames
      `frames`. */
  function RunsAs(frames: seq<Frame>, clause: Clause, t: Table): Pred
    requires GroupLast(clause)
    decreases clause
  {
    var start := Spine(frames, CompareTree(clause.first, t));
    var parts := clause.parts;
    if parts == [] then start
    else
      var init, part := parts[..|parts| - 1], parts[|parts| - 1];
      InitPlain(clause);
      var open := Opened(start, init, part.conn, t);
      match part.arm
      case One(c) => Spine(open, CompareTree(c, t))
      case Nested(inner) => RunsAs(open, inner, t)
  }

  lemma ComparisonIsCode(c: Comparison, t: Table)
    requires SimpleComparison(c)
    ensures ComparisonCode(c, t) == PredCode(CompareTree(c, t))
  {
    WhereCodeIsPrefixCode(Last(c), t);
  }

  /** A connective put in front of the tree that ends the code opens a frame. */
  lemma OpensFrame(frames: seq<Frame>, last: Pred, conn: Connective)
    ensures |SpineCode(frames)| <= |SpineCode(frames) + PredCode(last)|
    ensures Insert(SpineCode(frames) + PredCode(last), |SpineCode(frames)|, OpNode(CMP_OP, ConnCode(conn)))
         == SpineCode(frames + [Frame(conn, last)])
  {
    hide OpNode, SpineCode, PredCode;
    SpineSnoc(frames, Frame(conn, last), last);
    var a, b, n := SpineCode(frames), PredCode(last), OpNode(CMP_OP, ConnCode(conn));
    assert (a + b)[..|a|] == a && (a + b)[|a|..] == b;
    assert a + n + b == a + (n + b);
  }

  lemma {:induction false} EmitsView(start: Pred, parts: seq<Part>, t: Table)
    requires Plains(parts)
    ensures var v := ViewOf(start, parts, t);
            EmitParts(PredCode(start), parts, t) == Emitted(SpineCode(v.frames) + PredCode(v.last), |SpineCode(v.frames)|)
    decreases |parts|
  {
    hide PredCode, OpNode, ComparisonCode, CompareTree;
    if parts == [] {
      assert SpineCode([]) + PredCode(start) == PredCode(start);
    } else {
      var init, part := parts[..|parts| - 1], parts[|parts| - 1];
      EmitsView(start, init, t);
      var v := ViewOf(start, init, t);
      OpensFrame(v.frames, v.last, part.conn);
      ComparisonIsCode(part.arm.c, t);
      hide SpineCode;
    }
  }

  /** The bytes left for a clause are the code of what it runs as. */
  lemma {:induction false} EmitsRunsAs(frames: seq<Frame>, clause: Clause, t: Table)
    requires GroupLast(clause)
    ensures EmitClause(SpineCode(frames), clause, t) == PredCode(RunsAs(frames, clause, t))
    decreases clause
  {
    hide PredCode, OpNode, ComparisonCode, CompareTree, SpineCode, Insert;
    var first, parts := CompareTree(clause.first, t), clause.parts;
    var start := Spine(frames, first);
    ComparisonIsCode(clause.first, t);
    SpineIsCode(frames, first);
    if parts != [] {
      InitPlain(clause);
      var init, part := parts[..|parts| - 1], parts[|parts| - 1];
      EmitsView(start, init, t);
      var v, open := ViewOf(start, init, t), Opened(start, init, part.conn, t);
      OpensFrame(v.frames, v.last, part.conn);
      var e := EmitParts(PredCode(start), init, t);
      assert Insert(e.code, e.saved, OpNode(CMP_OP, ConnCode(part.conn))) == SpineCode(open);
      assert parts == init + [part];
      EmitPartsSnoc(PredCode(start), init, part, t);
      assert EmitClause(SpineCode(frames), clause, t) == EmitPart(e, part, t).code;
      match part.arm {
        case One(c) =>
          ComparisonIsCode(c, t);
          SpineIsCode(open, CompareTree(c, t));
        case Nested(inner) =>
          EmitsRunsAs(open, inner, t);
      }
    }
  }

  // ----- What it says as written -----

  /** Connectives group to the right, and brackets what they enclose. */
  function Written(clause: Clause, t: Table): Pred
    requires GroupLast(clause)
    decreases clause, 1
  {
    WrittenParts(CompareTree(clause.first, t), clause.parts, t)
  }

  function WrittenParts(p: Pred, parts: seq<Part>, t: Table): Pred
    requires Fitting(parts)
    decreases parts, 0
  {
    if parts == [] then p
    else
      assert forall k :: 0 <= k < |parts[1..]| ==> parts[1..][k] == parts[k + 1];
      Connect(parts[0].conn, p, WrittenParts(PartTree(parts[0], |parts| == 1, t), parts[1..], t))
  }

  function PartTree(part: Part, last: bool, t: Table): Pred
    requires ArmFits(part.arm, last)
    decreases part, 2
  {
    match part.arm case One(c) => CompareTree(c, t) case Nested(clause) => Written(clause, t)
  }

  lemma {:induction false} ViewCons(p: Pred, parts: seq<Part>, t: Table)
    requires Plains(parts) && parts != []
    ensures var v := ViewOf(CompareTree(parts[0].arm.c, t), parts[1..], t);
            ViewOf(p, parts, t) == View([Frame(parts[0].conn, p)] + v.frames, v.last)
    decreases |parts|
  {
    hide CompareTree;
    var first := CompareTree(parts[0].arm.c, t);
    var init, rest := parts[..|parts| - 1], parts[1..];
    if |parts| > 1 {
      ViewCons(p, init, t);
      assert rest[..|rest| - 1] == init[1..];
      var v := ViewOf(first, init[1..], t);
      var f := [Frame(parts[|parts| - 1].conn, v.last)];
      assert ([Frame(parts[0].conn, p)] + v.frames) + f == [Frame(parts[0].conn, p)] + (v.frames + f);
    } else {
      assert ViewOf(p, init, t) == View([], p);
    }
  }

  predicate Fitting(parts: seq<Part>)
  {
    forall k :: 0 <= k < |parts| ==> ArmFits(parts[k].arm, k + 1 == |parts|)
  }

  /** Plain arms open the frames that they are written in. */
  lemma {:induction false} WrittenInFrames(p: Pred, parts: seq<Part>, t: Table)
    requires parts != [] && Fitting(parts) && Plains(parts[..|parts| - 1])
    ensures var part := parts[|parts| - 1];
            WrittenParts(p, parts, t) == Spine(Opened(p, parts[..|parts| - 1], part.conn, t), PartTree(part, true, t))
    decreases |parts|
  {
    var init, part := parts[..|parts| - 1], parts[|parts| - 1];
    hide CompareTree;
    if |parts| == 1 {
      assert Opened(p, init, part.conn, t) == [Frame(part.conn, p)];
      assert parts[1..] == [];
    } else {
      var first := CompareTree(parts[0].arm.c, t);
      assert init[0] == parts[0];
      assert PartTree(parts[0], false, t) == first;
      assert Fitting(parts[1..]);
      assert parts[1..][..|parts| - 2] == init[1..];
      WrittenInFrames(first, parts[1..], t);
      ViewCons(p, init, t);
      var v := ViewOf(first, init[1..], t);
      var f := [Frame(part.conn, v.last)];
      assert ([Frame(parts[0].conn, p)] + v.frames) + f == [Frame(parts[0].conn, p)] + (v.frames + f);
    }
  }

  // ----- When brackets do no harm -----

  predicate HasInner(clause: Clause)
  {
    clause.parts != [] && clause.parts[|clause.parts| - 1].arm.Nested?
  }

  /** The sub-clause at the end of a clause. */
  function Inner(clause: Clause): (inner: Clause)
    requires HasInner(clause)
    ensures inner < clause
  {
    clause.parts[|clause.parts| - 1].arm.clause
  }

  function Conns(clause: Clause): (conns: seq<Connective>)
    ensures |conns| == |clause.parts|
  {
    seq(|clause.parts|, k requires 0 <= k < |clause.parts| => clause.parts[k].conn)
  }

  /** Behind connectives `conns`: at every level the first connective is all those of the
      level around it. */
  predicate Harmless(conns: seq<Connective>, clause: Clause)
    decreases clause
  {
    && (clause.parts != [] ==> forall k :: 0 <= k < |conns| ==> conns[k] == clause.parts[0].conn)
    && (HasInner(clause) ==> Harmless(Conns(clause), Inner(clause)))
  }

  function FrameConns(frames: seq<Frame>): (conns: seq<Connective>)
    ensures |conns| == |frames|
  {
    seq(|frames|, k requires 0 <= k < |frames| => frames[k].conn)
  }

  predicate FramesConn(frames: seq<Frame>, conn: Connective)
  {
    forall k :: 0 <= k < |frames| ==> frames[k].conn == conn
  }

  /** A right side can be pulled into a spine of the same connective. */
  lemma {:induction false} SpineAssociates(frames: seq<Frame>, conn: Connective, p: Pred, q: Pred, vars: Variables)
    requires FramesConn(frames, conn)
    ensures DenotePred(Connect(conn, Spine(frames, p), q), vars) == DenotePred(Spine(frames, Connect(conn, p, q)), vars)
  {
    if frames != [] {
      SpineAssociates(frames[1..], conn, p, q, vars);
    }
  }

  lemma {:induction false} SpineMeans(frames: seq<Frame>, p: Pred, q: Pred, vars: Variables)
    requires DenotePred(p, vars) == DenotePred(q, vars)
    ensures DenotePred(Spine(frames, p), vars) == DenotePred(Spine(frames, q), vars)
  {
    if frames != [] {
      SpineMeans(frames[1..], p, q, vars);
    }
  }

  /** The frames that plain arms open, one per connective. */
  lemma {:induction false} OpenedIs(start: Pred, parts: seq<Part>, conn: Connective, t: Table)
    requires Plains(parts)
    ensures var open := Opened(start, parts, conn, t);
            && |open| == |parts| + 1 && open[|parts|].conn == conn && open[0].side == start
            && (forall k :: 0 <= k < |parts| ==> open[k].conn == parts[k].conn && open[k + 1].side == CompareTree(parts[k].arm.c, t))
    decreases |parts|
  {
    hide CompareTree, SimpleComparison;
    if parts != [] {
      var init, part := parts[..|parts| - 1], parts[|parts| - 1];
      OpenedIs(start, init, part.conn, t);
      assert Opened(start, parts, conn, t) == Opened(start, init, part.conn, t) + [Frame(conn, CompareTree(part.arm.c, t))];
    } else {
      assert Opened(start, parts, conn, t) == [Frame(conn, start)];
    }
  }

  lemma OpenedConns(start: Pred, clause: Clause, t: Table)
    requires GroupLast(clause) && clause.parts != []
    ensures var init, part := clause.parts[..|clause.parts| - 1], clause.parts[|clause.parts| - 1];
            Plains(init) && FrameConns(Opened(start, init, part.conn, t)) == Conns(clause)
  {
    InitPlain(clause);
    var init, part := clause.parts[..|clause.parts| - 1], clause.parts[|clause.parts| - 1];
    OpenedIs(start, init, part.conn, t);
    hide CompareTree, Opened;
  }

  /** With harmless brackets a clause runs as written, for every row, also where the
      evaluation fails. */
  lemma {:induction false} HarmlessRunsAsWritten(frames: seq<Frame>, clause: Clause, t: Table, vars: Variables)
    requires GroupLast(clause) && Harmless(FrameConns(frames), clause)
    ensures DenotePred(RunsAs(frames, clause, t), vars) == DenotePred(Spine(frames, Written(clause, t)), vars)
    decreases clause
  {
    hide CompareTree, SimpleComparison;
    var first, parts := CompareTree(clause.first, t), clause.parts;
    if parts != [] {
      InitPlain(clause);
      var start, conn := Spine(frames, first), parts[0].conn;
      var init, part := parts[..|parts| - 1], parts[|parts| - 1];
      var open := Opened(start, init, part.conn, t);
      WrittenInFrames(start, parts, t);
      OpenedConns(start, clause, t);
      if part.arm.Nested? {
        HarmlessRunsAsWritten(open, part.arm.clause, t, vars);
      }
      assert DenotePred(RunsAs(frames, clause, t), vars) == DenotePred(WrittenParts(start, parts, t), vars);
      var rest := WrittenParts(PartTree(parts[0], |parts| == 1, t), parts[1..], t);
      forall k | 0 <= k < |frames|
        ensures frames[k].conn == conn
      {
        assert FrameConns(frames)[k] == conn;
      }
      SpineAssociates(frames, conn, first, rest, vars);
    }
  }

  lemma OnePartWritten(clause: Clause, t: Table)
    requires GroupLast(clause) && |clause.parts| == 1
    ensures Fitting(clause.parts) && ArmFits(clause.parts[0].arm, true)
    ensures Written(clause, t) == Connect(clause.parts[0].conn, CompareTree(clause.first, t), PartTree(clause.parts[0], true, t))
  {
    hide CompareTree, SimpleComparison;
    var parts, p := clause.parts, CompareTree(clause.first, t);
    var q := PartTree(parts[0], true, t);
    assert parts[1..] == [] && WrittenParts(q, parts[1..], t) == q;
    assert WrittenParts(p, parts, t) == Connect(parts[0].conn, p, WrittenParts(q, parts[1..], t));
  }

  lemma OnePartRuns(frames: seq<Frame>, clause: Clause, t: Table)
    requires GroupLast(clause) && |clause.parts| == 1
    ensures ArmFits(clause.parts[0].arm, true)
    ensures var open := [Frame(clause.parts[0].conn, Spine(frames, CompareTree(clause.first, t)))];
            RunsAs(frames, clause, t) ==
            match clause.parts[0].arm case One(d) => Spine(open, CompareTree(d, t)) case Nested(inner) => RunsAs(open, inner, t)
  {
    hide CompareTree, SimpleComparison;
    InitPlain(clause);
    assert clause.parts[..0] == [];
    var p := Spine(frames, CompareTree(clause.first, t));
    assert Opened(p, [], clause.parts[0].conn, t) == [Frame(clause.parts[0].conn, p)];
  }

  /** `a c1 (b c2 d)`. */
  predicate IsTriple(clause: Clause, a: Comparison, c1: Connective, b: Comparison, c2: Connective, d: Comparison)
  {
    && clause.first == a && |clause.parts| == 1 && clause.parts[0].conn == c1 && clause.parts[0].arm.Nested?
    && var inner := clause.parts[0].arm.clause;
       inner.first == b && |inner.parts| == 1 && inner.parts[0] == Part(c2, One(d))
  }

  /** For example `a c1 (b c2 d)` runs as `(a c1 b) c2 d`. */
  lemma BracketsRegroup(clause: Clause, a: Comparison, c1: Connective, b: Comparison, c2: Connective, d: Comparison, t: Table)
    requires IsTriple(clause, a, c1, b, c2, d) && SimpleComparison(a) && SimpleComparison(b) && SimpleComparison(d)
    ensures GroupLast(clause)
    ensures RunsAs([], clause, t) == Connect(c2, Connect(c1, CompareTree(a, t), CompareTree(b, t)), CompareTree(d, t))
    ensures Written(clause, t) == Connect(c1, CompareTree(a, t), Connect(c2, CompareTree(b, t), CompareTree(d, t)))
  {
    hide CompareTree, SimpleComparison;
    var inner := clause.parts[0].arm.clause;
    assert ArmFits(inner.parts[0].arm, true);
    assert GroupLast(inner);
    assert ArmFits(clause.parts[0].arm, true);
    var p, q, r := CompareTree(a, t), CompareTree(b, t), CompareTree(d, t);
    var f := Frame(c1, p);
    var g := Frame(c2, Connect(c1, p, q));
    assert [f][1..] == [] && [g][1..] == [];
    hide RunsAs, Written;
    OnePartWritten(clause, t);
    OnePartWritten(inner, t);
    OnePartRuns([], clause, t);
    OnePartRuns([f], inner, t);
  }
}
