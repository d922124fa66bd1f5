/** A connective behind a sub-clause goes to where the arm before the sub-clause ended
    before the code was shifted: into the last operand of that arm. What is left is the
    code of a predicate only if the bytes cut off happen to be a connective's.
 */
module AqlStale {
  import opened Machine
  import opened LvmCode
  import opened LvmInstance
  import opened AqlSyntax
  import opened AqlGroups

  // ----- Code determines what it is the code of -----

  lemma Regroup(a: seq<Byte>, b: seq<Byte>, c: seq<Byte>)
    ensures (a + b) + c == a + (b + c)
  {
  }

  lemma EnumsDiffer(a: nat, b: nat, x: seq<Byte>, y: seq<Byte>)
    requires a < 0x1_0000_0000 && b < 0x1_0000_0000 && Enum(a) + x == Enum(b) + y
    ensures a == b && x == y
  {
    var s := Enum(a) + x;
    assert s[..4] == Enum(a) && s[..4] == Enum(b) && s[4..] == x && s[4..] == y;
    assert Pow256(2) == 65536 && Pow256(4) == 0x1_0000_0000;
    LittleEndianRoundTrip(a, 4);
    LittleEndianRoundTrip(b, 4);
  }

  lemma OpNodesAgree(tag: nat, a: nat, b: nat, x: seq<Byte>, y: seq<Byte>)
    requires tag < 0x1_0000_0000 && a < 0x1_0000_0000 && b < 0x1_0000_0000 && OpNode(tag, a) + x == OpNode(tag, b) + y
    ensures a == b && x == y
  {
    hide Enum;
    assert OpNode(tag, a) + x == Enum(tag) + (Enum(a) + x) && OpNode(tag, b) + y == Enum(tag) + (Enum(b) + y);
    EnumsDiffer(tag, tag, Enum(a) + x, Enum(b) + y);
    EnumsDiffer(a, b, x, y);
  }

  /** The tag that the code of an expression starts with. */
  lemma ExprStarts(e: Expr) returns (rest: seq<Byte>)
    ensures ExprCode(e) == Enum(if e.Leaf? then OPERAND else ARITH_OP) + rest
  {
    match e {
      case Leaf(o) => rest := OperandBytes(o);
      case Arith(op, l, r) =>
        rest := Enum(ArithCode(op)) + (ExprCode(l) + ExprCode(r));
        assert OpNode(ARITH_OP, ArithCode(op)) + (ExprCode(l) + ExprCode(r)) == Enum(ARITH_OP) + rest;
    }
  }

  lemma PredStarts(p: Pred) returns (rest: seq<Byte>)
    ensures PredCode(p) == Enum(CMP_OP) + rest
  {
    rest := PredCode(p)[4..];
    match p {
      case Compare(op, l, r) => assert OpNode(CMP_OP, RelCode(op))[..4] == Enum(CMP_OP);
      case Connect(c, l, r) => assert OpNode(CMP_OP, ConnCode(c))[..4] == Enum(CMP_OP);
      case Not(a) => assert OpNode(CMP_OP, NOT_CODE)[..4] == Enum(CMP_OP);
    }
    assert PredCode(p)[..4] == Enum(CMP_OP);
  }

  lemma NoExprAtPred(e: Expr, p: Pred, x: seq<Byte>, y: seq<Byte>)
    ensures ExprCode(e) + x != PredCode(p) + y
  {
    if ExprCode(e) + x == PredCode(p) + y {
      var a := ExprStarts(e);
      var b := PredStarts(p);
      var tag := if e.Leaf? then OPERAND else ARITH_OP;
      Regroup(Enum(tag), a, x);
      Regroup(Enum(CMP_OP), b, y);
      EnumsDiffer(tag, CMP_OP, a + x, b + y);
    }
  }

  lemma OperandsAgree(o: Operand, q: Operand, x: seq<Byte>, y: seq<Byte>)
    requires OperandNode(o) + x == OperandNode(q) + y
    ensures o == q && x == y
  {
    hide FetchEnum, FetchOperand;
    var s := OperandNode(o) + x;
    assert s[..OPERAND_NODE] == OperandNode(o) && s[..OPERAND_NODE] == OperandNode(q);
    assert s[OPERAND_NODE..] == x && s[OPERAND_NODE..] == y;
    FetchHeldOperand(OperandNode(o), 0, o);
    FetchHeldOperand(OperandNode(o), 0, q);
  }

  lemma ArithCodesAgree(a: ArithOp, b: ArithOp)
    ensures ArithCode(a) == ArithCode(b) <==> a == b
  {
  }

  lemma {:induction false} ExprsAgree(e: Expr, f: Expr, x: seq<Byte>, y: seq<Byte>)
    requires ExprCode(e) + x == ExprCode(f) + y
    ensures e == f && x == y
  {
    hide OpNode, OperandNode, Enum;
    var a := ExprStarts(e);
    var b := ExprStarts(f);
    var te, tf := if e.Leaf? then OPERAND else ARITH_OP, if f.Leaf? then OPERAND else ARITH_OP;
    Regroup(Enum(te), a, x);
    Regroup(Enum(tf), b, y);
    EnumsDiffer(te, tf, a + x, b + y);
    if e.Leaf? {
      OperandsAgree(e.operand, f.operand, x, y);
    } else {
      var n, m := OpNode(ARITH_OP, ArithCode(e.op)), OpNode(ARITH_OP, ArithCode(f.op));
      assert ExprCode(e) + x == n + (ExprCode(e.left) + (ExprCode(e.right) + x));
      assert ExprCode(f) + y == m + (ExprCode(f.left) + (ExprCode(f.right) + y));
      OpNodesAgree(ARITH_OP, ArithCode(e.op), ArithCode(f.op), ExprCode(e.left) + (ExprCode(e.right) + x), ExprCode(f.left) + (ExprCode(f.right) + y));
      ArithCodesAgree(e.op, f.op);
      ExprsAgree(e.left, f.left, ExprCode(e.right) + x, ExprCode(f.right) + y);
      ExprsAgree(e.right, f.right, x, y);
    }
  }

  /** The operator of a predicate's first node. */
  function Head(p: Pred): (op: nat)
    ensures op < 0x1_0000_0000
  {
    match p case Compare(rel, _, _) => RelCode(rel) case Connect(c, _, _) => ConnCode(c) case Not(_) => NOT_CODE
  }

  function Tail(p: Pred): seq<Byte>
  {
    match p
    case Compare(_, l, r) => ExprCode(l) + ExprCode(r)
    case Connect(_, l, r) => PredCode(l) + PredCode(r)
    case Not(a) => PredCode(a)
  }

  lemma HeadTail(p: Pred, x: seq<Byte>)
    ensures PredCode(p) + x == OpNode(CMP_OP, Head(p)) + (Tail(p) + x)
  {
    HeadFirst(p);
    hide OpNode, PredCode, Tail, Head;
    Regroup(OpNode(CMP_OP, Head(p)), Tail(p), x);
  }

  lemma HeadFirst(p: Pred)
    ensures PredCode(p) == OpNode(CMP_OP, Head(p)) + Tail(p)
  {
    hide OpNode, ExprCode;
  }

  lemma HeadsAgree(p: Pred, q: Pred)
    requires Head(p) == Head(q)
    ensures p.Compare? == q.Compare? && p.Connect? == q.Connect? && p.Not? == q.Not?
    ensures p.Compare? ==> p.rel == q.rel
    ensures p.Connect? ==> p.conn == q.conn
  {
  }

  /** Predicates whose codes start alike have the same first node. */
  lemma HeadsMeet(p: Pred, q: Pred, x: seq<Byte>, y: seq<Byte>)
    requires PredCode(p) + x == PredCode(q) + y
    ensures Head(p) == Head(q) && Tail(p) + x == Tail(q) + y
  {
    HeadTail(p, x);
    HeadTail(q, y);
    OpNodesAgree(CMP_OP, Head(p), Head(q), Tail(p) + x, Tail(q) + y);
    hide OpNode, PredCode, Tail, Head;
  }

  lemma CompareTail(p: Pred, x: seq<Byte>)
    requires p.Compare?
    ensures Tail(p) + x == ExprCode(p.lhs) + (ExprCode(p.rhs) + x)
  {
    Regroup(ExprCode(p.lhs), ExprCode(p.rhs), x);
  }

  lemma ConnectTail(p: Pred, x: seq<Byte>)
    requires p.Connect?
    ensures Tail(p) + x == PredCode(p.p) + (PredCode(p.q) + x)
  {
    Regroup(PredCode(p.p), PredCode(p.q), x);
  }

  lemma {:induction false} PredsAgree(p: Pred, q: Pred, x: seq<Byte>, y: seq<Byte>)
    requires PredCode(p) + x == PredCode(q) + y
    ensures p == q && x == y
    decreases p
  {
    HeadsMeet(p, q, x, y);
    HeadsAgree(p, q);
    hide OpNode, PredCode, ExprCode, Head;
    match p {
      case Compare(rel, l, r) =>
        CompareTail(p, x);
        CompareTail(q, y);
        ExprsAgree(l, q.lhs, ExprCode(r) + x, ExprCode(q.rhs) + y);
        ExprsAgree(r, q.rhs, x, y);
      case Connect(c, l, r) =>
        ConnectTail(p, x);
        ConnectTail(q, y);
        PredsAgree(l, q.p, PredCode(r) + x, PredCode(q.q) + y);
        PredsAgree(r, q.q, x, y);
      case Not(a) =>
        PredsAgree(a, q.arg, x, y);
    }
  }

  // ----- The last operand of an expression -----

  function LastOperand(e: Expr): Operand
  {
    match e case Leaf(o) => o case Arith(_, _, r) => LastOperand(r)
  }

  function WithLast(e: Expr, o: Operand): Expr
  {
    match e case Leaf(_) => Leaf(o) case Arith(op, l, r) => Arith(op, l, WithLast(r, o))
  }

  /** The code in front of the last operand. */
  function Before(e: Expr): seq<Byte>
  {
    match e
    case Leaf(_) => []
    case Arith(op, l, r) => OpNode(ARITH_OP, ArithCode(op)) + (ExprCode(l) + Before(r))
  }

  /** An operand's tag and type, and its eight bytes of value. */
  function Front(o: Operand): (s: seq<Byte>)
    ensures |s| == 8
  {
    Enum(OPERAND) + Enum(if o.Variable? then LVM_VARIABLE else LVM_LONG)
  }

  function Payload(o: Operand): (s: seq<Byte>)
    ensures |s| == 8
  {
    match o case Variable(id) => LittleEndian(id, 8) case Constant(v) => LittleEndian(LongBits(v), 8)
  }

  lemma OperandParts(o: Operand)
    ensures OperandNode(o) == Front(o) + Payload(o)
  {
    Regroup(Enum(OPERAND), Enum(if o.Variable? then LVM_VARIABLE else LVM_LONG), Payload(o));
  }

  lemma {:induction false} LastSplits(e: Expr, o: Operand)
    ensures ExprCode(WithLast(e, o)) == Before(e) + OperandNode(o)
    ensures WithLast(e, LastOperand(e)) == e
  {
    hide OpNode, OperandNode;
    match e {
      case Leaf(_) =>
        assert Before(e) + OperandNode(o) == OperandNode(o);
      case Arith(op, l, r) =>
        LastSplits(r, o);
        var n := OpNode(ARITH_OP, ArithCode(op));
        assert n + (ExprCode(l) + (Before(r) + OperandNode(o))) == n + (ExprCode(l) + Before(r)) + OperandNode(o);
    }
  }

  /** Code that is that of `e` up to the value of its last operand is that of `e` with
      another operand there. */
  lemma {:induction false} OtherLast(e: Expr, f: Expr, n: seq<Byte>, x: seq<Byte>, z: seq<Byte>) returns (o: Operand)
    requires |n| == 8 && ExprCode(f) + x == Before(e) + (Front(LastOperand(e)) + (n + z))
    ensures f == WithLast(e, o) && OperandNode(o) == Front(LastOperand(e)) + n && x == z
    decreases e
  {
    hide OpNode, OperandNode, Enum;
    var b := ExprStarts(f);
    var tag := if f.Leaf? then OPERAND else ARITH_OP;
    Regroup(Enum(tag), b, x);
    match e {
      case Leaf(q) =>
        var kind := Enum(if q.Variable? then LVM_VARIABLE else LVM_LONG);
        assert [] + (Front(q) + (n + z)) == Enum(OPERAND) + (kind + (n + z));
        EnumsDiffer(tag, OPERAND, b + x, kind + (n + z));
        o := f.operand;
        var s := OperandNode(o) + x;
        assert s == Front(q) + n + z;
        assert s[..16] == OperandNode(o) && s[..16] == Front(q) + n && s[16..] == x && s[16..] == z;
      case Arith(op, l, r) =>
        var m, last := OpNode(ARITH_OP, ArithCode(op)), Front(LastOperand(e)) + (n + z);
        ArithStarts(op, ExprCode(l) + Before(r) + last);
        assert Before(e) + last == m + (ExprCode(l) + Before(r) + last);
        EnumsDiffer(tag, ARITH_OP, b + x, Enum(ArithCode(op)) + (ExprCode(l) + Before(r) + last));
        assert ExprCode(f) + x == OpNode(ARITH_OP, ArithCode(f.op)) + (ExprCode(f.left) + (ExprCode(f.right) + x));
        OpNodesAgree(ARITH_OP, ArithCode(f.op), ArithCode(op), ExprCode(f.left) + (ExprCode(f.right) + x), ExprCode(l) + Before(r) + last);
        ArithCodesAgree(f.op, op);
        Regroup(ExprCode(l), Before(r), last);
        ExprsAgree(f.left, l, ExprCode(f.right) + x, Before(r) + last);
        o := OtherLast(r, f.right, n, x, z);
    }
  }

  lemma ArithStarts(op: ArithOp, x: seq<Byte>)
    ensures OpNode(ARITH_OP, ArithCode(op)) + x == Enum(ARITH_OP) + (Enum(ArithCode(op)) + x)
  {
    Regroup(Enum(ARITH_OP), Enum(ArithCode(op)), x);
  }

  // ----- A connective as a number -----

  /** The constant whose bytes are the node of a connective. */
  function Disguise(c: Connective): Long
  {
    CMP_OP + ConnCode(c) * 0x1_0000_0000
  }

  lemma DisguiseBytes(c: Connective)
    ensures OpNode(CMP_OP, ConnCode(c)) == LittleEndian(LongBits(Disguise(c)), 8)
  {
    var v := LongBits(Disguise(c));
    FourAndFour(CMP_OP, ConnCode(c));
  }

  lemma FourAndFour(lo: nat, hi: nat)
    requires lo < 256 && hi < 256
    ensures LittleEndian(lo + hi * 0x1_0000_0000, 8) == LittleEndian(lo, 4) + LittleEndian(hi, 4)
  {
    hide LittleEndian;
    var v := lo + hi * 0x1_0000_0000;
    ByteOff(v, 7, lo, hi * 0x100_0000);
    ByteOff(hi * 0x100_0000, 6, 0, hi * 0x1_0000);
    ByteOff(hi * 0x1_0000, 5, 0, hi * 0x100);
    ByteOff(hi * 0x100, 4, 0, hi);
    ByteOff(lo, 3, lo, 0);
    Zeros();
    assert LittleEndian(v, 8) == [lo] + ([0] + ([0] + ([0] + LittleEndian(hi, 4))));
    assert LittleEndian(lo, 4) == [lo] + [0, 0, 0];
  }

  lemma Zeros()
    ensures LittleEndian(0, 3) == [0, 0, 0]
  {
  }

  lemma ByteOff(v: nat, n: nat, lo: nat, rest: nat)
    requires lo < 256 && v == lo + 256 * rest
    ensures LittleEndian(v, n + 1) == [lo] + LittleEndian(rest, n)
  {
    assert v % 256 == lo && v / 256 == rest;
  }

  /** An operand whose value bytes are a connective's is that constant. */
  lemma DisguisedIs(o: Operand, c: Connective)
    ensures Payload(o) == OpNode(CMP_OP, ConnCode(c)) <==> o == Constant(Disguise(c))
  {
    DisguiseBytes(c);
    var v := if o.Variable? then o.id else LongBits(o.value);
    assert Pow256(2) == 65536 && Pow256(4) == 0x1_0000_0000 && Pow256(8) == 0x1_0000_0000 * Pow256(4) by {
      assert Pow256(8) == 256 * Pow256(7) && Pow256(6) == 256 * Pow256(5);
    }
    LittleEndianRoundTrip(v, 8);
    LittleEndianRoundTrip(LongBits(Disguise(c)), 8);
    hide LittleEndian, FromLittleEndian;
    if o.Constant? { LongBitsRoundTrip(o.value); LongBitsRoundTrip(Disguise(c)); }
  }

  // ----- The connective behind the sub-clause -----

  /** `a c1 (b c2 d) c3 e`. */
  function Followed(a: Comparison, c1: Connective, b: Comparison, c2: Connective, d: Comparison, c3: Connective, e: Comparison): Clause
  {
    Clause(a, [Part(c1, Nested(Clause(b, [Part(c2, One(d))]))), Part(c3, One(e))])
  }

  function Node(c: Connective): (n: seq<Byte>)
    ensures |n| == OP_NODE
  {
    OpNode(CMP_OP, ConnCode(c))
  }

  lemma Once(code: seq<Byte>, part: Part, t: Table)
    ensures EmitParts(code, [part], t) == EmitPart(Emitted(code, 0), part, t)
  {
    assert [part][..0] == [];
    assert EmitParts(code, [], t) == Emitted(code, 0);
  }

  lemma InsertFront(code: seq<Byte>, n: seq<Byte>)
    ensures Insert(code, 0, n) == n + code
  {
  }

  /** What is emitted for it, as bytes. */
  lemma EmitsFollowed(a: Comparison, c1: Connective, b: Comparison, c2: Connective, d: Comparison, c3: Connective, e: Comparison, t: Table)
    ensures var ca, cb, cd := ComparisonCode(a, t), ComparisonCode(b, t), ComparisonCode(d, t);
            EmitClause([], Followed(a, c1, b, c2, d, c3, e), t) ==
            Insert(Node(c2) + (Node(c1) + ca + cb) + cd, |Node(c1) + ca|, Node(c3)) + ComparisonCode(e, t)
  {
    hide ComparisonCode, OpNode;
    var inner := Clause(b, [Part(c2, One(d))]);
    var first, second := Part(c1, Nested(inner)), Part(c3, One(e));
    var ca, cb, cd := ComparisonCode(a, t), ComparisonCode(b, t), ComparisonCode(d, t);
    assert [] + ca == ca;
    Once(ca, first, t);
    EmitPartsSnoc(ca, [first], second, t);
    assert [first] + [second] == [first, second];
    InsertFront(ca, Node(c1));
    Once(Node(c1) + ca + cb, Part(c2, One(d)), t);
    InsertFront(Node(c1) + ca + cb, Node(c2));
  }

  /** The same with the operand that the connective goes into taken apart. */
  lemma CutsOperand(n1: seq<Byte>, n2: seq<Byte>, n3: seq<Byte>, front: seq<Byte>, payload: seq<Byte>, pre: seq<Byte>, cb: seq<Byte>, cd: seq<Byte>, ce: seq<Byte>)
    requires |n1| == |n2| == |n3| == |front| == |payload| == 8
    ensures var ca := pre + (front + payload);
            Insert(n2 + (n1 + ca + cb) + cd, |n1 + ca|, n3) + ce
            == n2 + (n1 + (pre + (front + (n3 + (payload + (cb + (cd + ce)))))))
  {
    var ca := pre + (front + payload);
    var code := n2 + (n1 + ca + cb) + cd;
    var at := |n1 + ca|;
    assert code == (n2 + n1 + pre + front) + (payload + cb + cd);
    assert at == |n2 + n1 + pre + front|;
    assert code[..at] == n2 + n1 + pre + front && code[at..] == payload + cb + cd;
  }

  /** The code of a comparison up to its last operand. */
  function UpTo(p: Pred): seq<Byte>
    requires p.Compare?
  {
    OpNode(CMP_OP, RelCode(p.rel)) + (ExprCode(p.lhs) + Before(p.rhs))
  }

  lemma CompareSplits(p: Pred, q: Operand)
    requires p.Compare?
    ensures PredCode(Compare(p.rel, p.lhs, WithLast(p.rhs, q))) == UpTo(p) + (Front(q) + Payload(q))
    ensures WithLast(p.rhs, LastOperand(p.rhs)) == p.rhs
  {
    hide OperandNode, OpNode, Front, Payload, WithLast, LastOperand, Before, ExprCode;
    LastSplits(p.rhs, q);
    OperandParts(q);
    Regroup(ExprCode(p.lhs), Before(p.rhs), OperandNode(q));
    Regroup(OpNode(CMP_OP, RelCode(p.rel)), ExprCode(p.lhs) + Before(p.rhs), OperandNode(q));
  }

  /** The bytes that are left, as nodes and codes of trees. */
  ghost function Remains(c1: Connective, c2: Connective, c3: Connective, p: Pred, z: seq<Byte>): seq<Byte>
    requires p.Compare?
  {
    var o := LastOperand(p.rhs);
    Node(c2) + (Node(c1) + (UpTo(p) + (Front(o) + (Node(c3) + (Payload(o) + z)))))
  }

  lemma FollowedRemains(a: Comparison, c1: Connective, b: Comparison, c2: Connective, d: Comparison, c3: Connective, e: Comparison, t: Table)
    requires SimpleComparison(a) && SimpleComparison(b) && SimpleComparison(d) && SimpleComparison(e)
    ensures EmitClause([], Followed(a, c1, b, c2, d, c3, e), t) ==
            Remains(c1, c2, c3, CompareTree(a, t), PredCode(CompareTree(b, t)) + (PredCode(CompareTree(d, t)) + PredCode(CompareTree(e, t))))
  {
    ComparisonIsCode(a, t);
    ComparisonIsCode(b, t);
    ComparisonIsCode(d, t);
    ComparisonIsCode(e, t);
    var p := CompareTree(a, t);
    var o := LastOperand(p.rhs);
    hide OpNode, Front, Payload, OperandNode, ComparisonCode, PredCode, ExprCode, Before, Insert, UpTo, LastOperand, WithLast, Node, EmitClause, Followed, ChainTree;
    EmitsFollowed(a, c1, b, c2, d, c3, e, t);
    CompareSplits(p, o);
    CutsOperand(Node(c1), Node(c2), Node(c3), Front(o), Payload(o), UpTo(p),
                PredCode(CompareTree(b, t)), PredCode(CompareTree(d, t)), PredCode(CompareTree(e, t)));
  }

  /** Code that starts with a connective's node is that of a connective. */
  lemma IsConnect(p: Pred, c: Connective, x: seq<Byte>, y: seq<Byte>)
    requires PredCode(p) + x == Node(c) + y
    ensures p.Connect? && p.conn == c && PredCode(p.p) + (PredCode(p.q) + x) == y
  {
    HeadTail(p, x);
    OpNodesAgree(CMP_OP, Head(p), ConnCode(c), Tail(p) + x, y);
    ConnectHead(p, c);
    hide OpNode, PredCode, Head;
    ConnectTail(p, x);
  }

  lemma ConnectHead(p: Pred, c: Connective)
    requires Head(p) == ConnCode(c)
    ensures p.Connect? && p.conn == c
  {
  }

  lemma CompareHead(p: Pred, rel: RelOp)
    requires Head(p) == RelCode(rel)
    ensures p.Compare? && p.rel == rel
  {
  }

  /** The comparison is read with the connective for its last operand, which makes that a
      constant. */
  lemma IsComparison(q: Pred, p: Pred, c: Connective, x: seq<Byte>, z: seq<Byte>)
    requires p.Compare? && PredCode(q) + x == UpTo(p) + (Front(LastOperand(p.rhs)) + (Node(c) + z))
    ensures q.Compare? && LastOperand(p.rhs).Constant? && x == z
  {
    var n, last := OpNode(CMP_OP, RelCode(p.rel)), Front(LastOperand(p.rhs)) + (Node(c) + z);
    HeadTail(q, x);
    Regroup(n, ExprCode(p.lhs) + Before(p.rhs), last);
    OpNodesAgree(CMP_OP, Head(q), RelCode(p.rel), Tail(q) + x, ExprCode(p.lhs) + Before(p.rhs) + last);
    CompareHead(q, p.rel);
    hide OpNode, ExprCode, PredCode, Before, Front, LastOperand, Head, OperandNode;
    CompareTail(q, x);
    Regroup(ExprCode(p.lhs), Before(p.rhs), last);
    ExprsAgree(q.lhs, p.lhs, ExprCode(q.rhs) + x, Before(p.rhs) + last);
    var o := OtherLast(p.rhs, q.rhs, Node(c), x, z);
    IsConstant(LastOperand(p.rhs), o, c);
  }

  lemma IsConstant(o: Operand, q: Operand, c: Connective)
    requires OperandNode(q) == Front(o) + Node(c)
    ensures o.Constant?
  {
    OperandParts(q);
    var s := OperandNode(q);
    assert s[..8] == Front(q) && s[..8] == Front(o) && s[8..] == Payload(q) && s[8..] == Node(c);
    DisguisedIs(q, c);
    var kq, ko := if q.Variable? then LVM_VARIABLE else LVM_LONG, if o.Variable? then LVM_VARIABLE else LVM_LONG;
    hide Enum, OperandNode, Payload, OpNode;
    EnumsDiffer(OPERAND, OPERAND, Enum(kq), Enum(ko));
    assert Enum(kq) + [] == Enum(kq) && Enum(ko) + [] == Enum(ko);
    EnumsDiffer(kq, ko, [], []);
  }

  lemma FirstEight(a: seq<Byte>, x: seq<Byte>, b: seq<Byte>, y: seq<Byte>)
    requires |a| == |b| && a + x == b + y
    ensures a == b && x == y
  {
    assert (a + x)[..|a|] == a && (b + y)[..|a|] == b && (a + x)[|a|..] == x && (b + y)[|a|..] == y;
  }

  lemma NotCompare(q: Pred, x: seq<Byte>, b: Pred, y: seq<Byte>)
    requires q.Compare?
    ensures Tail(q) + x != PredCode(b) + y
  {
    hide PredCode, ExprCode, Tail;
    CompareTail(q, x);
    NoExprAtPred(q.lhs, b, ExprCode(q.rhs) + x, y);
  }

  lemma NotNot(q: Pred, r: Pred, b: Pred, d: Pred, e: Pred)
    requires q.Not?
    ensures Tail(q) + PredCode(r) != PredCode(b) + (PredCode(d) + PredCode(e))
  {
    hide PredCode, ExprCode;
    if Tail(q) + PredCode(r) == PredCode(b) + (PredCode(d) + PredCode(e)) {
      PredsAgree(q.arg, b, PredCode(r), PredCode(d) + PredCode(e));
      assert PredCode(r) + [] == PredCode(r);
      PredsAgree(r, d, [], PredCode(e));
      assert false;
    }
  }

  /** What was cut off is read as the first node of a predicate. */
  lemma IsCutOff(q: Pred, r: Pred, n: seq<Byte>, b: Pred, d: Pred, e: Pred)
    requires |n| == 8 && PredCode(q) + PredCode(r) == n + (PredCode(b) + (PredCode(d) + PredCode(e)))
    ensures q.Connect? && n == Node(q.conn)
  {
    hide OpNode, PredCode, Head, ExprCode, Tail;
    HeadTail(q, PredCode(r));
    FirstEight(OpNode(CMP_OP, Head(q)), Tail(q) + PredCode(r), n, PredCode(b) + (PredCode(d) + PredCode(e)));
    if q.Compare? {
      NotCompare(q, PredCode(r), b, PredCode(d) + PredCode(e));
    } else if q.Not? {
      NotNot(q, r, b, d, e);
    } else {
      HeadOfConnect(q);
    }
  }

  lemma HeadOfConnect(p: Pred)
    requires p.Connect?
    ensures Head(p) == ConnCode(p.conn)
  {
  }

  lemma Disguised(c1: Connective, c2: Connective, c3: Connective, p: Pred, b: Pred, d: Pred, e: Pred, q: Pred) returns (x: Connective)
    requires p.Compare? && Remains(c1, c2, c3, p, PredCode(b) + (PredCode(d) + PredCode(e))) == PredCode(q)
    ensures LastOperand(p.rhs) == Constant(Disguise(x))
  {
    var o, z := LastOperand(p.rhs), PredCode(b) + (PredCode(d) + PredCode(e));
    hide OpNode, PredCode, Front, Payload, UpTo, Node, LastOperand;
    assert PredCode(q) + [] == PredCode(q);
    IsConnect(q, c2, [], Node(c1) + (UpTo(p) + (Front(o) + (Node(c3) + (Payload(o) + z)))));
    assert PredCode(q.q) + [] == PredCode(q.q);
    IsConnect(q.p, c1, PredCode(q.q), UpTo(p) + (Front(o) + (Node(c3) + (Payload(o) + z))));
    IsComparison(q.p.p, p, c3, PredCode(q.p.q) + PredCode(q.q), Payload(o) + z);
    IsCutOff(q.p.q, q.q, Payload(o), b, d, e);
    x := q.p.q.conn;
    NodeIs(x);
    DisguisedIs(o, x);
  }

  lemma NodeIs(c: Connective)
    ensures Node(c) == OpNode(CMP_OP, ConnCode(c))
  {
  }

  lemma ConnectIs(c: Connective, p: Pred, q: Pred)
    ensures PredCode(Connect(c, p, q)) == Node(c) + (PredCode(p) + PredCode(q))
  {
  }

  /** With the right constant, the bytes are the code of yet another predicate. */
  lemma Undisguised(c1: Connective, c2: Connective, c3: Connective, p: Pred, b: Pred, d: Pred, e: Pred, x: Connective)
    requires p.Compare? && LastOperand(p.rhs) == Constant(Disguise(x))
    ensures var p' := Compare(p.rel, p.lhs, WithLast(p.rhs, Constant(Disguise(c3))));
            Remains(c1, c2, c3, p, PredCode(b) + (PredCode(d) + PredCode(e)))
            == PredCode(Connect(c2, Connect(c1, p', Connect(x, b, d)), e))
  {
    var o, q := LastOperand(p.rhs), Constant(Disguise(c3));
    var p' := Compare(p.rel, p.lhs, WithLast(p.rhs, q));
    DisguisedIs(o, x);
    DisguisedIs(q, c3);
    NodeIs(x);
    NodeIs(c3);
    CompareSplits(p, q);
    assert Front(q) == Front(o);
    ConnectIs(x, b, d);
    ConnectIs(c1, p', Connect(x, b, d));
    ConnectIs(c2, Connect(c1, p', Connect(x, b, d)), e);
    hide OpNode, PredCode, Front, Payload, UpTo, Node, LastOperand, WithLast, Disguise;
    SameBytes(Node(c1), UpTo(p), Front(o), Node(c3), Node(x), PredCode(b), PredCode(d), PredCode(e));
  }

  lemma SameBytes(n1: seq<Byte>, u: seq<Byte>, f: seq<Byte>, n3: seq<Byte>, x: seq<Byte>, b: seq<Byte>, d: seq<Byte>, e: seq<Byte>)
    ensures n1 + (u + (f + (n3 + (x + (b + (d + e)))))) == (n1 + ((u + (f + n3)) + (x + (b + d)))) + e
  {
  }

  /** With a connective behind its sub-clause, `a c1 (b c2 d) c3 e` is left as the code of a
      predicate exactly if the last operand of `a` is one of the two constants that look
      like a connective. */
  lemma FollowedIsCodeIff(a: Comparison, c1: Connective, b: Comparison, c2: Connective, d: Comparison, c3: Connective, e: Comparison, t: Table)
    requires SimpleComparison(a) && SimpleComparison(b) && SimpleComparison(d) && SimpleComparison(e)
    ensures (exists q :: EmitClause([], Followed(a, c1, b, c2, d, c3, e), t) == PredCode(q)) <==>
            exists x :: LastOperand(ChainTree(a.rhs, t)) == Constant(Disguise(x))
  {
    var p, pb, pd, pe := CompareTree(a, t), CompareTree(b, t), CompareTree(d, t), CompareTree(e, t);
    FollowedRemains(a, c1, b, c2, d, c3, e, t);
    assert p.rhs == ChainTree(a.rhs, t);
    hide EmitClause, PredCode, Remains, LastOperand, Disguise, Followed, CompareTree, ChainTree;
    if q :| EmitClause([], Followed(a, c1, b, c2, d, c3, e), t) == PredCode(q) {
      var x := Disguised(c1, c2, c3, p, pb, pd, pe, q);
      assert LastOperand(ChainTree(a.rhs, t)) == Constant(Disguise(x));
    }
    if x :| LastOperand(ChainTree(a.rhs, t)) == Constant(Disguise(x)) {
      Undisguised(c1, c2, c3, p, pb, pd, pe, x);
    }
  }
}
