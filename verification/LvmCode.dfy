/** The bytecode of the Antelope logic engine: prefix notation over bytes.

    A node is a four-byte tag followed by a four-byte operator or by an operand
    (a four-byte type and an eight-byte value), stored with no padding.
 */
module LvmCode {
  import opened Machine

  // Node tags and operator codes.
  const ARITH_OP: nat := 0x10
  const OPERAND: nat := 0x20
  const CMP_OP: nat := 0x40
  const CONNECTIVE: nat := 0x80

  const TYPE_SIZE: nat := 4
  const OPERATOR_SIZE: nat := 4
  const OPERAND_SIZE: nat := 12

  /** Bytes taken by a tag and an operator, and by a tag and an operand. */
  const OP_NODE: nat := TYPE_SIZE + OPERATOR_SIZE
  const OPERAND_NODE: nat := TYPE_SIZE + OPERAND_SIZE

  const LVM_VARIABLE: nat := 0
  const LVM_FLOAT: nat := 1
  const LVM_LONG: nat := 2

  const MAX_VARIABLE_ID: nat := 8

  datatype ArithOp = Add | Sub | Mul | Div
  datatype RelOp = Eq | Neq | Ge | Geq | Le | Leq
  datatype Connective = AndOp | OrOp

  datatype Operand = Variable(id: Byte) | Constant(value: Long)
  datatype Expr = Leaf(operand: Operand) | Arith(op: ArithOp, left: Expr, right: Expr)
  datatype Pred =
    | Compare(rel: RelOp, lhs: Expr, rhs: Expr)
    | Connect(conn: Connective, p: Pred, q: Pred)
    | Not(arg: Pred)

  function ArithCode(op: ArithOp): Byte
  {
    ARITH_OP + match op case Add => 1 case Sub => 2 case Mul => 3 case Div => 4
  }

  function RelCode(op: RelOp): Byte
  {
    CMP_OP + match op case Eq => 1 case Neq => 2 case Ge => 3 case Geq => 4 case Le => 5 case Leq => 6
  }

  const NOT_CODE: nat := CONNECTIVE + 3

  function ConnCode(op: Connective): Byte
  {
    CONNECTIVE + match op case AndOp => 1 case OrOp => 2
  }

  // ----- Object representation -----

  /** A four-byte enumerator. */
  function Enum(v: nat): (s: seq<Byte>)
    ensures |s| == 4
  {
    LittleEndian(v, 4)
  }

  function OperandBytes(o: Operand): (s: seq<Byte>)
    ensures |s| == OPERAND_SIZE
  {
    match o
    case Variable(id) => Enum(LVM_VARIABLE) + LittleEndian(id, 8)
    case Constant(v) => Enum(LVM_LONG) + LittleEndian(LongBits(v), 8)
  }

  function OpNode(tag: nat, op: nat): (s: seq<Byte>)
    ensures |s| == OP_NODE
  {
    Enum(tag) + Enum(op)
  }

  function OperandNode(o: Operand): (s: seq<Byte>)
    ensures |s| == OPERAND_NODE
  {
    Enum(OPERAND) + OperandBytes(o)
  }

  /** Prefix code of an arithmetic expression. */
  function ExprCode(e: Expr): (s: seq<Byte>)
    ensures |s| >= OPERAND_NODE
  {
    match e
    case Leaf(o) => OperandNode(o)
    case Arith(op, l, r) => OpNode(ARITH_OP, ArithCode(op)) + (ExprCode(l) + ExprCode(r))
  }

  /** Prefix code of a predicate. */
  function PredCode(p: Pred): (s: seq<Byte>)
    ensures |s| >= OP_NODE
  {
    match p
    case Compare(op, l, r) => OpNode(CMP_OP, RelCode(op)) + (ExprCode(l) + ExprCode(r))
    case Connect(c, l, r) => OpNode(CMP_OP, ConnCode(c)) + (PredCode(l) + PredCode(r))
    case Not(a) => OpNode(CMP_OP, NOT_CODE) + PredCode(a)
  }

  // ----- Fetching -----

  /** `code` holds `part` at offset `at`. */
  ghost predicate Holds(code: seq<Byte>, at: nat, part: seq<Byte>)
  {
    at + |part| <= |code| && code[at..at + |part|] == part
  }

  lemma HoldsSplit(code: seq<Byte>, at: nat, a: seq<Byte>, b: seq<Byte>)
    ensures Holds(code, at, a + b) <==> Holds(code, at, a) && Holds(code, at + |a|, b)
  {
    if Holds(code, at, a + b) {
      var s := code[at..at + |a + b|];
      assert s[..|a|] == (a + b)[..|a|] == a;
      assert s[|a|..] == (a + b)[|a|..] == b;
      assert code[at..at + |a|] == s[..|a|];
      assert code[at + |a|..at + |a| + |b|] == s[|a|..];
    }
    if Holds(code, at, a) && Holds(code, at + |a|, b) {
      assert code[at..at + |a + b|] == code[at..at + |a|] + code[at + |a|..at + |a| + |b|];
    }
  }

  /** The enumerator stored at `ip`. */
  function FetchEnum(code: seq<Byte>, ip: nat): nat
    requires ip + 4 <= |code|
  {
    FromLittleEndian(code[ip..ip + 4])
  }

  /** An operand as fetched: its type word and the eight value bytes, the first
      of which doubles as a variable id. */
  datatype RawOperand = RawOperand(kind: nat, id: Byte, value: Long)

  function FetchOperand(code: seq<Byte>, ip: nat): RawOperand
    requires ip + OPERAND_SIZE <= |code|
  {
    RawOperand(FetchEnum(code, ip), code[ip + 4],
               BitsLong(FromLittleEndian(code[ip + 4..ip + OPERAND_SIZE])))
  }

  lemma FetchHeldEnum(code: seq<Byte>, ip: nat, v: nat)
    requires v < 0x1_0000_0000 && Holds(code, ip, Enum(v))
    ensures FetchEnum(code, ip) == v
  {
    assert Pow256(2) == 65536 && Pow256(4) == 0x1_0000_0000;
    LittleEndianRoundTrip(v, 4);
  }

  lemma FetchHeldOpNode(code: seq<Byte>, ip: nat, tag: nat, op: nat)
    requires tag < 0x1_0000_0000 && op < 0x1_0000_0000
    requires Holds(code, ip, OpNode(tag, op))
    ensures FetchEnum(code, ip) == tag
    ensures FetchEnum(code, ip + TYPE_SIZE) == op
  {
    HoldsSplit(code, ip, Enum(tag), Enum(op));
    FetchHeldEnum(code, ip, tag);
    FetchHeldEnum(code, ip + TYPE_SIZE, op);
  }

  lemma FetchHeldOperand(code: seq<Byte>, ip: nat, o: Operand)
    requires Holds(code, ip, OperandNode(o))
    ensures FetchEnum(code, ip) == OPERAND
    ensures var raw := FetchOperand(code, ip + TYPE_SIZE);
            match o
            case Variable(id) => raw.kind == LVM_VARIABLE && raw.id == id
            case Constant(v) => raw.kind == LVM_LONG && raw.value == v && raw.id == LongBits(v) % 256
  {
    HoldsSplit(code, ip, Enum(OPERAND), OperandBytes(o));
    FetchHeldEnum(code, ip, OPERAND);
    var kind := if o.Variable? then LVM_VARIABLE else LVM_LONG;
    var bits := if o.Variable? then o.id else LongBits(o.value);
    HoldsSplit(code, ip + 4, Enum(kind), LittleEndian(bits, 8));
    FetchHeldEnum(code, ip + 4, kind);
    assert code[ip + 8..ip + 16] == LittleEndian(bits, 8);
    assert code[ip + 8..ip + 16][0] == code[ip + 8];
    if o.Constant? {
      LongBitsRoundTrip(o.value);
      LittleEndianRoundTrip(bits, 8);
    }
  }


  /** The code of `v3 - 2 <> 0`, byte for byte: tag, operator, tag, operator, and three
      operands of a tag, a type and eight bytes. */
  lemma CodeExample()
    ensures PredCode(Compare(Neq, Arith(Sub, Leaf(Variable(3)), Leaf(Constant(2))), Leaf(Constant(0)))) ==
            [0x40, 0, 0, 0, 0x42, 0, 0, 0]
            + ([0x10, 0, 0, 0, 0x12, 0, 0, 0]
               + (([0x20, 0, 0, 0] + ([0, 0, 0, 0] + [3, 0, 0, 0, 0, 0, 0, 0]))
                  + ([0x20, 0, 0, 0] + ([2, 0, 0, 0] + [2, 0, 0, 0, 0, 0, 0, 0])))
               + ([0x20, 0, 0, 0] + ([2, 0, 0, 0] + [0, 0, 0, 0, 0, 0, 0, 0])))
  {
    hide OpNode, OperandNode;
    OpBytes(0x40, 0x42);
    OpBytes(0x10, 0x12);
    SmallOperand(Variable(3), 0, 3);
    SmallOperand(Constant(2), 2, 2);
    SmallOperand(Constant(0), 2, 0);
    var l, zero := Arith(Sub, Leaf(Variable(3)), Leaf(Constant(2))), Leaf(Constant(0));
    assert ExprCode(l) == OpNode(0x10, 0x12) + (OperandNode(Variable(3)) + OperandNode(Constant(2)));
    assert PredCode(Compare(Neq, l, zero)) == OpNode(0x40, 0x42) + (ExprCode(l) + OperandNode(Constant(0)));
  }

  lemma OpBytes(tag: Byte, op: Byte)
    ensures OpNode(tag, op) == [tag, 0, 0, 0, op, 0, 0, 0]
  {
    SmallEnum(tag);
    SmallEnum(op);
    hide Enum;
  }

  lemma SmallOperand(o: Operand, kind: Byte, v: Byte)
    requires (o == Variable(v) && kind == 0) || (o.Constant? && o.value == v && kind == 2)
    ensures OperandNode(o) == [0x20, 0, 0, 0] + ([kind, 0, 0, 0] + [v, 0, 0, 0, 0, 0, 0, 0])
  {
    SmallEnum(0x20);
    SmallEnum(kind);
    SmallLong(v);
    hide Enum, LittleEndian;
  }

  lemma SmallEnum(v: Byte)
    ensures Enum(v) == [v, 0, 0, 0]
  {
    SmallLittleEndian(v, 4);
  }

  lemma SmallLong(v: Byte)
    ensures LittleEndian(v, 8) == [v, 0, 0, 0, 0, 0, 0, 0]
  {
    SmallLittleEndian(v, 8);
  }

  lemma {:induction false} SmallLittleEndian(v: Byte, n: nat)
    requires n > 0
    ensures LittleEndian(v, n) == [v] + seq(n - 1, _ => 0)
  {
    if n > 1 {
      SmallLittleEndian(0, n - 1);
      assert [0] + seq(n - 2, _ => 0) == seq(n - 1, _ => 0);
    } else {
      assert LittleEndian(0, 0) == [];
    }
  }
}
