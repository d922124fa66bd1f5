/** The evaluator of the logic engine: `eval_expr`, `eval_logic` and `lvm_execute`.

    `Machine` functions run any byte sequence and are total: a fetch outside the
    code or of an unknown variable slot, undefined in C, is the outcome `OutOfBounds`.
    `Denote` functions give the meaning of a predicate tree with no code in sight.
 */
module LvmEval {
  import opened Machine
  import opened LvmCode

  datatype Status = SemanticError | MathError | ExecutionError | OutOfBounds

  /** A value and the instruction pointer after it, or the first error met. */
  datatype Outcome<T> = Ok(value: T, ip: nat) | Error(status: Status)

  /** A value or an error, with no instruction pointer. */
  datatype Meaning<T> = Value(v: T) | Fails(why: Status)

  /** Values of the registered variables, by id. */
  type Variables = vs: seq<Long> | |vs| == MAX_VARIABLE_ID witness [0, 0, 0, 0, 0, 0, 0, 0]

  // ----- Shared arithmetic -----

  function ApplyArith(op: nat, a: Long, b: Long): Meaning<Long>
  {
    if op == ArithCode(Add) then Value(WrapLong(a + b))
    else if op == ArithCode(Sub) then Value(WrapLong(a - b))
    else if op == ArithCode(Mul) then Value(WrapLong(a * b))
    else if op == ArithCode(Div) then
      if b == 0 then Fails(MathError) else Value(WrapLong(TruncDiv(a, b)))
    else Fails(ExecutionError)
  }

  function ApplyRel(op: nat, a: Long, b: Long): Meaning<bool>
  {
    if op == RelCode(Eq) then Value(a == b)
    else if op == RelCode(Neq) then Value(a != b)
    else if op == RelCode(Ge) then Value(a > b)
    else if op == RelCode(Geq) then Value(a >= b)
    else if op == RelCode(Le) then Value(a < b)
    else if op == RelCode(Leq) then Value(a <= b)
    else Fails(ExecutionError)
  }

  predicate IsConnective(op: nat)
  {
    (op / CONNECTIVE) % 2 == 1
  }

  /** `operand_to_long`. */
  function OperandToLong(raw: RawOperand, vars: Variables): Meaning<Long>
  {
    if raw.kind == LVM_LONG then Value(raw.value)
    else if raw.kind == LVM_VARIABLE then
      if raw.id < MAX_VARIABLE_ID then Value(vars[raw.id]) else Fails(OutOfBounds)
    else Value(0)
  }

  // ----- The machine on bytes -----

  /** One argument of an arithmetic or relational operator: a tag, then either a
      nested operation or an operand. */
  function RunArgument(code: seq<Byte>, ip: nat, vars: Variables): (r: Outcome<Long>)
    ensures r.Ok? ==> ip < r.ip <= |code|
    decreases |code| - ip, 1
  {
    if ip + TYPE_SIZE > |code| then Error(OutOfBounds) else
    var tag := FetchEnum(code, ip);
    if tag == ARITH_OP then
      if ip + OP_NODE > |code| then Error(OutOfBounds)
      else RunExpr(code, ip + OP_NODE, FetchEnum(code, ip + TYPE_SIZE), vars)
    else if tag == OPERAND then
      if ip + OPERAND_NODE > |code| then Error(OutOfBounds) else
      match OperandToLong(FetchOperand(code, ip + TYPE_SIZE), vars)
      case Value(v) => Ok(v, ip + OPERAND_NODE)
      case Fails(e) => Error(e)
    else Error(SemanticError)
  }

  /** `eval_expr`, entered after the operator has been fetched. */
  function RunExpr(code: seq<Byte>, ip: nat, op: nat, vars: Variables): (r: Outcome<Long>)
    ensures r.Ok? ==> ip < r.ip <= |code|
    decreases |code| - ip, 2
  {
    match RunArgument(code, ip, vars)
    case Error(e) => Error(e)
    case Ok(a, ip1) =>
      match RunArgument(code, ip1, vars)
      case Error(e) => Error(e)
      case Ok(b, ip2) =>
        match ApplyArith(op, a, b)
        case Value(v) => Ok(v, ip2)
        case Fails(e) => Error(e)
  }

  /** One argument of a connective: it must be tagged as a comparison. */
  function RunClause(code: seq<Byte>, ip: nat, vars: Variables): (r: Outcome<bool>)
    ensures r.Ok? ==> ip < r.ip <= |code|
    decreases |code| - ip, 3
  {
    if ip + TYPE_SIZE > |code| then Error(OutOfBounds)
    else if FetchEnum(code, ip) != CMP_OP then Error(SemanticError)
    else if ip + OP_NODE > |code| then Error(OutOfBounds)
    else RunLogic(code, ip + OP_NODE, FetchEnum(code, ip + TYPE_SIZE), vars)
  }

  /** `eval_logic`, entered after the operator has been fetched. */
  function RunLogic(code: seq<Byte>, ip: nat, op: nat, vars: Variables): (r: Outcome<bool>)
    ensures r.Ok? ==> ip < r.ip <= |code|
    decreases |code| - ip, 4
  {
    if IsConnective(op) then
      match RunClause(code, ip, vars)
      case Error(e) => Error(e)
      case Ok(p, ip1) =>
        if op == NOT_CODE then Ok(!p, ip1) else
        match RunClause(code, ip1, vars)
        case Error(e) => Error(e)
        case Ok(q, ip2) => Ok(if op == ConnCode(AndOp) then p && q else p || q, ip2)
    else
      match RunArgument(code, ip, vars)
      case Error(e) => Error(e)
      case Ok(a, ip1) =>
        match RunArgument(code, ip1, vars)
        case Error(e) => Error(e)
        case Ok(b, ip2) =>
          match ApplyRel(op, a, b)
          case Value(v) => Ok(v, ip2)
          case Fails(e) => Error(e)
  }

  /** `lvm_execute`: a program must start with a comparison tag. */
  function Run(code: seq<Byte>, vars: Variables): Outcome<bool>
  {
    if TYPE_SIZE > |code| then Error(OutOfBounds)
    else if FetchEnum(code, 0) != CMP_OP then Error(ExecutionError)
    else if OP_NODE > |code| then Error(OutOfBounds)
    else RunLogic(code, OP_NODE, FetchEnum(code, TYPE_SIZE), vars)
  }

  // ----- Meaning of trees -----

  /** Both arguments are evaluated, left first; the first failure wins. */
  function DenoteExpr(e: Expr, vars: Variables): Meaning<Long>
  {
    match e
    case Leaf(Variable(id)) => if id < MAX_VARIABLE_ID then Value(vars[id]) else Fails(OutOfBounds)
    case Leaf(Constant(v)) => Value(v)
    case Arith(op, l, r) => ArithMeaning(op, DenoteExpr(l, vars), DenoteExpr(r, vars))
  }

  function ArithMeaning(op: ArithOp, l: Meaning<Long>, r: Meaning<Long>): Meaning<Long>
  {
    match (l, r)
    case (Fails(f), _) => Fails(f)
    case (Value(_), Fails(f)) => Fails(f)
    case (Value(a), Value(b)) =>
      match op
      case Add => Value(WrapLong(a + b))
      case Sub => Value(WrapLong(a - b))
      case Mul => Value(WrapLong(a * b))
      case Div => if b == 0 then Fails(MathError) else Value(WrapLong(TruncDiv(a, b)))
  }

  predicate Related(rel: RelOp, a: Long, b: Long)
  {
    match rel
    case Eq => a == b
    case Neq => a != b
    case Ge => a > b
    case Geq => a >= b
    case Le => a < b
    case Leq => a <= b
  }

  function DenotePred(p: Pred, vars: Variables): Meaning<bool>
  {
    match p
    case Compare(rel, l, r) => RelMeaning(rel, DenoteExpr(l, vars), DenoteExpr(r, vars))
    case Connect(c, a, b) => ConnMeaning(c, DenotePred(a, vars), DenotePred(b, vars))
    case Not(a) => (match DenotePred(a, vars) case Fails(f) => Fails(f) case Value(v) => Value(!v))
  }

  function RelMeaning(rel: RelOp, l: Meaning<Long>, r: Meaning<Long>): Meaning<bool>
  {
    match (l, r)
    case (Fails(f), _) => Fails(f)
    case (Value(_), Fails(f)) => Fails(f)
    case (Value(a), Value(b)) => Value(Related(rel, a, b))
  }

  function ConnMeaning(c: Connective, p: Meaning<bool>, q: Meaning<bool>): Meaning<bool>
  {
    match (p, q)
    case (Fails(f), _) => Fails(f)
    case (Value(_), Fails(f)) => Fails(f)
    case (Value(a), Value(b)) => Value(if c.AndOp? then a && b else a || b)
  }

  /** What running held code of length `len` at `ip` must give. */
  function Expected<T>(m: Meaning<T>, ip: nat, len: nat): Outcome<T>
  {
    match m case Value(v) => Ok(v, ip + len) case Fails(f) => Error(f)
  }

  // ----- Locality: code means the same wherever it lies -----

  lemma ArithStep(code: seq<Byte>, ip: nat, op: ArithOp, vars: Variables,
                  l: Meaning<Long>, m: nat, r: Meaning<Long>, n: nat)
    requires ip + OP_NODE <= |code|
    requires FetchEnum(code, ip) == ARITH_OP && FetchEnum(code, ip + TYPE_SIZE) == ArithCode(op)
    requires RunArgument(code, ip + OP_NODE, vars) == Expected(l, ip + OP_NODE, m)
    requires RunArgument(code, ip + OP_NODE + m, vars) == Expected(r, ip + OP_NODE + m, n)
    ensures RunArgument(code, ip, vars) == Expected(ArithMeaning(op, l, r), ip, OP_NODE + m + n)
  {
    hide FetchEnum, FetchOperand, OperandToLong, WrapLong, TruncDiv;
  }

  lemma RelStep(code: seq<Byte>, ip: nat, rel: RelOp, vars: Variables,
                l: Meaning<Long>, m: nat, r: Meaning<Long>, n: nat)
    requires ip + OP_NODE <= |code|
    requires FetchEnum(code, ip) == CMP_OP && FetchEnum(code, ip + TYPE_SIZE) == RelCode(rel)
    requires RunArgument(code, ip + OP_NODE, vars) == Expected(l, ip + OP_NODE, m)
    requires RunArgument(code, ip + OP_NODE + m, vars) == Expected(r, ip + OP_NODE + m, n)
    ensures RunClause(code, ip, vars) == Expected(RelMeaning(rel, l, r), ip, OP_NODE + m + n)
  {
    hide FetchEnum, FetchOperand, OperandToLong, RunArgument;
  }

  lemma ConnStep(code: seq<Byte>, ip: nat, c: Connective, vars: Variables,
                 p: Meaning<bool>, m: nat, q: Meaning<bool>, n: nat)
    requires ip + OP_NODE <= |code|
    requires FetchEnum(code, ip) == CMP_OP && FetchEnum(code, ip + TYPE_SIZE) == ConnCode(c)
    requires RunClause(code, ip + OP_NODE, vars) == Expected(p, ip + OP_NODE, m)
    requires RunClause(code, ip + OP_NODE + m, vars) == Expected(q, ip + OP_NODE + m, n)
    ensures RunClause(code, ip, vars) == Expected(ConnMeaning(c, p, q), ip, OP_NODE + m + n)
  {
    hide FetchEnum, RunArgument, ApplyRel;
  }

  lemma LeafLocality(o: Operand, code: seq<Byte>, ip: nat, vars: Variables)
    requires Holds(code, ip, OperandNode(o))
    ensures RunArgument(code, ip, vars) == Expected(DenoteExpr(Leaf(o), vars), ip, OPERAND_NODE)
  {
    FetchHeldOperand(code, ip, o);
  }

  lemma NotLocality(a: Pred, code: seq<Byte>, ip: nat, vars: Variables)
    requires Holds(code, ip, OpNode(CMP_OP, NOT_CODE) + PredCode(a))
    requires RunClause(code, ip + OP_NODE, vars) == Expected(DenotePred(a, vars), ip + OP_NODE, |PredCode(a)|)
    ensures RunClause(code, ip, vars) == Expected(DenotePred(Not(a), vars), ip, OP_NODE + |PredCode(a)|)
  {
    hide PredCode, Enum, RunArgument, ApplyRel, FetchEnum;
    HoldsSplit(code, ip, OpNode(CMP_OP, NOT_CODE), PredCode(a));
    FetchHeldOpNode(code, ip, CMP_OP, NOT_CODE);
  }

  /** Wherever the code of `e` lies, fetching an argument there yields the meaning
      of `e`, or its first error, and consumes exactly that code. */
  lemma {:induction false} ExprLocality(e: Expr, code: seq<Byte>, ip: nat, vars: Variables)
    requires Holds(code, ip, ExprCode(e))
    ensures RunArgument(code, ip, vars) == Expected(DenoteExpr(e, vars), ip, |ExprCode(e)|)
  {
    hide RunArgument, Holds, OpNode, ArithMeaning, Expected, OperandNode, ArithCode;
    match e {
      case Leaf(o) =>
        LeafLocality(o, code, ip, vars);
      case Arith(op, l, r) =>
        var cl, cr := ExprCode(l), ExprCode(r);
        PairHeld(code, ip, ARITH_OP, ArithCode(op), cl, cr);
        ExprLocality(l, code, ip + OP_NODE, vars);
        ExprLocality(r, code, ip + OP_NODE + |cl|, vars);
        ArithStep(code, ip, op, vars, DenoteExpr(l, vars), |cl|, DenoteExpr(r, vars), |cr|);
    }
  }

  /** The same for predicates, with every connective including NOT. */
  lemma {:induction false} PredLocality(p: Pred, code: seq<Byte>, ip: nat, vars: Variables)
    requires Holds(code, ip, PredCode(p))
    ensures RunClause(code, ip, vars) == Expected(DenotePred(p, vars), ip, |PredCode(p)|)
  {
    hide RunClause, RunArgument, Holds, OpNode, RelMeaning, ConnMeaning, Expected, ExprCode, RelCode, ConnCode;
    match p {
      case Compare(rel, l, r) =>
        var cl, cr := ExprCode(l), ExprCode(r);
        PairHeld(code, ip, CMP_OP, RelCode(rel), cl, cr);
        ExprLocality(l, code, ip + OP_NODE, vars);
        ExprLocality(r, code, ip + OP_NODE + |cl|, vars);
        RelStep(code, ip, rel, vars, DenoteExpr(l, vars), |cl|, DenoteExpr(r, vars), |cr|);
      case Connect(c, a, b) =>
        var ca, cb := PredCode(a), PredCode(b);
        PairHeld(code, ip, CMP_OP, ConnCode(c), ca, cb);
        PredLocality(a, code, ip + OP_NODE, vars);
        PredLocality(b, code, ip + OP_NODE + |ca|, vars);
        ConnStep(code, ip, c, vars, DenotePred(a, vars), |ca|, DenotePred(b, vars), |cb|);
      case Not(a) =>
        HoldsSplit(code, ip, OpNode(CMP_OP, NOT_CODE), PredCode(a));
        PredLocality(a, code, ip + OP_NODE, vars);
        NotLocality(a, code, ip, vars);
    }
  }

  /** A held operator node with two arguments is held piece by piece. */
  lemma PairHeld(code: seq<Byte>, ip: nat, tag: nat, op: nat, a: seq<Byte>, b: seq<Byte>)
    requires tag < 0x1_0000_0000 && op < 0x1_0000_0000
    requires Holds(code, ip, OpNode(tag, op) + (a + b))
    ensures FetchEnum(code, ip) == tag && FetchEnum(code, ip + TYPE_SIZE) == op
    ensures Holds(code, ip + OP_NODE, a) && Holds(code, ip + OP_NODE + |a|, b)
  {
    HoldsSplit(code, ip, OpNode(tag, op), a + b);
    FetchHeldOpNode(code, ip, tag, op);
    HoldsSplit(code, ip + OP_NODE, a, b);
  }

  /** A program that starts with the code of `p` computes the meaning of `p`,
      whatever bytes follow. */
  lemma ExecuteDenotes(p: Pred, code: seq<Byte>, vars: Variables)
    requires Holds(code, 0, PredCode(p))
    ensures Run(code, vars) == Expected(DenotePred(p, vars), 0, |PredCode(p)|)
  {
    PredLocality(p, code, 0, vars);
    var op := match p case Compare(rel, _, _) => RelCode(rel) case Connect(c, _, _) => ConnCode(c) case Not(_) => NOT_CODE;
    var rest := PredCode(p)[OP_NODE..];
    assert PredCode(p) == OpNode(CMP_OP, op) + rest;
    HoldsSplit(code, 0, OpNode(CMP_OP, op), rest);
    FetchHeldOpNode(code, 0, CMP_OP, op);
  }

  // ----- What the operators do, in numbers -----

  /** The result of an operation, said with products and remainders by the word only. */
  ghost predicate Yields(op: ArithOp, a: Long, b: Long, m: Meaning<Long>)
  {
    match op
    case Add => m.Value? && (a + b - m.v) % WORD == 0
    case Sub => m.Value? && (a - b - m.v) % WORD == 0
    case Mul => m.Value? && (a * b - m.v) % WORD == 0
    case Div => if b == 0 then m == Fails(MathError) else m.Value? && exists q :: Quotient(a, b, q) && (q - m.v) % WORD == 0
  }

  lemma ArithYields(op: ArithOp, a: Long, b: Long)
    ensures Yields(op, a, b, ArithMeaning(op, Value(a), Value(b)))
  {
    if op == Div && b != 0 {
      TruncDivIs(a, b);
    }
    hide Quotient;
  }

  lemma YieldsOne(op: ArithOp, a: Long, b: Long, m: Meaning<Long>, n: Meaning<Long>)
    requires Yields(op, a, b, m) && Yields(op, a, b, n)
    ensures m == n
  {
    hide Quotient, WrapLong;
    match op {
      case Add => WrapIsUnique(a + b, m.v); WrapIsUnique(a + b, n.v);
      case Sub => WrapIsUnique(a - b, m.v); WrapIsUnique(a - b, n.v);
      case Mul => WrapIsUnique(a * b, m.v); WrapIsUnique(a * b, n.v);
      case Div =>
        if b != 0 {
          var p :| Quotient(a, b, p) && (p - m.v) % WORD == 0;
          var q :| Quotient(a, b, q) && (q - n.v) % WORD == 0;
          QuotientIsUnique(a, b, p, q);
          WrapIsUnique(p, m.v);
          WrapIsUnique(p, n.v);
        }
    }
  }

  /** What an outcome says, apart from the instruction pointer. */
  function Said<T>(o: Outcome<T>): Meaning<T>
  {
    match o case Ok(v, _) => Value(v) case Error(e) => Fails(e)
  }

  /** Running the code of an operation whose sides have the values `a` and `b` gives their
      sum, difference or product, reduced to the word, or their quotient. */
  lemma OperationRuns(op: ArithOp, l: Expr, r: Expr, a: Long, b: Long, code: seq<Byte>, ip: nat, vars: Variables)
    requires Holds(code, ip, ExprCode(Arith(op, l, r)))
    requires DenoteExpr(l, vars) == Value(a) && DenoteExpr(r, vars) == Value(b)
    ensures Yields(op, a, b, Said(RunArgument(code, ip, vars)))
  {
    ExprLocality(Arith(op, l, r), code, ip, vars);
    ArithYields(op, a, b);
    hide Yields, RunArgument;
  }

  /** A comparison holds by the sign of the difference. */
  predicate Decides(rel: RelOp, x: int, y: int, holds: bool)
  {
    match rel
    case Eq => holds <==> x - y == 0
    case Neq => holds <==> x - y != 0
    case Ge => holds <==> x - y >= 1
    case Geq => holds <==> y - x < 1
    case Le => holds <==> y - x >= 1
    case Leq => holds <==> x - y < 1
  }

  /** Running the code of a comparison compares the values of its sides. */
  lemma ComparisonRuns(rel: RelOp, l: Expr, r: Expr, a: Long, b: Long, code: seq<Byte>, ip: nat, vars: Variables)
    requires Holds(code, ip, PredCode(Compare(rel, l, r)))
    requires DenoteExpr(l, vars) == Value(a) && DenoteExpr(r, vars) == Value(b)
    ensures var o := RunClause(code, ip, vars); o.Ok? && Decides(rel, a, b, o.value)
  {
    PredLocality(Compare(rel, l, r), code, ip, vars);
    hide RunClause, PredCode;
  }

  /** `x / 2 = 3` accepts a row with 7 for `x`, and one with -7 if it is `x / 2 = -3`. */
  lemma SevenHalves(code: seq<Byte>, vars: Variables, id: Byte, n: Long)
    requires id < MAX_VARIABLE_ID && vars[id] == (if n >= 0 then 7 else -7) && (n == 3 || n == -3)
    requires Holds(code, 0, PredCode(Compare(Eq, Arith(Div, Leaf(Variable(id)), Leaf(Constant(2))), Leaf(Constant(n)))))
    ensures Run(code, vars).Ok? && Run(code, vars).value
  {
    hide PredCode, Run, Holds;
    var x := Arith(Div, Leaf(Variable(id)), Leaf(Constant(2)));
    ExecuteDenotes(Compare(Eq, x, Leaf(Constant(n))), code, vars);
    assert TruncDiv(7, 2) == 3 && TruncDiv(-7, 2) == -3;
    assert DenoteExpr(x, vars) == Value(n);
  }


  /** An expression by itself is no program, whatever follows its code. */
  lemma ExpressionIsNoProgram(e: Expr, rest: seq<Byte>, vars: Variables)
    ensures Run(ExprCode(e) + rest, vars) == Error(ExecutionError)
  {
    var code := ExprCode(e) + rest;
    match e {
      case Leaf(o) =>
        assert code[0..4] == Enum(OPERAND);
        FetchHeldEnum(code, 0, OPERAND);
      case Arith(op, l, r) =>
        assert code[0..4] == Enum(ARITH_OP);
        FetchHeldEnum(code, 0, ARITH_OP);
    }
  }
}
