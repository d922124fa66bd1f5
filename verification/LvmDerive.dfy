/** Range derivation: an abstraction of a predicate to one interval per variable,
    read off the bytecode and used to restrict an index search.
 */
module LvmDerive {
  import opened Machine
  import opened LvmCode
  import opened LvmEval

  datatype Range = Free | Within(min: Long, max: Long)

  /** One derivation per variable slot. */
  type Ranges = rs: seq<Range> | |rs| == MAX_VARIABLE_ID witness [Free, Free, Free, Free, Free, Free, Free, Free]

  /** A derivation with the instruction pointer after it; `DERIVATION_ERROR`; or a
      fetch outside the code. */
  datatype Derivation = Derived(ranges: Ranges, ip: nat) | DerivationError | Fault

  const NOTHING: Ranges := [Free, Free, Free, Free, Free, Free, Free, Free]

  // ----- Combining -----

  function Intersect(a: Range, b: Range): Range
  {
    match (a, b)
    case (Free, _) => b
    case (_, Free) => a
    case (Within(amin, amax), Within(bmin, bmax)) =>
      Within(if amin > bmin then amin else bmin, if amax < bmax then amax else bmax)
  }

  function Hull(a: Range, b: Range): Range
  {
    match (a, b)
    case (Free, _) => b
    case (_, Free) => a
    case (Within(amin, amax), Within(bmin, bmax)) =>
      Within(if amin > bmin then bmin else amin, if amax < bmax then bmax else amax)
  }

  function Combine(conn: Connective, a: Ranges, b: Ranges): (r: Ranges)
  {
    seq(MAX_VARIABLE_ID, i requires 0 <= i < MAX_VARIABLE_ID =>
      if conn.AndOp? then Intersect(a[i], b[i]) else Hull(a[i], b[i]))
  }

  // ----- Derivation on bytes -----

  /** The range a comparison operator gives to the variable operand; the code looks
      at neither the order of the operands nor whether one of them is a variable. */
  function LeafRange(op: nat, value: Long): Range
  {
    if op == RelCode(Eq) then Within(value, value)
    else if op == RelCode(Ge) then Within(WrapLong(value + 1), LONG_MAX)
    else if op == RelCode(Geq) then Within(value, LONG_MAX)
    else if op == RelCode(Le) then Within(LONG_MIN, WrapLong(value - 1))
    else if op == RelCode(Leq) then Within(LONG_MIN, value)
    else Free
  }

  /** `derive_relation` once both operands are fetched. */
  function DeriveOperands(op: nat, a: RawOperand, b: RawOperand, ip: nat): Derivation
  {
    if a.kind == LVM_VARIABLE && b.kind == LVM_VARIABLE then DerivationError else
    var id, value := if a.kind == LVM_VARIABLE then a.id else b.id, if a.kind == LVM_VARIABLE then b.value else a.value;
    if id >= MAX_VARIABLE_ID then DerivationError else
    match LeafRange(op, value)
    case Free => DerivationError
    case r => Derived(NOTHING[id := r], ip)
  }

  /** `derive_relation`, starting at the tag, whose value it does not check. */
  function Derive(code: seq<Byte>, ip: nat): (r: Derivation)
    ensures r.Derived? ==> ip < r.ip <= |code|
    decreases |code| - ip
  {
    if ip + OP_NODE > |code| then Fault else
    var op := FetchEnum(code, ip + TYPE_SIZE);
    if IsConnective(op) then
      if op != ConnCode(AndOp) && op != ConnCode(OrOp) then DerivationError else
      match Derive(code, ip + OP_NODE)
      case Derived(a, ip1) =>
        (match Derive(code, ip1)
         case Derived(b, ip2) => Derived(Combine(if op == ConnCode(AndOp) then AndOp else OrOp, a, b), ip2)
         case e => e)
      case e => e
    else if ip + OP_NODE + TYPE_SIZE > |code| then Fault
    else if FetchEnum(code, ip + OP_NODE) != OPERAND then DerivationError
    else if ip + OP_NODE + OPERAND_NODE + TYPE_SIZE > |code| then Fault
    else if FetchEnum(code, ip + OP_NODE + OPERAND_NODE) != OPERAND then DerivationError
    else if ip + OP_NODE + OPERAND_NODE + OPERAND_NODE > |code| then Fault
    else DeriveOperands(op, FetchOperand(code, ip + OP_NODE + TYPE_SIZE),
                        FetchOperand(code, ip + OP_NODE + OPERAND_NODE + TYPE_SIZE),
                        ip + OP_NODE + OPERAND_NODE + OPERAND_NODE)
  }

  // ----- The loops over the derivation tables -----

  /** `create_intersection` and `create_union` on a cleared result table. */
  method CombineTables(conn: Connective, result: array<Range>, d1: array<Range>, d2: array<Range>)
    requires result.Length == d1.Length == d2.Length == MAX_VARIABLE_ID
    requires result != d1 && result != d2 && result[..] == NOTHING
    modifies result
    ensures result[..] == Combine(conn, d1[..], d2[..])
    ensures d1[..] == old(d1[..]) && d2[..] == old(d2[..])
  {
    for i := 0 to MAX_VARIABLE_ID
      invariant forall j :: 0 <= j < i ==>
        result[j] == if conn.AndOp? then Intersect(d1[j], d2[j]) else Hull(d1[j], d2[j])
      invariant forall j :: i <= j < MAX_VARIABLE_ID ==> result[j] == Free
      invariant d1[..] == old(d1[..]) && d2[..] == old(d2[..])
    {
      if d1[i].Free? && d2[i].Free? {
        continue;
      } else if d2[i].Free? {
        result[i] := d1[i];
      } else if d1[i].Free? {
        result[i] := d2[i];
      } else {
        var takeMin := d1[i].min > d2[i].min;
        var takeMax := d1[i].max < d2[i].max;
        result[i] := if conn.AndOp?
          then Within(if takeMin then d1[i].min else d2[i].min, if takeMax then d1[i].max else d2[i].max)
          else Within(if takeMin then d2[i].min else d1[i].min, if takeMax then d2[i].max else d1[i].max);
      }
    }
  }

  /** `derive_relation` as it runs: two cleared tables per connective, merged into
      the caller's table. */
  method DeriveRelation(code: array<Byte>, ip: nat, table: array<Range>) returns (ok: bool, next: nat, fault: bool)
    requires table.Length == MAX_VARIABLE_ID && table[..] == NOTHING
    modifies table
    ensures match Derive(code[..], ip)
            case Derived(rs, n) => ok && next == n && table[..] == rs
            case DerivationError => !ok && !fault
            case Fault => !ok && fault
    decreases code.Length - ip
  {
    hide FetchEnum, FetchOperand, Combine, LeafRange;
    ghost var snapshot := code[..];
    ok, next, fault := false, ip, false;
    if ip + OP_NODE > code.Length { return false, ip, true; }
    var op := FetchEnum(code[..], ip + TYPE_SIZE);
    if IsConnective(op) {
      if op != ConnCode(AndOp) && op != ConnCode(OrOp) { return; }
      var d1 := new Range[MAX_VARIABLE_ID](_ => Free);
      var d2 := new Range[MAX_VARIABLE_ID](_ => Free);
      assert d1[..] == NOTHING && d2[..] == NOTHING;
      ok, next, fault := DeriveRelation(code, ip + OP_NODE, d1);
      if !ok { return; }
      ok, next, fault := DeriveRelation(code, next, d2);
      if !ok { return; }
      CombineTables(if op == ConnCode(AndOp) then AndOp else OrOp, table, d1, d2);
      return;
    }
    next := ip + OP_NODE;
    if next + TYPE_SIZE > code.Length { return false, next, true; }
    if FetchEnum(code[..], next) != OPERAND { return; }
    if next + OPERAND_NODE + TYPE_SIZE > code.Length { return false, next, true; }
    if FetchEnum(code[..], next + OPERAND_NODE) != OPERAND { return; }
    if next + OPERAND_NODE + OPERAND_NODE > code.Length { return false, next, true; }
    var a, b := FetchOperand(code[..], next + TYPE_SIZE), FetchOperand(code[..], next + OPERAND_NODE + TYPE_SIZE);
    next := next + OPERAND_NODE + OPERAND_NODE;
    if a.kind == LVM_VARIABLE && b.kind == LVM_VARIABLE { return; }
    var id := if a.kind == LVM_VARIABLE then a.id else b.id;
    var value := if a.kind == LVM_VARIABLE then b.value else a.value;
    if id >= MAX_VARIABLE_ID { return; }
    var r := LeafRange(op, value);
    if r == Free { return; }
    table[id] := r;
    ok := true;
  }

  // ----- Derivation of trees -----

  /** The operand as the derivation sees it: for a constant, the id is its low byte. */
  function Raw(o: Operand): RawOperand
  {
    match o
    case Variable(id) => RawOperand(LVM_VARIABLE, id, 0)
    case Constant(v) => RawOperand(LVM_LONG, LongBits(v) % 256, v)
  }

  function DeriveTree(p: Pred): (r: Derivation)
    ensures !r.Fault?
  {
    match p
    case Compare(rel, l, r) =>
      if l.Leaf? && r.Leaf? then DeriveOperands(RelCode(rel), Raw(l.operand), Raw(r.operand), 0)
      else DerivationError
    case Connect(c, l, r) => DeriveBoth(c, DeriveTree(l), DeriveTree(r))
    case Not(_) => DerivationError
  }

  function DeriveBoth(c: Connective, l: Derivation, r: Derivation): Derivation
  {
    if !l.Derived? then l
    else if !r.Derived? then r
    else Derived(Combine(c, l.ranges, r.ranges), 0)
  }

  /** The same derivation, placed at the end of code of length `len` at `ip`. */
  function Placed(d: Derivation, ip: nat, len: nat): Derivation
  {
    match d case Derived(rs, _) => Derived(rs, ip + len) case e => e
  }

  lemma DeriveLeafLocality(rel: RelOp, a: Operand, b: Operand, code: seq<Byte>, ip: nat)
    requires Holds(code, ip, PredCode(Compare(rel, Leaf(a), Leaf(b))))
    ensures Derive(code, ip) == Placed(DeriveTree(Compare(rel, Leaf(a), Leaf(b))), ip,
                                       OP_NODE + OPERAND_NODE + OPERAND_NODE)
  {
    hide FetchEnum, FetchOperand, LeafRange, OpNode, OperandNode;
    PairHeld(code, ip, CMP_OP, RelCode(rel), OperandNode(a), OperandNode(b));
    FetchHeldOperand(code, ip + OP_NODE, a);
    FetchHeldOperand(code, ip + OP_NODE + OPERAND_NODE, b);
  }

  /** An arithmetic operand on either side is refused before anything is derived. */
  lemma DeriveArithRefused(rel: RelOp, l: Expr, r: Expr, code: seq<Byte>, ip: nat)
    requires !l.Leaf? || !r.Leaf?
    requires Holds(code, ip, PredCode(Compare(rel, l, r)))
    ensures Derive(code, ip) == DerivationError
  {
    hide FetchEnum, FetchOperand, LeafRange, OpNode, OperandNode, ExprCode;
    var cl, cr := ExprCode(l), ExprCode(r);
    PairHeld(code, ip, CMP_OP, RelCode(rel), cl, cr);
    ExprTag(l, code, ip + OP_NODE);
    ExprTag(r, code, ip + OP_NODE + |cl|);
    if l.Leaf? {
      LeafLength(l);
    }
  }

  lemma LeafLength(e: Expr)
    requires e.Leaf?
    ensures |ExprCode(e)| == OPERAND_NODE
  {
  }

  lemma ExprTag(e: Expr, code: seq<Byte>, ip: nat)
    requires Holds(code, ip, ExprCode(e))
    ensures ip + OPERAND_NODE <= |code|
    ensures FetchEnum(code, ip) == if e.Leaf? then OPERAND else ARITH_OP
  {
    match e {
      case Leaf(o) => FetchHeldOperand(code, ip, o);
      case Arith(op, l, r) => PairHeld(code, ip, ARITH_OP, ArithCode(op), ExprCode(l), ExprCode(r));
    }
  }

  /** Deriving from the code of `p`, wherever it lies, is deriving from `p`. */
  lemma {:induction false} DeriveLocality(p: Pred, code: seq<Byte>, ip: nat)
    requires Holds(code, ip, PredCode(p))
    ensures Derive(code, ip) == Placed(DeriveTree(p), ip, |PredCode(p)|)
    decreases p, 1
  {
    hide FetchEnum, FetchOperand, DeriveOperands, OpNode, Combine, ExprCode;
    match p {
      case Compare(rel, l, r) =>
        if l.Leaf? && r.Leaf? {
          LeafLength(l);
          LeafLength(r);
          DeriveLeafLocality(rel, l.operand, r.operand, code, ip);
        } else {
          DeriveArithRefused(rel, l, r, code, ip);
        }
      case Connect(c, a, b) =>
        DeriveConnect(c, a, b, code, ip);
      case Not(a) =>
        HoldsSplit(code, ip, OpNode(CMP_OP, NOT_CODE), PredCode(a));
        FetchHeldOpNode(code, ip, CMP_OP, NOT_CODE);
    }
  }

  lemma {:induction false} DeriveConnect(c: Connective, a: Pred, b: Pred, code: seq<Byte>, ip: nat)
    requires Holds(code, ip, PredCode(Connect(c, a, b)))
    ensures Derive(code, ip) == Placed(DeriveTree(Connect(c, a, b)), ip, |PredCode(Connect(c, a, b))|)
    decreases Connect(c, a, b), 0
  {
    hide FetchEnum, FetchOperand, DeriveOperands, OpNode, Combine, Holds;
    var ca, cb := PredCode(a), PredCode(b);
    PairHeld(code, ip, CMP_OP, ConnCode(c), ca, cb);
    DeriveLocality(a, code, ip + OP_NODE);
    DeriveLocality(b, code, ip + OP_NODE + |ca|);
  }

  // ----- What the ranges say about the predicate -----

  predicate Admits(r: Range, v: Long)
  {
    r.Within? ==> r.min <= v <= r.max
  }

  ghost predicate Covers(rs: Ranges, vars: Variables)
  {
    forall i :: 0 <= i < MAX_VARIABLE_ID ==> Admits(rs[i], vars[i])
  }

  ghost predicate Accepts(p: Pred, vars: Variables)
  {
    DenotePred(p, vars) == Value(true)
  }

  /** Every accepted assignment lies in every derived range. */
  ghost predicate SoundFor(p: Pred)
    requires DeriveTree(p).Derived?
  {
    forall vars: Variables :: Accepts(p, vars) ==> Covers(DeriveTree(p).ranges, vars)
  }

  /** Comparisons of a variable, on the left, with a constant, joined by AND and OR. */
  predicate VariableLeft(p: Pred)
  {
    match p
    case Compare(_, l, r) => l.Leaf? && l.operand.Variable? && r.Leaf? && r.operand.Constant?
    case Connect(_, l, r) => VariableLeft(l) && VariableLeft(r)
    case Not(_) => false
  }

  /** The variables compared anywhere in `p`. */
  function Vars(p: Pred): set<nat>
    requires VariableLeft(p)
  {
    match p
    case Compare(_, l, _) => {l.operand.id as nat}
    case Connect(_, l, r) => Vars(l) + Vars(r)
  }

  /** Both sides of every OR compare the same variables. */
  predicate Balanced(p: Pred)
    requires VariableLeft(p)
  {
    match p
    case Compare(_, _, _) => true
    case Connect(c, l, r) => Balanced(l) && Balanced(r) && (c.OrOp? ==> Vars(l) == Vars(r))
  }

  /** A range is derived for exactly the variables compared. */
  lemma {:induction false} RangesOfVars(p: Pred, i: nat)
    requires VariableLeft(p) && DeriveTree(p).Derived? && i < MAX_VARIABLE_ID
    ensures DeriveTree(p).ranges[i].Free? <==> i !in Vars(p)
  {
    hide LeafRange, RelCode;
    match p {
      case Compare(_, _, _) =>
      case Connect(_, l, r) =>
        RangesOfVars(l, i);
        RangesOfVars(r, i);
    }
  }

  lemma LeafCovers(rel: RelOp, id: Byte, c: Long, vars: Variables)
    requires id < MAX_VARIABLE_ID && LeafRange(RelCode(rel), c) != Free
    requires Related(rel, vars[id], c)
    ensures Admits(LeafRange(RelCode(rel), c), vars[id])
  {
  }

  /** Derivation is sound: whatever `lvm_execute` accepts is inside every range. */
  lemma {:induction false} DerivationSound(p: Pred, vars: Variables)
    requires VariableLeft(p) && Balanced(p) && DeriveTree(p).Derived?
    requires Accepts(p, vars)
    ensures Covers(DeriveTree(p).ranges, vars)
  {
    hide LeafRange, RelCode, Related;
    match p {
      case Compare(rel, l, r) =>
        LeafCovers(rel, l.operand.id, r.operand.value, vars);
      case Connect(c, l, r) =>
        if c.AndOp? || Accepts(l, vars) { DerivationSound(l, vars); }
        if c.AndOp? || Accepts(r, vars) { DerivationSound(r, vars); }
        forall i | 0 <= i < MAX_VARIABLE_ID
          ensures Admits(DeriveTree(p).ranges[i], vars[i])
        {
          RangesOfVars(l, i);
          RangesOfVars(r, i);
        }
    }
  }

  /** The same on bytes: ranges derived from code admit every row that executing
      that code accepts. */
  lemma DerivedRangesKeepAcceptedRows(p: Pred, code: seq<Byte>, vars: Variables)
    requires VariableLeft(p) && Balanced(p) && Holds(code, 0, PredCode(p))
    requires Derive(code, 0).Derived?
    requires Run(code, vars).Ok? && Run(code, vars).value
    ensures Covers(Derive(code, 0).ranges, vars)
  {
    hide PredCode, Derive, Run, DenotePred, Covers, DeriveTree;
    DeriveLocality(p, code, 0);
    ExecuteDenotes(p, code, vars);
    DerivationSound(p, vars);
  }

  /** AND only, with constants strictly inside the range of a `long`. */
  predicate Conjunctive(p: Pred)
  {
    match p
    case Compare(_, l, r) => VariableLeft(p) && LONG_MIN < r.operand.value < LONG_MAX
    case Connect(c, l, r) => c.AndOp? && Conjunctive(l) && Conjunctive(r)
    case Not(_) => false
  }

  lemma LeafExact(rel: RelOp, id: Byte, c: Long, vars: Variables)
    requires id < MAX_VARIABLE_ID && LeafRange(RelCode(rel), c) != Free
    requires LONG_MIN < c < LONG_MAX
    ensures Related(rel, vars[id], c) <==> Admits(LeafRange(RelCode(rel), c), vars[id])
  {
  }

  /** For conjunctions the ranges are exact: they accept precisely what the
      predicate accepts. */
  lemma {:induction false} ConjunctionExact(p: Pred, vars: Variables)
    requires Conjunctive(p) && DeriveTree(p).Derived?
    ensures Accepts(p, vars) <==> Covers(DeriveTree(p).ranges, vars)
    ensures DenotePred(p, vars).Value?
  {
    hide LeafRange, RelCode, Related;
    match p {
      case Compare(rel, l, r) =>
        LeafExact(rel, l.operand.id, r.operand.value, vars);
        assert Covers(DeriveTree(p).ranges, vars) ==> Admits(DeriveTree(p).ranges[l.operand.id], vars[l.operand.id]);
      case Connect(c, l, r) =>
        ConjunctionExact(l, vars);
        ConjunctionExact(r, vars);
        IntersectionCovers(DeriveTree(l).ranges, DeriveTree(r).ranges, vars);
    }
  }

  lemma IntersectionCovers(a: Ranges, b: Ranges, vars: Variables)
    ensures Covers(Combine(AndOp, a, b), vars) <==> Covers(a, vars) && Covers(b, vars)
  {
    var c := Combine(AndOp, a, b);
    forall i | 0 <= i < MAX_VARIABLE_ID
      ensures Admits(c[i], vars[i]) <==> Admits(a[i], vars[i]) && Admits(b[i], vars[i])
    {
    }
  }

  // ----- Exactly when one comparison is derived soundly -----

  /** With the constant on the left the operator is applied the wrong way round, and
      with no variable at all the low byte of a constant is taken for a variable. */
  predicate SoundComparison(rel: RelOp, a: Operand, b: Operand)
  {
    match (a, b)
    case (Variable(_), _) => true
    case (Constant(c), Variable(_)) =>
      (match rel
       case Eq => true
       case Neq => true
       case Ge => c == LONG_MIN || c == LONG_MAX
       case Geq => c == LONG_MIN
       case Le => c == LONG_MIN || c == LONG_MAX
       case Leq => c == LONG_MAX)
    case (Constant(c), Constant(d)) =>
      !Related(rel, c, d) ||
      (match rel
       case Ge => c == LONG_MAX
       case Geq => c == LONG_MIN
       case Le => c == LONG_MIN
       case Leq => c == LONG_MAX
       case _ => false)
  }

  /** A value that refutes an unsound comparison. */
  ghost function Refuting(rel: RelOp, a: Operand, b: Operand): Long
    requires a.Constant?
  {
    var c := a.value;
    if b.Variable? then
      match rel
      case Ge => LONG_MIN
      case Geq => LONG_MIN
      case _ => LONG_MAX
    else
      match rel
      case Eq => if c == 0 then 1 else 0
      case Neq => 0
      case Ge => LONG_MIN
      case Geq => LONG_MIN
      case _ => LONG_MAX
  }

  /** A single comparison that derives a range does so soundly exactly when
      `SoundComparison` holds of its operands. */
  lemma ComparisonSoundIff(rel: RelOp, a: Operand, b: Operand)
    requires DeriveTree(Compare(rel, Leaf(a), Leaf(b))).Derived?
    ensures SoundFor(Compare(rel, Leaf(a), Leaf(b))) <==> SoundComparison(rel, a, b)
  {
    var p := Compare(rel, Leaf(a), Leaf(b));
    var rs := DeriveTree(p).ranges;
    if SoundComparison(rel, a, b) {
      forall vars: Variables | Accepts(p, vars)
        ensures Covers(rs, vars)
      {
      }
    } else {
      var id := if b.Variable? then b.id else LongBits(b.value) % 256;
      var vars: Variables := seq(MAX_VARIABLE_ID, _ => 0)[id := Refuting(rel, a, b)];
      assert Accepts(p, vars);
      assert !Admits(rs[id], vars[id]);
      assert !Covers(rs, vars);
    }
  }

  // ----- Exactly when OR is derived soundly -----

  ghost predicate CanHold(p: Pred)
  {
    exists vars: Variables :: Accepts(p, vars)
  }

  predicate Full(r: Range)
  {
    r.Within? ==> r.min == LONG_MIN && r.max == LONG_MAX
  }

  /** Where `l` says nothing about a variable, the range from `r` leaves nothing out. */
  ghost predicate Harmless(l: Pred, r: Pred)
    requires VariableLeft(l) && VariableLeft(r) && DeriveTree(r).Derived?
  {
    forall i :: 0 <= i < MAX_VARIABLE_ID && i !in Vars(l) && i in Vars(r) ==> Full(DeriveTree(r).ranges[i])
  }

  /** A predicate has a value, and it does not depend on variables it does not compare. */
  lemma {:induction false} OnlyVarsMatter(p: Pred, vars: Variables, i: nat, w: Long)
    requires VariableLeft(p) && DeriveTree(p).Derived? && i < MAX_VARIABLE_ID
    ensures DenotePred(p, vars).Value?
    ensures i !in Vars(p) ==> DenotePred(p, vars[i := w]) == DenotePred(p, vars)
  {
    hide LeafRange, RelCode, Related;
    match p {
      case Compare(_, _, _) =>
      case Connect(_, l, r) =>
        OnlyVarsMatter(l, vars, i, w);
        OnlyVarsMatter(r, vars, i, w);
    }
  }

  /** The derived ranges of an OR admit what one side accepts. */
  lemma SideCovered(l: Pred, r: Pred, vars: Variables)
    requires VariableLeft(l) && VariableLeft(r) && DeriveTree(l).Derived? && DeriveTree(r).Derived?
    requires Covers(DeriveTree(l).ranges, vars) && Harmless(l, r)
    ensures Covers(Combine(OrOp, DeriveTree(l).ranges, DeriveTree(r).ranges), vars)
    ensures Covers(Combine(OrOp, DeriveTree(r).ranges, DeriveTree(l).ranges), vars)
  {
    hide DeriveTree, LeafRange, RelCode;
    forall i | 0 <= i < MAX_VARIABLE_ID
      ensures Admits(Hull(DeriveTree(l).ranges[i], DeriveTree(r).ranges[i]), vars[i])
      ensures Admits(Hull(DeriveTree(r).ranges[i], DeriveTree(l).ranges[i]), vars[i])
    {
      RangesOfVars(l, i);
      RangesOfVars(r, i);
    }
  }

  /** An assignment that `l` accepts and the range `r` left for a variable of its own. */
  lemma SideEscapes(l: Pred, r: Pred) returns (vars: Variables)
    requires VariableLeft(l) && VariableLeft(r) && DeriveTree(l).Derived? && DeriveTree(r).Derived?
    requires CanHold(l) && !Harmless(l, r)
    ensures Accepts(l, vars) && DenotePred(r, vars).Value?
    ensures !Covers(Combine(OrOp, DeriveTree(l).ranges, DeriveTree(r).ranges), vars)
    ensures !Covers(Combine(OrOp, DeriveTree(r).ranges, DeriveTree(l).ranges), vars)
  {
    hide DeriveTree, LeafRange, RelCode, DenotePred;
    var i :| 0 <= i < MAX_VARIABLE_ID && i !in Vars(l) && i in Vars(r) && !Full(DeriveTree(r).ranges[i]);
    var range := DeriveTree(r).ranges[i];
    var w := if range.min == LONG_MIN then LONG_MAX else LONG_MIN;
    vars :| Accepts(l, vars);
    OnlyVarsMatter(l, vars, i, w);
    vars := vars[i := w];
    OnlyVarsMatter(r, vars, i, w);
    RangesOfVars(l, i);
    assert !Admits(range, vars[i]);
    assert Combine(OrOp, DeriveTree(l).ranges, DeriveTree(r).ranges)[i] == range;
    assert Combine(OrOp, DeriveTree(r).ranges, DeriveTree(l).ranges)[i] == range;
  }

  /** OR of two soundly derived sides is derived soundly exactly when no side that can
      hold is cut down by a range the other gives to a variable of its own. */
  lemma OrSoundIff(l: Pred, r: Pred)
    requires VariableLeft(l) && VariableLeft(r) && DeriveTree(l).Derived? && DeriveTree(r).Derived?
    requires SoundFor(l) && SoundFor(r)
    ensures DeriveTree(Connect(OrOp, l, r)).Derived?
    ensures SoundFor(Connect(OrOp, l, r)) <==> (CanHold(l) ==> Harmless(l, r)) && (CanHold(r) ==> Harmless(r, l))
  {
    var p := Connect(OrOp, l, r);
    assert DeriveTree(p) == Derived(Combine(OrOp, DeriveTree(l).ranges, DeriveTree(r).ranges), 0);
    assert forall vars: Variables :: DenotePred(p, vars) == ConnMeaning(OrOp, DenotePred(l, vars), DenotePred(r, vars));
    hide DeriveTree, LeafRange, RelCode, DenotePred, Combine, Covers;
    if (CanHold(l) ==> Harmless(l, r)) && (CanHold(r) ==> Harmless(r, l)) {
      forall vars: Variables | Accepts(p, vars)
        ensures Covers(DeriveTree(p).ranges, vars)
      {
        OnlyVarsMatter(l, vars, 0, 0);
        OnlyVarsMatter(r, vars, 0, 0);
        if Accepts(l, vars) {
          assert CanHold(l) && Covers(DeriveTree(l).ranges, vars);
          SideCovered(l, r, vars);
        } else {
          assert Accepts(r, vars);
          assert CanHold(r) && Covers(DeriveTree(r).ranges, vars);
          SideCovered(r, l, vars);
        }
      }
    } else if CanHold(l) && !Harmless(l, r) {
      var vars := SideEscapes(l, r);
      assert Accepts(p, vars);
    } else {
      var vars := SideEscapes(r, l);
      assert Accepts(p, vars);
    }
  }

  predicate RelCanHold(rel: RelOp, c: Long)
  {
    match rel case Ge => c < LONG_MAX case Le => c > LONG_MIN case _ => true
  }

  /** For two comparisons on different variables: when a side can hold, the range of the
      other must be all of `long`. */
  lemma OrOfTwoVariablesIff(r1: RelOp, x: Byte, c: Long, r2: RelOp, y: Byte, d: Long)
    requires x < MAX_VARIABLE_ID && y < MAX_VARIABLE_ID && x != y && !r1.Neq? && !r2.Neq?
    ensures var p := Connect(OrOp, Compare(r1, Leaf(Variable(x)), Leaf(Constant(c))),
                             Compare(r2, Leaf(Variable(y)), Leaf(Constant(d))));
            && DeriveTree(p).Derived?
            && (SoundFor(p) <==> && (RelCanHold(r1, c) ==> Full(LeafRange(RelCode(r2), d)))
                                 && (RelCanHold(r2, d) ==> Full(LeafRange(RelCode(r1), c))))
  {
    var p := Compare(r1, Leaf(Variable(x)), Leaf(Constant(c)));
    var q := Compare(r2, Leaf(Variable(y)), Leaf(Constant(d)));
    ComparisonRange(r1, x, c);
    ComparisonRange(r2, y, d);
    ComparisonSoundIff(r1, Variable(x), Constant(c));
    ComparisonSoundIff(r2, Variable(y), Constant(d));
    hide LeafRange, RelCode, DeriveTree, SoundFor, CanHold, Full;
    OrSoundIff(p, q);
    assert Harmless(p, q) <==> Full(DeriveTree(q).ranges[y]);
    assert Harmless(q, p) <==> Full(DeriveTree(p).ranges[x]);
  }

  lemma ComparisonRange(rel: RelOp, x: Byte, c: Long)
    requires x < MAX_VARIABLE_ID && !rel.Neq?
    ensures var p := Compare(rel, Leaf(Variable(x)), Leaf(Constant(c)));
            && DeriveTree(p).Derived? && DeriveTree(p).ranges[x] == LeafRange(RelCode(rel), c)
            && (CanHold(p) <==> RelCanHold(rel, c))
  {
    var p := Compare(rel, Leaf(Variable(x)), Leaf(Constant(c)));
    if RelCanHold(rel, c) {
      var v := match rel case Ge => LONG_MAX case Le => LONG_MIN case _ => c;
      var vars: Variables := seq(MAX_VARIABLE_ID, _ => v);
      assert Accepts(p, vars);
    }
  }

  // ----- Exactly when any such predicate is derived soundly -----

  /** What a comparison admits, without the wrap-around of `LeafRange`. */
  function ExactRange(rel: RelOp, c: Long): Range
    requires !rel.Neq?
  {
    match rel
    case Eq => Within(c, c)
    case Ge => if c == LONG_MAX then Within(LONG_MAX, LONG_MIN) else Within(c + 1, LONG_MAX)
    case Geq => Within(c, LONG_MAX)
    case Le => if c == LONG_MIN then Within(LONG_MAX, LONG_MIN) else Within(LONG_MIN, c - 1)
    case Leq => Within(LONG_MIN, c)
  }

  /** The boxes of assignments that `p` is the union of: its disjunctive normal form. */
  function Boxes(p: Pred): set<Ranges>
    requires VariableLeft(p) && DeriveTree(p).Derived?
  {
    match p
    case Compare(rel, l, r) => {NOTHING[l.operand.id := ExactRange(rel, r.operand.value)]}
    case Connect(c, l, r) =>
      if c.AndOp? then set a <- Boxes(l), b <- Boxes(r) :: Combine(AndOp, a, b) else Boxes(l) + Boxes(r)
  }

  ghost predicate InSomeBox(boxes: set<Ranges>, vars: Variables)
  {
    exists box <- boxes :: Covers(box, vars)
  }

  /** The boxes hold exactly what the predicate accepts. */
  lemma {:induction false} BoxesAccept(p: Pred, vars: Variables)
    requires VariableLeft(p) && DeriveTree(p).Derived?
    ensures DenotePred(p, vars).Value?
    ensures Accepts(p, vars) <==> InSomeBox(Boxes(p), vars)
  {
    hide Combine;
    match p {
      case Compare(rel, l, r) =>
        var box: Ranges := NOTHING[l.operand.id := ExactRange(rel, r.operand.value)];
        assert box in Boxes(p);
        assert Covers(box, vars) <==> Admits(box[l.operand.id], vars[l.operand.id]);
      case Connect(c, l, r) =>
        BoxesAccept(l, vars);
        BoxesAccept(r, vars);
        if c.AndOp? { BoxesMeet(Boxes(l), Boxes(r), vars); }
    }
  }

  lemma BoxesMeet(xs: set<Ranges>, ys: set<Ranges>, vars: Variables)
    ensures InSomeBox(set a <- xs, b <- ys :: Combine(AndOp, a, b), vars) <==> InSomeBox(xs, vars) && InSomeBox(ys, vars)
  {
    hide Combine, Covers;
    var both := set a <- xs, b <- ys :: Combine(AndOp, a, b);
    forall a, b | a in xs && b in ys
      ensures Combine(AndOp, a, b) in both && (Covers(Combine(AndOp, a, b), vars) <==> Covers(a, vars) && Covers(b, vars))
    {
      IntersectionCovers(a, b, vars);
    }
    if InSomeBox(both, vars) {
      var box :| box in both && Covers(box, vars);
      var a, b :| a in xs && b in ys && box == Combine(AndOp, a, b);
    }
  }

  predicate Nonempty(box: Ranges)
  {
    forall i :: 0 <= i < MAX_VARIABLE_ID && box[i].Within? ==> box[i].min <= box[i].max
  }

  /** Every value of one side is a value of the range. */
  predicate Inside(side: Range, range: Range)
  {
    Full(range) || (side.Within? && range.min <= side.min && side.max <= range.max)
  }

  predicate BoxInside(box: Ranges, rs: Ranges)
  {
    forall i :: 0 <= i < MAX_VARIABLE_ID ==> Inside(box[i], rs[i])
  }

  function Lowest(r: Range): Long
  {
    if r.Within? then r.min else LONG_MIN
  }

  /** A nonempty box that sticks out of the ranges holds an assignment outside them. */
  lemma BoxSticksOut(box: Ranges, rs: Ranges) returns (vars: Variables)
    requires Nonempty(box) && !BoxInside(box, rs)
    ensures Covers(box, vars) && !Covers(rs, vars)
  {
    var i :| 0 <= i < MAX_VARIABLE_ID && !Inside(box[i], rs[i]);
    var v := if Admits(rs[i], Lowest(box[i])) then (if box[i].Within? then box[i].max else LONG_MAX) else Lowest(box[i]);
    vars := seq(MAX_VARIABLE_ID, k requires 0 <= k < MAX_VARIABLE_ID => Lowest(box[k]))[i := v];
    assert Admits(box[i], vars[i]) && !Admits(rs[i], vars[i]);
  }

  /** Derivation is sound exactly when each nonempty box of the disjunctive normal form
      is inside the derived ranges. */
  lemma SoundIff(p: Pred)
    requires VariableLeft(p) && DeriveTree(p).Derived?
    ensures SoundFor(p) <==> forall box <- Boxes(p) :: Nonempty(box) ==> BoxInside(box, DeriveTree(p).ranges)
  {
    hide Boxes, DeriveTree, Accepts, DenotePred, LeafRange;
    var rs := DeriveTree(p).ranges;
    if box :| box in Boxes(p) && Nonempty(box) && !BoxInside(box, rs) {
      var vars := BoxSticksOut(box, rs);
      BoxesAccept(p, vars);
      assert Accepts(p, vars) && !Covers(rs, vars);
    } else {
      forall vars: Variables | Accepts(p, vars)
        ensures Covers(rs, vars)
      {
        BoxesAccept(p, vars);
        var box :| box in Boxes(p) && Covers(box, vars);
        BoxCovered(box, rs, vars);
      }
    }
  }

  lemma BoxCovered(box: Ranges, rs: Ranges, vars: Variables)
    requires Covers(box, vars)
    ensures Nonempty(box)
    ensures BoxInside(box, rs) ==> Covers(rs, vars)
  {
    forall i | 0 <= i < MAX_VARIABLE_ID
      ensures box[i].Within? ==> box[i].min <= box[i].max
      ensures BoxInside(box, rs) ==> Admits(rs[i], vars[i])
    {
      assert Admits(box[i], vars[i]);
    }
  }


  /** The union of two ranges is the least range that holds them both, and their
      intersection the greatest that both hold. */
  lemma CombinedTightly(a: Range, b: Range, c: Range)
    requires a.Within? && b.Within? && c.Within?
    ensures Inside(a, c) && Inside(b, c) <==> Inside(Hull(a, b), c)
    ensures a.min <= a.max && b.min <= b.max ==> Inside(a, Hull(a, b)) && Inside(b, Hull(a, b))
    ensures forall v: Long :: Admits(Intersect(a, b), v) <==> Admits(a, v) && Admits(b, v)
  {
  }
}
