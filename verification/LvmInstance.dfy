/** The logic engine as the program holds it: one code buffer that is written in
    place by the emission functions and run by the evaluator.
 */
module LvmInstance {
  import opened Machine
  import opened LvmCode
  import opened LvmEval

  const MAX_NAME_LENGTH: nat := 16

  /** A variable name short enough to be stored whole. */
  type Name = s: string | 0 < |s| <= MAX_NAME_LENGTH witness "a"

  /** The registered names, in order of registration. */
  type Table = t: seq<Name> | |t| <= MAX_VARIABLE_ID witness []

  /** `lookup`: the first slot that holds `n`, or the number of registered names. */
  function IndexOf(t: Table, n: Name): (i: Byte)
    ensures i <= |t|
    ensures i < |t| <==> n in t
    ensures i < |t| ==> t[i] == n
  {
    if t == [] then 0 else if t[0] == n then 0 else 1 + IndexOf(t[1..], n)
  }

  lemma {:induction false} IndexOfStable(t: Table, u: Table, n: Name)
    requires t <= u && n in t
    ensures IndexOf(u, n) == IndexOf(t, n)
  {
    if t[0] != n {
      assert t[1..] <= u[1..];
      IndexOfStable(t[1..], u[1..], n);
    }
  }

  /** `lvm_register_variable` when the table has room. */
  function Register(t: seq<Name>, n: Name): seq<Name>
  {
    if n in t then t else t + [n]
  }

  /** Registering keeps the names apart, and a second time it changes nothing. */
  lemma NamesStayApart(t: Table, n: Name)
    requires forall j, k :: 0 <= j < k < |t| ==> t[j] != t[k]
    ensures var r := Register(t, n);
            && (forall j, k :: 0 <= j < k < |r| ==> r[j] != r[k])
            && (forall m :: m in r <==> m in t || m == n)
            && Register(r, n) == r
  {
  }

  class Instance {
    const code: array<Byte>
    var end: nat
    var ip: nat
    var error: bool
    var names: Table
    var values: Variables

    ghost predicate Valid()
      reads this
    {
      end <= code.Length
    }

    /** `lvm_reset`. */
    constructor (size: nat)
      ensures Valid() && code.Length == size && fresh(code)
      ensures end == 0 && ip == 0 && !error && names == []
    {
      code := new Byte[size](_ => 0);
      end, ip, error := 0, 0, false;
      names, values := [], seq(MAX_VARIABLE_ID, _ => 0);
    }

    // ----- Emission -----

    /** `lvm_jump_to_operand`: reserves an operator node. */
    method JumpToOperand() returns (oldEnd: nat)
      requires Valid()
      modifies this`end, this`error
      ensures Valid() && oldEnd == old(end)
      ensures end == (if old(end) + OP_NODE < code.Length then old(end) + OP_NODE else old(end))
      ensures error == (old(error) || old(end) + OP_NODE >= code.Length)
    {
      oldEnd := end;
      if end + OP_NODE >= code.Length {
        error := true;
      } else {
        end := end + OP_NODE;
      }
    }

    /** `lvm_set_end`. */
    method SetEnd(e: nat) returns (oldEnd: nat)
      requires Valid()
      modifies this`end, this`error
      ensures Valid() && oldEnd == old(end)
      ensures end == (if e < code.Length then e else old(end))
      ensures error == (old(error) || e >= code.Length)
    {
      oldEnd := end;
      if e >= code.Length {
        error := true;
        return;
      }
      end := e;
    }

    /** `lvm_shift_for_operator`: moves the code from `at` on up by one operator
        node and leaves `end` at the gap. The C bound check counts the operator but
        not its tag, so the caller must leave room for both. */
    method ShiftForOperator(at: nat) returns (newEnd: nat)
      requires Valid() && end + OP_NODE <= code.Length
      modifies this`end, this`error, code
      ensures Valid()
      ensures at >= old(end) ==> newEnd == 0 && error && end == old(end) && code[..] == old(code[..])
      ensures at < old(end) ==>
                && newEnd == old(end) + OP_NODE && end == at && error == old(error)
                && code[..at] == old(code[..at])
                && code[at + OP_NODE..newEnd] == old(code[at..end])
    {
      var oldEnd := end;
      if end + OPERATOR_SIZE > code.Length || at >= oldEnd {
        error := true;
        return 0;
      }
      forall i | at + OP_NODE <= i < oldEnd + OP_NODE {
        code[i] := code[i - OP_NODE];
      }
      end := at;
      newEnd := oldEnd + OP_NODE;
    }

    /** `memcpy` of an object to the end of the code. */
    method Put(bytes: seq<Byte>)
      requires Valid() && end + |bytes| <= code.Length
      modifies this`end, code
      ensures Valid() && end == old(end) + |bytes|
      ensures code[..old(end)] == old(code[..end])
      ensures code[old(end)..end] == bytes
      ensures code[end..] == old(code[end + |bytes|..])
    {
      forall i | 0 <= i < |bytes| {
        code[end + i] := bytes[i];
      }
      end := end + |bytes|;
    }

    /** The sequence both parsers use to put an operator in front of code that is
        already there: shift, write the node into the gap, restore the end. */
    method InsertNode(at: nat, node: seq<Byte>) returns (newEnd: nat)
      requires Valid() && at < end && end + OP_NODE < code.Length && |node| == OP_NODE
      modifies this`end, this`error, code
      ensures Valid() && newEnd == end == old(end) + OP_NODE && error == old(error)
      ensures code[..end] == old(code[..at]) + node + old(code[at..end])
    {
      newEnd := ShiftForOperator(at);
      ghost var moved := code[at + OP_NODE..];
      Put(node);
      assert code[end..newEnd] == moved[..newEnd - end];
      var _ := SetEnd(newEnd);
      assert code[..end] == code[..at] + code[at..at + OP_NODE] + code[at + OP_NODE..end];
    }

    /** Fills a reserved node and moves the end back behind the code emitted after it. */
    method FillNode(node: seq<Byte>, e: nat)
      requires Valid() && |node| == OP_NODE && end + OP_NODE <= e < code.Length
      modifies this`end, this`error, code
      ensures Valid() && end == e && error == old(error)
      ensures code[..e] == old(code[..end]) + node + old(code[end + OP_NODE..e])
    {
      ghost var at, tail := end, code[end + OP_NODE..];
      Put(node);
      var _ := SetEnd(e);
      assert code[at + OP_NODE..e] == tail[..e - at - OP_NODE];
      assert code[..e] == code[..at] + code[at..at + OP_NODE] + code[at + OP_NODE..e];
    }

    // ----- Variables -----

    /** `lvm_register_variable`. */
    method RegisterVariable(n: Name) returns (ok: bool)
      modifies this`names
      ensures ok <==> n in old(names) || |old(names)| < MAX_VARIABLE_ID
      ensures names == if ok then Register(old(names), n) else old(names)
    {
      var id := IndexOf(names, n);
      if id == MAX_VARIABLE_ID {
        return false;
      }
      if id == |names| {
        names := names + [n];
      }
      return true;
    }

    /** `lvm_set_variable_value`: an unregistered name writes the first free slot. */
    method SetVariableValue(n: Name, v: Long) returns (ok: bool)
      modifies this`values
      ensures ok <==> IndexOf(names, n) < MAX_VARIABLE_ID
      ensures ok ==> values == old(values)[IndexOf(names, n) := v]
      ensures !ok ==> values == old(values)
    {
      var id := IndexOf(names, n);
      if id == MAX_VARIABLE_ID {
        return false;
      }
      values := values[id := v];
      return true;
    }

    // ----- Evaluation -----

    method EvalArgument() returns (r: Meaning<Long>)
      modifies this`ip
      ensures match RunArgument(code[..], old(ip), values)
              case Ok(v, next) => r == Value(v) && ip == next
              case Error(e) => r == Fails(e)
      decreases code.Length - ip, 1
    {
      if ip + TYPE_SIZE > code.Length { return Fails(OutOfBounds); }
      var tag := FetchEnum(code[..], ip);
      ip := ip + TYPE_SIZE;
      if tag == ARITH_OP {
        if ip + OPERATOR_SIZE > code.Length { return Fails(OutOfBounds); }
        var op := FetchEnum(code[..], ip);
        ip := ip + OPERATOR_SIZE;
        r := EvalExpr(op);
      } else if tag == OPERAND {
        if ip + OPERAND_SIZE > code.Length { return Fails(OutOfBounds); }
        r := OperandToLong(FetchOperand(code[..], ip), values);
        ip := ip + OPERAND_SIZE;
      } else {
        r := Fails(SemanticError);
      }
    }

    method EvalExpr(op: nat) returns (r: Meaning<Long>)
      modifies this`ip
      ensures match RunExpr(code[..], old(ip), op, values)
              case Ok(v, next) => r == Value(v) && ip == next
              case Error(e) => r == Fails(e)
      decreases code.Length - ip, 2
    {
      r := EvalArgument();
      if r.Fails? { return; }
      var a := r.v;
      r := EvalArgument();
      if r.Fails? { return; }
      r := ApplyArith(op, a, r.v);
    }

    method EvalClause() returns (r: Meaning<bool>)
      modifies this`ip
      ensures match RunClause(code[..], old(ip), values)
              case Ok(v, next) => r == Value(v) && ip == next
              case Error(e) => r == Fails(e)
      decreases code.Length - ip, 3
    {
      if ip + TYPE_SIZE > code.Length { return Fails(OutOfBounds); }
      var tag := FetchEnum(code[..], ip);
      ip := ip + TYPE_SIZE;
      if tag != CMP_OP { return Fails(SemanticError); }
      if ip + OPERATOR_SIZE > code.Length { return Fails(OutOfBounds); }
      var op := FetchEnum(code[..], ip);
      ip := ip + OPERATOR_SIZE;
      r := EvalLogic(op);
    }

    method EvalLogic(op: nat) returns (r: Meaning<bool>)
      modifies this`ip
      ensures match RunLogic(code[..], old(ip), op, values)
              case Ok(v, next) => r == Value(v) && ip == next
              case Error(e) => r == Fails(e)
      decreases code.Length - ip, 4
    {
      if IsConnective(op) {
        r := EvalClause();
        if r.Fails? { return; }
        var p := r.v;
        if op == NOT_CODE { return Value(!p); }
        r := EvalClause();
        if r.Fails? { return; }
        r := Value(if op == ConnCode(AndOp) then p && r.v else p || r.v);
      } else {
        var x := EvalArgument();
        if x.Fails? { return Fails(x.why); }
        var y := EvalArgument();
        if y.Fails? { return Fails(y.why); }
        r := ApplyRel(op, x.v, y.v);
      }
    }

    /** `lvm_execute`. */
    method Execute() returns (r: Meaning<bool>)
      modifies this`ip
      ensures match Run(code[..], values)
              case Ok(v, next) => r == Value(v) && ip == next
              case Error(e) => r == Fails(e)
    {
      ip := 0;
      if ip + TYPE_SIZE > code.Length { return Fails(OutOfBounds); }
      var tag := FetchEnum(code[..], ip);
      ip := ip + TYPE_SIZE;
      if tag != CMP_OP { return Fails(ExecutionError); }
      if ip + OPERATOR_SIZE > code.Length { return Fails(OutOfBounds); }
      var op := FetchEnum(code[..], ip);
      ip := ip + OPERATOR_SIZE;
      r := EvalLogic(op);
    }
  }
}
