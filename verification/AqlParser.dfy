/** The code generator of the AQL parser: `parse_operand`, `parse_expr`,
    `parse_comparison` and `parse_where`, which emit into one buffer as they read.
 */
module AqlParser {
  import opened Machine
  import opened LvmCode
  import opened LvmEval
  import opened LvmInstance
  import opened AqlSyntax
  import opened AqlGroups

  /** Bytes that the tokens from `pos` on can still claim: each connective also
      announces a comparison, whose operator node is reserved before it is read. */
  function Reserve(ts: seq<Token>, pos: nat): nat
    decreases |ts| - pos
  {
    if pos >= |ts| then 0 else
    (match ts[pos]
     case Ident(_) => OPERAND_NODE
     case Int(_) => OPERAND_NODE
     case ArithTok(_) => OP_NODE
     case ConnTok(_) => OP_NODE + OP_NODE
     case _ => 0) + Reserve(ts, pos + 1)
  }

  /** The names from `pos` on fit in the variable table behind those in `t`. */
  predicate Room(t: seq<Name>, ts: seq<Token>, pos: nat)
    decreases |ts| - pos
  {
    if pos >= |ts| then |t| <= MAX_VARIABLE_ID
    else if ts[pos].Ident? then Room(Register(t, ts[pos].name), ts, pos + 1)
    else Room(t, ts, pos + 1)
  }

  lemma {:induction false} RoomNow(t: seq<Name>, ts: seq<Token>, pos: nat)
    requires Room(t, ts, pos)
    ensures |t| <= MAX_VARIABLE_ID
    decreases |ts| - pos
  {
    if pos < |ts| {
      RoomNow(if ts[pos].Ident? then Register(t, ts[pos].name) else t, ts, pos + 1);
    }
  }

  /** The chain read so far, continued by the links still to be read. */
  ghost function Resume(head: Item, links: seq<Link>, r: Read<seq<Link>>): Read<Chain>
  {
    match r
    case Bad => Bad
    case Done(more, p) => Done(Chain(head, links + more), p)
  }

  lemma ResumeStart(ts: seq<Token>, pos: nat)
    ensures match ReadHead(ts, pos)
            case Bad => ReadChain(ts, pos) == Bad
            case Done(head, p) => ReadChain(ts, pos) == Resume(head, [], ReadLinks(ts, p))
  {
    var r := ReadHead(ts, pos);
    if r.Done? && ReadLinks(ts, r.pos).Done? {
      assert [] + ReadLinks(ts, r.pos).value == ReadLinks(ts, r.pos).value;
    }
  }

  lemma ResumeStep(head: Item, links: seq<Link>, ts: seq<Token>, pos: nat)
    requires pos < |ts| && ts[pos].ArithTok?
    ensures match ReadItem(ts, pos + 1)
            case Bad => Resume(head, links, ReadLinks(ts, pos)) == Bad
            case Done(i, p) => Resume(head, links, ReadLinks(ts, pos)) ==
                               Resume(head, links + [Link(ts[pos].op, i)], ReadLinks(ts, p))
  {
    var r := ReadItem(ts, pos + 1);
    if r.Done? && ReadLinks(ts, r.pos).Done? {
      var l, more := Link(ts[pos].op, r.value), ReadLinks(ts, r.pos).value;
      assert links + ([l] + more) == (links + [l]) + more;
    }
  }

  lemma ResumeEnd(head: Item, links: seq<Link>, ts: seq<Token>, pos: nat)
    requires pos <= |ts| && !At(ts, pos).ArithTok?
    ensures Resume(head, links, ReadLinks(ts, pos)) ==
            Done(Chain(head, links), if At(ts, pos) == RightParen then pos + 1 else pos)
  {
    assert links + [] == links;
  }

  lemma BytesNonEmpty(ns: seq<Node>)
    requires |ns| >= 1
    ensures |Bytes(ns)| >= OP_NODE
  {
  }

  lemma LeafCode(i: Item, o: Operand, t: Table)
    requires ItemNodes(i, t) == [Val(o)]
    ensures ItemCode(i, t) == OperandNode(o)
  {
    BytesCons(Val(o), []);
    assert [Val(o)] + [] == [Val(o)];
  }

  lemma HeadOnly(head: Item, t: Table)
    ensures ChainIn(Chain(head, []), t) <==> ItemIn(head, t)
    ensures ChainCode(Chain(head, []), t) == ItemCode(head, t)
    ensures |ItemCode(head, t)| >= OP_NODE
  {
    BytesNonEmpty(ItemNodes(head, t));
  }

  /** One more link: the insertion point for the first operator is the start of the
      head, for every later one the end of the chain so far. */
  lemma InsertLink(start: seq<Byte>, head: Item, links: seq<Link>, l: Link, t: Table)
    requires ChainIn(Chain(head, links), t) && ItemIn(l.item, t)
    ensures ChainIn(Chain(head, links + [l]), t)
    ensures var chain := ChainCode(Chain(head, links), t);
            var s := start + chain + ItemCode(l.item, t);
            var at := if links == [] then |start| else |start + chain|;
            && at < |s|
            && s[..at] + OpNode(ARITH_OP, ArithCode(l.op)) + s[at..] ==
               start + ChainCode(Chain(head, links + [l]), t)
  {
    hide ChainCode, ItemCode, OpNode, ItemIn;
    HeadOnly(head, t);
    HeadOnly(l.item, t);
    ChainCodeSnoc(head, links, l, t);
    var chain, item := ChainCode(Chain(head, links), t), ItemCode(l.item, t);
    var s := start + chain + item;
    if links == [] {
      assert s[..|start|] == start && s[|start|..] == chain + item;
    } else {
      assert s[..|start + chain|] == start + chain && s[|start + chain|..] == item;
    }
  }

  lemma NonEmptyComparison(c: Comparison, t: Table)
    ensures |ComparisonCode(c, t)| >= OP_NODE
  {
  }

  class Parser {
    const tokens: seq<Token>
    const vm: Instance
    var pos: nat

    constructor (ts: seq<Token>, size: nat)
      ensures tokens == ts && pos == 0 && fresh(vm) && fresh(vm.code)
      ensures Valid() && vm.code.Length == size && vm.end == 0 && vm.names == [] && !vm.error
    {
      tokens := ts;
      pos := 0;
      vm := new Instance(size);
    }

    ghost predicate Valid()
      reads this, vm
    {
      vm.Valid() && pos <= |tokens|
    }

    /** Everything still to come fits, with `slack` bytes to spare. */
    ghost predicate Fits(slack: nat)
      reads this, vm
    {
      && vm.end + slack + Reserve(tokens, pos) < vm.code.Length
      && Room(vm.names, tokens, pos)
    }

    method Next() returns (t: Token)
      requires Valid()
      modifies this`pos
      ensures Valid() && t == At(tokens, old(pos)) && pos == After(tokens, old(pos))
    {
      t := At(tokens, pos);
      pos := After(tokens, pos);
    }

    /** `parse_operand`. */
    method ParseOperand(ghost slack: nat) returns (ok: bool)
      requires Valid() && Fits(slack)
      modifies this`pos, vm`end, vm`names, vm.code
      ensures Valid() && Fits(slack) && pos == After(tokens, old(pos))
      ensures ok <==> ReadOperand(tokens, old(pos)).Done?
      ensures old(vm.names) <= vm.names
      ensures ok ==> var i := ReadOperand(tokens, old(pos)).value;
                     && ItemIn(i, vm.names)
                     && vm.code[..vm.end] == old(vm.code[..vm.end]) + ItemCode(i, vm.names)
      ensures !ok ==> vm.end == old(vm.end) && vm.names == old(vm.names) && vm.code[..] == old(vm.code[..])
    {
      hide OperandNode, Bytes, ItemCode;
      var t := Next();
      match t {
        case Ident(n) =>
          RoomNow(Register(vm.names, n), tokens, pos);
          var _ := vm.RegisterVariable(n);
          var o := Variable(IndexOf(vm.names, n));
          LeafCode(Column(n), o, vm.names);
          vm.Put(OperandNode(o));
          ok := true;
        case Int(v) =>
          LeafCode(Number(v), Constant(v), vm.names);
          vm.Put(OperandNode(Constant(v)));
          ok := true;
        case _ =>
          ok := false;
      }
    }

    /** The first part of `parse_expr`: a bracketed chain or an operand. */
    method ParseHead(ghost slack: nat) returns (ok: bool)
      requires Valid() && Fits(slack)
      modifies this`pos, vm`end, vm`error, vm`names, vm.code
      ensures Valid()
      ensures ok <==> ReadHead(tokens, old(pos)).Done?
      ensures ok ==> var r := ReadHead(tokens, old(pos));
                     && pos == r.pos && Fits(slack) && vm.error == old(vm.error)
                     && old(vm.names) <= vm.names && ItemIn(r.value, vm.names)
                     && vm.code[..vm.end] == old(vm.code[..vm.end]) + ItemCode(r.value, vm.names)
      decreases |tokens| - pos, 0
    {
      var before := pos;
      var t := Next();
      if t == LeftParen {
        ok := ParseChain(slack);
        if !ok { return; }
        t := Next();
        ok := t == RightParen;
      } else {
        pos := before;
        ok := ParseOperand(slack);
      }
    }

    /** The item after an operator: `!PARSE(operand) && !PARSE(expr)`, where the
        second attempt starts behind the token that failed the first. */
    method ParseItem(ghost slack: nat) returns (ok: bool)
      requires Valid() && Fits(slack)
      modifies this`pos, vm`end, vm`error, vm`names, vm.code
      ensures Valid()
      ensures ok <==> ReadItem(tokens, old(pos)).Done?
      ensures ok ==> var r := ReadItem(tokens, old(pos));
                     && pos == r.pos && Fits(slack) && vm.error == old(vm.error)
                     && old(vm.names) <= vm.names && ItemIn(r.value, vm.names)
                     && vm.code[..vm.end] == old(vm.code[..vm.end]) + ItemCode(r.value, vm.names)
      decreases |tokens| - pos, 2
    {
      var before := pos;
      ok := ParseOperand(slack);
      if !ok {
        if before == |tokens| { return; }  // no token left to skip: the chain has none to read either
        ok := ParseChain(slack);
      }
    }

    /** `parse_expr`. */
    method ParseChain(ghost slack: nat) returns (ok: bool)
      requires Valid() && Fits(slack)
      modifies this`pos, vm`end, vm`error, vm`names, vm.code
      ensures Valid()
      ensures ok <==> ReadChain(tokens, old(pos)).Done?
      ensures ok ==> var r := ReadChain(tokens, old(pos));
                     && pos == r.pos && Fits(slack) && vm.error == old(vm.error)
                     && old(vm.names) <= vm.names && ChainIn(r.value, vm.names)
                     && vm.code[..vm.end] == old(vm.code[..vm.end]) + ChainCode(r.value, vm.names)
      decreases |tokens| - pos, 1
    {
      hide ChainCode, ItemCode, OpNode, ChainNodes, ItemNodes, ChainIn, ItemIn, Bytes;
      hide ReadChain, ReadHead, ReadItem, ReadLinks, Resume;
      var saved := vm.end;
      ghost var start := vm.code[..vm.end];
      ResumeStart(tokens, pos);
      ok := ParseHead(slack);
      if !ok { return; }
      ghost var head := ReadHead(tokens, old(pos)).value;
      ghost var links: seq<Link> := [];
      HeadOnly(head, vm.names);
      while true
        invariant Valid() && Fits(slack) && old(pos) < pos && vm.error == old(vm.error) && ok
        invariant old(vm.names) <= vm.names && ChainIn(Chain(head, links), vm.names)
        invariant vm.code[..vm.end] == start + ChainCode(Chain(head, links), vm.names)
        invariant saved == (if links == [] then |start| else vm.end)
        invariant ReadChain(tokens, old(pos)) == Resume(head, links, ReadLinks(tokens, pos))
        decreases |tokens| - pos
      {
        var before := pos;
        ghost var namesBefore := vm.names;
        var t := Next();
        match t {
          case ArithTok(op) =>
            ResumeStep(head, links, tokens, before);
            ok := ParseItem(slack + OP_NODE);
            if !ok { return; }
            ghost var l := Link(op, ReadItem(tokens, before + 1).value);
            ChainStable(Chain(head, links), namesBefore, vm.names);
            InsertLink(start, head, links, l, vm.names);
            ghost var s := vm.code[..vm.end];
            assert s[..saved] == vm.code[..saved] && s[saved..] == vm.code[saved..vm.end];
            saved := vm.InsertNode(saved, OpNode(ARITH_OP, ArithCode(op)));
            links := links + [l];
          case RightParen =>
            ResumeEnd(head, links, tokens, before);
            return;
          case _ =>
            ResumeEnd(head, links, tokens, before);
            saved := vm.end;
            pos := before;
            return;
        }
      }
    }

    /** The first half of `parse_comparison`: a node is reserved, the left side emitted
        behind it, and the end set back to the reserved node. */
    method ParseLeft(ghost slack: nat) returns (ok: bool, saved: nat)
      requires Valid() && Fits(slack + OP_NODE)
      modifies this`pos, vm`end, vm`error, vm`names, vm.code
      ensures Valid()
      ensures ok <==> ReadChain(tokens, old(pos)).Done?
      ensures ok ==> var r := ReadChain(tokens, old(pos));
                     && pos == r.pos && vm.end == old(vm.end) && vm.error == old(vm.error)
                     && old(vm.names) <= vm.names && ChainIn(r.value, vm.names) && Room(vm.names, tokens, pos)
                     && vm.end + OP_NODE <= saved && saved + slack + Reserve(tokens, pos) < vm.code.Length
                     && vm.code[..vm.end] == old(vm.code[..vm.end])
                     && vm.code[vm.end + OP_NODE..saved] == ChainCode(r.value, vm.names)
    {
      hide ChainCode, ChainIn, ReadChain, Reserve, Room;
      ghost var start := vm.code[..vm.end];
      var at := vm.JumpToOperand();
      ghost var reserved := vm.code[..vm.end];
      ok := ParseChain(slack);
      saved := 0;
      if !ok { return; }
      ghost var after := vm.code[..vm.end];
      assert after[..|start|] == reserved[..|start|] == start;
      assert after[|start| + OP_NODE..] == ChainCode(ReadChain(tokens, old(pos)).value, vm.names);
      saved := vm.SetEnd(at);
    }

    /** `parse_comparison`: reserves the operator node, emits the left side behind
        it, goes back to fill the node in, and emits the right side at the end. */
    method ParseComparison(ghost slack: nat) returns (ok: bool)
      requires Valid() && Fits(slack + OP_NODE)
      modifies this`pos, vm`end, vm`error, vm`names, vm.code
      ensures Valid()
      ensures ok <==> ReadComparison(tokens, old(pos)).Done?
      ensures ok ==> var r := ReadComparison(tokens, old(pos));
                     && pos == r.pos && Fits(slack) && vm.error == old(vm.error)
                     && old(vm.names) <= vm.names && ComparisonIn(r.value, vm.names)
                     && vm.code[..vm.end] == old(vm.code[..vm.end]) + ComparisonCode(r.value, vm.names)
    {
      hide ChainCode, OpNode, ChainIn, ReadChain;
      ghost var start := vm.code[..vm.end];
      var saved;
      ok, saved := ParseLeft(slack);
      if !ok { return; }
      ghost var l, namesLeft := ReadChain(tokens, old(pos)), vm.names;
      ghost var left := ChainCode(l.value, namesLeft);
      var t := Next();
      if !t.CmpTok? { return false; }
      var node := OpNode(CMP_OP, RelCode(t.rel));
      vm.FillNode(node, saved);
      assert vm.code[..vm.end] == start + node + left;
      ok := ParseChain(slack);
      if !ok { return; }
      ChainStable(l.value, namesLeft, vm.names);
      ghost var right := ChainCode(ReadChain(tokens, l.pos + 1).value, vm.names);
      assert start + node + left + right == start + (node + left + right);
    }

    /** What `parse_where` does with a connective: it goes in at `saved`, and a comparison
        or a bracketed sub-clause follows. After a sub-clause that returns 0 the parser goes
        on, which is not followed here. */
    method ParseArm(conn: Connective, saved: nat) returns (status: ReturnCode, next: nat)
      requires Valid() && Fits(OP_NODE + OP_NODE) && saved < vm.end
      modifies this`pos, vm`end, vm`error, vm`names, vm.code
      ensures Valid() && status == CodeOfReading(ReadArm(tokens, old(pos)))
      ensures status.CodeOk? ==>
                var r := ReadArm(tokens, old(pos));
                && pos == r.pos && Fits(0) && vm.error == old(vm.error) && next < vm.end
                && old(vm.names) <= vm.names && PartIn(Part(conn, r.value), vm.names)
                && Emitted(vm.code[..vm.end], next) == EmitPart(Emitted(old(vm.code[..vm.end]), saved), Part(conn, r.value), vm.names)
      decreases |tokens| - pos, 0
    {
      hide ComparisonCode, OpNode, ComparisonIn, ReadComparison, ReadClause, ClauseIn, EmitClause;
      next := vm.InsertNode(saved, OpNode(CMP_OP, ConnCode(conn)));
      ghost var code := vm.code[..vm.end];
      assert code == Insert(old(vm.code[..vm.end]), saved, OpNode(CMP_OP, ConnCode(conn)));
      var before := pos;
      var t := Next();
      if t == LeftParen {
        status := ParseWhere();
        if status.CodeOk? {
          t := Next();
          if t != RightParen { return CodeSyntaxError, next; }
        } else if status.CodeZero? {
          status := CodeUnknown;
        }
      } else {
        pos := before;
        var ok := ParseComparison(0);
        status := if ok then CodeOk else CodeZero;
        if ok { NonEmptyComparison(ReadComparison(tokens, before).value, vm.names); }
      }
    }

    /** `parse_where`, for a whole clause or a sub-clause: it leaves what the grammar says
        behind, and in front of, the code there is. */
    method ParseWhere() returns (status: ReturnCode)
      requires Valid() && Fits(OP_NODE)
      modifies this`pos, vm`end, vm`error, vm`names, vm.code
      ensures Valid() && status == CodeOfReading(ReadClause(tokens, old(pos)))
      ensures status.CodeOk? ==>
                var r := ReadClause(tokens, old(pos));
                && pos == r.pos && Fits(0) && vm.error == old(vm.error)
                && old(vm.names) <= vm.names && ClauseIn(r.value, vm.names)
                && vm.code[..vm.end] == EmitClause(old(vm.code[..vm.end]), r.value, vm.names)
      decreases |tokens| - pos, 1
    {
      hide ComparisonCode, OpNode, ComparisonIn, ReadComparison, EmitPart, PartIn, ReadArm, ReadParts, Prefixed, Begun, CodeOfReading;
      ghost var start := vm.code[..vm.end];
      var ok := ParseComparison(0);
      if !ok {
        FirstFails(tokens, old(pos));
        return CodeSyntaxError;
      }
      ghost var c := ReadComparison(tokens, old(pos)).value;
      ghost var first, done: seq<Part> := start + ComparisonCode(c, vm.names), [];
      NonEmptyComparison(c, vm.names);
      PrefixedNone(ReadParts(tokens, pos));
      var saved: nat := 0;
      while true
        invariant Valid() && Fits(0) && vm.error == old(vm.error) && old(vm.names) <= vm.names && old(pos) < pos
        invariant ComparisonIn(c, vm.names) && PartsIn(done, vm.names) && first == start + ComparisonCode(c, vm.names)
        invariant saved < vm.end && Emitted(vm.code[..vm.end], saved) == EmitParts(first, done, vm.names)
        invariant ReadClause(tokens, old(pos)) == Begun(c, Prefixed(done, ReadParts(tokens, pos)))
        decreases |tokens| - pos
      {
        hide EmitParts, PartsIn;
        var before := pos;
        PartsContinue(tokens, before, done);
        CodeOfBegun(c, Prefixed(done, ReadParts(tokens, before)));
        var t := Next();
        if !t.ConnTok? {
          pos := before;
          EndOfClause(c, done, pos);
          return CodeOk;
        }
        ghost var namesBefore := vm.names;
        status, saved := ParseArm(t.conn, saved);
        OkMeansGot(ReadArm(tokens, before + 1));
        if !status.CodeOk? { return; }
        ghost var part := Part(t.conn, ReadArm(tokens, before + 1).value);
        ComparisonStable(c, namesBefore, vm.names);
        PartsStable(done, namesBefore, vm.names, first);
        EmitPartsSnoc(first, done, part, vm.names);
        PartsInSnoc(done, part, vm.names);
        done := done + [part];
      }
    }
  }

  lemma FirstFails(ts: seq<Token>, pos: nat)
    requires ReadComparison(ts, pos).Bad?
    ensures CodeOfReading(ReadClause(ts, pos)) == CodeSyntaxError
  {
  }

  lemma EndOfClause(c: Comparison, parts: seq<Part>, pos: nat)
    ensures Begun(c, Got(parts, pos)) == Got(Clause(c, parts), pos) && CodeOfReading(Got(Clause(c, parts), pos)) == CodeOk
  {
  }

  lemma OkMeansGot<T>(r: Reading<T>)
    ensures CodeOfReading(r).CodeOk? <==> r.Got?
  {
  }

  /** What an execution says. */
  function Result(o: Outcome<bool>): Meaning<bool>
  {
    match o case Ok(v, _) => Value(v) case Error(e) => Fails(e)
  }

  lemma ExpectedOutcome(m: Meaning<bool>, ip: nat, len: nat)
    ensures Result(Expected(m, ip, len)) == m
  {
  }

  /** `r` is what the clause runs as on the row, whatever slots its names have. */
  ghost predicate RunsOn(clause: Clause, env: Env, r: Meaning<bool>)
    requires GroupLast(clause)
  {
    exists t: Table, vars: Variables ::
      ClauseIn(clause, t) && Represents(t, vars, env) && r == DenotePred(RunsAs([], clause, t), vars)
  }

  lemma RunsOnIntro(clause: Clause, code: seq<Byte>, t: Table, vars: Variables, env: Env)
    requires GroupLast(clause) && ClauseIn(clause, t) && Represents(t, vars, env)
    requires Holds(code, 0, EmitClause([], clause, t))
    ensures RunsOn(clause, env, Result(Run(code, vars)))
  {
    hide Run, EmitClause, PredCode, DenotePred, Represents, ClauseIn, Expected;
    EmitsRunsAs([], clause, t);
    ExecuteDenotes(RunsAs([], clause, t), code, vars);
    ExpectedOutcome(DenotePred(RunsAs([], clause, t), vars), 0, |PredCode(RunsAs([], clause, t))|);
  }

  lemma FlatRuns(ts: seq<Token>, code: seq<Byte>, t: Table, vars: Variables, env: Env)
    requires NoGroups(ts) && ReadClause(ts, 0).Got? && ReadWhere(ts, 0).Parsed? && SimpleWhere(ReadWhere(ts, 0).w)
    requires ClauseIn(ReadClause(ts, 0).value, t) && Represents(t, vars, env)
    requires Holds(code, 0, EmitClause([], ReadClause(ts, 0).value, t))
    ensures Result(Run(code, vars)) == WhereMeaning(ReadWhere(ts, 0).w, env)
  {
    hide Run, EmitClause, WhereMeaning, Represents, Expected, ReadClause, ReadWhere, WhereCode, WhereIn, ClauseIn, NoGroups, SimpleWhere;
    var w := ReadWhere(ts, 0).w;
    FlatRead(ts, 0);
    FlatEmits(w, t);
    FlatIn(w, t);
    CompiledWhereMeans(w, code, t, vars, env);
    ExpectedOutcome(WhereMeaning(w, env), 0, |WhereCode(w, t)|);
  }

  /** The attribute values of the row put into the variables. */
  method LoadRow(vm: Instance, env: Env)
    modifies vm`values
    ensures Represents(vm.names, vm.values, env)
  {
    var i := 0;
    while i < |vm.names|
      invariant i <= |vm.names|
      invariant forall j :: 0 <= j < i ==> vm.values[IndexOf(vm.names, vm.names[j])] == env(vm.names[j])
    {
      var _ := vm.SetVariableValue(vm.names[i], env(vm.names[i]));
      i := i + 1;
    }
  }

  /** One selection test: compile the clause, load the row's attribute values into
      the variables, execute. A clause with a sub-clause at most at its end runs as
      `RunsAs` says, one without any as it is written. */
  method SelectRow(ts: seq<Token>, size: nat, env: Env) returns (status: ReturnCode, r: Meaning<bool>)
    requires OP_NODE + Reserve(ts, 0) < size && Room([], ts, 0)
    ensures status == CodeOfReading(ReadClause(ts, 0))
    ensures status.CodeOk? && GroupLast(ReadClause(ts, 0).value) ==> RunsOn(ReadClause(ts, 0).value, env, r)
    ensures NoGroups(ts) ==> status == CodeOf(ReadWhere(ts, 0))
    ensures NoGroups(ts) && status.CodeOk? && SimpleWhere(ReadWhere(ts, 0).w) ==> r == WhereMeaning(ReadWhere(ts, 0).w, env)
  {
    if NoGroups(ts) { FlatRead(ts, 0); }
    assert NoGroups(ts) ==> CodeOfReading(ReadClause(ts, 0)) == CodeOf(ReadWhere(ts, 0));
    hide EmitClause, WhereMeaning, SimpleWhere, ClauseIn, Run, ReadWhere, ReadClause, GroupLast, RunsOn, Represents, CodeOfReading, CodeOf;
    hide Reserve, Room, NoGroups;
    var p := new Parser(ts, size);
    assert p.vm.code[..0] == [];
    status := p.ParseWhere();
    r := Fails(ExecutionError);
    if !status.CodeOk? { return; }
    OkMeansGot(ReadClause(ts, 0));
    ghost var clause := ReadClause(ts, 0).value;
    var vm: Instance := p.vm;
    LoadRow(vm, env);
    assert vm.code[..][0..vm.end] == vm.code[..vm.end];
    if GroupLast(clause) { RunsOnIntro(clause, vm.code[..], vm.names, vm.values, env); }
    if NoGroups(ts) && SimpleWhere(ReadWhere(ts, 0).w) { FlatRuns(ts, vm.code[..], vm.names, vm.values, env); }
    r := vm.Execute();
  }
}
