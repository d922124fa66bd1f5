/** WHERE clauses as the AQL parser reads them, the code it emits for them, and
    what they mean, each defined without the other.
 */
module AqlSyntax {
  import opened Machine
  import opened LvmCode
  import opened LvmEval
  import opened LvmInstance

  datatype Token =
    | Ident(name: Name)
    | Int(value: Long)
    | ArithTok(op: ArithOp)
    | CmpTok(rel: RelOp)
    | ConnTok(conn: Connective)
    | LeftParen
    | RightParen
    | Other

  // ----- Abstract syntax -----

  /** One operand or a bracketed chain. */
  datatype Item = Column(name: Name) | Number(value: Long) | Group(chain: Chain)
  datatype Link = Link(op: ArithOp, item: Item)
  /** `head op1 item1 op2 item2 ...` as written, with no grouping. */
  datatype Chain = Chain(head: Item, rest: seq<Link>)
  datatype Comparison = Comparison(rel: RelOp, lhs: Chain, rhs: Chain)
  /** `c1 conn1 c2 conn2 ... cn`. */
  datatype Where = Last(c: Comparison) | Joined(c: Comparison, conn: Connective, more: Where)

  // ----- Reading tokens -----

  datatype Read<+T> = Done(value: T, pos: nat) | Bad

  function At(ts: seq<Token>, pos: nat): Token
  {
    if pos < |ts| then ts[pos] else Other
  }

  /** The position after one `lexer_next`, which stays put at the end of the input. */
  function After(ts: seq<Token>, pos: nat): nat
  {
    if pos < |ts| then pos + 1 else pos
  }

  function ReadOperand(ts: seq<Token>, pos: nat): (r: Read<Item>)
    ensures r.Done? ==> r.pos == pos + 1 <= |ts|
  {
    match At(ts, pos)
    case Ident(n) => Done(Column(n), pos + 1)
    case Int(v) => Done(Number(v), pos + 1)
    case _ => Bad
  }

  /** `parse_expr`. A chain ends at the first token that cannot continue it; a
      right parenthesis is consumed with it. */
  function ReadChain(ts: seq<Token>, pos: nat): (r: Read<Chain>)
    ensures r.Done? ==> pos < r.pos <= |ts|
    decreases |ts| - pos, 1
  {
    match ReadHead(ts, pos)
    case Bad => Bad
    case Done(head, p) =>
      match ReadLinks(ts, p)
      case Bad => Bad
      case Done(links, q) => Done(Chain(head, links), q)
  }

  function ReadHead(ts: seq<Token>, pos: nat): (r: Read<Item>)
    ensures r.Done? ==> pos < r.pos <= |ts|
    decreases |ts| - pos, 0
  {
    if At(ts, pos) == LeftParen then
      match ReadChain(ts, pos + 1)
      case Done(c, p) => if At(ts, p) == RightParen then Done(Group(c), p + 1) else Bad
      case Bad => Bad
    else ReadOperand(ts, pos)
  }

  /** The item after an arithmetic operator. When it is not an operand, the parser
      has already consumed that token, whatever it was, and reads a chain after it. */
  function ReadItem(ts: seq<Token>, pos: nat): (r: Read<Item>)
    ensures r.Done? ==> pos < r.pos <= |ts|
    decreases |ts| - pos, 2
  {
    match ReadOperand(ts, pos)
    case Done(i, p) => Done(i, p)
    case Bad =>
      if pos >= |ts| then Bad else
      match ReadChain(ts, pos + 1)
      case Done(c, p) => Done(Group(c), p)
      case Bad => Bad
  }

  function ReadLinks(ts: seq<Token>, pos: nat): (r: Read<seq<Link>>)
    requires pos <= |ts|
    ensures r.Done? ==> pos <= r.pos <= |ts|
    decreases |ts| - pos, 3
  {
    match At(ts, pos)
    case ArithTok(op) =>
      (match ReadItem(ts, pos + 1)
       case Bad => Bad
       case Done(i, p) =>
         match ReadLinks(ts, p)
         case Bad => Bad
         case Done(links, q) => Done([Link(op, i)] + links, q))
    case RightParen => Done([], pos + 1)
    case _ => Done([], pos)
  }

  /** `parse_comparison`. */
  function ReadComparison(ts: seq<Token>, pos: nat): (r: Read<Comparison>)
    ensures r.Done? ==> pos < r.pos <= |ts|
  {
    match ReadChain(ts, pos)
    case Bad => Bad
    case Done(l, p) =>
      match At(ts, p)
      case CmpTok(rel) =>
        (match ReadChain(ts, p + 1)
         case Bad => Bad
         case Done(r, q) => Done(Comparison(rel, l, r), q))
      case _ => Bad
  }

  /** How `parse_where` returns. When a comparison after a connective does not
      parse, the parser returns the number 0, which its callers take for success. */
  datatype WhereResult = Parsed(w: Where, pos: nat) | Swallowed | SyntaxError

  /** The returned number: `OK`, 0, or `SYNTAX_ERROR`; or one that the model does not say. */
  datatype ReturnCode = CodeOk | CodeZero | CodeSyntaxError | CodeUnknown

  function CodeOf(r: WhereResult): ReturnCode
  {
    match r case Parsed(_, _) => CodeOk case Swallowed => CodeZero case SyntaxError => CodeSyntaxError
  }

  function ReadWhere(ts: seq<Token>, pos: nat): WhereResult
  {
    match ReadComparison(ts, pos)
    case Bad => SyntaxError
    case Done(c, p) => ReadMore(c, ts, p)
  }

  function ReadMore(c: Comparison, ts: seq<Token>, pos: nat): WhereResult
    decreases |ts| - pos
  {
    match At(ts, pos)
    case ConnTok(conn) =>
      (match ReadComparison(ts, pos + 1)
       case Bad => Swallowed
       case Done(d, p) => Join(c, conn, ReadMore(d, ts, p)))
    case _ => Parsed(Last(c), pos)
  }

  function Join(c: Comparison, conn: Connective, r: WhereResult): WhereResult
  {
    match r
    case Parsed(w, p) => Parsed(Joined(c, conn, w), p)
    case _ => r
  }

  // ----- Emitted code, as nodes -----

  datatype Node = Op(op: ArithOp) | Val(operand: Operand)

  function NodeBytes(n: Node): (s: seq<Byte>)
    ensures |s| >= OP_NODE
  {
    match n
    case Op(op) => OpNode(ARITH_OP, ArithCode(op))
    case Val(o) => OperandNode(o)
  }

  function Bytes(ns: seq<Node>): seq<Byte>
  {
    if ns == [] then [] else NodeBytes(ns[0]) + Bytes(ns[1..])
  }

  /** The nodes the reserve-and-shift emission leaves for a chain: the first
      operator moves in front of the head, every later one lands in front of its own
      item only. */
  function ChainNodes(c: Chain, t: Table): (ns: seq<Node>)
    ensures |ns| >= 1
    decreases c, 1
  {
    if c.rest == [] then ItemNodes(c.head, t)
    else [Op(c.rest[0].op)] + ItemNodes(c.head, t) + ItemNodes(c.rest[0].item, t) + TailNodes(c.rest[1..], t)
  }

  function ItemNodes(i: Item, t: Table): (ns: seq<Node>)
    ensures |ns| >= 1
    decreases i, 2
  {
    match i
    case Column(n) => [Val(Variable(IndexOf(t, n)))]
    case Number(v) => [Val(Constant(v))]
    case Group(c) => ChainNodes(c, t)
  }

  function TailNodes(links: seq<Link>, t: Table): seq<Node>
    decreases links, 0
  {
    if links == [] then []
    else LinkNodes(links[0], t) + TailNodes(links[1..], t)
  }

  function LinkNodes(l: Link, t: Table): seq<Node>
    decreases l, 0
  {
    [Op(l.op)] + ItemNodes(l.item, t)
  }

  function ChainCode(c: Chain, t: Table): seq<Byte>
  {
    Bytes(ChainNodes(c, t))
  }

  function ItemCode(i: Item, t: Table): seq<Byte>
  {
    Bytes(ItemNodes(i, t))
  }

  function ComparisonCode(c: Comparison, t: Table): seq<Byte>
  {
    OpNode(CMP_OP, RelCode(c.rel)) + ChainCode(c.lhs, t) + ChainCode(c.rhs, t)
  }

  function WhereCode(w: Where, t: Table): seq<Byte>
  {
    match w
    case Last(c) => ComparisonCode(c, t)
    case Joined(c, conn, more) => OpNode(CMP_OP, ConnCode(conn)) + ComparisonCode(c, t) + WhereCode(more, t)
  }

  // ----- Names -----

  predicate ChainIn(c: Chain, t: Table)
    decreases c, 1
  {
    ItemIn(c.head, t) && forall l <- c.rest :: ItemIn(l.item, t)
  }

  predicate ItemIn(i: Item, t: Table)
    decreases i, 2
  {
    match i
    case Column(n) => n in t
    case Number(_) => true
    case Group(c) => ChainIn(c, t)
  }

  predicate ComparisonIn(c: Comparison, t: Table)
  {
    ChainIn(c.lhs, t) && ChainIn(c.rhs, t)
  }

  predicate WhereIn(w: Where, t: Table)
  {
    ComparisonIn(w.c, t) && (w.Joined? ==> WhereIn(w.more, t))
  }

  // Emitted code keeps its meaning while the table grows behind it.

  lemma {:induction false} ChainStable(c: Chain, t: Table, u: Table)
    requires t <= u && ChainIn(c, t)
    ensures ChainIn(c, u) && ChainNodes(c, u) == ChainNodes(c, t) && ChainCode(c, u) == ChainCode(c, t)
    decreases c, 1
  {
    ItemStable(c.head, t, u);
    if c.rest != [] {
      assert c.rest[0] in c.rest;
      ItemStable(c.rest[0].item, t, u);
      TailStable(c.rest[1..], t, u);
    }
    forall l | l in c.rest
      ensures ItemIn(l.item, u)
    {
      ItemStable(l.item, t, u);
    }
  }

  lemma {:induction false} ItemStable(i: Item, t: Table, u: Table)
    requires t <= u && ItemIn(i, t)
    ensures ItemIn(i, u) && ItemNodes(i, u) == ItemNodes(i, t)
    decreases i, 2
  {
    match i {
      case Column(n) => IndexOfStable(t, u, n);
      case Number(_) =>
      case Group(c) => ChainStable(c, t, u);
    }
  }

  lemma {:induction false} TailStable(links: seq<Link>, t: Table, u: Table)
    requires t <= u && forall l <- links :: ItemIn(l.item, t)
    ensures TailNodes(links, u) == TailNodes(links, t)
    decreases links, 0
  {
    if links != [] {
      assert links[0] in links;
      LinkStable(links[0], t, u);
      TailStable(links[1..], t, u);
    }
  }

  lemma {:induction false} LinkStable(l: Link, t: Table, u: Table)
    requires t <= u && ItemIn(l.item, t)
    ensures LinkNodes(l, u) == LinkNodes(l, t)
    decreases l, 0
  {
    ItemStable(l.item, t, u);
  }

  lemma ComparisonStable(c: Comparison, t: Table, u: Table)
    requires t <= u && ComparisonIn(c, t)
    ensures ComparisonIn(c, u) && ComparisonCode(c, u) == ComparisonCode(c, t)
  {
    ChainStable(c.lhs, t, u);
    ChainStable(c.rhs, t, u);
  }

  lemma {:induction false} BytesConcat(a: seq<Node>, b: seq<Node>)
    ensures Bytes(a + b) == Bytes(a) + Bytes(b)
  {
    if a == [] {
      assert a + b == b;
    } else {
      assert (a + b)[1..] == a[1..] + b;
      BytesConcat(a[1..], b);
    }
  }

  lemma {:induction false} TailNodesSnoc(links: seq<Link>, l: Link, t: Table)
    ensures TailNodes(links + [l], t) == TailNodes(links, t) + LinkNodes(l, t)
  {
    if links == [] {
      assert links + [l] == [l];
      assert TailNodes([l][1..], t) == [];
    } else {
      assert (links + [l])[1..] == links[1..] + [l];
      TailNodesSnoc(links[1..], l, t);
    }
  }

  lemma ChainNodesSnoc(head: Item, links: seq<Link>, l: Link, t: Table)
    ensures ChainNodes(Chain(head, links + [l]), t) ==
            if links == [] then [Op(l.op)] + (ItemNodes(head, t) + ItemNodes(l.item, t))
            else ChainNodes(Chain(head, links), t) + LinkNodes(l, t)
  {
    hide ItemNodes;
    if links == [] {
      assert links + [l] == [l];
      assert TailNodes([l][1..], t) == [];
    } else {
      TailNodesSnoc(links[1..], l, t);
      assert (links + [l])[1..] == links[1..] + [l];
    }
  }

  lemma BytesCons(n: Node, ns: seq<Node>)
    ensures Bytes([n] + ns) == NodeBytes(n) + Bytes(ns)
  {
    assert ([n] + ns)[1..] == ns;
  }

  /** What one more link does to the code of a chain. */
  lemma ChainCodeSnoc(head: Item, links: seq<Link>, l: Link, t: Table)
    ensures ChainCode(Chain(head, links + [l]), t) ==
            if links == [] then OpNode(ARITH_OP, ArithCode(l.op)) + (ItemCode(head, t) + ItemCode(l.item, t))
            else ChainCode(Chain(head, links), t) + (OpNode(ARITH_OP, ArithCode(l.op)) + ItemCode(l.item, t))
  {
    hide ItemNodes, ChainNodes, OpNode, Bytes;
    ChainNodesSnoc(head, links, l, t);
    var i := ItemNodes(l.item, t);
    if links == [] {
      BytesCons(Op(l.op), ItemNodes(head, t) + i);
      BytesConcat(ItemNodes(head, t), i);
    } else {
      BytesCons(Op(l.op), i);
      BytesConcat(ChainNodes(Chain(head, links), t), LinkNodes(l, t));
    }
  }

  // ----- Meaning -----

  /** At most one arithmetic operator at every level. */
  predicate Simple(c: Chain)
    decreases c, 1
  {
    |c.rest| <= 1 && SimpleItem(c.head) && (|c.rest| == 1 ==> SimpleItem(c.rest[0].item))
  }

  predicate SimpleItem(i: Item)
    decreases i, 2
  {
    i.Group? ==> Simple(i.chain)
  }

  predicate SimpleWhere(w: Where)
  {
    Simple(w.c.lhs) && Simple(w.c.rhs) && (w.Joined? ==> SimpleWhere(w.more))
  }

  /** The attribute values of one row. */
  type Env = Name -> Long

  function ChainMeaning(c: Chain, env: Env): Meaning<Long>
    requires Simple(c)
    decreases c, 1
  {
    if c.rest == [] then ItemMeaning(c.head, env)
    else ArithMeaning(c.rest[0].op, ItemMeaning(c.head, env), ItemMeaning(c.rest[0].item, env))
  }

  function ItemMeaning(i: Item, env: Env): Meaning<Long>
    requires SimpleItem(i)
    decreases i, 2
  {
    match i
    case Column(n) => Value(env(n))
    case Number(v) => Value(v)
    case Group(c) => ChainMeaning(c, env)
  }

  function ComparisonMeaning(c: Comparison, env: Env): Meaning<bool>
    requires Simple(c.lhs) && Simple(c.rhs)
  {
    RelMeaning(c.rel, ChainMeaning(c.lhs, env), ChainMeaning(c.rhs, env))
  }

  /** Connectives group to the right, AND and OR alike. */
  function WhereMeaning(w: Where, env: Env): Meaning<bool>
    requires SimpleWhere(w)
  {
    match w
    case Last(c) => ComparisonMeaning(c, env)
    case Joined(c, conn, more) => ConnMeaning(conn, ComparisonMeaning(c, env), WhereMeaning(more, env))
  }

  /** The variable slots hold the environment. */
  ghost predicate Represents(t: Table, vars: Variables, env: Env)
  {
    forall n <- t :: vars[IndexOf(t, n)] == env(n)
  }

  // ----- Simple chains compile to prefix code with their meaning -----

  function ChainTree(c: Chain, t: Table): Expr
    requires Simple(c)
    decreases c, 1
  {
    if c.rest == [] then ItemTree(c.head, t)
    else Arith(c.rest[0].op, ItemTree(c.head, t), ItemTree(c.rest[0].item, t))
  }

  function ItemTree(i: Item, t: Table): Expr
    requires SimpleItem(i)
    decreases i, 2
  {
    match i
    case Column(n) => Leaf(Variable(IndexOf(t, n)))
    case Number(v) => Leaf(Constant(v))
    case Group(c) => ChainTree(c, t)
  }

  function WhereTree(w: Where, t: Table): Pred
    requires SimpleWhere(w)
  {
    var c := Compare(w.c.rel, ChainTree(w.c.lhs, t), ChainTree(w.c.rhs, t));
    if w.Last? then c else Connect(w.conn, c, WhereTree(w.more, t))
  }

  function ExprNodes(e: Expr): (ns: seq<Node>)
    ensures |ns| >= 1
  {
    match e
    case Leaf(o) => [Val(o)]
    case Arith(op, l, r) => [Op(op)] + ExprNodes(l) + ExprNodes(r)
  }

  lemma {:induction false} ExprNodesBytes(e: Expr)
    ensures Bytes(ExprNodes(e)) == ExprCode(e)
  {
    match e {
      case Leaf(o) =>
        assert Bytes([Val(o)]) == NodeBytes(Val(o)) + Bytes([]);
      case Arith(op, l, r) =>
        ExprNodesBytes(l);
        ExprNodesBytes(r);
        var rest := ExprNodes(l) + ExprNodes(r);
        assert ExprNodes(e) == [Op(op)] + rest;
        assert ([Op(op)] + rest)[1..] == rest;
        BytesConcat(ExprNodes(l), ExprNodes(r));
    }
  }

  lemma {:induction false} SimpleChainNodes(c: Chain, t: Table)
    requires Simple(c)
    ensures ChainNodes(c, t) == ExprNodes(ChainTree(c, t))
    decreases c, 1
  {
    SimpleItemNodes(c.head, t);
    if c.rest != [] {
      SimpleItemNodes(c.rest[0].item, t);
      assert TailNodes(c.rest[1..], t) == [];
    }
  }

  lemma {:induction false} SimpleItemNodes(i: Item, t: Table)
    requires SimpleItem(i)
    ensures ItemNodes(i, t) == ExprNodes(ItemTree(i, t))
    decreases i, 2
  {
    if i.Group? {
      SimpleChainNodes(i.chain, t);
    }
  }

  lemma {:induction false} WhereCodeIsPrefixCode(w: Where, t: Table)
    requires SimpleWhere(w)
    ensures WhereCode(w, t) == PredCode(WhereTree(w, t))
  {
    hide OpNode, RelCode, ConnCode;
    var l, r := ChainTree(w.c.lhs, t), ChainTree(w.c.rhs, t);
    SimpleChainNodes(w.c.lhs, t);
    SimpleChainNodes(w.c.rhs, t);
    ExprNodesBytes(l);
    ExprNodesBytes(r);
    var node := OpNode(CMP_OP, RelCode(w.c.rel));
    assert node + ExprCode(l) + ExprCode(r) == node + (ExprCode(l) + ExprCode(r));
    if w.Joined? {
      WhereCodeIsPrefixCode(w.more, t);
      var conn, c, more := OpNode(CMP_OP, ConnCode(w.conn)), ComparisonCode(w.c, t), WhereCode(w.more, t);
      assert conn + c + more == conn + (c + more);
    }
  }

  lemma {:induction false} ChainTreeMeans(c: Chain, t: Table, vars: Variables, env: Env)
    requires Simple(c) && ChainIn(c, t) && Represents(t, vars, env)
    ensures DenoteExpr(ChainTree(c, t), vars) == ChainMeaning(c, env)
    decreases c, 1
  {
    ItemTreeMeans(c.head, t, vars, env);
    if c.rest != [] {
      assert c.rest[0] in c.rest;
      ItemTreeMeans(c.rest[0].item, t, vars, env);
    }
  }

  lemma {:induction false} ItemTreeMeans(i: Item, t: Table, vars: Variables, env: Env)
    requires SimpleItem(i) && ItemIn(i, t) && Represents(t, vars, env)
    ensures DenoteExpr(ItemTree(i, t), vars) == ItemMeaning(i, env)
    decreases i, 2
  {
    if i.Group? {
      ChainTreeMeans(i.chain, t, vars, env);
    }
  }

  lemma {:induction false} WhereTreeMeans(w: Where, t: Table, vars: Variables, env: Env)
    requires SimpleWhere(w) && WhereIn(w, t) && Represents(t, vars, env)
    ensures DenotePred(WhereTree(w, t), vars) == WhereMeaning(w, env)
  {
    ChainTreeMeans(w.c.lhs, t, vars, env);
    ChainTreeMeans(w.c.rhs, t, vars, env);
    if w.Joined? {
      WhereTreeMeans(w.more, t, vars, env);
    }
  }

  /** Compilation preserves meaning: code that starts with what the parser emits
      for `w` computes `w` over the environment that the variable slots hold. */
  lemma CompiledWhereMeans(w: Where, code: seq<Byte>, t: Table, vars: Variables, env: Env)
    requires SimpleWhere(w) && WhereIn(w, t) && Represents(t, vars, env)
    requires Holds(code, 0, WhereCode(w, t))
    ensures Run(code, vars) == Expected(WhereMeaning(w, env), 0, |WhereCode(w, t)|)
  {
    WhereCodeIsPrefixCode(w, t);
    WhereTreeMeans(w, t, vars, env);
    ExecuteDenotes(WhereTree(w, t), code, vars);
  }

  // ----- Longer chains -----

  /** Operands minus operators. A prefix code stops exactly where this reaches 1. */
  function Excess(ns: seq<Node>): int
  {
    if ns == [] then 0 else (if ns[0].Op? then -1 else 1) + Excess(ns[1..])
  }

  lemma {:induction false} ExcessConcat(a: seq<Node>, b: seq<Node>)
    ensures Excess(a + b) == Excess(a) + Excess(b)
  {
    if a == [] {
      assert a + b == b;
    } else {
      assert (a + b)[1..] == a[1..] + b;
      ExcessConcat(a[1..], b);
    }
  }

  /** No proper prefix of an expression's code is complete. */
  lemma {:induction false} ExprExcess(e: Expr, k: nat)
    requires k <= |ExprNodes(e)|
    ensures Excess(ExprNodes(e)) == 1
    ensures k < |ExprNodes(e)| ==> Excess(ExprNodes(e)[..k]) <= 0
  {
    match e {
      case Leaf(o) =>
        assert ExprNodes(e)[1..] == [];
        assert k == 0 ==> ExprNodes(e)[..k] == [];
      case Arith(op, l, r) =>
        var a, b := ExprNodes(l), ExprNodes(r);
        ExprExcess(l, if 1 <= k <= |a| then k - 1 else 0);
        ExprExcess(r, if 1 + |a| <= k then k - 1 - |a| else 0);
        assert ExprNodes(e) == [Op(op)] + (a + b);
        hide Excess, ExprNodes;
        PairExcess(op, a, b, k);
    }
  }

  lemma OpExcess(op: ArithOp, ns: seq<Node>)
    ensures Excess([Op(op)] + ns) == Excess(ns) - 1
  {
    assert ([Op(op)] + ns)[1..] == ns;
  }

  /** One operator in front of two complete parts is complete at their end and no earlier. */
  lemma PairExcess(op: ArithOp, a: seq<Node>, b: seq<Node>, k: nat)
    requires k <= 1 + |a| + |b| && Excess(a) == 1 && Excess(b) == 1
    requires 1 <= k <= |a| ==> Excess(a[..k - 1]) <= 0
    requires 1 + |a| <= k < 1 + |a| + |b| ==> Excess(b[..k - 1 - |a|]) <= 0
    ensures Excess([Op(op)] + (a + b)) == 1
    ensures k < 1 + |a| + |b| ==> Excess(([Op(op)] + (a + b))[..k]) <= 0
  {
    OpExcess(op, a + b);
    ExcessConcat(a, b);
    var ns := [Op(op)] + (a + b);
    if k == 0 {
      assert ns[..k] == [];
    } else if k <= |a| {
      hide Excess;
      assert ns[..k] == [Op(op)] + a[..k - 1];
      OpExcess(op, a[..k - 1]);
    } else {
      hide Excess;
      var c := b[..k - 1 - |a|];
      assert ns[..k] == [Op(op)] + (a + c);
      OpExcess(op, a + c);
      ExcessConcat(a, c);
    }
  }

  lemma {:induction false} ChainExcess(c: Chain, t: Table)
    ensures Excess(ChainNodes(c, t)) == 1
    decreases c, 1
  {
    ItemExcess(c.head, t);
    if c.rest != [] {
      ItemExcess(c.rest[0].item, t);
      TailExcess(c.rest[1..], t);
      FirstLinkExcess(c, t);
      ExcessConcat(FirstLink(c, t), TailNodes(c.rest[1..], t));
    }
  }

  lemma {:induction false} ItemExcess(i: Item, t: Table)
    ensures Excess(ItemNodes(i, t)) == 1
    decreases i, 2
  {
    if i.Group? {
      ChainExcess(i.chain, t);
    } else {
      assert ItemNodes(i, t)[1..] == [];
    }
  }

  lemma {:induction false} LinkExcess(l: Link, t: Table)
    ensures Excess(LinkNodes(l, t)) == 0
    decreases l, 0
  {
    ItemExcess(l.item, t);
    assert Excess([Op(l.op)]) == -1 + Excess([]);
    ExcessConcat([Op(l.op)], ItemNodes(l.item, t));
  }

  lemma {:induction false} TailExcess(links: seq<Link>, t: Table)
    ensures Excess(TailNodes(links, t)) == 0
    decreases links, 0
  {
    if links != [] {
      LinkExcess(links[0], t);
      TailExcess(links[1..], t);
      ExcessConcat(LinkNodes(links[0], t), TailNodes(links[1..], t));
    }
  }

  /** The head, the first operator and its item: the part the first shift completes. */
  ghost function FirstLink(c: Chain, t: Table): seq<Node>
    requires c.rest != []
  {
    [Op(c.rest[0].op)] + ItemNodes(c.head, t) + ItemNodes(c.rest[0].item, t)
  }

  lemma FirstLinkExcess(c: Chain, t: Table)
    requires c.rest != []
    requires Excess(ItemNodes(c.head, t)) == 1 && Excess(ItemNodes(c.rest[0].item, t)) == 1
    ensures Excess(FirstLink(c, t)) == 1
  {
    var op, h, i := [Op(c.rest[0].op)], ItemNodes(c.head, t), ItemNodes(c.rest[0].item, t);
    assert Excess(op) == -1 + Excess([]);
    ExcessConcat(op, h);
    ExcessConcat(op + h, i);
  }

  lemma HeldNode(n: Node, code: seq<Byte>)
    requires Holds(code, 0, NodeBytes(n))
    ensures FetchEnum(code, 0) == (if n.Op? then ARITH_OP else OPERAND)
    ensures n.Op? ==> FetchEnum(code, TYPE_SIZE) == ArithCode(n.op)
    ensures n.Val? ==> var raw := FetchOperand(code, TYPE_SIZE);
                       if raw.kind == LVM_VARIABLE then n.operand == Variable(raw.id)
                       else n.operand == Constant(raw.value)
  {
    match n {
      case Op(op) => FetchHeldOpNode(code, 0, ARITH_OP, ArithCode(op));
      case Val(o) => FetchHeldOperand(code, 0, o);
    }
  }

  /** Bytes determine the nodes they came from. */
  lemma {:induction false} BytesInjective(a: seq<Node>, b: seq<Node>)
    requires Bytes(a) == Bytes(b)
    ensures a == b
  {
    hide FetchEnum, FetchOperand;
    if a == [] || b == [] {
      if a != [] { BytesFirst(a); }
      if b != [] { BytesFirst(b); }
    } else {
      BytesFirst(a);
      BytesFirst(b);
      HeldNode(a[0], Bytes(a));
      HeldNode(b[0], Bytes(b));
      assert a[0] == b[0];
      var n := |NodeBytes(a[0])|;
      assert Bytes(a[1..]) == Bytes(a)[n..] == Bytes(b)[n..] == Bytes(b[1..]);
      BytesInjective(a[1..], b[1..]);
      assert a == [a[0]] + a[1..] && b == [b[0]] + b[1..];
    }
  }

  lemma BytesFirst(a: seq<Node>)
    requires a != []
    ensures Holds(Bytes(a), 0, NodeBytes(a[0])) && |Bytes(a)| >= OP_NODE
    ensures Bytes(a)[|NodeBytes(a[0])|..] == Bytes(a[1..])
  {
  }

  /** From two arithmetic operators on, what the parser emits is the code of no
      expression at all: it is complete after the first operation. */
  lemma LongChainIsNoCode(c: Chain, t: Table, e: Expr)
    requires |c.rest| >= 2
    ensures ChainCode(c, t) != ExprCode(e)
  {
    hide Bytes, ExprCode, ItemNodes, ExprNodes;
    if ChainCode(c, t) == ExprCode(e) {
      ExprNodesBytes(e);
      BytesInjective(ChainNodes(c, t), ExprNodes(e));
      ItemExcess(c.head, t);
      ItemExcess(c.rest[0].item, t);
      FirstLinkExcess(c, t);
      var first := FirstLink(c, t);
      assert ChainNodes(c, t) == first + TailNodes(c.rest[1..], t);
      assert ChainNodes(c, t)[..|first|] == first;
      ExprExcess(e, |first|);
    }
  }

  /** A chain of plain operands compiles to the code of some expression exactly when
      it has at most one operator. */
  lemma FlatChainCompiles(c: Chain, t: Table)
    requires !c.head.Group? && forall l <- c.rest :: !l.item.Group?
    ensures (exists e :: ChainCode(c, t) == ExprCode(e)) <==> |c.rest| <= 1
  {
    if |c.rest| <= 1 {
      assert SimpleItem(c.head);
      assert c.rest != [] ==> c.rest[0] in c.rest && SimpleItem(c.rest[0].item);
      assert Simple(c);
      SimpleChainNodes(c, t);
      ExprNodesBytes(ChainTree(c, t));
    } else {
      forall e
        ensures ChainCode(c, t) != ExprCode(e)
      {
        LongChainIsNoCode(c, t, e);
      }
    }
  }

  // ----- What a comparison of longer chains runs as -----

  /** Bracketed items, if any, are simple; the chain itself may be of any length. */
  predicate SimpleItems(c: Chain)
  {
    SimpleItem(c.head) && forall l <- c.rest :: SimpleItem(l.item)
  }

  /** The links of a chain behind its first operation. */
  function Behind(c: Chain): (links: seq<Link>)
  {
    if c.rest == [] then [] else c.rest[1..]
  }

  /** The chain up to and including its first operation. */
  function FirstTree(c: Chain, t: Table): Expr
    requires SimpleItems(c)
  {
    if c.rest == [] then ItemTree(c.head, t)
    else Arith(c.rest[0].op, ItemTree(c.head, t), ItemTree(c.rest[0].item, t))
  }

  /** `i1 o1 (i2 o2 (... last))`. */
  function Carried(links: seq<Link>, last: Expr, t: Table): Expr
    requires forall l <- links :: SimpleItem(l.item)
  {
    if links == [] then last
    else Arith(links[0].op, ItemTree(links[0].item, t), Carried(links[1..], last, t))
  }

  /** What `h o1 i1 o2 i2 ... om im R rhs` runs as: `(h o1 i1) R (i2 o2 (... (im om rhs)))`,
      with only the first operation of `rhs`. */
  function RunTree(c: Comparison, t: Table): Pred
    requires SimpleItems(c.lhs) && SimpleItems(c.rhs)
  {
    Compare(c.rel, FirstTree(c.lhs, t), Carried(Behind(c.lhs), FirstTree(c.rhs, t), t))
  }

  lemma FirstNodes(c: Chain, t: Table)
    requires SimpleItems(c)
    ensures ChainNodes(c, t) == ExprNodes(FirstTree(c, t)) + TailNodes(Behind(c), t)
  {
    SimpleItemNodes(c.head, t);
    if c.rest != [] {
      assert c.rest[0] in c.rest;
      SimpleItemNodes(c.rest[0].item, t);
    }
    hide ItemNodes, ItemTree;
  }

  lemma {:induction false} CarriedNodes(links: seq<Link>, last: Expr, t: Table)
    requires forall l <- links :: SimpleItem(l.item)
    ensures TailNodes(links, t) + ExprNodes(last) == ExprNodes(Carried(links, last, t))
  {
    if links != [] {
      assert links[0] in links;
      SimpleItemNodes(links[0].item, t);
      CarriedNodes(links[1..], last, t);
      hide ItemNodes, ItemTree, Carried, TailNodes, ExprNodes, LinkNodes;
      CarriedOne(links, last, t);
      Associate(LinkNodes(links[0], t), TailNodes(links[1..], t), ExprNodes(last));
    } else {
      NoneCarried(last, t);
    }
  }

  lemma NoneCarried(last: Expr, t: Table)
    ensures TailNodes([], t) + ExprNodes(last) == ExprNodes(last) && Carried([], last, t) == last
  {
    hide ExprNodes;
  }

  lemma CarriedOne(links: seq<Link>, last: Expr, t: Table)
    requires links != [] && (forall l <- links :: SimpleItem(l.item)) && SimpleItem(links[0].item)
    requires ItemNodes(links[0].item, t) == ExprNodes(ItemTree(links[0].item, t))
    ensures TailNodes(links, t) == LinkNodes(links[0], t) + TailNodes(links[1..], t)
    ensures ExprNodes(Carried(links, last, t)) == LinkNodes(links[0], t) + ExprNodes(Carried(links[1..], last, t))
  {
    hide ItemNodes, ItemTree;
  }

  lemma Associate(a: seq<Node>, b: seq<Node>, c: seq<Node>)
    ensures (a + b) + c == a + (b + c)
  {
  }

  /** The code of any comparison is that of the tree it runs as, followed by what is left
      of its right side. */
  lemma ComparisonCodeIs(c: Comparison, t: Table)
    requires SimpleItems(c.lhs) && SimpleItems(c.rhs)
    ensures ComparisonCode(c, t) == PredCode(RunTree(c, t)) + Bytes(TailNodes(Behind(c.rhs), t))
  {
    hide OpNode, Bytes, ItemTree, ItemNodes, ExprNodes, ExprCode, TailNodes;
    var node, behind, left := OpNode(CMP_OP, RelCode(c.rel)), Behind(c.lhs), TailNodes(Behind(c.rhs), t);
    var e, f := FirstTree(c.lhs, t), FirstTree(c.rhs, t);
    var g := Carried(behind, f, t);
    FirstNodes(c.lhs, t);
    FirstNodes(c.rhs, t);
    CarriedNodes(behind, f, t);
    var carried := TailNodes(behind, t);
    BytesConcat(ExprNodes(e), carried);
    BytesConcat(ExprNodes(f), left);
    BytesConcat(carried, ExprNodes(f));
    ExprNodesBytes(e);
    ExprNodesBytes(f);
    ExprNodesBytes(g);
    Regrouped(node, ExprCode(e), Bytes(carried), ExprCode(f), Bytes(left));
  }

  lemma Regrouped(n: seq<Byte>, e: seq<Byte>, c: seq<Byte>, f: seq<Byte>, l: seq<Byte>)
    ensures n + (e + c) + (f + l) == n + (e + (c + f)) + l
  {
  }

  /** No comparison is refused for the length of its sides: a long chain runs as
      `RunTree` says, and is what was written when both sides are simple. */
  lemma ComparisonRunsAs(c: Comparison, code: seq<Byte>, t: Table, vars: Variables)
    requires SimpleItems(c.lhs) && SimpleItems(c.rhs) && Holds(code, 0, ComparisonCode(c, t))
    ensures Run(code, vars) == Expected(DenotePred(RunTree(c, t), vars), 0, |PredCode(RunTree(c, t))|)
    ensures |c.lhs.rest| <= 1 && |c.rhs.rest| <= 1 ==>
              Simple(c.lhs) && Simple(c.rhs) && RunTree(c, t) == WhereTree(Last(c), t)
  {
    ComparisonCodeIs(c, t);
    HoldsSplit(code, 0, PredCode(RunTree(c, t)), Bytes(TailNodes(Behind(c.rhs), t)));
    ExecuteDenotes(RunTree(c, t), code, vars);
    hide PredCode, Run, DenotePred, ItemTree;
    if |c.lhs.rest| == 1 { assert c.lhs.rest[0] in c.lhs.rest; }
    if |c.rhs.rest| == 1 { assert c.rhs.rest[0] in c.rhs.rest; }
  }

  /** For example `a o1 b o2 x R y` runs as `(a o1 b) R (x o2 y)`. */
  lemma LongChainMisread(rel: RelOp, a: Item, o1: ArithOp, b: Item, o2: ArithOp, x: Item, y: Item, t: Table)
    requires SimpleItem(a) && SimpleItem(b) && SimpleItem(x) && SimpleItem(y)
    ensures ComparisonCode(Comparison(rel, Chain(a, [Link(o1, b), Link(o2, x)]), Chain(y, [])), t)
         == PredCode(Compare(rel, Arith(o1, ItemTree(a, t), ItemTree(b, t)), Arith(o2, ItemTree(x, t), ItemTree(y, t))))
  {
    var links := [Link(o1, b), Link(o2, x)];
    var c := Comparison(rel, Chain(a, links), Chain(y, []));
    assert links[1..] == [Link(o2, x)] && [Link(o2, x)][1..] == [];
    assert Carried([], ItemTree(y, t), t) == ItemTree(y, t);
    assert Bytes(TailNodes([], t)) == [];
    hide PredCode, ItemTree, ComparisonCode;
    ComparisonCodeIs(c, t);
  }
}
