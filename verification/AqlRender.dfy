/** Reading back: a clause written out as tokens is read as that clause. This ties
    the token-level grammar of the parser to the clauses it is meant to accept.
 */
module AqlRender {
  import opened Machine
  import opened LvmCode
  import opened LvmInstance
  import opened AqlSyntax
  import opened AqlGroups

  /** A bracketed chain is closed once behind an operator, and twice at the front of a
      chain: the first bracket goes to the expression inside. */
  function ChainTokens(c: Chain): seq<Token>
    decreases c, 1
  {
    HeadTokens(c.head) + LinksTokens(c.rest)
  }

  function HeadTokens(i: Item): seq<Token>
    decreases i, 2
  {
    match i
    case Column(n) => [Ident(n)]
    case Number(v) => [Int(v)]
    case Group(c) => [LeftParen] + (ChainTokens(c) + [RightParen, RightParen])
  }

  function ItemTokens(i: Item): seq<Token>
    decreases i, 2
  {
    match i
    case Column(n) => [Ident(n)]
    case Number(v) => [Int(v)]
    case Group(c) => [LeftParen] + (ChainTokens(c) + [RightParen])
  }

  function LinksTokens(links: seq<Link>): seq<Token>
    decreases links, 0
  {
    if links == [] then [] else LinkTokens(links[0]) + LinksTokens(links[1..])
  }

  function LinkTokens(l: Link): seq<Token>
    decreases l, 0
  {
    [ArithTok(l.op)] + ItemTokens(l.item)
  }

  function ComparisonTokens(c: Comparison): seq<Token>
  {
    ChainTokens(c.lhs) + [CmpTok(c.rel)] + ChainTokens(c.rhs)
  }

  function WhereTokens(w: Where): seq<Token>
  {
    match w
    case Last(c) => ComparisonTokens(c)
    case Joined(c, conn, more) => ComparisonTokens(c) + [ConnTok(conn)] + WhereTokens(more)
  }

  /** `ts` from `pos` on is `part` followed by `rest`. */
  ghost predicate Shows(ts: seq<Token>, pos: nat, part: seq<Token>, rest: seq<Token>)
  {
    pos <= |ts| && ts[pos..] == part + rest
  }

  lemma Advance(ts: seq<Token>, pos: nat, a: seq<Token>, b: seq<Token>, rest: seq<Token>)
    requires Shows(ts, pos, a + b, rest)
    ensures Shows(ts, pos, a, b + rest) && Shows(ts, pos + |a|, b, rest)
  {
    assert (a + b) + rest == a + (b + rest);
    assert ts[pos + |a|..] == ts[pos..][|a|..];
  }

  lemma First(ts: seq<Token>, pos: nat, part: seq<Token>, rest: seq<Token>)
    requires Shows(ts, pos, part, rest)
    ensures At(ts, pos) == if part != [] then part[0] else At(rest, 0)
    ensures pos + |part| + |rest| == |ts|
  {
    assert |ts[pos..]| == |part| + |rest|;
    assert pos < |ts| ==> ts[pos] == ts[pos..][0];
  }

  /** A token that neither continues nor closes an arithmetic chain. */
  predicate StopsChain(t: Token)
  {
    !t.ArithTok? && !t.RightParen?
  }

  /** A closing bracket behind a chain is taken with it. */
  function Taken(rest: seq<Token>): nat
  {
    if At(rest, 0) == RightParen then 1 else 0
  }

  lemma {:induction false} LinksReadBack(links: seq<Link>, ts: seq<Token>, pos: nat, rest: seq<Token>)
    requires Shows(ts, pos, LinksTokens(links), rest) && !At(rest, 0).ArithTok?
    ensures pos <= |ts| && ReadLinks(ts, pos) == Done(links, pos + |LinksTokens(links)| + Taken(rest))
    decreases links, 0
  {
    hide Shows, LinksTokens, ItemTokens, ReadItem, ReadLinks, At;
    First(ts, pos, LinksTokens(links), rest);
    LinksText(links);
    if links == [] {
      NoMoreLinks(ts, pos);
    } else {
      var l, more := links[0], LinksTokens(links[1..]);
      var item := ItemTokens(l.item);
      Advance(ts, pos, [ArithTok(l.op)], item + more, rest);
      Advance(ts, pos + 1, item, more, rest);
      LinkReadBack(l, ts, pos + 1, more + rest);
      LinksReadBack(links[1..], ts, pos + 1 + |item|, rest);
      OneMoreLink(links, ts, pos, pos + 1 + |item|);
    }
  }

  /** The tokens of links are an operator, an item and the tokens of the other links. */
  lemma LinksText(links: seq<Link>)
    ensures links == [] ==> |LinksTokens(links)| == 0
    ensures links != [] ==>
              var l, more := links[0], LinksTokens(links[1..]);
              && LinksTokens(links) == [ArithTok(l.op)] + (ItemTokens(l.item) + more)
              && |LinksTokens(links)| == 1 + |ItemTokens(l.item)| + |more| && LinksTokens(links)[0] == ArithTok(l.op)
  {
    hide ItemTokens;
  }

  lemma NoMoreLinks(ts: seq<Token>, pos: nat)
    requires pos <= |ts| && !At(ts, pos).ArithTok?
    ensures ReadLinks(ts, pos) == Done([], pos + if At(ts, pos) == RightParen then 1 else 0)
  {
  }

  lemma OneMoreLink(links: seq<Link>, ts: seq<Token>, pos: nat, next: nat)
    requires links != [] && pos < |ts| && At(ts, pos) == ArithTok(links[0].op) && next <= |ts|
    requires ReadItem(ts, pos + 1) == Done(links[0].item, next) && ReadLinks(ts, next).Done? && ReadLinks(ts, next).value == links[1..]
    ensures ReadLinks(ts, pos) == Done(links, ReadLinks(ts, next).pos)
  {
    hide ReadItem;
    assert [links[0]] + links[1..] == links;
  }

  lemma {:induction false} LinkReadBack(l: Link, ts: seq<Token>, pos: nat, rest: seq<Token>)
    requires Shows(ts, pos, ItemTokens(l.item), rest)
    ensures ReadItem(ts, pos) == Done(l.item, pos + |ItemTokens(l.item)|)
    decreases l, 0
  {
    ItemReadBack(l.item, ts, pos, rest);
  }

  /** An item behind an operator is read back, with brackets as they are usually written. */
  lemma {:induction false} ItemReadBack(i: Item, ts: seq<Token>, pos: nat, rest: seq<Token>)
    requires Shows(ts, pos, ItemTokens(i), rest)
    ensures ReadItem(ts, pos) == Done(i, pos + |ItemTokens(i)|)
    decreases i, 2
  {
    hide Shows, ChainTokens, ReadChain;
    First(ts, pos, ItemTokens(i), rest);
    if i.Group? {
      var c := i.chain;
      Advance(ts, pos, [LeftParen], ChainTokens(c) + [RightParen], rest);
      Advance(ts, pos + 1, ChainTokens(c), [RightParen], rest);
      assert At([RightParen] + rest, 0) == RightParen;
      ChainReadBack(c, ts, pos + 1, [RightParen] + rest);
    }
  }

  lemma {:induction false} HeadReadBack(i: Item, ts: seq<Token>, pos: nat, rest: seq<Token>)
    requires Shows(ts, pos, HeadTokens(i), rest)
    ensures ReadHead(ts, pos) == Done(i, pos + |HeadTokens(i)|)
    decreases i, 2
  {
    hide Shows, ChainTokens, ReadChain;
    First(ts, pos, HeadTokens(i), rest);
    if i.Group? {
      var c, close := i.chain, [RightParen, RightParen];
      Advance(ts, pos, [LeftParen], ChainTokens(c) + close, rest);
      Advance(ts, pos + 1, ChainTokens(c), close, rest);
      TwoBrackets(ts, pos + 1 + |ChainTokens(c)|, rest);
      ChainReadBack(c, ts, pos + 1, close + rest);
    }
  }

  lemma TwoBrackets(ts: seq<Token>, pos: nat, rest: seq<Token>)
    requires Shows(ts, pos, [RightParen, RightParen], rest)
    ensures At([RightParen, RightParen] + rest, 0) == RightParen
    ensures pos + 2 <= |ts| && At(ts, pos + 1) == RightParen
  {
    assert |ts[pos..]| == 2 + |rest| && ts[pos..][1] == RightParen;
  }

  /** Every chain, with brackets nested to any depth, is read back from its tokens. */
  lemma {:induction false} ChainReadBack(c: Chain, ts: seq<Token>, pos: nat, rest: seq<Token>)
    requires Shows(ts, pos, ChainTokens(c), rest) && !At(rest, 0).ArithTok?
    ensures ReadChain(ts, pos) == Done(c, pos + |ChainTokens(c)| + Taken(rest))
    decreases c, 1
  {
    hide Shows, HeadTokens, LinksTokens, ReadHead, ReadLinks;
    Advance(ts, pos, HeadTokens(c.head), LinksTokens(c.rest), rest);
    HeadReadBack(c.head, ts, pos, LinksTokens(c.rest) + rest);
    LinksReadBack(c.rest, ts, pos + |HeadTokens(c.head)|, rest);
  }

  /** Behind an operator any token that is no operand stands for an opening bracket, and the
      chain behind it need not be closed. */
  lemma StrayTokenOpens(t: Token, c: Chain, ts: seq<Token>, pos: nat, rest: seq<Token>)
    requires !t.Ident? && !t.Int? && Shows(ts, pos, [t] + ChainTokens(c), rest) && !At(rest, 0).ArithTok?
    ensures ReadItem(ts, pos) == Done(Group(c), pos + 1 + |ChainTokens(c)| + Taken(rest))
  {
    First(ts, pos, [t] + ChainTokens(c), rest);
    hide Shows;
    Advance(ts, pos, [t], ChainTokens(c), rest);
    ChainReadBack(c, ts, pos + 1, rest);
  }

  /** At the front of a chain an opening bracket has to be closed twice. */
  lemma HeadClosedTwice(ts: seq<Token>, pos: nat)
    requires At(ts, pos) == LeftParen && ReadHead(ts, pos).Done?
    ensures var end := ReadHead(ts, pos).pos; 2 <= end <= |ts| && ts[end - 1] == RightParen && ts[end - 2] == RightParen
  {
    ChainTakesBracket(ts, pos + 1);
  }

  lemma ChainTakesBracket(ts: seq<Token>, pos: nat)
    requires ReadChain(ts, pos).Done?
    ensures var end := ReadChain(ts, pos).pos; At(ts, end) == RightParen ==> 0 < end <= |ts| && ts[end - 1] == RightParen
  {
    LinksTakeBracket(ts, ReadHead(ts, pos).pos);
  }

  lemma ComparisonReadBack(c: Comparison, ts: seq<Token>, pos: nat, rest: seq<Token>)
    requires Shows(ts, pos, ComparisonTokens(c), rest) && !At(rest, 0).ArithTok?
    ensures ReadComparison(ts, pos) == Done(c, pos + |ComparisonTokens(c)| + Taken(rest))
  {
    hide Shows, ReadChain, ChainTokens;
    var l, r := ChainTokens(c.lhs), ChainTokens(c.rhs);
    assert At([CmpTok(c.rel)] + r + rest, 0) == CmpTok(c.rel);
    assert ComparisonTokens(c) == l + ([CmpTok(c.rel)] + r);
    Advance(ts, pos, l, [CmpTok(c.rel)] + r, rest);
    ChainReadBack(c.lhs, ts, pos, [CmpTok(c.rel)] + r + rest);
    First(ts, pos + |l|, [CmpTok(c.rel)] + r, rest);
    Advance(ts, pos + |l|, [CmpTok(c.rel)], r, rest);
    ChainReadBack(c.rhs, ts, pos + |l| + 1, rest);
  }

  /** Every clause, with any brackets in its expressions, is read back from its tokens, whatever follows it
      that could not be part of it. */
  lemma {:induction false} WhereReadBack(w: Where, ts: seq<Token>, pos: nat, rest: seq<Token>)
    requires Shows(ts, pos, WhereTokens(w), rest)
    requires StopsChain(At(rest, 0)) && !At(rest, 0).ConnTok?
    ensures ReadWhere(ts, pos) == Parsed(w, pos + |WhereTokens(w)|)
  {
    hide Shows, ReadComparison, ComparisonTokens, WhereTokens, ReadWhere, At;
    var c := ComparisonTokens(w.c);
    WhereText(w);
    match w {
      case Last(_) =>
        ComparisonReadBack(w.c, ts, pos, rest);
        Advance(ts, pos, c, [], rest);
        First(ts, pos + |c|, [], rest);
        WhereEnds(w.c, ts, pos);
      case Joined(_, conn, more) =>
        var m := WhereTokens(more);
        Advance(ts, pos, c, [ConnTok(conn)] + m, rest);
        FirstToken(ConnTok(conn), m, rest);
        ComparisonReadBack(w.c, ts, pos, [ConnTok(conn)] + m + rest);
        First(ts, pos + |c|, [ConnTok(conn)] + m, rest);
        Advance(ts, pos + |c|, [ConnTok(conn)], m, rest);
        WhereReadBack(more, ts, pos + |c| + 1, rest);
        WhereGoesOn(w, ts, pos, pos + |WhereTokens(w)|);
    }
  }

  lemma WhereEnds(c: Comparison, ts: seq<Token>, pos: nat)
    requires ReadComparison(ts, pos).Done? && ReadComparison(ts, pos).value == c && !At(ts, ReadComparison(ts, pos).pos).ConnTok?
    ensures ReadWhere(ts, pos) == Parsed(Last(c), ReadComparison(ts, pos).pos)
  {
    hide ReadComparison;
  }

  lemma WhereGoesOn(w: Where, ts: seq<Token>, pos: nat, end: nat)
    requires w.Joined? && ReadComparison(ts, pos).Done? && ReadComparison(ts, pos).value == w.c
    requires var next := ReadComparison(ts, pos).pos; At(ts, next) == ConnTok(w.conn) && ReadWhere(ts, next + 1) == Parsed(w.more, end)
    ensures ReadWhere(ts, pos) == Parsed(w, end)
  {
    hide ReadComparison;
  }

  lemma WhereText(w: Where)
    ensures w.Last? ==> WhereTokens(w) == ComparisonTokens(w.c) == ComparisonTokens(w.c) + []
    ensures w.Joined? ==>
              var c, m := ComparisonTokens(w.c), WhereTokens(w.more);
              WhereTokens(w) == c + ([ConnTok(w.conn)] + m) && |WhereTokens(w)| == |c| + 1 + |m|
  {
    hide ComparisonTokens;
    var c := ComparisonTokens(w.c);
    assert c == c + [];
  }

  lemma FirstToken(t: Token, m: seq<Token>, rest: seq<Token>)
    ensures At([t] + m + rest, 0) == t && At([t] + m, 0) == t
  {
  }

  // ----- What the returned number says -----

  /** The positions at which the parser starts on a comparison: the first one, and one
      after each connective that follows a comparison it could read. */
  function Starts(ts: seq<Token>, pos: nat): (s: seq<nat>)
    ensures s != [] && s[0] == pos
    decreases |ts| - pos
  {
    match ReadComparison(ts, pos)
    case Bad => [pos]
    case Done(_, p) => if At(ts, p).ConnTok? then [pos] + Starts(ts, p + 1) else [pos]
  }

  lemma {:induction false} MoreCode(c: Comparison, ts: seq<Token>, pos: nat)
    requires At(ts, pos).ConnTok?
    ensures var starts := Starts(ts, pos + 1);
            CodeOf(ReadMore(c, ts, pos)) ==
            if ReadComparison(ts, starts[|starts| - 1]).Bad? then CodeZero else CodeOk
    decreases |ts| - pos
  {
    hide ReadComparison;
    var r := ReadComparison(ts, pos + 1);
    if r.Done? && At(ts, r.pos).ConnTok? {
      MoreCode(r.value, ts, r.pos);
    }
  }

  /** The clause is refused exactly when its first comparison cannot be read. One that
      cannot be read after a connective makes the parser return 0, which is not an error
      code, with only part of the code emitted. */
  lemma ReturnCodeIff(ts: seq<Token>, pos: nat)
    ensures var starts := Starts(ts, pos);
            var bad := ReadComparison(ts, starts[|starts| - 1]).Bad?;
            && (CodeOf(ReadWhere(ts, pos)) == CodeSyntaxError <==> ReadComparison(ts, pos).Bad?)
            && (CodeOf(ReadWhere(ts, pos)) == CodeZero <==> bad && |starts| > 1)
            && (CodeOf(ReadWhere(ts, pos)) == CodeOk <==> !bad)
  {
    hide ReadComparison;
    var r := ReadComparison(ts, pos);
    if r.Done? && At(ts, r.pos).ConnTok? {
      MoreCode(r.value, ts, r.pos);
    }
  }

  /** For example `n = v AND n`, cut off in its second comparison, is not refused. */
  lemma CutOffClauseIsAccepted(n: Name, v: Long, conn: Connective)
    ensures var ts := [Ident(n), CmpTok(Eq), Int(v), ConnTok(conn), Ident(n)];
            CodeOf(ReadWhere(ts, 0)) == CodeZero
  {
    var ts := [Ident(n), CmpTok(Eq), Int(v), ConnTok(conn), Ident(n)];
    var c := Comparison(Eq, Chain(Column(n), []), Chain(Number(v), []));
    assert HeadTokens(Column(n)) == [Ident(n)] && HeadTokens(Number(v)) == [Int(v)] && LinksTokens([]) == [];
    assert ChainTokens(c.lhs) == [Ident(n)] && ChainTokens(c.rhs) == [Int(v)];
    assert ComparisonTokens(c) == [Ident(n), CmpTok(Eq), Int(v)];
    ComparisonReadBack(c, ts, 0, [ConnTok(conn), Ident(n)]);
    ChainReadBack(Chain(Column(n), []), ts, 4, []);
    assert ReadComparison(ts, 4) == Bad;
  }

  // ----- Clauses with sub-clauses -----

  /** No arm starts with a bracket of its expression: behind a connective that opens a
      sub-clause. */
  predicate BareClause(clause: Clause)
    decreases clause, 1
  {
    BareParts(clause.parts)
  }

  predicate BareParts(parts: seq<Part>)
    decreases parts, 0
  {
    parts == [] || (BarePart(parts[0]) && BareParts(parts[1..]))
  }

  predicate BarePart(part: Part)
    decreases part, 2
  {
    match part.arm
    case One(c) => !c.lhs.head.Group?
    case Nested(clause) => BareClause(clause)
  }

  /** A sub-clause is closed twice, unless it ends in one itself: the first bracket goes
      to the expression at its end. */
  function ClauseTokens(clause: Clause): seq<Token>
    requires BareClause(clause)
    decreases clause, 1
  {
    ComparisonTokens(clause.first) + PartsTokens(clause.parts)
  }

  function PartsTokens(parts: seq<Part>): seq<Token>
    requires BareParts(parts)
    decreases parts, 0
  {
    if parts == [] then [] else [ConnTok(parts[0].conn)] + PartTokens(parts[0]) + PartsTokens(parts[1..])
  }

  function PartTokens(part: Part): seq<Token>
    requires BarePart(part)
    decreases part, 2
  {
    match part.arm
    case One(c) => ComparisonTokens(c)
    case Nested(clause) => [LeftParen] + ClauseTokens(clause) + Closing(clause)
  }

  function Closing(clause: Clause): seq<Token>
  {
    if HasInner(clause) then [RightParen] else [RightParen, RightParen]
  }

  /** The closing bracket that the end of these parts takes from what follows. */
  function TakenBy(parts: seq<Part>, rest: seq<Token>): nat
  {
    if parts != [] && parts[|parts| - 1].arm.Nested? then 0 else Taken(rest)
  }

  /** What follows cannot be part of the clause. */
  predicate Ends(parts: seq<Part>, rest: seq<Token>)
  {
    !At(rest, 0).ArithTok? && !At(rest, TakenBy(parts, rest)).ConnTok?
  }

  lemma BehindBracket(ts: seq<Token>, pos: nat, rest: seq<Token>)
    requires Shows(ts, pos, [], rest)
    ensures At(ts, pos + Taken(rest)) == At(rest, Taken(rest))
  {
    assert ts[pos..] == rest;
    assert pos + Taken(rest) < |ts| ==> ts[pos + Taken(rest)] == ts[pos..][Taken(rest)];
  }

  lemma FirstOfParts(parts: seq<Part>, rest: seq<Token>)
    requires BareParts(parts)
    ensures At(PartsTokens(parts) + rest, 0) == if parts == [] then At(rest, 0) else ConnTok(parts[0].conn)
  {
    if parts == [] { assert PartsTokens(parts) + rest == rest; }
  }

  /** Every clause written with doubly closed sub-clauses is read back, whatever follows
      it that could not be part of it. */
  lemma {:induction false} ClauseReadBack(clause: Clause, ts: seq<Token>, pos: nat, rest: seq<Token>)
    requires BareClause(clause) && Shows(ts, pos, ClauseTokens(clause), rest) && Ends(clause.parts, rest)
    ensures ReadClause(ts, pos) == Got(clause, pos + |ClauseTokens(clause)| + TakenBy(clause.parts, rest))
    decreases clause, 2
  {
    hide Shows, ReadComparison, ComparisonTokens, ReadParts;
    var c, parts := ComparisonTokens(clause.first), clause.parts;
    Advance(ts, pos, c, PartsTokens(parts), rest);
    FirstOfParts(parts, rest);
    ComparisonReadBack(clause.first, ts, pos, PartsTokens(parts) + rest);
    var next := pos + |c|;
    if parts == [] {
      NoMoreParts(ts, next, rest);
    } else {
      PartsReadBack(parts, ts, next, rest);
    }
  }

  lemma NoMoreParts(ts: seq<Token>, pos: nat, rest: seq<Token>)
    requires Shows(ts, pos, [], rest) && !At(rest, Taken(rest)).ConnTok?
    ensures pos + Taken(rest) <= |ts| && ReadParts(ts, pos + Taken(rest)) == Got([], pos + Taken(rest))
  {
    First(ts, pos, [], rest);
    BehindBracket(ts, pos, rest);
  }

  /** Reading on after one more arm. */
  lemma OneMorePart(parts: seq<Part>, ts: seq<Token>, pos: nat, next: nat, end: nat)
    requires parts != [] && pos < |ts| && ts[pos] == ConnTok(parts[0].conn) && next <= |ts|
    requires ReadArm(ts, pos + 1) == Got(parts[0].arm, next) && ReadParts(ts, next) == Got(parts[1..], end)
    ensures ReadParts(ts, pos) == Got(parts, end)
  {
    hide ReadArm;
    assert [parts[0]] + parts[1..] == parts;
  }

  lemma {:induction false} PartsReadBack(parts: seq<Part>, ts: seq<Token>, pos: nat, rest: seq<Token>)
    requires parts != [] && BareParts(parts) && Shows(ts, pos, PartsTokens(parts), rest) && Ends(parts, rest)
    ensures pos <= |ts| && ReadParts(ts, pos) == Got(parts, pos + |PartsTokens(parts)| + TakenBy(parts, rest))
    decreases parts, 1
  {
    hide Shows, ReadComparison, ComparisonTokens, ReadArm, BarePart, PartTokens, ReadParts, TakenBy, Ends, PartsTokens;
    var part, more := parts[0], parts[1..];
    PartsShow(parts, ts, pos, rest);
    FirstPart(parts, ts, pos, rest);
    var next := pos + 1 + |PartTokens(part)|;
    if more == [] {
      OneMorePart(parts, ts, pos, next + TakenBy(parts, rest), next + TakenBy(parts, rest));
    } else {
      EndsLater(parts, rest);
      PartsReadBack(more, ts, next, rest);
      OneMorePart(parts, ts, pos, next, next + |PartsTokens(more)| + TakenBy(parts, rest));
    }
  }

  lemma EndsLater(parts: seq<Part>, rest: seq<Token>)
    requires |parts| > 1 && Ends(parts, rest)
    ensures Ends(parts[1..], rest) && TakenBy(parts[1..], rest) == TakenBy(parts, rest)
  {
  }

  /** The tokens of parts are a connective, an arm and the tokens of the other parts. */
  lemma PartsShow(parts: seq<Part>, ts: seq<Token>, pos: nat, rest: seq<Token>)
    requires parts != [] && BareParts(parts) && Shows(ts, pos, PartsTokens(parts), rest)
    ensures pos < |ts| && ts[pos] == ConnTok(parts[0].conn)
    ensures var next := pos + 1 + |PartTokens(parts[0])|;
            && next <= |ts| && |PartsTokens(parts)| == next - pos + |PartsTokens(parts[1..])|
            && (|parts| == 1 ==> |PartsTokens(parts[1..])| == 0 && PartsTokens(parts[1..]) + rest == rest && Shows(ts, next, [], rest))
            && Shows(ts, pos + 1, PartTokens(parts[0]), PartsTokens(parts[1..]) + rest)
            && Shows(ts, next, PartsTokens(parts[1..]), rest)
  {
    hide Shows, BarePart, PartTokens;
    var mid, tail, conn := PartTokens(parts[0]), PartsTokens(parts[1..]), [ConnTok(parts[0].conn)];
    First(ts, pos, PartsTokens(parts), rest);
    assert PartsTokens(parts) == conn + (mid + tail);
    Advance(ts, pos, conn, mid + tail, rest);
    Advance(ts, pos + 1, mid, tail, rest);
    if |parts| == 1 { assert tail == []; }
  }

  lemma OnlyPart(parts: seq<Part>, rest: seq<Token>)
    requires |parts| == 1 && Ends(parts, rest)
    ensures Ends([parts[0]], rest) && TakenBy([parts[0]], rest) == TakenBy(parts, rest)
  {
    assert parts == [parts[0]];
  }

  /** The first arm is read back. */
  lemma {:induction false} FirstPart(parts: seq<Part>, ts: seq<Token>, pos: nat, rest: seq<Token>)
    requires parts != [] && BarePart(parts[0]) && BareParts(parts[1..]) && BareParts(parts)
    requires Shows(ts, pos, PartsTokens(parts), rest) && Ends(parts, rest)
    ensures var next := pos + 1 + |PartTokens(parts[0])|;
            if |parts| == 1
            then var end := next + TakenBy(parts, rest);
                 end <= |ts| && ReadArm(ts, pos + 1) == Got(parts[0].arm, end) && ReadParts(ts, end) == Got([], end)
            else ReadArm(ts, pos + 1) == Got(parts[0].arm, next)
    decreases parts, 0
  {
    hide Shows, ReadArm, BarePart, PartTokens, ReadParts, PartsTokens, TakenBy, Ends, At, BareParts;
    PartsShow(parts, ts, pos, rest);
    NoneTaken(parts, rest);
    var part, next := parts[0], pos + 1 + |PartTokens(parts[0])|;
    var behind := PartsTokens(parts[1..]) + rest;
    PartReadBack(part, ts, pos + 1, behind);
    if |parts| == 1 {
      OnlyPart(parts, rest);
      LastPart(part, ts, next, rest);
    }
  }

  /** An arm takes nothing from a connective behind it. */
  lemma NoneTaken(parts: seq<Part>, rest: seq<Token>)
    requires parts != [] && BareParts(parts) && Ends(parts, rest)
    ensures !At(PartsTokens(parts[1..]) + rest, 0).ArithTok?
    ensures |parts| > 1 ==> TakenBy([parts[0]], PartsTokens(parts[1..]) + rest) == 0
  {
    FirstOfParts(parts[1..], rest);
    hide PartsTokens, BarePart;
  }

  lemma LastPart(part: Part, ts: seq<Token>, pos: nat, rest: seq<Token>)
    requires Shows(ts, pos, [], rest) && Ends([part], rest)
    ensures var next := pos + TakenBy([part], rest); next <= |ts| && ReadParts(ts, next) == Got([], next)
  {
    First(ts, pos, [], rest);
    BehindBracket(ts, pos, rest);
  }

  lemma {:induction false} PartReadBack(part: Part, ts: seq<Token>, pos: nat, rest: seq<Token>)
    requires BarePart(part) && Shows(ts, pos, PartTokens(part), rest) && !At(rest, 0).ArithTok?
    ensures ReadArm(ts, pos) == Got(part.arm, pos + |PartTokens(part)| + TakenBy([part], rest))
    decreases part, 2
  {
    hide ReadComparison, ReadClause;
    First(ts, pos, PartTokens(part), rest);
    match part.arm {
      case One(c) =>
        FirstOfComparison(c);
        ComparisonReadBack(c, ts, pos, rest);
      case Nested(clause) =>
        hide Shows;
        var inner, close := ClauseTokens(clause), Closing(clause);
        assert PartTokens(part) == [LeftParen] + (inner + close);
        Advance(ts, pos, [LeftParen], inner + close, rest);
        Advance(ts, pos + 1, inner, close, rest);
        BracketCloses(clause, ts, pos + 1 + |inner|, rest);
        ClauseReadBack(clause, ts, pos + 1, close + rest);
    }
  }

  lemma FirstOfComparison(c: Comparison)
    requires !c.lhs.head.Group?
    ensures |ComparisonTokens(c)| > 0 && ComparisonTokens(c)[0] != LeftParen
  {
    var head := HeadTokens(c.lhs.head);
    assert |head| == 1 && head[0] != LeftParen;
    assert ComparisonTokens(c)[0] == ChainTokens(c.lhs)[0] == head[0];
  }

  /** After a sub-clause's own end there is one more bracket. */
  lemma BracketCloses(clause: Clause, ts: seq<Token>, pos: nat, rest: seq<Token>)
    requires Shows(ts, pos, Closing(clause), rest)
    ensures var close := Closing(clause);
            && Ends(clause.parts, close + rest)
            && var end := pos + TakenBy(clause.parts, close + rest);
               end + 1 == pos + |close| && At(ts, end) == RightParen
  {
    var close := Closing(clause);
    assert At(close + rest, 0) == RightParen;
    if !HasInner(clause) { assert (close + rest)[1] == RightParen; }
    assert ts[pos..][|close| - 1] == RightParen;
  }

  /** A sub-clause that what follows does not close makes the whole clause a syntax error. */
  lemma UnclosedIsRefused(c: Comparison, conn: Connective, inner: Clause, ts: seq<Token>, pos: nat, rest: seq<Token>)
    requires BareClause(inner) && Shows(ts, pos, ComparisonTokens(c) + ([ConnTok(conn)] + ([LeftParen] + ClauseTokens(inner))), rest)
    requires Ends(inner.parts, rest) && At(rest, TakenBy(inner.parts, rest)) != RightParen
    ensures CodeOfReading(ReadClause(ts, pos)) == CodeSyntaxError
  {
    hide Shows, ReadComparison, ComparisonTokens, ClauseTokens, At, Ends, TakenBy, BareClause;
    var first, text := ComparisonTokens(c), [LeftParen] + ClauseTokens(inner);
    FirstToken(ConnTok(conn), text, rest);
    Advance(ts, pos, first, [ConnTok(conn)] + text, rest);
    ComparisonReadBack(c, ts, pos, [ConnTok(conn)] + text + rest);
    First(ts, pos + |first|, [ConnTok(conn)] + text, rest);
    Advance(ts, pos + |first|, [ConnTok(conn)], text, rest);
    First(ts, pos + |first| + 1, text, rest);
    Advance(ts, pos + |first| + 1, [LeftParen], ClauseTokens(inner), rest);
    ClauseReadBack(inner, ts, pos + |first| + 2, rest);
    var end := pos + |first| + 2 + |ClauseTokens(inner)|;
    NotClosed(inner, ts, end, rest);
    ArmRefused(inner, ts, pos + |first| + 1, end + TakenBy(inner.parts, rest));
    ClauseRefused(c, ts, pos, pos + |first|);
  }

  lemma NotClosed(inner: Clause, ts: seq<Token>, end: nat, rest: seq<Token>)
    requires end <= |ts| && ts[end..] == rest && At(rest, TakenBy(inner.parts, rest)) != RightParen
    ensures At(ts, end + TakenBy(inner.parts, rest)) != RightParen
  {
    var n := TakenBy(inner.parts, rest);
    assert end + n < |ts| ==> ts[end + n] == ts[end..][n];
  }

  lemma ArmRefused(inner: Clause, ts: seq<Token>, pos: nat, end: nat)
    requires pos < |ts| && At(ts, pos) == LeftParen && ReadClause(ts, pos + 1) == Got(inner, end) && At(ts, end) != RightParen
    ensures ReadArm(ts, pos) == Refused
  {
    hide ReadClause;
  }

  lemma ClauseRefused(c: Comparison, ts: seq<Token>, pos: nat, next: nat)
    requires next < |ts| && ReadComparison(ts, pos) == Done(c, next) && At(ts, next).ConnTok? && ReadArm(ts, next + 1) == Refused
    ensures ReadClause(ts, pos) == Refused
  {
    hide ReadComparison, ReadArm;
  }


  /** And so does a sub-clause whose first comparison cannot be read. */
  lemma UnreadableIsRefused(c: Comparison, conn: Connective, ts: seq<Token>, pos: nat, rest: seq<Token>)
    requires Shows(ts, pos, ComparisonTokens(c) + ([ConnTok(conn)] + [LeftParen]), rest)
    requires ReadComparison(ts, pos + |ComparisonTokens(c)| + 2).Bad?
    ensures CodeOfReading(ReadClause(ts, pos)) == CodeSyntaxError
  {
    hide Shows, ReadComparison, ComparisonTokens;
    var first := ComparisonTokens(c);
    FirstToken(ConnTok(conn), [LeftParen], rest);
    Advance(ts, pos, first, [ConnTok(conn)] + [LeftParen], rest);
    ComparisonReadBack(c, ts, pos, [ConnTok(conn)] + [LeftParen] + rest);
    First(ts, pos + |first|, [ConnTok(conn)] + [LeftParen], rest);
    Advance(ts, pos + |first|, [ConnTok(conn)], [LeftParen], rest);
    First(ts, pos + |first| + 1, [LeftParen], rest);
    ClauseRefused(c, ts, pos, pos + |first|);
  }
}
