/** Printing a tree and tokenizing the text: exactly which trees come back as their
    own token sequence.
 */
module JsonRoundTrip {
  import opened JsonTree
  import opened JsonParse

  // ----- The token sequence of a tree -----

  function Tokens(v: Value): seq<Token>
    decreases v, 1
  {
    match v
    case Str(s) => [Token(STRING, Escape(s))]
    case Int(n) => [Token(NUMBER, Decimal(n))]
    case _ => [Token(if v.Object? then '{' else '[', "")] + ChildTokens(v, 0)
  }

  function LeadTokens(v: Value, i: nat): seq<Token>
    requires IsContainer(v) && i < Count(v)
  {
    (if i > 0 then [Token(',', "")] else []) +
    (if v.Object? then [Token(PAIR_NAME, Escape(v.pairs[i].name)), Token(':', "")] else [])
  }

  function ChildTokens(v: Value, i: nat): seq<Token>
    requires IsContainer(v) && i <= Count(v)
    decreases v, 0, Count(v) - i
  {
    if i == Count(v) then [Token(if v.Object? then '}' else ']', "")]
    else
      ChildSmaller(v, i);
      LeadTokens(v, i) + Tokens(Child(v, i)) + ChildTokens(v, i + 1)
  }

  // ----- Which trees survive -----

  /** Reading from the left, every backslash is followed by a character that is not a
      quote. The printer escapes quotes but not backslashes. */
  predicate Balanced(s: string)
  {
    if s == "" then true
    else if s[0] == '\\' then |s| >= 2 && s[1] != '"' && Balanced(s[2..])
    else Balanced(s[1..])
  }

  /** The tokenizer still remembers a value when it is done with `v`. Opening a
      bracket makes it forget. */
  predicate Live(v: Value)
    decreases v
  {
    match v
    case Str(_) => true
    case Int(_) => true
    case Object(pairs) => pairs != [] && LastLive(v)
    case Array(items) => items != [] && LastLive(v)
  }

  predicate LastLive(v: Value)
    requires IsContainer(v) && Count(v) > 0
    decreases v, 0
  {
    ChildSmaller(v, Count(v) - 1);
    Live(Child(v, Count(v) - 1))
  }

  /** In an object, the name is balanced and the value is live. */
  predicate PairOk(v: Value, i: nat)
    requires IsContainer(v) && i < Count(v)
  {
    v.Object? ==> Balanced(v.pairs[i].name) && Live(v.pairs[i].value)
  }

  /** Balanced strings, no negative numbers, and live values in all pairs. */
  predicate Good(v: Value)
    decreases v
  {
    match v
    case Str(s) => Balanced(s)
    case Int(n) => n >= 0
    case _ => forall k | 0 <= k < Count(v) :: (ChildSmaller(v, k); Good(Child(v, k))) && PairOk(v, k)
  }

  ghost predicate GoodFrom(v: Value, i: nat)
    requires IsContainer(v)
  {
    forall k :: i <= k < Count(v) ==> Good(Child(v, k)) && PairOk(v, k)
  }

  lemma GoodStep(v: Value, i: nat)
    requires IsContainer(v) && i < Count(v)
    ensures GoodFrom(v, i) <==> Good(Child(v, i)) && PairOk(v, i) && GoodFrom(v, i + 1)
  {
    hide Good, PairOk;
  }

  /** Stack slots that a value takes: an object needs one for itself and one for the
      pair it is in. */
  function Need(v: Value): nat
    decreases v, 1
  {
    if IsContainer(v) then 1 + NeedFrom(v, 0) else 0
  }

  function NeedFrom(v: Value, i: nat): nat
    requires IsContainer(v) && i <= Count(v)
    decreases v, 0, Count(v) - i
  {
    if i == Count(v) then 0
    else
      ChildSmaller(v, i);
      var a, b := (if v.Object? then 1 else 0) + Need(Child(v, i)), NeedFrom(v, i + 1);
      if a > b then a else b
  }

  // ----- Reading text -----

  /** The text from `pos` on is `t`. */
  ghost predicate Sees(json: string, pos: nat, t: string)
  {
    pos <= |json| && json[pos..] == t
  }

  lemma SeesPast(json: string, pos: nat, a: string, b: string)
    requires Sees(json, pos, a + b)
    ensures Sees(json, pos + |a|, b)
  {
    assert json[pos + |a|..] == json[pos..][|a|..];
  }

  lemma SeesChar(json: string, pos: nat, t: string)
    requires Sees(json, pos, t) && t != ""
    ensures pos < |json| && json[pos] == t[0] && Sees(json, pos + 1, t[1..])
  {
    assert json[pos] == json[pos..][0];
    assert json[pos + 1..] == json[pos..][1..];
  }

  predicate Space(ws: string)
  {
    forall c <- ws :: c == ' ' || c == '\n'
  }

  lemma {:induction false} SkipTo(json: string, pos: nat, ws: string, c: char, t: string)
    requires Space(ws) && c != ' ' && c != '\n' && Sees(json, pos, ws + [c] + t)
    ensures SkipWs(json, pos) == pos + |ws| && At(json, pos + |ws|) == c
    ensures Sees(json, pos + |ws| + 1, t)
    decreases |ws|
  {
    SeesChar(json, pos, ws + [c] + t);
    if ws == "" {
      assert (ws + [c] + t)[1..] == t;
    } else {
      assert ws[0] in ws && forall x <- ws[1..] :: x in ws;
      assert (ws + [c] + t)[1..] == ws[1..] + [c] + t;
      SkipTo(json, pos + 1, ws[1..], c, t);
    }
  }

  // ----- Strings and numbers -----

  /** The scan stops at the closing quote exactly for balanced strings. */
  lemma {:induction false} ScanEscaped(s: string, json: string, pos: nat, t: string)
    requires '\0' !in s && Sees(json, pos, Escape(s) + ("\"" + t))
    ensures Balanced(s) <==> ScanString(json, pos) == pos + |Escape(s)| + 1
    decreases |s|
  {
    var whole := Escape(s) + ("\"" + t);
    SeesChar(json, pos, whole);
    if s != "" {
      assert s[0] in s;
      assert forall c <- s[1..] :: c in s;
      var more := Escape(s[1..]) + ("\"" + t);
      if s[0] == '"' {
        assert whole == "\\" + ("\"" + more);
        SeesPast(json, pos, "\\", "\"" + more);
        SeesPast(json, pos + 1, "\"", more);
        ScanEscaped(s[1..], json, pos + 2, t);
      } else if s[0] == '\\' {
        assert whole == "\\" + more;
        SeesPast(json, pos, "\\", more);
        if |s| >= 2 {
          ScanPair(s, json, pos, t);
          if s[1] != '"' {
            assert forall c <- s[2..] :: c in s;
            ScanEscaped(s[2..], json, pos + 2, t);
          }
        } else {
          assert Escape(s[1..]) == "";
        }
      } else {
        assert whole == [s[0]] + more;
        SeesPast(json, pos, [s[0]], more);
        ScanEscaped(s[1..], json, pos + 1, t);
      }
    }
  }

  /** A backslash and the printed form of the character behind it. */
  lemma ScanPair(s: string, json: string, pos: nat, t: string)
    requires |s| >= 2 && s[0] == '\\' && Sees(json, pos, Escape(s) + ("\"" + t))
    ensures s[1] != '"' ==> |Escape(s)| == 2 + |Escape(s[2..])| && Sees(json, pos + 2, Escape(s[2..]) + ("\"" + t))
    ensures s[1] == '"' ==> ScanString(json, pos) == pos + 3 && |Escape(s)| >= 3
  {
    var end := "\"" + t;
    assert s[1..][1..] == s[2..];
    var e := Escape(s[2..]);
    if s[1] != '"' {
      assert Escape(s) == "\\" + [s[1]] + e;
      assert Escape(s) + end == ("\\" + [s[1]]) + (e + end);
      SeesPast(json, pos, "\\" + [s[1]], e + end);
    } else {
      assert Escape(s) == "\\" + ("\\\"" + e);
      assert Escape(s) + end == "\\\\\"" + (e + end);
      SeesChar(json, pos, "\\\\\"" + (e + end));
      assert ("\\\\\"" + (e + end))[1..] == "\\\"" + (e + end);
      SeesChar(json, pos + 1, "\\\"" + (e + end));
      assert ("\\\"" + (e + end))[1..] == "\"" + (e + end);
      SeesChar(json, pos + 2, "\"" + (e + end));
    }
  }

  lemma SliceSeen(json: string, pos: nat, a: string, b: string)
    requires Sees(json, pos, a + b)
    ensures Slice(json, pos, |a|) == a
  {
    forall i | 0 <= i < |a|
      ensures At(json, pos + i) == a[i]
    {
      assert json[pos + i] == json[pos..][i];
    }
  }

  predicate Delimited(t: string)
  {
    t == "" || !IsNumeral(t[0])
  }

  lemma {:induction false} DigitsNumeral(n: nat)
    ensures |Digits(n)| >= 1 && '0' <= Digits(n)[0] <= '9'
    ensures forall i :: 0 <= i < |Digits(n)| ==> IsNumeral(Digits(n)[i])
  {
    if n >= 10 {
      DigitsNumeral(n / 10);
    }
  }

  lemma {:induction false} ScanNumerals(json: string, pos: nat, a: string, t: string)
    requires Sees(json, pos, a + t) && Delimited(t) && forall i :: 0 <= i < |a| ==> IsNumeral(a[i])
    ensures ScanNumber(json, pos) == pos + |a|
    decreases |a|
  {
    if a == "" {
      assert a + t == t;
      if t != "" { SeesChar(json, pos, t); }
    } else {
      SeesChar(json, pos, a + t);
      assert (a + t)[1..] == a[1..] + t;
      ScanNumerals(json, pos + 1, a[1..], t);
    }
  }

  // ----- Runs in pieces -----

  /** From `st` the run yields `toks` and then goes on as from `st'`. */
  ghost predicate Leads(json: string, st: State, toks: seq<Token>, st': State)
  {
    && Run(json, st).tokens == toks + Run(json, st').tokens
    && Run(json, st).final == Run(json, st').final
  }

  /** From `st` the run does not yield `toks` first. */
  ghost predicate Misses(json: string, st: State, toks: seq<Token>)
  {
    !(toks <= Run(json, st).tokens)
  }

  lemma LeadsLeads(json: string, a: State, x: seq<Token>, b: State, y: seq<Token>, c: State)
    requires Leads(json, a, x, b) && Leads(json, b, y, c)
    ensures Leads(json, a, x + y, c)
  {
    hide Run;
    assert x + (y + Run(json, c).tokens) == (x + y) + Run(json, c).tokens;
  }

  lemma LeadsMisses(json: string, a: State, x: seq<Token>, b: State, y: seq<Token>)
    requires Leads(json, a, x, b) && Misses(json, b, y)
    ensures Misses(json, a, x + y)
  {
    hide Run;
    PrefixCancel(x, y, Run(json, b).tokens);
  }

  lemma PrefixCancel(x: seq<Token>, y: seq<Token>, r: seq<Token>)
    ensures x + y <= x + r ==> y <= r
  {
    if x + y <= x + r {
      assert (x + r)[|x|..|x + y|] == r[..|y|];
      assert (x + r)[..|x + y|] == x + y;
      assert (x + y)[|x|..] == y;
      assert (x + r)[|x|..|x + y|] == (x + r)[..|x + y|][|x|..];
    }
  }

  lemma PrefixShorter(x: seq<Token>, y: seq<Token>, r: seq<Token>)
    ensures x + y <= r ==> x <= r
  {
    if x + y <= r {
      assert r[..|x|] == r[..|x + y|][..|x|] == (x + y)[..|x|];
    }
  }

  lemma MissesMore(json: string, a: State, x: seq<Token>, y: seq<Token>)
    requires Misses(json, a, x)
    ensures Misses(json, a, x + y)
  {
    hide Run;
    PrefixShorter(x, y, Run(json, a).tokens);
  }

  lemma OneToken(json: string, st: State)
    ensures var r := Next(json, st);
            if r.kind == NONE then Run(json, st) == Trace([], r.st)
            else Leads(json, st, [TokenOf(json, r)], r.st)
  {
    hide Next;
    if st.pos >= |json| { NextAtEnd(json, st); }
  }

  ghost predicate Ready(st: State, stack: seq<char>, live: bool)
  {
    st.stack == stack && (st.vtype != NONE <==> live) && st.error == NoError && !st.overrun
  }

  /** One call on the character `c` behind white space. */
  lemma Char(json: string, st: State, ws: string, c: char, t: string) returns (r: Result)
    requires Space(ws) && c != ' ' && c != '\n' && Sees(json, st.pos, ws + [c] + t)
    ensures r == Next(json, st) == Dispatch(json, st.(pos := st.pos + |ws| + 1), c)
    ensures Sees(json, st.pos + |ws| + 1, t)
    ensures r.kind == NONE ==> Run(json, st) == Trace([], r.st)
    ensures r.kind != NONE ==> Leads(json, st, [TokenOf(json, r)], r.st)
  {
    hide Dispatch, Run;
    SkipTo(json, st.pos, ws, c, t);
    OneToken(json, st);
    r := Next(json, st);
  }

  lemma Popped(base: seq<char>, c: char)
    ensures Top(base + [c]) == c && (base + [c])[..|base + [c]| - 1] == base
  {
  }

  // ----- Atoms -----

  lemma DispatchQuote(json: string, st: State, kind: char)
    requires st.pos > 0
    requires if kind == PAIR_NAME then Top(st.stack) == '{' else kind == STRING && Top(st.stack) in {':', '['}
    ensures Dispatch(json, st, '"') == AtomString(json, st, kind)
  {
    hide AtomString, AtomNumber, Push, Pop;
  }

  lemma DispatchOther(json: string, st: State, c: char)
    requires st.pos > 0 && Top(st.stack) in {':', '['} && c !in {'{', ':', '}', ']', ',', '"', '['}
    ensures Dispatch(json, st, c) == if '0' <= c <= '9' then AtomNumber(json, st) else Result(NONE, st)
  {
    hide AtomString, AtomNumber, Push, Pop;
  }

  lemma StringRun(s: string, kind: char, json: string, st: State, ws: string, t: string) returns (st': State)
    requires '\0' !in s && Space(ws) && Sees(json, st.pos, ws + Quoted(s) + t)
    requires st.error == NoError && !st.overrun
    requires if kind == PAIR_NAME then Top(st.stack) == '{' else kind == STRING && Top(st.stack) in {':', '['}
    ensures Balanced(s) ==> && Leads(json, st, [Token(kind, Escape(s))], st')
                            && Sees(json, st'.pos, t) && Ready(st', st.stack, true)
    ensures !Balanced(s) ==> Misses(json, st, [Token(kind, Escape(s))])
  {
    hide Run, ScanString, Leads, Dispatch, Next, Sees, Misses, Slice, Escape, Balanced, Top;
    var e := Escape(s);
    var pos := st.pos + |ws| + 1;
    assert ws + Quoted(s) + t == ws + ['"'] + (e + ("\"" + t));
    var r := Char(json, st, ws, '"', e + ("\"" + t));
    DispatchQuote(json, st.(pos := pos), kind);
    st' := r.st;
    ScanEscaped(s, json, pos, t);
    SliceSeen(json, pos, e, "\"" + t);
    if Balanced(s) {
      SeesPast(json, pos, e, "\"" + t);
      SeesPast(json, pos + |e|, "\"", t);
    } else {
      SliceLength(json, r.st.vstart, r.st.vlen);
      WrongFirst(json, st, TokenOf(json, r), r.st, Token(kind, e));
    }
  }

  lemma SliceLength(json: string, start: nat, len: nat)
    ensures |Slice(json, start, len)| == len
  {
  }

  lemma WrongFirst(json: string, st: State, got: Token, st': State, want: Token)
    requires Leads(json, st, [got], st') && got != want
    ensures Misses(json, st, [want])
  {
    hide Run;
    assert Run(json, st).tokens[0] == got;
  }

  lemma StoppedMisses(json: string, st: State, st': State, toks: seq<Token>)
    requires Run(json, st) == Trace([], st') && toks != []
    ensures Misses(json, st, toks)
  {
    hide Run;
  }

  lemma NegativeRun(n: int, json: string, st: State, ws: string, t: string)
    requires n < 0 && Space(ws) && Sees(json, st.pos, ws + Decimal(n) + t) && Top(st.stack) in {':', '['}
    ensures Misses(json, st, [Token(NUMBER, Decimal(n))])
  {
    hide Run, Leads, Digits, Dispatch, Next, Sees, Misses, Top;
    assert ws + Decimal(n) + t == ws + ['-'] + (Digits(-n) + t);
    var r := Char(json, st, ws, '-', Digits(-n) + t);
    DispatchOther(json, st.(pos := st.pos + |ws| + 1), '-');
    StoppedMisses(json, st, r.st, [Token(NUMBER, Decimal(n))]);
  }

  lemma NumberRun(n: nat, json: string, st: State, ws: string, t: string) returns (st': State)
    requires Space(ws) && Sees(json, st.pos, ws + Digits(n) + t) && Delimited(t)
    requires st.error == NoError && !st.overrun && Top(st.stack) in {':', '['}
    ensures && Leads(json, st, [Token(NUMBER, Digits(n))], st')
            && Sees(json, st'.pos, t) && Ready(st', st.stack, true)
  {
    hide Run, ScanNumber, Leads, Digits, Dispatch, Next, Sees, Slice, Top, Delimited;
    var d := Digits(n);
    var pos := st.pos + |ws|;
    DigitsNumeral(n);
    assert ws + d + t == ws + [d[0]] + (d[1..] + t);
    var r := Char(json, st, ws, d[0], d[1..] + t);
    DispatchOther(json, st.(pos := pos + 1), d[0]);
    st' := r.st;
    ScanNumerals(json, pos + 1, d[1..], t);
    assert ws + d + t == ws + (d + t);
    SeesPast(json, st.pos, ws, d + t);
    SliceSeen(json, pos, d, t);
    SeesPast(json, pos + 1, d[1..], t);
  }

  // ----- Punctuation -----

  lemma PushRun(json: string, st: State, ws: string, c: char, t: string) returns (st': State)
    requires Space(ws) && Sees(json, st.pos, ws + [c] + t) && st.error == NoError && !st.overrun
    requires |st.stack| < JSONPARSE_MAX_DEPTH
    requires c == '{' || c == ':' || (c == '[' && Top(st.stack) in {':', '['})
    ensures Leads(json, st, [Token(c, "")], st') && Sees(json, st'.pos, t) && Ready(st', st.stack + [c], false)
  {
    hide Run, Leads, Next, Sees, Top;
    var r := Char(json, st, ws, c, t);
    st' := r.st;
  }

  /** A comma keeps what the tokenizer remembers. */
  lemma CommaRun(json: string, st: State, base: seq<char>, inPair: bool, t: string) returns (st': State)
    requires Sees(json, st.pos, "," + t) && st.error == NoError && !st.overrun
    requires if inPair then st.stack == base + [':'] && st.vtype != NONE else st.stack == base && Top(base) == '['
    ensures Leads(json, st, [Token(',', "")], st') && Sees(json, st'.pos, t) && Ready(st', base, st.vtype != NONE)
  {
    hide Run, Leads, Next, Sees;
    Popped(base, ':');
    assert "," + t == "" + [','] + t;
    var r := Char(json, st, "", ',', t);
    st' := r.st;
  }

  /** The closing bracket leaves the stack of the surrounding value. */
  lemma CloseRun(json: string, st: State, base: seq<char>, ws: string, c: char, inPair: bool, t: string) returns (st': State)
    requires Space(ws) && Sees(json, st.pos, ws + [c] + t) && st.error == NoError && !st.overrun
    requires if c == '}' then st.stack == base + ['{'] + (if inPair then [':'] else []) && (inPair ==> st.vtype != NONE)
             else c == ']' && !inPair && st.stack == base + ['[']
    ensures Leads(json, st, [Token(c, "")], st') && Sees(json, st'.pos, t) && Ready(st', base, st.vtype != NONE)
  {
    hide Run, Leads, Next, Sees;
    Popped(base, '{');
    Popped(base, '[');
    Popped(base + ['{'], ':');
    assert base + ['{'] + [] == base + ['{'];
    var r := Char(json, st, ws, c, t);
    st' := r.st;
  }

  /** Behind a pair whose value left nothing to remember, neither a comma nor a brace
      is accepted. */
  lemma DeadRun(json: string, st: State, ws: string, c: char, t: string, toks: seq<Token>)
    requires Space(ws) && Sees(json, st.pos, ws + [c] + t) && c in {',', '}'} && toks != []
    requires Top(st.stack) == ':' && st.vtype == NONE
    ensures Misses(json, st, toks)
  {
    hide Run, Leads, Next, Sees;
    var r := Char(json, st, ws, c, t);
    StoppedMisses(json, st, r.st, toks);
  }

  // ----- Containers -----

  function Bracket(v: Value): char
    requires IsContainer(v)
  {
    if v.Object? then '{' else '['
  }

  /** The stack in front of child `i`: behind the first, an object is still in the
      previous pair. */
  function StackAt(v: Value, i: nat, base: seq<char>): seq<char>
    requires IsContainer(v)
  {
    base + [Bracket(v)] + (if v.Object? && i > 0 then [':'] else [])
  }

  /** What is remembered in front of child `i`. */
  predicate LiveAt(v: Value, i: nat)
    requires IsContainer(v) && i <= Count(v)
  {
    i > 0 && Live(Child(v, i - 1))
  }

  /** The state from which the children from `i` on are read. */
  ghost predicate AtChild(v: Value, i: nat, json: string, st: State, base: seq<char>, t: string)
    requires IsContainer(v) && i <= Count(v)
  {
    && Ready(st, StackAt(v, i, base), LiveAt(v, i))
    && (v.Object? && i > 0 ==> LiveAt(v, i))
    && Sees(json, st.pos, (if i == 0 then "\n" else "") + t)
  }

  /** Comma, name and colon in front of child `i`; what is left is white space and the
      value itself. */
  lemma LeadRun(v: Value, i: nat, json: string, st: State, base: seq<char>, t: string) returns (st': State, ws: string)
    requires IsContainer(v) && i < Count(v) && AtChild(v, i, json, st, base, Lead(v, i) + t)
    requires |base| + 1 + (if v.Object? then 1 else 0) <= JSONPARSE_MAX_DEPTH
    ensures Space(ws)
    ensures v.Object? && !Balanced(v.pairs[i].name) ==> Misses(json, st, LeadTokens(v, i))
    ensures v.Array? || Balanced(v.pairs[i].name) ==>
              && Leads(json, st, LeadTokens(v, i), st') && Sees(json, st'.pos, ws + t)
              && st'.error == NoError && !st'.overrun
              && st'.stack == base + [Bracket(v)] + (if v.Object? then [':'] else [])
  {
    hide Run, Leads, Sees, Misses, Balanced, Live, Quoted, Escape;
    var lead := if i == 0 then "\n" else "";
    var inner := base + [Bracket(v)];
    Popped(base, Bracket(v));
    assert StackAt(v, i, base) == if v.Object? && i > 0 then inner + [':'] else inner;
    var named := if v.Object? then Quoted(v.pairs[i].name) + ":" else "";
    st', ws := st, "\n";
    var toks: seq<Token> := [];
    LeadsNothing(json, st);
    if i > 0 {
      assert lead + (Lead(v, i) + t) == "," + ("\n" + named + t);
      st' := CommaRun(json, st, inner, v.Object?, "\n" + named + t);
      toks := [Token(',', "")];
    } else {
      assert lead + (Lead(v, i) + t) == "\n" + named + t;
    }
    if v.Object? {
      var name := v.pairs[i].name;
      assert "\n" + named + t == "\n" + Quoted(name) + (":" + t);
      var st1 := st';
      st' := StringRun(name, PAIR_NAME, json, st1, "\n", ":" + t);
      var n := [Token(PAIR_NAME, Escape(name))];
      assert LeadTokens(v, i) == toks + n + [Token(':', "")];
      if !Balanced(name) {
        LeadsMisses(json, st, toks, st1, n);
        MissesMore(json, st, toks + n, [Token(':', "")]);
      } else {
        LeadsLeads(json, st, toks, st1, n, st');
        var st2 := st';
        assert ":" + t == "" + [':'] + t;
        st' := PushRun(json, st2, "", ':', t);
        LeadsLeads(json, st, toks + n, st2, [Token(':', "")], st');
        ws := "";
        assert "" + t == t;
      }
    } else {
      assert LeadTokens(v, i) == toks;
      assert "\n" + named + t == "\n" + t;
    }
  }

  lemma LeadsNothing(json: string, st: State)
    ensures Leads(json, st, [], st)
  {
    hide Run;
    assert [] + Run(json, st).tokens == Run(json, st).tokens;
  }

  lemma NeedOf(v: Value, i: nat)
    requires IsContainer(v) && i < Count(v)
    ensures (if v.Object? then 1 else 0) + Need(Child(v, i)) <= NeedFrom(v, i) && NeedFrom(v, i + 1) <= NeedFrom(v, i)
  {
  }

  lemma ChildUnfold(v: Value, i: nat)
    requires IsContainer(v) && i < Count(v)
    ensures Children(v, i) == Lead(v, i) + Print(Child(v, i)) + Children(v, i + 1)
    ensures ChildTokens(v, i) == LeadTokens(v, i) + Tokens(Child(v, i)) + ChildTokens(v, i + 1)
  {
  }

  lemma ChildEnd(v: Value)
    requires IsContainer(v)
    ensures Children(v, Count(v)) == "\n" + [if v.Object? then '}' else ']']
    ensures ChildTokens(v, Count(v)) == [Token(if v.Object? then '}' else ']', "")]
    ensures Live(v) <==> LiveAt(v, Count(v))
  {
  }

  /** Children start with a comma behind the first, and with a bracket at the end. */
  lemma ChildrenStart(v: Value, i: nat) returns (ws: string, c: char, t: string)
    requires IsContainer(v) && 0 < i <= Count(v)
    ensures Children(v, i) == ws + [c] + t && Space(ws) && (v.Object? ==> c in {',', '}'})
    ensures Children(v, i) != "" && !IsNumeral(Children(v, i)[0])
    ensures ChildTokens(v, i) != []
  {
    hide Print, Tokens, Quoted;
    if i == Count(v) {
      ChildEnd(v);
      ws, c, t := "\n", if v.Object? then '}' else ']', "";
    } else {
      ChildUnfold(v, i);
      ws, c, t := "", ',', Children(v, i)[1..];
    }
  }

  lemma BadName(v: Value, i: nat)
    requires IsContainer(v) && i < Count(v) && v.Object? && (!Balanced(v.pairs[i].name) || !Live(v.pairs[i].value))
    ensures !GoodFrom(v, i)
  {
    hide Good, Balanced, Live;
    assert !PairOk(v, i);
  }

  lemma GoodPair(v: Value, i: nat)
    requires IsContainer(v) && i < Count(v) && (v.Object? ==> Balanced(v.pairs[i].name) && Live(v.pairs[i].value))
    ensures PairOk(v, i)
  {
  }

  lemma MoreDelimited(more: string, t: string)
    requires more != "" && !IsNumeral(more[0])
    ensures Delimited(more + t)
  {
  }

  lemma {:induction false} ChildrenRun(v: Value, i: nat, json: string, st: State, base: seq<char>, t: string)
    returns (st': State)
    requires IsContainer(v) && i <= Count(v) && Delimited(t)
    requires AtChild(v, i, json, st, base, Children(v, i) + t)
    requires |base| + 1 + NeedFrom(v, i) <= JSONPARSE_MAX_DEPTH
    ensures if GoodFrom(v, i)
            then Leads(json, st, ChildTokens(v, i), st') && Sees(json, st'.pos, t) && Ready(st', base, Live(v))
            else Misses(json, st, ChildTokens(v, i))
    decreases v, 0, Count(v) - i
  {
    hide Run, Leads, Sees, Misses, Good, Live, Print, Tokens, Lead, LeadTokens, Children, ChildTokens, Need, NeedFrom, Delimited, Balanced;
    if i == Count(v) {
      ChildEnd(v);
      var ws, c := if i == 0 then "\n\n" else "\n", if v.Object? then '}' else ']';
      assert (if i == 0 then "\n" else "") + (Children(v, i) + t) == ws + [c] + t;
      assert base + ['['] + [] == base + ['['];
      st' := CloseRun(json, st, base, ws, c, v.Object? && i > 0, t);
    } else {
      ChildSmaller(v, i);
      ChildUnfold(v, i);
      NeedOf(v, i);
      GoodStep(v, i);
      var c, more := Child(v, i), Children(v, i + 1);
      assert Children(v, i) + t == Lead(v, i) + (Print(c) + (more + t));
      var st1, ws := LeadRun(v, i, json, st, base, Print(c) + (more + t));
      if v.Object? && !Balanced(v.pairs[i].name) {
        BadName(v, i);
        MissesMore(json, st, LeadTokens(v, i), Tokens(c));
        MissesMore(json, st, LeadTokens(v, i) + Tokens(c), ChildTokens(v, i + 1));
        st' := st;
        return;
      }
      var w, k, rest := ChildrenStart(v, i + 1);
      MoreDelimited(more, t);
      assert ws + (Print(c) + (more + t)) == ws + Print(c) + (more + t);
      var st2 := ValueRun(c, json, st1, ws, more + t);
      if !Good(c) {
        LeadsMisses(json, st, LeadTokens(v, i), st1, Tokens(c));
        MissesMore(json, st, LeadTokens(v, i) + Tokens(c), ChildTokens(v, i + 1));
        st' := st;
        return;
      }
      LeadsLeads(json, st, LeadTokens(v, i), st1, Tokens(c), st2);
      if v.Object? && !Live(c) {
        BadName(v, i);
        assert more + t == w + [k] + (rest + t);
        Popped(base + ['{'], ':');
        DeadRun(json, st2, w, k, rest + t, ChildTokens(v, i + 1));
        LeadsMisses(json, st, LeadTokens(v, i) + Tokens(c), st2, ChildTokens(v, i + 1));
        st' := st;
        return;
      }
      GoodPair(v, i);
      assert "" + (more + t) == more + t;
      st' := ChildrenRun(v, i + 1, json, st2, base, t);
      if GoodFrom(v, i + 1) {
        LeadsLeads(json, st, LeadTokens(v, i) + Tokens(c), st2, ChildTokens(v, i + 1), st');
      } else {
        LeadsMisses(json, st, LeadTokens(v, i) + Tokens(c), st2, ChildTokens(v, i + 1));
      }
    }
  }

  /** A value in value position: when it is good, the run yields its tokens and stops
      behind it with the stack as before; otherwise it does not yield them. */
  lemma {:induction false} ValueRun(v: Value, json: string, st: State, ws: string, t: string) returns (st': State)
    requires Space(ws) && Sees(json, st.pos, ws + Print(v) + t) && Delimited(t)
    requires st.error == NoError && !st.overrun && |st.stack| + Need(v) <= JSONPARSE_MAX_DEPTH
    requires v.Object? || Top(st.stack) in {':', '['}
    ensures if Good(v)
            then Leads(json, st, Tokens(v), st') && Sees(json, st'.pos, t) && Ready(st', st.stack, Live(v))
            else Misses(json, st, Tokens(v))
    decreases v, 1
  {
    hide Run, Leads, Sees, Misses, Escape, Quoted, Children, ChildTokens, NeedFrom, Delimited, Balanced, Digits, Top;
    match v {
      case Str(s) =>
        st' := StringRun(s, STRING, json, st, ws, t);
      case Int(n) =>
        if n < 0 {
          NegativeRun(n, json, st, ws, t);
          st' := st;
        } else {
          st' := NumberRun(n, json, st, ws, t);
        }
      case _ =>
        var c := Bracket(v);
        var first := [Token(c, "")];
        assert ws + Print(v) + t == ws + [c] + ("\n" + (Children(v, 0) + t));
        var st1 := PushRun(json, st, ws, c, "\n" + (Children(v, 0) + t));
        assert StackAt(v, 0, st.stack) == st.stack + [c];
        GoodAll(v);
        st' := ChildrenRun(v, 0, json, st1, st.stack, t);
        if Good(v) {
          LeadsLeads(json, st, first, st1, ChildTokens(v, 0), st');
        } else {
          LeadsMisses(json, st, first, st1, ChildTokens(v, 0));
        }
    }
  }

  lemma GoodAll(v: Value)
    requires IsContainer(v)
    ensures Good(v) <==> GoodFrom(v, 0)
  {
  }

  /** Print, then parse: for an object within the tokenizer's stack, the run over its
      text yields exactly the object's tokens, without error and back at depth 0, if
      and only if its strings are balanced, its numbers are not negative and every
      pair has a live value. */
  lemma PrintParseIff(v: Value)
    requires v.Object? && Need(v) <= JSONPARSE_MAX_DEPTH
    ensures var t := Run(Print(v), START);
            Good(v) <==> t.tokens == Tokens(v) && t.final.error == NoError && !t.final.overrun && t.final.stack == []
  {
    hide Tokens, Print, Good, Live, Need, Next;
    var json := Print(v);
    assert json[0..] == "" + Print(v) + "";
    var st' := ValueRun(v, json, START, "", "");
    if Good(v) {
      NextAtEnd(json, st');
      assert st'.pos == |json|;
      EndOfText(json, st');
      assert Tokens(v) + [] == Tokens(v);
    } else {
      assert Tokens(v) <= Tokens(v);
    }
  }

  lemma EndOfText(json: string, st: State)
    requires st.pos == |json| && st.stack == []
    ensures Run(json, st) == Trace([], st.(pos := st.pos + 1))
  {
  }

  /** `atoi` on a run of digits. */
  function Atoi(s: string): int
  {
    if s == "" then 0 else 10 * Atoi(s[..|s| - 1]) + (s[|s| - 1] as int - '0' as int)
  }

  /** The number of a token is the number that was printed. */
  lemma {:induction false} NumberTokenValue(n: nat)
    ensures Atoi(Digits(n)) == n
  {
    var s := Digits(n);
    if n >= 10 {
      NumberTokenValue(n / 10);
      assert s[..|s| - 1] == Digits(n / 10);
    } else {
      assert s[..|s| - 1] == "";
    }
  }
}
