/** The JSON tokenizer: a pushdown machine that returns one token per call, first as
    a function of its state, then as the object whose fields every call updates.
 */
module JsonParse {

  const JSONPARSE_MAX_DEPTH: nat := 10

  const PAIR_NAME: char := 'N'
  const STRING: char := '"'
  const NUMBER: char := '0'
  const NONE: char := '\0'

  datatype ErrorKind = NoError | Syntax | UnexpectedArray | UnexpectedEndOfArray | UnexpectedString

  /** `overrun` marks a push beyond the stack array, which C does not check. */
  datatype State = State(pos: nat, stack: seq<char>, vtype: char, vstart: nat, vlen: nat,
                         error: ErrorKind, overrun: bool)

  const START: State := State(0, [], NONE, 0, 0, NoError, false)

  /** The text is terminated; reads behind it see the terminator. */
  function At(json: string, pos: nat): char
  {
    if pos < |json| then json[pos] else NONE
  }

  function Slice(json: string, start: nat, len: nat): (s: string)
    ensures |s| == len
  {
    seq(len, i requires 0 <= i < len => At(json, start + i))
  }

  /** `jsonparse_get_type`. */
  function Top(stack: seq<char>): char
  {
    if stack == [] then NONE else stack[|stack| - 1]
  }

  function SkipWs(json: string, pos: nat): (p: nat)
    ensures p >= pos
    decreases |json| - pos
  {
    if pos < |json| && (json[pos] == ' ' || json[pos] == '\n') then SkipWs(json, pos + 1) else pos
  }

  /** The string loop of `atomic`: the position behind the closing quote, or behind
      the terminator. */
  function ScanString(json: string, pos: nat): (p: nat)
    ensures p > pos
    decreases |json| - pos
  {
    if pos >= |json| || json[pos] == NONE || json[pos] == '"' then pos + 1
    else if json[pos] == '\\' then ScanString(json, pos + 2)
    else ScanString(json, pos + 1)
  }

  predicate IsNumeral(c: char)
  {
    '0' <= c <= '9' || c == '.'
  }

  function ScanNumber(json: string, pos: nat): (p: nat)
    ensures p >= pos
    decreases |json| - pos
  {
    if pos < |json| && IsNumeral(json[pos]) then ScanNumber(json, pos + 1) else pos
  }

  /** The returned type and the state after the call. */
  datatype Result = Result(kind: char, st: State)

  function Push(st: State, c: char): Result
  {
    if |st.stack| >= JSONPARSE_MAX_DEPTH then Result(NONE, st.(overrun := true))
    else Result(c, st.(stack := st.stack + [c], vtype := NONE))
  }

  function Pop(st: State): State
  {
    if st.stack == [] then st else st.(stack := st.stack[..|st.stack| - 1])
  }

  function Fail(st: State, e: ErrorKind): Result
  {
    Result(NONE, st.(error := e))
  }

  function AtomString(json: string, st: State, kind: char): Result
  {
    var end := ScanString(json, st.pos);
    Result(kind, st.(vstart := st.pos, vtype := kind, pos := end, vlen := end - st.pos - 1))
  }

  function AtomNumber(json: string, st: State): Result
    requires st.pos > 0
  {
    var end := ScanNumber(json, st.pos);
    Result(NUMBER, st.(vstart := st.pos - 1, vtype := NUMBER, pos := end, vlen := end - (st.pos - 1)))
  }

  /** `jsonparse_next` once the character `c` has been consumed. */
  function Dispatch(json: string, st: State, c: char): Result
    requires st.pos > 0
  {
    var s := Top(st.stack);
    if c == '{' || c == ':' then Push(st, c)
    else if c == '}' then
      var st' := if s == ':' && st.vtype != NONE then Pop(st) else st;
      if Top(st'.stack) == '{' then Result(c, Pop(st')) else Fail(st', Syntax)
    else if c == ']' then
      if s == '[' then Result(c, Pop(st)) else Fail(st, UnexpectedEndOfArray)
    else if c == ',' then
      if s == ':' && st.vtype != NONE then Result(c, Pop(st))
      else if s == '[' then Result(c, st)
      else Fail(st, Syntax)
    else if c == '"' then
      if s == '{' then AtomString(json, st, PAIR_NAME)
      else if s == '[' || s == ':' then AtomString(json, st, STRING)
      else Fail(st, UnexpectedString)
    else if c == '[' then
      if s == '{' || s == '[' || s == ':' then Push(st, c) else Fail(st, UnexpectedArray)
    else if (s == ':' || s == '[') && '0' <= c <= '9' then AtomNumber(json, st)
    else Result(NONE, st)
  }

  /** `jsonparse_next`. */
  function Next(json: string, st: State): (r: Result)
    ensures r.st.pos > st.pos
  {
    var p := SkipWs(json, st.pos);
    Dispatch(json, st.(pos := p + 1), At(json, p))
  }

  // ----- The parser object -----

  class Parser {
    const json: string
    const stack: array<char>
    var pos: nat
    var depth: nat
    var vstart: nat
    var vlen: nat
    var vtype: char
    var error: ErrorKind
    var overrun: bool

    ghost predicate Valid()
      reads this, stack
    {
      stack.Length == JSONPARSE_MAX_DEPTH && depth <= JSONPARSE_MAX_DEPTH
    }

    ghost function View(): State
      reads this, stack
      requires Valid()
    {
      State(pos, stack[..depth], vtype, vstart, vlen, error, overrun)
    }

    /** `jsonparse_setup`, with `vtype` as a cleared structure leaves it. */
    constructor (text: string)
      ensures Valid() && json == text && View() == START && fresh(stack)
    {
      json := text;
      stack := new char[JSONPARSE_MAX_DEPTH](_ => NONE);
      pos, depth, vstart, vlen, vtype, error, overrun := 0, 0, 0, 0, NONE, NoError, false;
    }

    method PushChar(c: char) returns (kind: char)
      requires Valid()
      modifies this`depth, this`vtype, this`overrun, stack
      ensures Valid() && Result(kind, View()) == Push(old(View()), c)
    {
      if depth >= JSONPARSE_MAX_DEPTH {
        overrun := true;
        return NONE;
      }
      ghost var below := stack[..depth];
      stack[depth] := c;
      depth := depth + 1;
      vtype := NONE;
      assert stack[..depth] == below + [c];
      kind := c;
    }

    method PopChar()
      requires Valid()
      modifies this`depth
      ensures Valid() && View() == Pop(old(View()))
    {
      if depth > 0 {
        depth := depth - 1;
        assert stack[..depth] == old(stack[..depth])[..depth];
      }
    }

    method SkipSpace()
      requires Valid()
      modifies this`pos
      ensures pos == SkipWs(json, old(pos))
    {
      while pos < |json| && (json[pos] == ' ' || json[pos] == '\n')
        invariant SkipWs(json, pos) == SkipWs(json, old(pos))
        decreases |json| - pos
      {
        pos := pos + 1;
      }
    }

    /** `atomic` for strings and pair names. */
    method AtomicString(kind: char)
      requires Valid()
      modifies this`pos, this`vstart, this`vlen, this`vtype
      ensures Valid() && Result(kind, View()) == AtomString(json, old(View()), kind)
    {
      vstart, vtype := pos, kind;
      var c := At(json, pos);
      pos := pos + 1;
      while c != NONE && c != '"'
        invariant pos > old(pos) == vstart && vtype == kind && c == At(json, pos - 1)
        invariant ScanString(json, pos - 1) == ScanString(json, old(pos))
        decreases |json| + 1 - pos
      {
        if c == '\\' {
          pos := pos + 1;
        }
        c := At(json, pos);
        pos := pos + 1;
      }
      vlen := pos - vstart - 1;
    }

    /** `atomic` for numbers. */
    method AtomicNumber()
      requires Valid() && pos > 0
      modifies this`pos, this`vstart, this`vlen, this`vtype
      ensures Valid() && Result(NUMBER, View()) == AtomNumber(json, old(View()))
    {
      vstart, vtype := pos, NUMBER;
      while pos < |json| && IsNumeral(json[pos])
        invariant pos >= vstart == old(pos) && vtype == NUMBER
        invariant ScanNumber(json, pos) == ScanNumber(json, old(pos))
        decreases |json| - pos
      {
        pos := pos + 1;
      }
      vstart := vstart - 1;
      vlen := pos - vstart;
    }

    method TypeOf() returns (s: char)
      requires Valid()
      ensures s == Top(View().stack)
    {
      s := if depth == 0 then NONE else stack[depth - 1];
    }

    /** `jsonparse_next`. */
    method NextToken() returns (kind: char)
      requires Valid()
      modifies this`pos, this`depth, this`vstart, this`vlen, this`vtype, this`error, this`overrun, stack
      ensures Valid() && Result(kind, View()) == Next(json, old(View()))
    {
      hide AtomString, AtomNumber, Push, Pop, SkipWs;
      SkipSpace();
      var c := At(json, pos);
      var s := TypeOf();
      pos := pos + 1;
      kind := NONE;
      if c == '{' || c == ':' {
        kind := PushChar(c);
      } else if c == '}' {
        if s == ':' && vtype != NONE {
          PopChar();
          s := TypeOf();
        }
        if s == '{' {
          PopChar();
          kind := c;
        } else {
          error := Syntax;
        }
      } else if c == ']' {
        if s == '[' {
          PopChar();
          kind := c;
        } else {
          error := UnexpectedEndOfArray;
        }
      } else if c == ',' {
        if s == ':' && vtype != NONE {
          PopChar();
          kind := c;
        } else if s == '[' {
          kind := c;
        } else {
          error := Syntax;
        }
      } else if c == '"' {
        if s == '{' || s == '[' || s == ':' {
          kind := if s == '{' then PAIR_NAME else STRING;
          AtomicString(kind);
        } else {
          error := UnexpectedString;
        }
      } else if c == '[' {
        if s == '{' || s == '[' || s == ':' {
          kind := PushChar(c);
        } else {
          error := UnexpectedArray;
        }
      } else if (s == ':' || s == '[') && '0' <= c <= '9' {
        AtomicNumber();
        kind := NUMBER;
      }
    }
  }

  // ----- Whole runs -----

  /** A token with the text of its value; punctuation has none. */
  datatype Token = Token(kind: char, text: string)

  function TokenOf(json: string, r: Result): Token
  {
    Token(r.kind, if r.kind == PAIR_NAME || r.kind == STRING || r.kind == NUMBER
                  then Slice(json, r.st.vstart, r.st.vlen) else "")
  }

  datatype Trace = Trace(tokens: seq<Token>, final: State)

  lemma NextAtEnd(json: string, st: State)
    requires st.pos >= |json|
    ensures Next(json, st).kind == NONE
  {
  }

  /** Calling `jsonparse_next` until it returns 0. */
  function Run(json: string, st: State): Trace
    decreases |json| - st.pos
  {
    var r := Next(json, st);
    if r.kind == NONE then Trace([], r.st)
    else
      (if st.pos >= |json| then NextAtEnd(json, st); Trace([], r.st) else
      var t := Run(json, r.st);
      Trace([TokenOf(json, r)] + t.tokens, t.final))
  }

  method ParseAll(json: string) returns (tokens: seq<Token>, depth: nat, error: ErrorKind, overrun: bool)
    ensures var t := Run(json, START);
            tokens == t.tokens && depth == |t.final.stack| && error == t.final.error && overrun == t.final.overrun
  {
    hide Next;
    var p := new Parser(json);
    tokens := [];
    var kind := '{';
    while kind != NONE
      invariant fresh(p) && fresh(p.stack) && p.Valid() && p.json == json
      invariant kind != NONE ==> var t := Run(json, p.View());
                Run(json, START) == Trace(tokens + t.tokens, t.final)
      invariant kind == NONE ==> Run(json, START) == Trace(tokens, p.View())
      decreases kind != NONE, |json| + 1 - p.pos
    {
      ghost var st := p.View();
      if st.pos >= |json| { NextAtEnd(json, st); }
      kind := p.NextToken();
      if kind != NONE {
        var text := if kind == PAIR_NAME || kind == STRING || kind == NUMBER
                    then Slice(json, p.vstart, p.vlen) else "";
        ghost var t := Run(json, p.View());
        assert tokens + ([Token(kind, text)] + t.tokens) == (tokens + [Token(kind, text)]) + t.tokens;
        tokens := tokens + [Token(kind, text)];
      }
    }
    depth, error, overrun := p.depth, p.error, p.overrun;
  }


  // ----- What a call refuses, and what a number is -----

  /** The error a character is refused with where it stands: `top` is what the parser is in,
      `below` what that is in, and `full` says that a pair has its value. */
  function ErrorAt(c: char, top: char, below: char, full: bool): ErrorKind
  {
    if c == '"' && top !in {'{', '[', ':'} then UnexpectedString
    else if c == '[' && top !in {'{', '[', ':'} then UnexpectedArray
    else if c == ']' && top != '[' then UnexpectedEndOfArray
    else if c == ',' && top != '[' && !full then Syntax
    else if c == '}' && (if full then below else top) != '{' then Syntax
    else NoError
  }

  /** Every call refuses exactly such characters, with that error, and no token; a bracket or
      colon that the stack has no room for overruns it. */
  lemma RefusesIff(json: string, st: State)
    requires st.error == NoError
    ensures var r, c, top := Next(json, st), At(json, SkipWs(json, st.pos)), Top(st.stack);
            var full := top == ':' && st.vtype != NONE;
            var below := if |st.stack| >= 2 then st.stack[|st.stack| - 2] else NONE;
            var opens := c == '{' || c == ':' || (c == '[' && top in {'{', '[', ':'});
            && r.st.error == ErrorAt(c, top, below, full) && (r.st.error != NoError ==> r.kind == NONE)
            && (r.st.overrun <==> st.overrun || (opens && |st.stack| >= JSONPARSE_MAX_DEPTH))
            && (opens && |st.stack| < JSONPARSE_MAX_DEPTH ==> r.kind == c && r.st.stack == st.stack + [c])
  {
    hide ScanString, ScanNumber, SkipWs;
  }

  predicate DigitOrDot(c: char)
  {
    c == '.' || c in {'0', '1', '2', '3', '4', '5', '6', '7', '8', '9'}
  }

  lemma {:induction false} ScanIsLongest(json: string, pos: nat)
    requires pos <= |json|
    ensures var end := ScanNumber(json, pos);
            && end <= |json| && (forall k :: pos <= k < end ==> DigitOrDot(json[k]))
            && (end < |json| ==> !DigitOrDot(json[end]))
    decreases |json| - pos
  {
    if pos < |json| && IsNumeral(json[pos]) { ScanIsLongest(json, pos + 1); }
  }

  /** A number token is the longest run of digits and dots from its first digit on; it is
      read as an array item or a pair's value. */
  lemma NumberIsLongest(json: string, st: State)
    requires st.pos < |json| && json[st.pos] in {'0', '1', '2', '3', '4', '5', '6', '7', '8', '9'}
    requires Top(st.stack) == ':' || Top(st.stack) == '['
    ensures var r := Next(json, st); var end := r.st.pos;
            && r.kind == NUMBER && r.st.vstart == st.pos && r.st.vstart + r.st.vlen == end <= |json|
            && (forall k :: st.pos <= k < end ==> DigitOrDot(json[k]))
            && (end < |json| ==> !DigitOrDot(json[end]))
  {
    ScanIsLongest(json, st.pos + 1);
    hide ScanNumber;
  }
}
