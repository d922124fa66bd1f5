/** JSON output: a printer that emits one step per call from an explicit stack, and
    the recursive printer it must agree with.
 */
module JsonTree {

  const JSONTREE_MAX_DEPTH: nat := 10

  /** A C string holds no terminator. */
  type Text = s: string | '\0' !in s

  datatype Value =
    | Str(text: Text)
    | Int(value: int)
    | Object(pairs: seq<Pair>)
    | Array(items: seq<Value>)
  datatype Pair = Pair(name: Text, value: Value)

  predicate IsContainer(v: Value)
  {
    v.Object? || v.Array?
  }

  function Count(v: Value): nat
    requires IsContainer(v)
  {
    if v.Object? then |v.pairs| else |v.items|
  }

  function Child(v: Value, i: nat): Value
    requires IsContainer(v) && i < Count(v)
  {
    if v.Object? then v.pairs[i].value else v.items[i]
  }

  // ----- Atoms -----

  /** `jsontree_write_string` escapes quotes and nothing else. */
  function Escape(s: string): string
  {
    if s == "" then "" else (if s[0] == '"' then "\\" else "") + [s[0]] + Escape(s[1..])
  }

  function Quoted(s: string): string
  {
    "\"" + Escape(s) + "\""
  }

  function Digit(d: nat): char
    requires d < 10
  {
    '0' + d as char
  }

  function Digits(n: nat): string
  {
    if n < 10 then [Digit(n)] else Digits(n / 10) + [Digit(n % 10)]
  }

  function Decimal(v: int): string
  {
    if v < 0 then "-" + Digits(-v) else Digits(v)
  }

  /** The first loop of `jsontree_write_int`: digits into a ten-byte buffer from the
      right. */
  method FillDigits(value: nat, buf: array<char>) returns (l: int)
    requires value < 0x8000_0000 && buf.Length == 10
    modifies buf
    ensures -1 <= l < 9 && buf[l + 1..] == Digits(value)
  {
    l := 9;
    buf[l] := Digit(value % 10);
    l := l - 1;
    var v: nat := value / 10;
    assert buf[l + 1..] == [Digit(value % 10)];
    Pow10Values();
    while v > 0 && l >= 0
      invariant -1 <= l < 9
      invariant v < Pow10(l + 1)
      invariant Digits(value) == Prefix(v) + buf[l + 1..]
    {
      ghost var rest := buf[l + 1..];
      PrefixStep(v, rest);
      buf[l] := Digit(v % 10);
      assert buf[l..] == [Digit(v % 10)] + rest;
      v := v / 10;
      l := l - 1;
    }
  }

  ghost function Prefix(v: nat): string
  {
    if v > 0 then Digits(v) else ""
  }

  lemma PrefixStep(v: nat, rest: string)
    requires v > 0
    ensures Prefix(v) + rest == Prefix(v / 10) + ([Digit(v % 10)] + rest)
  {
    assert Prefix(v) == Prefix(v / 10) + [Digit(v % 10)];
  }

  lemma Pow10Values()
    ensures Pow10(9) == 1_000_000_000
  {
    assert Pow10(3) == 1000 && Pow10(6) == 1000 * Pow10(3) && Pow10(9) == 1000 * Pow10(6);
  }

  /** `jsontree_write_int`. */
  method WriteInt(value: int) returns (out: string)
    requires -0x8000_0000 < value < 0x8000_0000
    ensures out == Decimal(value)
  {
    hide Digits;
    var n: nat := if value < 0 then -value else value;
    var buf := new char[10];
    var l := FillDigits(n, buf);
    out := EmitDigits(if value < 0 then "-" else "", buf, l);
    assert "" + Digits(n) == Digits(n);
  }

  /** The second loop: the used part of the buffer goes out. */
  method EmitDigits(start: string, buf: array<char>, used: int) returns (out: string)
    requires buf.Length == 10 && -1 <= used < 9
    ensures out == start + buf[used + 1..]
  {
    out := start;
    var l := used;
    while l + 1 < 10
      invariant used <= l < 10
      invariant out == start + buf[used + 1..l + 1]
    {
      l := l + 1;
      out := out + [buf[l]];
    }
  }

  function Pow10(n: nat): nat
  {
    if n == 0 then 1 else 10 * Pow10(n - 1)
  }

  // ----- The recursive printer -----

  function Open(v: Value): string
    requires IsContainer(v)
  {
    if v.Object? then "{\n" else "[\n"
  }

  function Close(v: Value): string
    requires IsContainer(v)
  {
    if v.Object? then "\n}" else "\n]"
  }

  /** What goes in front of child `i`. */
  function Lead(v: Value, i: nat): string
    requires IsContainer(v) && i < Count(v)
  {
    (if i > 0 then ",\n" else "") + (if v.Object? then Quoted(v.pairs[i].name) + ":" else "")
  }

  function Print(v: Value): string
    decreases v, 1
  {
    match v
    case Str(s) => Quoted(s)
    case Int(n) => Decimal(n)
    case _ => Open(v) + Children(v, 0)
  }

  /** Children `i` and later, and the closing bracket. */
  function Children(v: Value, i: nat): string
    requires IsContainer(v) && i <= Count(v)
    decreases v, 0, Count(v) - i
  {
    if i == Count(v) then Close(v)
    else
      ChildSmaller(v, i);
      Lead(v, i) + Print(Child(v, i)) + Children(v, i + 1)
  }

  lemma ChildSmaller(v: Value, i: nat)
    requires IsContainer(v) && i < Count(v)
    ensures v decreases to Child(v, i)
  {
    if v.Object? {
      assert v.pairs[i] in v.pairs;
    }
  }

  // ----- The stack machine -----

  function Height(v: Value): (h: nat)
    ensures h >= 1
    decreases v, 1
  {
    if IsContainer(v) then 1 + MaxHeight(v, 0) else 1
  }

  function MaxHeight(v: Value, i: nat): nat
    requires IsContainer(v) && i <= Count(v)
    decreases v, 0, Count(v) - i
  {
    if i == Count(v) then 0
    else
      ChildSmaller(v, i);
      var a, b := Height(Child(v, i)), MaxHeight(v, i + 1);
      if a > b then a else b
  }

  lemma {:induction false} ChildHeight(v: Value, i: nat, k: nat)
    requires IsContainer(v) && i <= k < Count(v)
    ensures Height(Child(v, k)) <= MaxHeight(v, i)
    decreases k - i
  {
    if i < k {
      ChildHeight(v, i + 1, k);
    }
  }

  datatype Frame = Frame(value: Value, index: nat)

  /** What `jsontree_print_next` will still print for a frame in its current state. */
  function Rest(f: Frame): string
  {
    if !IsContainer(f.value) then Print(f.value)
    else
      (if f.index == 0 then Open(f.value) else "") +
      (if f.index <= Count(f.value) then Children(f.value, f.index) else "")
  }

  /** What the frames below the top still owe once the top is done. */
  function Pending(frames: seq<Frame>): string
  {
    if frames == [] then ""
    else
      var f := frames[|frames| - 1];
      Rest(Frame(f.value, f.index + 1)) + Pending(frames[..|frames| - 1])
  }

  /** Everything still to be printed. */
  function Remaining(frames: seq<Frame>): string
  {
    if frames == [] then "" else Rest(frames[|frames| - 1]) + Pending(frames[..|frames| - 1])
  }

  /** Calls still needed for a frame: one per child to descend, one to close. */
  function Steps(v: Value): (n: nat)
    ensures n >= 1
    decreases v, 1
  {
    if IsContainer(v) then ChildSteps(v, 0) else 1
  }

  function ChildSteps(v: Value, i: nat): (n: nat)
    requires IsContainer(v) && i <= Count(v)
    ensures n >= 1
    decreases v, 0, Count(v) - i
  {
    if i == Count(v) then 1
    else
      ChildSmaller(v, i);
      1 + Steps(Child(v, i)) + ChildSteps(v, i + 1)
  }

  function FrameSteps(f: Frame): nat
  {
    if !IsContainer(f.value) then 1 else if f.index <= Count(f.value) then ChildSteps(f.value, f.index) else 0
  }

  function PendingSteps(frames: seq<Frame>): nat
  {
    if frames == [] then 0
    else
      var f := frames[|frames| - 1];
      FrameSteps(Frame(f.value, f.index + 1)) + PendingSteps(frames[..|frames| - 1])
  }

  function RemainingSteps(frames: seq<Frame>): nat
  {
    if frames == [] then 0 else FrameSteps(frames[|frames| - 1]) + PendingSteps(frames[..|frames| - 1])
  }

  /** Frames nest: each holds the child that its parent's index selects. */
  ghost predicate Nested(frames: seq<Frame>)
  {
    forall k :: 0 <= k < |frames| - 1 ==>
      && IsContainer(frames[k].value) && frames[k].index < Count(frames[k].value)
      && frames[k + 1].value == Child(frames[k].value, frames[k].index)
  }

  ghost predicate WellFormed(frames: seq<Frame>)
  {
    && 1 <= |frames| && Nested(frames)
    && (forall k :: 0 <= k < |frames| ==> k + Height(frames[k].value) <= JSONTREE_MAX_DEPTH)
    && var top := frames[|frames| - 1];
       IsContainer(top.value) ==> top.index <= Count(top.value)
  }

  /** One call as a change of the frames: descend, or finish the top value. */
  function Descend(frames: seq<Frame>): seq<Frame>
    requires frames != []
    requires var f := frames[|frames| - 1]; IsContainer(f.value) && f.index < Count(f.value)
  {
    var f := frames[|frames| - 1];
    frames + [Frame(Child(f.value, f.index), 0)]
  }

  function Finish(frames: seq<Frame>): seq<Frame>
    requires frames != []
  {
    var below := frames[..|frames| - 1];
    if below == [] then []
    else
      var g := below[|below| - 1];
      below[..|below| - 1] + [Frame(g.value, g.index + 1)]
  }

  lemma DescendPrints(frames: seq<Frame>)
    requires frames != []
    requires var f := frames[|frames| - 1]; IsContainer(f.value) && f.index < Count(f.value)
    ensures var f := frames[|frames| - 1];
            Remaining(frames) == (if f.index == 0 then Open(f.value) else "") + Lead(f.value, f.index) + Remaining(Descend(frames))
    ensures RemainingSteps(frames) == 1 + RemainingSteps(Descend(frames))
  {
    hide Rest, FrameSteps, Lead, Open;
    var f := frames[|frames| - 1];
    var next := Descend(frames);
    assert next[..|next| - 1] == frames;
    RestStep(f);
    var o := (if f.index == 0 then Open(f.value) else "") + Lead(f.value, f.index);
    var c, later, below := Rest(Frame(Child(f.value, f.index), 0)), Rest(Frame(f.value, f.index + 1)), Pending(frames[..|frames| - 1]);
    assert (o + c + later) + below == o + (c + (later + below));
  }

  /** A frame with a child left: its lead, the child, and the frame one further. */
  lemma RestStep(f: Frame)
    requires IsContainer(f.value) && f.index < Count(f.value)
    ensures var c := Frame(Child(f.value, f.index), 0);
            && Rest(f) == (if f.index == 0 then Open(f.value) else "") + Lead(f.value, f.index) + Rest(c) + Rest(Frame(f.value, f.index + 1))
            && FrameSteps(f) == 1 + FrameSteps(c) + FrameSteps(Frame(f.value, f.index + 1))
  {
    hide Print, Children, Steps, ChildSteps, Lead, Open;
    var v, i := f.value, f.index;
    ChildrenStep(v, i);
    FreshFrame(Child(v, i));
    var o := if i == 0 then Open(v) else "";
    var p, later := Print(Child(v, i)), Children(v, i + 1);
    assert Rest(Frame(v, i + 1)) == "" + later == later;
    assert o + (Lead(v, i) + p + later) == o + Lead(v, i) + p + later;
  }

  lemma ChildrenStep(v: Value, i: nat)
    requires IsContainer(v) && i < Count(v)
    ensures Children(v, i) == Lead(v, i) + Print(Child(v, i)) + Children(v, i + 1)
    ensures ChildSteps(v, i) == 1 + Steps(Child(v, i)) + ChildSteps(v, i + 1)
  {
  }

  lemma FreshFrame(v: Value)
    ensures Rest(Frame(v, 0)) == Print(v) && FrameSteps(Frame(v, 0)) == Steps(v)
  {
  }

  lemma FinishPrints(frames: seq<Frame>)
    requires frames != []
    ensures Remaining(frames) == Rest(frames[|frames| - 1]) + Remaining(Finish(frames))
    ensures RemainingSteps(frames) == FrameSteps(frames[|frames| - 1]) + RemainingSteps(Finish(frames))
  {
    var below := frames[..|frames| - 1];
    if below != [] {
      var next := Finish(frames);
      assert next[..|next| - 1] == below[..|below| - 1];
    }
  }

  ghost function Zip(vs: seq<Value>, ix: seq<nat>): (fs: seq<Frame>)
    requires |vs| == |ix|
    ensures |fs| == |vs| && forall k :: 0 <= k < |fs| ==> fs[k] == Frame(vs[k], ix[k])
  {
    seq(|vs|, k requires 0 <= k < |vs| => Frame(vs[k], ix[k]))
  }

  class Context {
    const values: array<Value>
    const index: array<nat>
    var depth: nat
    /** What `putchar` has received. */
    var out: string

    ghost predicate Valid()
      reads this, values, index
    {
      && values.Length == index.Length == JSONTREE_MAX_DEPTH
      && depth < JSONTREE_MAX_DEPTH
      && WellFormed(Frames())
    }

    ghost function Frames(): seq<Frame>
      reads this, values, index
      requires values.Length == index.Length == JSONTREE_MAX_DEPTH && depth < JSONTREE_MAX_DEPTH
    {
      Zip(values[..depth + 1], index[..depth + 1])
    }

    /** `jsontree_setup`. */
    constructor (root: Value)
      requires Height(root) <= JSONTREE_MAX_DEPTH
      ensures Valid() && out == "" && Frames() == [Frame(root, 0)] && fresh(values) && fresh(index)
    {
      values := new Value[JSONTREE_MAX_DEPTH](_ => root);
      index := new nat[JSONTREE_MAX_DEPTH](_ => 0);
      depth, out := 0, "";
      new;
      assert Frames() == [Frame(root, 0)];
    }

    /** Stepping down to child `i` of the current container. */
    method StepDown()
      requires Valid() && IsContainer(values[depth]) && index[depth] < Count(values[depth])
      modifies this`depth, values, index
      ensures Valid() && Frames() == Descend(old(Frames()))
    {
      hide WellFormed, Height;
      ghost var frames := Frames();
      DescendWellFormed(frames);
      var v := Child(values[depth], index[depth]);
      depth := depth + 1;
      index[depth] := 0;
      values[depth] := v;
      assert Frames() == Descend(frames);
    }

    /** Backing up one level. */
    method StepUp()
      requires Valid() && depth > 0
      modifies this`depth, index
      ensures Valid() && Frames() == Finish(old(Frames()))
    {
      hide WellFormed, Height;
      ghost var frames := Frames();
      FinishWellFormed(frames);
      depth := depth - 1;
      index[depth] := index[depth] + 1;
      assert Frames() == Finish(frames);
    }

    /** What the current value prints when it has no child left to step down to. */
    method EmitEnd()
      requires Valid() && (IsContainer(values[depth]) ==> index[depth] == Count(values[depth]))
      modifies this`out
      ensures out == old(out) + Rest(Frame(values[depth], index[depth]))
      ensures FrameSteps(Frame(values[depth], index[depth])) == 1
    {
      hide Children, Height, Quoted, Decimal;
      var v := values[depth];
      TopRest(Frames());
      match v {
        case Str(s) => out := out + Quoted(s);
        case Int(n) => out := out + Decimal(n);
        case _ =>
          if index[depth] == 0 { out := out + Open(v); }
          out := out + Close(v);
      }
    }

    /** `jsontree_print_next` on trees without callbacks. Each call prints a piece of
        what remains and uses up one step; it returns false with the last one. */
    method PrintNext() returns (more: bool)
      requires Valid()
      modifies this`depth, this`out, values, index
      ensures var before := old(Frames());
              if more then
                && Valid() && out + Remaining(Frames()) == old(out) + Remaining(before)
                && RemainingSteps(Frames()) == RemainingSteps(before) - 1
              else
                out == old(out) + Remaining(before) && RemainingSteps(before) == 1
    {
      hide Remaining, RemainingSteps, Rest, FrameSteps, WellFormed, Descend, Finish, Lead, Open;
      ghost var frames := Frames();
      var v, i := values[depth], index[depth];
      if IsContainer(v) && i < Count(v) {
        DescendPrints(frames);
        ghost var printed := (if i == 0 then Open(v) else "") + Lead(v, i);
        if i == 0 { out := out + Open(v); }
        out := out + Lead(v, i);
        assert out == old(out) + printed;
        StepDown();
        assert (old(out) + printed) + Remaining(Frames()) == old(out) + (printed + Remaining(Frames()));
        return true;
      }
      TopIndex(frames);
      EmitEnd();
      FinishPrints(frames);
      ghost var top := Rest(frames[|frames| - 1]);
      if depth > 0 {
        StepUp();
        assert (old(out) + top) + Remaining(Frames()) == old(out) + (top + Remaining(Frames()));
        return true;
      }
      NothingLeft(frames);
      more := false;
    }
  }

  lemma TopIndex(frames: seq<Frame>)
    requires WellFormed(frames)
    ensures frames != []
    ensures var f := frames[|frames| - 1]; IsContainer(f.value) ==> f.index <= Count(f.value)
  {
  }

  /** Printing until `jsontree_print_next` returns 0 emits exactly the text of the
      recursive printer, in exactly `Steps(root)` calls. */
  method PrintAll(root: Value) returns (text: string, calls: nat)
    requires Height(root) <= JSONTREE_MAX_DEPTH
    ensures text == Print(root)
    ensures calls == Steps(root)
  {
    hide Remaining, RemainingSteps;
    var ctx := new Context(root);
    RootRemaining(root);
    var more := true;
    calls := 0;
    while more
      invariant fresh(ctx) && fresh(ctx.values) && fresh(ctx.index)
      invariant more ==> ctx.Valid() && ctx.out + Remaining(ctx.Frames()) == Print(root)
      invariant more ==> calls + RemainingSteps(ctx.Frames()) == Steps(root)
      invariant !more ==> ctx.out == Print(root) && calls == Steps(root)
      decreases more, Steps(root) - calls
    {
      more := ctx.PrintNext();
      calls := calls + 1;
    }
    text := ctx.out;
  }

  lemma RootRemaining(root: Value)
    ensures Remaining([Frame(root, 0)]) == Print(root)
    ensures RemainingSteps([Frame(root, 0)]) == Steps(root)
  {
    var frames := [Frame(root, 0)];
    assert frames[..0] == [];
    assert Rest(frames[0]) + "" == Rest(frames[0]);
  }

  /** A top frame with no child left prints its end, in one step. */
  lemma TopRest(frames: seq<Frame>)
    requires WellFormed(frames)
    requires var f := frames[|frames| - 1]; IsContainer(f.value) ==> f.index == Count(f.value)
    ensures var f := frames[|frames| - 1];
            && Rest(f) == (if !IsContainer(f.value) then Print(f.value)
                           else (if f.index == 0 then Open(f.value) else "") + Close(f.value))
            && (f.value.Str? ==> Rest(f) == Quoted(f.value.text))
            && (f.value.Int? ==> Rest(f) == Decimal(f.value.value))
            && FrameSteps(f) == 1
  {
  }

  lemma NothingLeft(frames: seq<Frame>)
    requires |frames| == 1
    ensures Remaining(Finish(frames)) == "" && RemainingSteps(Finish(frames)) == 0
    ensures Rest(frames[0]) + "" == Rest(frames[0])
  {
  }

  lemma DescendWellFormed(frames: seq<Frame>)
    requires WellFormed(frames)
    requires var f := frames[|frames| - 1]; IsContainer(f.value) && f.index < Count(f.value)
    ensures WellFormed(Descend(frames)) && |frames| < JSONTREE_MAX_DEPTH
  {
    var f := frames[|frames| - 1];
    ChildHeight(f.value, 0, f.index);
  }

  lemma FinishWellFormed(frames: seq<Frame>)
    requires WellFormed(frames) && |frames| >= 2
    ensures WellFormed(Finish(frames))
  {
    var g := frames[|frames| - 2];
    assert frames[|frames| - 1].value == Child(g.value, g.index);
  }
}
