/** The resource directory: `/.well-known/core` in link format (RFC 6690), produced
    one window at a time without ever holding the whole document.
 */
module WellKnownCore {

  /** A resource; missing attributes are the empty string. */
  datatype Resource = Resource(url: string, attributes: string)

  // ----- The document -----

  function Attributes(r: Resource): string
  {
    if r.attributes == "" then "" else ";" + r.attributes
  }

  function Entry(r: Resource): string
  {
    "</" + r.url + ">" + Attributes(r)
  }

  /** An entry, behind a comma unless it is the first. */
  function Separated(r: Resource, started: bool): string
  {
    (if started then "," else "") + Entry(r)
  }

  /** The entries, separated by commas; `started` when something precedes them. */
  function Listing(rs: seq<Resource>, started: bool): string
  {
    if rs == [] then "" else Separated(rs[0], started) + Listing(rs[1..], true)
  }

  function Document(rs: seq<Resource>): string
  {
    Listing(rs, false)
  }

  /** The part of `s` in the window `[offset, offset + size)`. */
  function Window(s: string, offset: nat, size: nat): string
  {
    if offset >= |s| then "" else if offset + size >= |s| then s[offset..] else s[offset..offset + size]
  }

  lemma WindowLength(s: string, offset: nat, size: nat)
    ensures |Window(s, offset, size)| ==
            if |s| <= offset then 0 else if |s| <= offset + size then |s| - offset else size
  {
  }

  // ----- The writer -----

  /** What the handler leaves: the bytes counted and the bytes in the buffer. After
      an overflowing `snprintf` the count exceeds what was written. */
  class Writer {
    const buffer: array<char>
    const offset: nat
    const size: nat
    var strpos: nat
    var bufpos: nat

    /** Ghost: the document text passed over so far. */
    ghost var text: string

    ghost predicate Valid()
      reads this, buffer
    {
      && size < buffer.Length
      && strpos == |text|
      && bufpos <= size
      && buffer[..bufpos] == Window(text, offset, size)
    }

    constructor (offset: nat, size: nat)
      ensures Valid() && this.offset == offset && this.size == size && text == "" && strpos == 0 && fresh(buffer)
    {
      this.offset, this.size := offset, size;
      buffer := new char[size + 1](_ => '\0');
      strpos, bufpos, text := 0, 0, "";
    }

    /** `ADD_CHAR_IF_POSSIBLE`. */
    method AddChar(c: char)
      requires Valid()
      modifies this, buffer
      ensures Valid() && text == old(text) + [c]
    {
      WindowLength(text, offset, size);
      if strpos >= offset && bufpos < size {
        buffer[bufpos] := c;
        bufpos := bufpos + 1;
        assert Window(text + [c], offset, size) == Window(text, offset, size) + [c];
      } else {
        assert Window(text + [c], offset, size) == Window(text, offset, size);
      }
      strpos := strpos + 1;
      text := text + [c];
    }

    /** `ADD_STRING_IF_POSSIBLE`, where `strict` distinguishes the two break tests
        `>` and `>=`. When it breaks, the window is full and the document goes on. */
    method AddString(s: string, strict: bool) returns (full: bool)
      requires Valid()
      requires strict ==> s != ""
      modifies this, buffer
      ensures !full ==> Valid() && text == old(text) + s
      ensures !full ==> |text| <= offset || (if strict then |text| <= offset + size else |text| < offset + size)
      ensures full ==> && bufpos >= size && strpos == old(strpos) && size < buffer.Length
                       && (if strict then |old(text) + s| > offset + size else |old(text) + s| >= offset + size)
                       && buffer[..size] == Window(old(text) + s, offset, size)
    {
      ghost var was := text;
      WindowLength(was, offset, size);
      WindowLength(was + s, offset, size);
      if strpos + |s| > offset {
        var skip := if offset > strpos then offset - strpos else 0;
        var rest := s[skip..];
        var room := size - bufpos;
        var n := if |rest| < room then |rest| else room;
        forall i | 0 <= i < n {
          buffer[bufpos + i] := rest[i];
        }
        var filled := bufpos + n;
        assert buffer[..filled] == Window(was, offset, size) + rest[..n];
        assert Window(was, offset, size) + rest[..n] == Window(was + s, offset, size) by {
          Continues(was, s, offset, size, skip, n);
        }
        buffer[filled] := '\0';
        assert buffer[..filled] == Window(was + s, offset, size);
        bufpos := bufpos + |rest|;
        if (strict && bufpos > size) || (!strict && bufpos >= size) {
          return true;
        }
      } else {
        assert Window(was + s, offset, size) == Window(was, offset, size) == "";
      }
      strpos := strpos + |s|;
      text := text + s;
      full := false;
    }

    /** The loop body for one resource. */
    method AddResource(r: Resource) returns (full: bool)
      requires Valid() && size > 0 && |text| <= offset + size
      modifies this, buffer
      ensures var next := old(text) + Separated(r, old(text) != "");
              if full then
                && bufpos >= size && strpos > 0 && size < buffer.Length
                && |next| > offset + size && buffer[..size] == Window(next, offset, size)
              else
                Valid() && text == next && |text| <= offset + size
    {
      hide Window, Separated, Attributes;
      ghost var before := text;
      if strpos > 0 {
        AddChar(',');
      }
      AddChar('<');
      AddChar('/');
      ghost var begun := text;
      EntryText(before, begun, r);
      full := AddString(r.url, false);
      if full {
        FullWindow(begun + r.url, ">" + Attributes(r), offset, size);
        return;
      }
      AddChar('>');
      if r.attributes != "" {
        AddChar(';');
        full := AddString(r.attributes, true);
      }
    }
  }

  /** Appending the visible part of `s` extends the window of `t` to that of `t + s`. */
  lemma Continues(t: string, s: string, offset: nat, size: nat, skip: nat, n: nat)
    requires |t| + |s| > offset
    requires skip == if offset > |t| then offset - |t| else 0
    requires n == var room := size - |Window(t, offset, size)|; if |s| - skip < room then |s| - skip else room
    ensures Window(t, offset, size) + s[skip..][..n] == Window(t + s, offset, size)
  {
    WindowLength(t, offset, size);
    WindowLength(t + s, offset, size);
  }

  /** What the handler answers. */
  datatype Answer = Content(payload: string) | OutOfScope

  /** `well_known_core_get_handler`: its payload cut to `size` is the window of the
      document at `offset`, and the new offset is -1 exactly when the window reaches
      the end of the document. */
  method GetHandler(rs: seq<Resource>, offset: nat, size: nat) returns (a: Answer, counted: nat, newOffset: int)
    requires size > 0
    ensures var doc := Document(rs);
            && (a == OutOfScope <==> doc != "" && offset >= |doc|)
            && (a.Content? ==> a.payload == Window(doc, offset, size))
            && newOffset == (if offset + size >= |doc| then -1 else offset + size)
            && (a.Content? ==> if newOffset == -1 then counted == |a.payload| else counted >= size)
            && (a.OutOfScope? ==> counted == 0)
  {
    hide Window, Listing, Separated;
    var w := new Writer(offset, size);
    ghost var doc := Document(rs);
    var i := 0;
    var full := false;
    while i < |rs|
      invariant i <= |rs| && !full && w.Valid() && fresh(w) && fresh(w.buffer)
      invariant w.offset == offset && w.size == size
      invariant i == 0 <==> w.text == ""
      invariant doc == w.text + Listing(rs[i..], i > 0)
      invariant |w.text| <= offset + size
    {
      ListingStep(rs, i);
      SeparatedNonEmpty(rs[i], i > 0);
      ghost var next := w.text + Separated(rs[i], i > 0);
      ghost var more := Listing(rs[i + 1..], true);
      assert doc == next + more;
      full := w.AddResource(rs[i]);
      if full {
        FullWindow(next, more, offset, size);
        break;
      }
      i := i + 1;
    }
    WindowLength(doc, offset, size);
    counted := w.bufpos;
    if full {
      a := Content(w.buffer[..size]);
      newOffset := offset + size;
    } else {
      ListingEmpty(i > 0);
      assert rs[i..] == [] && w.text == doc;
      a := if w.bufpos > 0 then Content(w.buffer[..w.bufpos]) else if w.strpos > 0 then OutOfScope else Content("");
      newOffset := -1;
    }
  }

  lemma ListingStep(rs: seq<Resource>, i: nat)
    requires i < |rs|
    ensures Listing(rs[i..], i > 0) == Separated(rs[i], i > 0) + Listing(rs[i + 1..], true)
  {
    assert rs[i..][1..] == rs[i + 1..];
  }

  lemma EntryText(before: string, begun: string, r: Resource)
    requires begun == (if before != "" then before + [','] else before) + ['<'] + ['/']
    ensures var next := before + Separated(r, before != "");
            && next == (begun + r.url) + (">" + Attributes(r))
            && next == if r.attributes != "" then begun + r.url + ['>'] + [';'] + r.attributes else begun + r.url + ['>']
  {
  }

  lemma SeparatedNonEmpty(r: Resource, started: bool)
    ensures Separated(r, started) != ""
  {
  }

  lemma ListingEmpty(started: bool)
    ensures Listing([], started) == ""
  {
  }

  /** A window filled by a prefix of a text is the text's own window. */
  lemma FullWindow(start: string, rest: string, offset: nat, size: nat)
    requires |start| >= offset + size
    ensures Window(start + rest, offset, size) == Window(start, offset, size)
    ensures |Window(start, offset, size)| == size
  {
    WindowLength(start, offset, size);
    WindowLength(start + rest, offset, size);
  }


  /** The link format of a small directory, byte for byte (section 5 of RFC 6690). */
  lemma ListingExample()
    ensures Document([Resource("a", "ct=0"), Resource("b/c", "")]) == "</a>;ct=0,</b/c>"
  {
    var a, b := Resource("a", "ct=0"), Resource("b/c", "");
    assert [a, b][1..] == [b] && [b][1..] == [];
    assert Listing([], true) == "";
  }
}
