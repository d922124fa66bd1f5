/** Block-wise transfer of a document (RFC 7959): the Block2 logic of the server
    engine, the client's request loop, and what the two achieve together.
 */
module Blockwise {
  import opened Common
  import opened CoapMessage
  import opened WellKnownCore

  /** A Block2 option. */
  datatype Block2 = Block2(num: nat, more: bool, size: nat)

  /** A response with code 2.05, or 4.02 when `ok` does not hold. */
  datatype Response = Response(ok: bool, block2: Option<Block2>, payload: string)

  const OUT_OF_SCOPE: string := "BlockOutOfScope"
  const COAP_MAX_ATTEMPTS: nat := 4

  /** `COAP_MAX_BLOCK_SIZE`. */
  function MaxBlock(chunk: nat): nat
  {
    if chunk < 32 then 16 else if chunk < 64 then 32 else if chunk < 128 then 64
    else if chunk < 256 then 128 else if chunk < 512 then 256 else if chunk < 1024 then 512
    else if chunk < 2048 then 1024 else 2048
  }

  /** The size a chunk size turns into when it travels in a block option. */
  function WireSize(chunk: nat): nat
  {
    16 * Pow2(Log2(chunk / 16))
  }

  /** The two roundings agree on every size a block option can carry. */
  lemma MaxBlockIsWireSize(chunk: nat)
    requires 16 <= chunk <= 2048
    ensures MaxBlock(chunk) == WireSize(chunk)
  {
    var v := chunk / 16;
    Log2Floor(v);
    Log2Small(v);
    var m := MaxBlock(chunk) / 16;
    assert m <= v < 2 * m && m in {1, 2, 4, 8, 16, 32, 64, 128};
    PowersOfTwo(Log2(v));
  }

  // ----- The engine -----

  /** What a resource handler hands back: whether it kept the 2.05 code, the bytes in
      its buffer, how many it counted, and the new offset. */
  datatype Handled = Handled(ok: bool, payload: string, counted: nat, newOffset: int)

  function Cut(s: string, n: nat): string
  {
    if |s| > n then s[..n] else s
  }

  /** The Block2 part of `coap_receive` after the resource handler returned, for a
      request with block option `req` and server block limit `limit`. */
  function EngineReply(req: Option<Block2>, limit: nat, h: Handled): Response
  {
    match req
    case Some(b) =>
      var size := if b.size < limit then b.size else limit;
      var offset := b.num * b.size;
      if h.newOffset == offset then
        // a resource that is not aware of blocks returned its whole payload
        if offset >= |h.payload| then Response(false, None, OUT_OF_SCOPE)
        else Response(h.ok, Some(Block2(b.num, |h.payload| - offset > size, size)), Cut(h.payload[offset..], size))
      else
        Response(h.ok, Some(Block2(b.num, h.newOffset != -1 || h.counted > size, size)), Cut(h.payload, size))
    case None =>
      if h.newOffset != 0 then
        Response(h.ok, Some(Block2(0, h.newOffset != -1, limit)), Cut(h.payload, limit))
      else Response(h.ok, None, h.payload)
  }

  /** The block of `doc` that a request is entitled to. */
  function ServerReply(doc: string, req: Option<Block2>, limit: nat): Response
  {
    match req
    case None => Response(true, Some(Block2(0, |doc| > limit, limit)), Window(doc, 0, limit))
    case Some(b) =>
      var size := if b.size < limit then b.size else limit;
      var offset := b.num * b.size;
      if doc != "" && offset >= |doc| then Response(false, Some(Block2(b.num, false, size)), OUT_OF_SCOPE)
      else Response(true, Some(Block2(b.num, offset + size < |doc|, size)), Window(doc, offset, size))
  }

  /** A plain request to a resource that left the offset alone gets the handler's whole
      payload and no block option. */
  lemma PlainReplyIsWhole(limit: nat, ok: bool, payload: string)
    ensures var r := EngineReply(None, limit, Handled(ok, payload, |payload|, 0));
            r.ok == ok && r.payload == payload && r.block2 == None
  {
  }

  /** A plain request to a resource that moved the offset gets a first block, cut to the
      limit, marked as not the last one unless the resource said it was. */
  lemma PlainReplyIsFirstBlock(limit: nat, h: Handled)
    requires h.newOffset != 0
    ensures var r := EngineReply(None, limit, h);
            && r.ok == h.ok && r.payload <= h.payload && |r.payload| == (if |h.payload| < limit then |h.payload| else limit)
            && r.block2.Some? && r.block2.value.num == 0 && r.block2.value.size == limit
            && (r.block2.value.more <==> h.newOffset != -1)
  {
  }

  /** A request for a block of a resource that moved the offset gets that block's number
      and the smaller size, and no more than that many bytes. */
  lemma AwareReplyIsCut(b: Block2, limit: nat, h: Handled)
    requires h.newOffset != b.num * b.size
    ensures var r := EngineReply(Some(b), limit, h);
            && r.ok == h.ok && r.payload <= h.payload && r.block2.Some?
            && var x := r.block2.value;
               && x.num == b.num && x.size <= b.size && x.size <= limit && (x.size == b.size || x.size == limit)
               && |r.payload| == (if |h.payload| < x.size then |h.payload| else x.size)
               && (x.more <==> h.newOffset != -1 || h.counted > x.size)
  {
  }

  /** A resource that is not aware of blocks is served block by block all the same. */
  lemma UnawareResourceIsSliced(payload: string, b: Block2, limit: nat)
    requires limit > 0 && b.size > 0
    ensures var r := EngineReply(Some(b), limit, Handled(true, payload, |payload|, b.num * b.size));
            var s := ServerReply(payload, Some(b), limit);
            if b.num * b.size >= |payload| then !r.ok && r.payload == OUT_OF_SCOPE else r == s
  {
    var size, offset := if b.size < limit then b.size else limit, b.num * b.size;
    if offset < |payload| {
      if offset + size < |payload| {
        assert payload[offset..][..size] == payload[offset..offset + size];
      }
    }
  }

  /** Receiving a request for the resource directory. */
  method Serve(rs: seq<Resource>, req: Option<Block2>, chunk: nat) returns (r: Response)
    requires 16 <= chunk && (req.Some? ==> req.value.size >= 16)
    ensures r == ServerReply(Document(rs), req, MaxBlock(chunk))
  {
    var limit := MaxBlock(chunk);
    var size, offset := limit, 0;
    if req.Some? {
      size := if req.value.size < limit then req.value.size else limit;
      offset := req.value.num * req.value.size;
    }
    var a, counted, newOffset := GetHandler(rs, offset, size);
    var h := match a
      case Content(p) => Handled(true, p, counted, newOffset)
      case OutOfScope => Handled(false, OUT_OF_SCOPE, |OUT_OF_SCOPE|, newOffset);
    WindowLength(Document(rs), offset, size);
    r := EngineReply(req, limit, h);
  }

  // ----- The client -----

  /** The responses from block `k` on, for a server with blocks of `s` bytes and a
      client that asks for blocks of `c` bytes after the first response. */
  ghost function Replies(doc: string, s: nat, c: nat, k: nat): seq<Response>
    requires s > 0 && c > 0
    decreases |doc| - k * c
  {
    var r := ServerReply(doc, Ask(c, k), s);
    if r.block2.value.more then
      assert k == 0 || k * c < |doc|;
      StepGrows(k, c);
      [r] + Replies(doc, s, c, k + 1)
    else [r]
  }

  /** The block option in request `k`: none at first. */
  function Ask(c: nat, k: nat): Option<Block2>
  {
    if k == 0 then None else Some(Block2(k, false, c))
  }

  lemma StepGrows(k: nat, c: nat)
    ensures (k + 1) * c == k * c + c
  {
  }

  /** `coap_blocking_request` against the server, over a channel that delivers. */
  method BlockingRequest(rs: seq<Resource>, clientChunk: nat, serverChunk: nat) returns (received: seq<Response>)
    requires 16 <= clientChunk <= 2048 && 16 <= serverChunk <= 2048
    requires |Document(rs)| <= 0x0F_FFFE * WireSize(clientChunk)
    ensures received == Replies(Document(rs), MaxBlock(serverChunk), WireSize(clientChunk), 0)
  {
    hide Replies, ServerReply, WireSize, MaxBlock, Document;
    ghost var doc := Document(rs);
    ghost var s, c := MaxBlock(serverChunk), WireSize(clientChunk);
    SizesPositive(serverChunk, clientChunk);
    received := [];
    var blockNum: nat, errors, more := 0, 0, true;
    while more && errors < COAP_MAX_ATTEMPTS
      invariant errors == 0 && blockNum <= 0x0F_FFFF
      invariant blockNum > 0 && more ==> (blockNum - 1) * c < |doc|
      invariant more ==> received + Replies(doc, s, c, blockNum) == Replies(doc, s, c, 0)
      invariant !more ==> received == Replies(doc, s, c, 0)
      decreases more, |doc| + c - blockNum * c
    {
      var req: Option<Block2> := None;
      if blockNum > 0 {
        BlockRoundTrip(blockNum, false, clientChunk);
        var parsed := ParseBlock(BlockWord(blockNum, false, clientChunk));
        req := Some(Block2(parsed.num, parsed.more, parsed.size));
        PowersOfTwo(Log2(clientChunk / 16)) by { Log2Small(clientChunk / 16); }
        assert req == Some(Block2(blockNum, false, c)) by { WireSizeDef(clientChunk); }
      }
      var r := Serve(rs, req, serverChunk);
      RepliesStep(doc, s, c, blockNum);
      ReplyFields(doc, s, c, blockNum);
      more := r.block2.value.more;
      if r.block2.value.num == blockNum {
        received := received + [r];
        ghost var k := blockNum;
        StepGrows(k, c);
        blockNum := blockNum + 1;
        if more { StillInRange(k, c, |doc|); }
      } else {
        errors := errors + 1;
      }
    }
  }

  lemma SizesPositive(a: nat, b: nat)
    requires 16 <= b
    ensures MaxBlock(a) > 0 && WireSize(b) > 0
  {
  }

  lemma WireSizeDef(chunk: nat)
    ensures WireSize(chunk) == 16 * Pow2(Log2(chunk / 16))
  {
  }

  lemma MulMonotone(a: nat, b: nat, c: nat)
    ensures a >= b ==> a * c >= b * c
  {
    assert a * c - b * c == (a - b) * c;
  }

  lemma StillInRange(k: nat, c: nat, len: nat)
    requires k * c < len <= 0x0F_FFFE * c
    ensures k + 1 <= 0x0F_FFFF
  {
    MulMonotone(k, 0x0F_FFFE, c);
  }

  lemma RepliesStep(doc: string, s: nat, c: nat, k: nat)
    requires s > 0 && c > 0
    ensures var r := ServerReply(doc, Ask(c, k), s);
            Replies(doc, s, c, k) == if r.block2.value.more then [r] + Replies(doc, s, c, k + 1) else [r]
  {
  }

  lemma ReplyFields(doc: string, s: nat, c: nat, k: nat)
    requires s > 0 && c > 0
    ensures var r := ServerReply(doc, Ask(c, k), s);
            && r.block2.Some? && r.block2.value.num == k
            && (r.block2.value.more ==> k * c < |doc|)
  {
  }

  // ----- Completeness -----

  function Concat(rs: seq<Response>): string
  {
    if rs == [] then "" else rs[0].payload + Concat(rs[1..])
  }

  predicate AllOk(rs: seq<Response>)
  {
    forall r <- rs :: r.ok
  }

  /** Every response succeeded and together they are the document. */
  predicate Complete(rs: seq<Response>, doc: string)
  {
    AllOk(rs) && Concat(rs) == doc
  }

  lemma ConcatCons(r: Response, rs: seq<Response>)
    ensures Concat([r] + rs) == r.payload + Concat(rs)
    ensures AllOk([r] + rs) <==> r.ok && AllOk(rs)
  {
    assert ([r] + rs)[1..] == rs;
    assert AllOk([r] + rs) ==> r in [r] + rs && forall x <- rs :: x in [r] + rs;
  }

  /** With equal block sizes, the blocks from number `k` on are the rest of the
      document, in as many blocks as it takes. */
  lemma {:induction false} EqualSizesComplete(doc: string, s: nat, k: nat)
    requires s > 0 && (k == 0 || k * s < |doc|)
    ensures Complete(Replies(doc, s, s, k), doc[k * s..])
    ensures |Replies(doc, s, s, k)| == if doc == "" then 1 else (|doc| - k * s + s - 1) / s
    decreases |doc| - k * s
  {
    hide Complete, ServerReply, Replies, Window;
    var r := ServerReply(doc, Ask(s, k), s);
    var at := k * s;
    RepliesStep(doc, s, s, k);
    BlockAt(doc, s, k, at);
    if r.block2.value.more {
      StepGrows(k, s);
      EqualSizesComplete(doc, s, k + 1);
      CompleteCons(r, Replies(doc, s, s, k + 1), doc[at + s..]);
      Rounds(|doc| - at, s);
    } else {
      CompleteOne(r);
      if doc != "" { OneRound(|doc| - at, s); }
    }
  }

  /** The reply to request `k` when both sides use blocks of `s` bytes. */
  lemma BlockAt(doc: string, s: nat, k: nat, at: nat)
    requires s > 0 && at == k * s && (k == 0 || at < |doc|)
    ensures var r := ServerReply(doc, Ask(s, k), s);
            && r.ok && r.block2.Some? && r.block2.value.more == (at + s < |doc|)
            && at <= |doc| && (doc == "" ==> at == 0)
            && (r.block2.value.more ==> doc[at..] == r.payload + doc[at + s..])
            && (!r.block2.value.more ==> r.payload == doc[at..])
  {
    WindowLength(doc, at, s);
  }

  lemma CompleteOne(r: Response)
    requires r.ok
    ensures Complete([r], r.payload)
  {
    ConcatCons(r, []);
    assert [r] == [r] + [];
    assert r.payload + "" == r.payload;
  }

  lemma CompleteCons(r: Response, rs: seq<Response>, t: string)
    requires r.ok && Complete(rs, t)
    ensures Complete([r] + rs, r.payload + t)
  {
    ConcatCons(r, rs);
  }

  lemma Rounds(rest: nat, s: nat)
    requires s > 0 && rest > s
    ensures (rest + s - 1) / s == 1 + (rest - s + s - 1) / s
  {
    var x := rest - 1;
    var q, r := x / s, x % s;
    assert x + s == s * (q + 1) + r;
    QuotientUnique(x + s, s, q + 1, r);
  }

  lemma QuotientUnique(x: int, s: int, q: int, r: int)
    requires s > 0 && 0 <= r && x == s * q + r && r < s
    ensures x / s == q
  {
    var d := x / s - q;
    assert x == s * (x / s) + x % s;
    assert s * (x / s) - s * q == s * d;
    assert -s < s * d < s;
    assert d >= 1 ==> s * d >= s;
    assert d <= -1 ==> s * d <= -s;
  }

  lemma OneRound(rest: nat, s: nat)
    requires 0 < rest <= s
    ensures (rest + s - 1) / s == 1
  {
    assert s <= rest + s - 1 < 2 * s;
  }

  /** With a smaller client size, the blocks after the first start inside it: what
      arrives is the document with a stretch repeated. */
  lemma {:induction false} SmallerClientSize(doc: string, s: nat, c: nat, k: nat)
    requires 0 < c < s && k > 0 && k * c < |doc|
    ensures Concat(Replies(doc, s, c, k)) == doc[k * c..]
    decreases |doc| - k * c
  {
    hide ServerReply, Replies, Window, Concat;
    var r := ServerReply(doc, Ask(c, k), s);
    RepliesStep(doc, s, c, k);
    StepGrows(k, c);
    SmallBlock(doc, s, c, k, k * c);
    if r.block2.value.more {
      SmallerClientSize(doc, s, c, k + 1);
      ConcatCons(r, Replies(doc, s, c, k + 1));
    } else {
      ConcatOne(r);
    }
  }

  lemma ConcatOne(r: Response)
    ensures Concat([r]) == r.payload && (AllOk([r]) <==> r.ok)
  {
    ConcatCons(r, []);
    assert [r] == [r] + [];
    assert r.payload + "" == r.payload;
  }

  lemma SmallBlock(doc: string, s: nat, c: nat, k: nat, at: nat)
    requires 0 < c < s && k > 0 && at == k * c < |doc|
    ensures var r := ServerReply(doc, Ask(c, k), s);
            && r.block2.Some? && r.block2.value.more == (at + c < |doc|)
            && (r.block2.value.more ==> doc[at..] == r.payload + doc[at + c..])
            && (!r.block2.value.more ==> r.payload == doc[at..])
  {
    WindowLength(doc, at, c);
  }

  lemma LargeBlock(doc: string, s: nat, c: nat, k: nat, at: nat)
    requires 0 < s < c && k > 0 && at == k * c && doc != ""
    ensures var r := ServerReply(doc, Ask(c, k), s);
            && r.block2.Some? && (r.ok <==> at < |doc|)
            && (r.ok ==> |r.payload| <= s && |r.payload| <= |doc| - at && r.block2.value.more == (at + s < |doc|))
  {
    WindowLength(doc, at, s);
  }

  /** With a larger client size, every block after the first leaves a gap in front of
      it, so too few bytes arrive. */
  lemma {:induction false} LargerClientSize(doc: string, s: nat, c: nat, k: nat)
    requires 0 < s < c && k > 0 && AllOk(Replies(doc, s, c, k)) && doc != ""
    ensures k * c < |doc| && |Concat(Replies(doc, s, c, k))| <= |doc| - k * c
    decreases |doc| - k * c
  {
    hide ServerReply, Replies, Window, Concat, AllOk;
    var r := ServerReply(doc, Ask(c, k), s);
    RepliesStep(doc, s, c, k);
    StepGrows(k, c);
    LargeBlock(doc, s, c, k, k * c);
    if r.block2.value.more {
      ConcatCons(r, Replies(doc, s, c, k + 1));
      LargerClientSize(doc, s, c, k + 1);
    } else {
      ConcatOne(r);
    }
  }

  /** Block-wise transfer delivers the document, each byte once and in order, exactly
      when client and server round to the same block size or one block is enough. */
  lemma TransferCompleteIff(doc: string, s: nat, c: nat)
    requires s > 0 && c > 0
    ensures Complete(Replies(doc, s, c, 0), doc) <==> c == s || |doc| <= s
  {
    var r := ServerReply(doc, None, s);
    RepliesStep(doc, s, c, 0);
    WindowLength(doc, 0, s);
    if c == s {
      EqualSizesComplete(doc, s, 0);
      assert 0 * s == 0 && doc[0..] == doc;
    } else if |doc| <= s {
      CompleteOne(r);
    } else {
      var rest := Replies(doc, s, c, 1);
      ConcatCons(r, rest);
      assert 1 * c == c;
      if c < s {
        SmallerClientSize(doc, s, c, 1);
      } else if AllOk(rest) {
        LargerClientSize(doc, s, c, 1);
      }
    }
  }

  /** The whole exchange with one chunk size on both sides: complete, in
      max(1, ceil(len / block)) rounds. */
  method Fetch(rs: seq<Resource>, chunk: nat) returns (document: string, rounds: nat)
    requires 16 <= chunk <= 2048 && |Document(rs)| <= 0x0F_FFFE * WireSize(chunk)
    ensures document == Document(rs)
    ensures var s := MaxBlock(chunk); s > 0 && rounds == if Document(rs) == "" then 1 else (|Document(rs)| + s - 1) / s
  {
    var received := BlockingRequest(rs, chunk, chunk);
    MaxBlockIsWireSize(chunk);
    ghost var s := MaxBlock(chunk);
    EqualSizesComplete(Document(rs), s, 0);
    assert 0 * s == 0 && Document(rs)[0..] == Document(rs);
    document, rounds := Concat(received), |received|;
  }
}
