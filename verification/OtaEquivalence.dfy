// Feeding a package's blocks to the streaming validator, in any chunks and with any immediate repeats,
// accepts exactly what the whole-buffer verifier accepts.
module OtaEquivalence {
  import opened Base
  import opened OtaTypes
  import opened OtaStream
  import A = OtaArtifact

  // ---- Scripts: a block cut into chunks, each sent once and then repeated

  datatype Cut = Cut(len: nat, repeats: nat)

  predicate PlanOk(plan: seq<Cut>, left: nat)
    decreases |plan|
  {
    if |plan| == 0 then left == 0
    else 1 <= plan[0].len <= MAX_CHUNK && plan[0].len <= left && PlanOk(plan[1..], left - plan[0].len)
  }

  function ChunkAt(d: Desc, enc: Bytes, offset: nat, len: nat): Chunk
    requires offset + len <= |enc|
  {
    Chunk(d, offset, enc[offset..offset + len], offset + len == |enc|)
  }

  function Copies(c: Chunk, n: nat): (r: seq<Chunk>) {
    if n == 0 then [] else [c] + Copies(c, n - 1)
  }

  function Script(d: Desc, enc: Bytes, plan: seq<Cut>, offset: nat): seq<Chunk>
    requires offset <= |enc| && PlanOk(plan, |enc| - offset)
    decreases |plan|
  {
    if |plan| == 0 then []
    else
      var c := ChunkAt(d, enc, offset, plan[0].len);
      [c] + Copies(c, plan[0].repeats) + Script(d, enc, plan[1..], offset + plan[0].len)
  }

  // validate_block's bounds, then the block's script
  function DriveBlock(p: Prims, s: Stream, payload: Bytes, d: Desc, plan: seq<Cut>): (r: (Err, Stream))
    requires StreamWF(s) && PlanOk(plan, d.encSize)
    ensures StreamWF(r.1)
  {
    if d.encOffset > |payload| || d.encSize == 0 || d.encSize > |payload| - d.encOffset then (InvalidSize, s)
    else FeedAll(p, s, Script(d, payload[d.encOffset..d.encOffset + d.encSize], plan, 0))
  }

  predicate PlansOk(ds: seq<Desc>, plans: seq<seq<Cut>>) {
    |plans| == |ds| && forall i :: 0 <= i < |ds| ==> PlanOk(plans[i], ds[i].encSize)
  }

  // Blocks i.. one after the other
  function Drive(p: Prims, s: Stream, payload: Bytes, ds: seq<Desc>, plans: seq<seq<Cut>>, i: nat): (r: (Err, Stream))
    requires StreamWF(s) && PlansOk(ds, plans) && i <= |ds|
    ensures StreamWF(r.1)
    decreases |ds| - i
  {
    if i == |ds| then (Ok, s)
    else
      var (err, next) := DriveBlock(p, s, payload, ds[i], plans[i]);
      if err != Ok then (err, next) else Drive(p, next, payload, ds, plans, i + 1)
  }

  function DriveAndFinish(p: Prims, s: Stream, payload: Bytes, ds: seq<Desc>, plans: seq<seq<Cut>>, i: nat)
    : (r: (Err, Stream))
    requires StreamWF(s) && PlansOk(ds, plans) && i <= |ds|
    ensures StreamWF(r.1)
  {
    var (err, end) := Drive(p, s, payload, ds, plans, i);
    if err != Ok then (err, end) else Finish(p, end)
  }

  // ---- One block

  // Between blocks: the last chunk taken, if any, ended an earlier block.
  predicate Boundary(s: Stream) {
    && !s.failed && !s.finished && !s.active
    && Startable(s.fields)
    && (s.last.LastChunk? ==>
          s.last.desc.index < s.nextIndex && s.last.final &&
          |s.last.desc.rawSha| == SHA_LEN && |s.last.desc.encSha| == SHA_LEN)
  }

  predicate BlockGood(p: Prims, d: Desc, enc: Bytes) {
    && p.inflate(enc).Some? && |p.inflate(enc).value| == d.rawSize
    && p.sha(p.inflate(enc).value) == d.rawSha && p.sha(enc) == d.encSha
  }

  // In the middle of block d: `offset` bytes of it fed, `part` put out.
  function Mid(s: Stream, d: Desc, chain: Bytes, enc: Bytes, offset: nat, part: Bytes, last: LastChunk): Stream
    requires offset <= |enc|
  {
    s.(block := d, chain := chain, blockOffset := offset, blockRaw := part, blockEnc := enc[..offset],
       inflated := |part|, payload := s.payload + enc[..offset], image := s.image + part,
       output := s.output + part, active := true, last := last)
  }

  // After block d.
  function Advanced(s: Stream, d: Desc, chain: Bytes, enc: Bytes, raw: Bytes, last: LastChunk): Stream {
    s.(block := d, chain := chain, blockOffset := 0, blockRaw := raw, blockEnc := enc, inflated := |raw|,
       payload := s.payload + enc, image := s.image + raw, output := s.output + raw, active := false,
       rawOffset := s.rawOffset + d.rawSize, encOffset := s.encOffset + d.encSize,
       nextIndex := s.nextIndex + 1, last := last)
  }

  predicate Feedable(s: Stream, d: Desc, enc: Bytes) {
    && Boundary(s) && d.index == s.nextIndex && |enc| == d.encSize > 0
    && |d.rawSha| == SHA_LEN && |d.encSha| == SHA_LEN
  }

  predicate Earlier(last: LastChunk, d: Desc, offset: nat) {
    last.LastChunk? ==> last.desc.index < d.index || (last.desc == d && last.offset < offset)
  }

  // Where the inflater stands when `offset` bytes are fed.
  predicate PartOf(p: Prims, d: Desc, enc: Bytes, offset: nat, part: Bytes) {
    offset < |enc| && p.inflatePart(enc[..offset]) == Some(part) && |part| <= d.rawSize
  }

  function Note(p: Prims, c: Chunk): LastChunk {
    LastChunk(c.desc, c.offset, |c.bytes|, c.final, p.sha(c.bytes))
  }

  // A chunk that does not end the block.
  lemma {:induction false} FeedMiddle(p: Prims, s: Stream, d: Desc, chain: Bytes, enc: Bytes, offset: nat, part: Bytes,
                   last: LastChunk, len: nat)
    requires InflateLaw(p) && Feedable(s, d, enc) && Earlier(last, d, offset) && PartOf(p, d, enc, offset, part)
    requires 1 <= len <= MAX_CHUNK && offset + len < |enc|
    ensures var c := ChunkAt(d, enc, offset, len);
            var (err, next) := Feed(p, Mid(s, d, chain, enc, offset, part, last), c, true);
            var out := p.inflatePart(enc[..offset + len]);
            && (err != Ok ==> !BlockGood(p, d, enc))
            && (err == Ok ==> out.Some? && PartOf(p, d, enc, offset + len, out.value) &&
                              next == Mid(s, d, chain, enc, offset + len, out.value, Note(p, c)))
  {
    hide CheckDesc, StartBlock;
    var c := ChunkAt(d, enc, offset, len);
    var m := Mid(s, d, chain, enc, offset, part, last);
    assert m.blockEnc + c.bytes == enc[..offset + len];
    assert m.payload + c.bytes == s.payload + enc[..offset + len];
    var out := p.inflatePart(enc[..offset + len]);
    if out.Some? {
      assert enc[..offset + len][..offset] == enc[..offset];
      assert part <= out.value;
      assert part + out.value[|part|..] == out.value;
      assert m.image + out.value[|part|..] == s.image + out.value;
      assert m.output + out.value[|part|..] == s.output + out.value;
    }
  }

  // The chunk that ends the block.
  lemma {:induction false} FeedLast(p: Prims, s: Stream, d: Desc, chain: Bytes, enc: Bytes, offset: nat, part: Bytes,
                 last: LastChunk, len: nat)
    requires InflateLaw(p) && Feedable(s, d, enc) && Earlier(last, d, offset) && PartOf(p, d, enc, offset, part)
    requires 1 <= len <= MAX_CHUNK && offset + len == |enc|
    ensures var c := ChunkAt(d, enc, offset, len);
            var (err, next) := Feed(p, Mid(s, d, chain, enc, offset, part, last), c, true);
            && (err == Ok <==> BlockGood(p, d, enc))
            && (err == Ok ==> next == Advanced(s, d, chain, enc, p.inflate(enc).value, Note(p, c)))
  {
    hide CheckDesc, StartBlock;
    var c := ChunkAt(d, enc, offset, len);
    var m := Mid(s, d, chain, enc, offset, part, last);
    assert m.blockEnc + c.bytes == enc;
    assert m.payload + c.bytes == s.payload + enc;
    var out := p.inflate(enc);
    if out.Some? {
      assert part <= out.value;
      assert part + out.value[|part|..] == out.value;
      assert m.image + out.value[|part|..] == s.image + out.value;
      assert m.output + out.value[|part|..] == s.output + out.value;
    }
  }

  // Sending the latest chunk again changes nothing, however often.
  lemma {:induction false} RepeatsAreIdle(p: Prims, s: Stream, c: Chunk, n: nat)
    requires StreamWF(s) && !s.failed && !s.finished && s.last == Note(p, c)
    requires 1 <= |c.bytes| <= MAX_CHUNK && |c.desc.rawSha| == SHA_LEN && |c.desc.encSha| == SHA_LEN
    ensures FeedAll(p, s, Copies(c, n)) == (Ok, s)
  {
    if n > 0 {
      assert Feed(p, s, c, true) == (Ok, s);
      RepeatsAreIdle(p, s, c, n - 1);
      assert Copies(c, n)[1..] == Copies(c, n - 1);
    }
  }

  // A chunk, its repeats, and what follows.
  lemma {:induction false} FeedWithRepeats(p: Prims, s: Stream, c: Chunk, n: nat, rest: seq<Chunk>)
    requires StreamWF(s) && 1 <= |c.bytes| <= MAX_CHUNK && |c.desc.rawSha| == SHA_LEN && |c.desc.encSha| == SHA_LEN
    requires var (err, next) := Feed(p, s, c, true);
             err == Ok ==> !next.failed && !next.finished && next.last == Note(p, c)
    ensures FeedAll(p, s, [c] + Copies(c, n) + rest) ==
            var (err, next) := Feed(p, s, c, true); if err != Ok then (err, next) else FeedAll(p, next, rest)
  {
    hide Feed, Copies;
    var (err, next) := Feed(p, s, c, true);
    assert ([c] + Copies(c, n) + rest)[1..] == Copies(c, n) + rest;
    if err == Ok {
      RepeatsAreIdle(p, next, c, n);
      FeedAllJoin(p, next, Copies(c, n), rest);
    }
  }

  lemma {:induction false} MidRun(p: Prims, s: Stream, d: Desc, chain: Bytes, enc: Bytes, offset: nat, part: Bytes,
                                  last: LastChunk, plan: seq<Cut>)
    requires InflateLaw(p) && Feedable(s, d, enc) && Earlier(last, d, offset) && PartOf(p, d, enc, offset, part)
    requires PlanOk(plan, |enc| - offset)
    ensures var (err, end) := FeedAll(p, Mid(s, d, chain, enc, offset, part, last), Script(d, enc, plan, offset));
            && (err == Ok <==> BlockGood(p, d, enc))
            && (err == Ok ==> end.last.LastChunk? && end.last.desc == d && end.last.final &&
                              end == Advanced(s, d, chain, enc, p.inflate(enc).value, end.last))
    decreases |plan|
  {
    hide Feed, BlockGood, InflateLaw;
    var len, m := plan[0].len, Mid(s, d, chain, enc, offset, part, last);
    var c := ChunkAt(d, enc, offset, len);
    var (err, next) := Feed(p, m, c, true);
    var rest := Script(d, enc, plan[1..], offset + len);
    if offset + len < |enc| {
      FeedMiddle(p, s, d, chain, enc, offset, part, last, len);
      FeedWithRepeats(p, m, c, plan[0].repeats, rest);
      if err == Ok {
        MidRun(p, s, d, chain, enc, offset + len, p.inflatePart(enc[..offset + len]).value, Note(p, c), plan[1..]);
      }
    } else {
      FeedLast(p, s, d, chain, enc, offset, part, last, len);
      FeedWithRepeats(p, m, c, plan[0].repeats, rest);
      assert rest == [];
    }
  }

  // The first chunk of the next block: once the block has started, the feed goes on as in its middle.
  lemma {:induction false} FirstChunk(p: Prims, s: Stream, d: Desc, enc: Bytes, len: nat)
    requires InflateLaw(p) && Boundary(s) && d.index == s.nextIndex && |enc| == d.encSize
    requires 1 <= len <= MAX_CHUNK && len <= |enc|
    ensures var (err, chain) := CheckDesc(p, s.fields, d, s.nextIndex, s.rawOffset, s.encOffset, s.chain);
            var c := ChunkAt(d, enc, 0, len);
            && (err != Ok ==> Feed(p, s, c, true).0 != Ok)
            && (err == Ok ==> Feedable(s, d, enc) && PartOf(p, d, enc, 0, []) && Earlier(s.last, d, 0) &&
                              Feed(p, s, c, true) == Feed(p, Mid(s, d, chain, enc, 0, [], s.last), c, true))
  {
    var (err, chain) := CheckDesc(p, s.fields, d, s.nextIndex, s.rawOffset, s.encOffset, s.chain);
    hide FeedActive;
    if err == Ok {
      assert enc[..0] == [];
      var m := Mid(s, d, chain, enc, 0, [], s.last);
      assert s.payload + [] == s.payload && s.image + [] == s.image && s.output + [] == s.output;
      assert StartBlock(p, s, d) == (Ok, m);
      assert d == m.block && |d.rawSha| == SHA_LEN && |d.encSha| == SHA_LEN;
    }
  }

  // What feeding one whole block does, from a boundary.
  lemma {:induction false} BlockRun(p: Prims, s: Stream, d: Desc, enc: Bytes, plan: seq<Cut>)
    requires InflateLaw(p) && Boundary(s) && |enc| == d.encSize > 0 && PlanOk(plan, |enc|)
    requires d.index == s.nextIndex
    ensures var (err, end) := FeedAll(p, s, Script(d, enc, plan, 0));
            var (check, chain) := CheckDesc(p, s.fields, d, s.nextIndex, s.rawOffset, s.encOffset, s.chain);
            && (err == Ok <==> check == Ok && BlockGood(p, d, enc))
            && (err == Ok ==> end.last.LastChunk? && end.last.desc == d && end.last.final &&
                              end == Advanced(s, d, chain, enc, p.inflate(enc).value, end.last))
  {
    hide Feed, BlockGood, InflateLaw, CheckDesc;
    var (check, chain) := CheckDesc(p, s.fields, d, s.nextIndex, s.rawOffset, s.encOffset, s.chain);
    var script := Script(d, enc, plan, 0);
    FirstChunk(p, s, d, enc, plan[0].len);
    assert script[0] == ChunkAt(d, enc, 0, plan[0].len);
    if check == Ok {
      var m := Mid(s, d, chain, enc, 0, [], s.last);
      assert FeedAll(p, s, script) == FeedAll(p, m, script);
      MidRun(p, s, d, chain, enc, 0, [], s.last, plan);
    }
  }

  // A block that is not the next one: refused, or taken for a repeat of the last chunk and ignored.
  lemma {:induction false} StrayBlock(p: Prims, s: Stream, d: Desc, enc: Bytes, plan: seq<Cut>)
    requires Boundary(s) && |enc| == d.encSize > 0 && PlanOk(plan, |enc|)
    requires d.index != s.nextIndex
    ensures var (err, end) := FeedAll(p, s, Script(d, enc, plan, 0));
            err == Ok ==> end == s
  {
    assert CheckDesc(p, s.fields, d, s.nextIndex, s.rawOffset, s.encOffset, s.chain).0 != Ok;
    hide CheckDesc;
    var c := ChunkAt(d, enc, 0, plan[0].len);
    var rest := Script(d, enc, plan[1..], plan[0].len);
    assert Script(d, enc, plan, 0) == [c] + Copies(c, plan[0].repeats) + rest;
    if Feed(p, s, c, true).0 == Ok {
      assert IsRepeat(s, c) && SameAsLast(p, s, c);
      assert c.final && rest == [];
      FeedWithRepeats(p, s, c, plan[0].repeats, rest);
    } else {
      assert ([c] + Copies(c, plan[0].repeats) + rest)[0] == c;
    }
  }

  // Feeding any one block from a boundary: at best the next block is taken; otherwise nothing has changed.
  lemma {:induction false} DriveOne(p: Prims, s: Stream, payload: Bytes, d: Desc, plan: seq<Cut>)
    requires InflateLaw(p) && Boundary(s) && PlanOk(plan, d.encSize)
    ensures var (err, end) := DriveBlock(p, s, payload, d, plan);
            err == Ok ==> Boundary(end) && end.fields == s.fields &&
                          (end == s || end.nextIndex == s.nextIndex + 1)
  {
    hide InflateLaw, FeedAll, Script;
    if d.encOffset <= |payload| && 0 < d.encSize <= |payload| - d.encOffset {
      var enc := payload[d.encOffset..d.encOffset + d.encSize];
      if d.index == s.nextIndex {
        BlockRun(p, s, d, enc, plan);
        hide BlockGood;
      } else {
        StrayBlock(p, s, d, enc, plan);
      }
    }
  }

  // Each block moves the stream on by one block at most.
  lemma {:induction false} NextIndexLag(p: Prims, s: Stream, payload: Bytes, ds: seq<Desc>,
                                        plans: seq<seq<Cut>>, i: nat)
    requires InflateLaw(p) && Boundary(s) && PlansOk(ds, plans) && i <= |ds|
    ensures var (err, end) := Drive(p, s, payload, ds, plans, i);
            err == Ok ==> end.nextIndex <= s.nextIndex + (|ds| - i) && end.fields == s.fields && Boundary(end)
    decreases |ds| - i
  {
    hide InflateLaw, DriveBlock, PlanOk;
    if i < |ds| {
      var (err, next) := DriveBlock(p, s, payload, ds[i], plans[i]);
      DriveOne(p, s, payload, ds[i], plans[i]);
      if err == Ok {
        NextIndexLag(p, next, payload, ds, plans, i + 1);
      }
    }
  }

  // ---- The whole run

  // The signed fields as verify_signed_fields leaves them, for this payload.
  predicate FieldsFor(f: Signed, blocks: nat, payload: nat) {
    && Startable(f) && f.blockCount == blocks && f.encSize == payload
    && |f.imageSha| == SHA_LEN && |f.encSha| == SHA_LEN && |f.tableSha| == SHA_LEN
  }

  // The stream at the boundary before block i, its blocks so far giving `image` and `chain`.
  predicate At(s: Stream, f: Signed, payload: Bytes, i: nat, nextEnc: nat, image: Bytes, chain: Bytes) {
    && Boundary(s) && s.fields == f && s.payloadComplete
    && s.nextIndex == i && s.encOffset == nextEnc <= |payload| && s.rawOffset == |image|
    && s.image == image && s.output == image && s.chain == chain && s.payload == payload[..nextEnc]
  }

  // What is left for the whole-buffer verifier to accept from block i on.
  predicate TailAccepted(p: Prims, f: Signed, payload: Bytes, ds: seq<Desc>, i: nat, nextEnc: nat, image: Bytes,
                         chain: Bytes)
    requires i <= |ds| && nextEnc <= |payload|
  {
    && A.VerifyBlocks(p, f, None, payload, ds, i, nextEnc, image).Good?
    && ChainFrom(p, chain, ds[i..]) == f.tableSha
    && p.sha(payload) == f.encSha
  }

  function TailImage(p: Prims, f: Signed, payload: Bytes, ds: seq<Desc>, i: nat, nextEnc: nat, image: Bytes): Bytes
    requires i <= |ds| && nextEnc <= |payload|
    requires A.VerifyBlocks(p, f, None, payload, ds, i, nextEnc, image).Good?
  {
    A.VerifyBlocks(p, f, None, payload, ds, i, nextEnc, image).value
  }

  // What the stream also asks of the last block.
  predicate LastOk(p: Prims, f: Signed, payload: Bytes, d: Desc, nextRaw: nat, nextEnc: nat, chain: Bytes) {
    nextRaw + d.rawSize == f.rawSize && nextEnc + d.encSize == |payload| && ChainStep(p, chain, d) == f.tableSha
  }

  // One block: both sides check the same things, except that on the last block the stream also looks at
  // what the other only looks at in the end.
  lemma {:induction false} SameChecks(p: Prims, f: Signed, payload: Bytes, d: Desc, i: nat, nextRaw: nat,
                                      nextEnc: nat, chain: Bytes,
                   blocks: nat)
    requires FieldsFor(f, blocks, |payload|) && f.codec.FullDeflate?
    requires i < blocks && nextEnc <= |payload| && nextRaw <= f.rawSize
    ensures var check := CheckDesc(p, f, d, i, nextRaw, nextEnc, chain);
            var whole := A.CheckBlock(p, f, None, payload, d, i, i + 1 < blocks, nextRaw, nextEnc);
            var lastOk := i + 1 < blocks || LastOk(p, f, payload, d, nextRaw, nextEnc, chain);
            && (check.0 == Ok ==> check.1 == ChainStep(p, chain, d) && 0 < d.encSize <= |payload| - d.encOffset
                                  && d.encOffset == nextEnc && d.index == i)
            && (whole.Good? ==> 0 < d.encSize <= |payload| - nextEnc && d.encOffset == nextEnc && d.index == i)
            && (d.encOffset == nextEnc && 0 < d.encSize <= |payload| - nextEnc ==>
                  var enc := payload[nextEnc..nextEnc + d.encSize];
                  && (check.0 == Ok && BlockGood(p, d, enc) <==> whole.Good? && lastOk)
                  && (whole.Good? ==> whole.value == p.inflate(enc).value && |whole.value| == d.rawSize))
  {
    hide ChainStep;
  }

  // A block out of turn can still be ignored, but then the stream never reaches its end.
  lemma {:induction false} OutOfTurn(p: Prims, s: Stream, payload: Bytes, ds: seq<Desc>, plans: seq<seq<Cut>>, i: nat)
    requires InflateLaw(p) && Boundary(s) && PlansOk(ds, plans) && i < |ds|
    requires s.nextIndex == i && s.fields.blockCount == |ds| && ds[i].index != i
    ensures DriveAndFinish(p, s, payload, ds, plans, i).0 != Ok
  {
    hide InflateLaw, FeedAll, Script;
    var d := ds[i];
    var (err, next) := DriveBlock(p, s, payload, d, plans[i]);
    if err == Ok {
      StrayBlock(p, s, d, payload[d.encOffset..d.encOffset + d.encSize], plans[i]);
      NextIndexLag(p, next, payload, ds, plans, i + 1);
    }
  }

  // A block the stream refuses ends the run.
  lemma {:induction false} Refused(p: Prims, s: Stream, payload: Bytes, ds: seq<Desc>, plans: seq<seq<Cut>>, i: nat)
    requires StreamWF(s) && PlansOk(ds, plans) && i < |ds|
    requires DriveBlock(p, s, payload, ds[i], plans[i]).0 != Ok
    ensures DriveAndFinish(p, s, payload, ds, plans, i).0 != Ok
  {
  }

  lemma {:induction false} Taken(p: Prims, s: Stream, payload: Bytes, ds: seq<Desc>, plans: seq<seq<Cut>>, i: nat,
                                 next: Stream)
    requires StreamWF(s) && PlansOk(ds, plans) && i < |ds| && StreamWF(next)
    requires DriveBlock(p, s, payload, ds[i], plans[i]) == (Ok, next)
    ensures DriveAndFinish(p, s, payload, ds, plans, i) == DriveAndFinish(p, next, payload, ds, plans, i + 1)
  {
  }

  // The batch side of one block.
  lemma {:induction false} TailStep(p: Prims, f: Signed, payload: Bytes, ds: seq<Desc>, i: nat, nextEnc: nat,
                                    image: Bytes, chain: Bytes)
    requires i < |ds| && nextEnc <= |payload|
    ensures var whole := A.CheckBlock(p, f, None, payload, ds[i], i, i + 1 < |ds|, |image|, nextEnc);
            && (whole.Bad? ==> !TailAccepted(p, f, payload, ds, i, nextEnc, image, chain))
            && (whole.Good? ==>
                  (TailAccepted(p, f, payload, ds, i, nextEnc, image, chain) <==>
                   TailAccepted(p, f, payload, ds, i + 1, nextEnc + ds[i].encSize, image + whole.value,
                                ChainStep(p, chain, ds[i]))) &&
                  A.VerifyBlocks(p, f, None, payload, ds, i, nextEnc, image) ==
                  A.VerifyBlocks(p, f, None, payload, ds, i + 1, nextEnc + ds[i].encSize, image + whole.value))
  {
    hide A.CheckBlock, A.CheckImage, ChainStep;
    assert ds[i..][0] == ds[i] && ds[i..][1..] == ds[i + 1..];
  }

  // At the end, finish checks what the batch verifier checks.
  lemma {:induction false} TailEnd(p: Prims, s: Stream, f: Signed, payload: Bytes, ds: seq<Desc>, plans: seq<seq<Cut>>,
                nextEnc: nat, image: Bytes, chain: Bytes)
    requires FieldsFor(f, |ds|, |payload|) && PlansOk(ds, plans)
    requires At(s, f, payload, |ds|, nextEnc, image, chain)
    ensures var (err, end) := DriveAndFinish(p, s, payload, ds, plans, |ds|);
            && (err == Ok <==> TailAccepted(p, f, payload, ds, |ds|, nextEnc, image, chain))
            && (err == Ok ==> end.output == TailImage(p, f, payload, ds, |ds|, nextEnc, image))
  {
    assert ds[|ds|..] == [];
    assert nextEnc == |payload| ==> payload[..nextEnc] == payload;
  }

  // On the last block, what the stream checks early the batch verifier checks at the end.
  lemma {:induction false} LastNeeded(p: Prims, f: Signed, payload: Bytes, ds: seq<Desc>, i: nat, nextEnc: nat,
                                      image: Bytes, chain: Bytes)
    requires i + 1 == |ds| && nextEnc + ds[i].encSize <= |payload|
    requires TailAccepted(p, f, payload, ds, i + 1, nextEnc + ds[i].encSize, image, ChainStep(p, chain, ds[i]))
    requires |image| >= ds[i].rawSize
    ensures LastOk(p, f, payload, ds[i], |image| - ds[i].rawSize, nextEnc, chain)
  {
    assert ds[i + 1..] == [];
  }

  // Taking one block keeps the stream in step with the batch verifier.
  lemma {:induction false} AdvancedAt(s: Stream, f: Signed, payload: Bytes, d: Desc, i: nat, nextEnc: nat, image: Bytes,
                   raw: Bytes, chain: Bytes, next: Bytes, last: LastChunk)
    requires At(s, f, payload, i, nextEnc, image, chain) && nextEnc + d.encSize <= |payload|
    requires d.index == i && |raw| == d.rawSize && |d.rawSha| == SHA_LEN && |d.encSha| == SHA_LEN
    requires last.LastChunk? && last.desc == d && last.final
    ensures var end := Advanced(s, d, next, payload[nextEnc..nextEnc + d.encSize], raw, last);
            At(end, f, payload, i + 1, nextEnc + d.encSize, image + raw, next)
  {
    assert payload[..nextEnc] + payload[nextEnc..nextEnc + d.encSize] == payload[..nextEnc + d.encSize];
  }

  // A block in its turn and place: the stream takes it, and is then in step at the next block, or it does
  // not, and the batch verifier does not accept either.
  lemma {:induction false} TailTurn(p: Prims, s: Stream, f: Signed, payload: Bytes, ds: seq<Desc>, plans: seq<seq<Cut>>,
                 i: nat, nextEnc: nat, image: Bytes, chain: Bytes)
    requires InflateLaw(p) && FieldsFor(f, |ds|, |payload|) && PlansOk(ds, plans)
    requires i < |ds| && |image| <= f.rawSize && At(s, f, payload, i, nextEnc, image, chain)
    requires ds[i].index == i && ds[i].encOffset == nextEnc && 0 < ds[i].encSize <= |payload| - nextEnc
    ensures var d := ds[i];
            var (err, next) := DriveBlock(p, s, payload, d, plans[i]);
            var whole := A.CheckBlock(p, f, None, payload, d, i, i + 1 < |ds|, |image|, nextEnc);
            && (err != Ok ==> DriveAndFinish(p, s, payload, ds, plans, i).0 != Ok &&
                              !TailAccepted(p, f, payload, ds, i, nextEnc, image, chain))
            && (err == Ok ==>
                  && whole.Good? && |image + whole.value| <= f.rawSize
                  && At(next, f, payload, i + 1, nextEnc + d.encSize, image + whole.value, ChainStep(p, chain, d))
                  && DriveAndFinish(p, s, payload, ds, plans, i) == DriveAndFinish(p, next, payload, ds, plans, i + 1))
  {
    hide Advanced, BlockGood, A.BlockRaw, ChainStep, CheckDesc, ChunkAt, DriveAndFinish, FeedAll, InflateLaw,
         LastOk, Mid, PlanOk, Script, TailAccepted, A.VerifyBlocks;
    var d := ds[i];
    var enc := payload[nextEnc..nextEnc + d.encSize];
    var whole := A.CheckBlock(p, f, None, payload, d, i, i + 1 < |ds|, |image|, nextEnc);
    SameChecks(p, f, payload, d, i, |image|, nextEnc, chain, |ds|);
    TailStep(p, f, payload, ds, i, nextEnc, image, chain);
    BlockRun(p, s, d, enc, plans[i]);
    var (err, next) := DriveBlock(p, s, payload, d, plans[i]);
    assert (err, next) == FeedAll(p, s, Script(d, enc, plans[i], 0));
    if err != Ok {
      Refused(p, s, payload, ds, plans, i);
      if whole.Good? && i + 1 == |ds| && TailAccepted(p, f, payload, ds, i, nextEnc, image, chain) {
        LastNeeded(p, f, payload, ds, i, nextEnc, image + whole.value, chain);
      }
    } else {
      Taken(p, s, payload, ds, plans, i, next);
      assert |image + whole.value| <= f.rawSize && |d.rawSha| == SHA_LEN && |d.encSha| == SHA_LEN;
      AdvancedAt(s, f, payload, d, i, nextEnc, image, whole.value, chain, ChainStep(p, chain, d), next.last);
    }
  }

  lemma {:induction false} TailAccept(p: Prims, s: Stream, f: Signed, payload: Bytes, ds: seq<Desc>,
                                      plans: seq<seq<Cut>>, i: nat, nextEnc: nat, image: Bytes, chain: Bytes)
    requires InflateLaw(p) && FieldsFor(f, |ds|, |payload|) && PlansOk(ds, plans)
    requires i <= |ds| && |image| <= f.rawSize && At(s, f, payload, i, nextEnc, image, chain)
    ensures var (err, end) := DriveAndFinish(p, s, payload, ds, plans, i);
            && (err == Ok <==> TailAccepted(p, f, payload, ds, i, nextEnc, image, chain))
            && (err == Ok ==> end.output == TailImage(p, f, payload, ds, i, nextEnc, image))
    decreases |ds| - i
  {
    hide BlockGood, ChainStep, A.CheckBlock, CheckDesc, DriveAndFinish, DriveBlock, FeedAll, InflateLaw, LastOk,
         PlanOk, Script, TailAccepted, A.VerifyBlocks;
    if i == |ds| {
      TailEnd(p, s, f, payload, ds, plans, nextEnc, image, chain);
    } else {
      var d := ds[i];
      var whole := A.CheckBlock(p, f, None, payload, d, i, i + 1 < |ds|, |image|, nextEnc);
      SameChecks(p, f, payload, d, i, |image|, nextEnc, chain, |ds|);
      TailStep(p, f, payload, ds, i, nextEnc, image, chain);
      if d.index != i {
        OutOfTurn(p, s, payload, ds, plans, i);
      } else if d.encOffset != nextEnc || d.encSize == 0 || d.encSize > |payload| - nextEnc {
        NotHere(p, s, payload, d, plans[i]);
        Refused(p, s, payload, ds, plans, i);
      } else {
        TailTurn(p, s, f, payload, ds, plans, i, nextEnc, image, chain);
        if whole.Good? && DriveBlock(p, s, payload, d, plans[i]).0 == Ok {
          TailAccept(p, DriveBlock(p, s, payload, d, plans[i]).1, f, payload, ds, plans, i + 1,
                     nextEnc + d.encSize, image + whole.value, ChainStep(p, chain, d));
        }
      }
    }
  }

  // A descriptor with this index but the wrong place, or nothing encoded, is refused.
  lemma {:induction false} NotHere(p: Prims, s: Stream, payload: Bytes, d: Desc, plan: seq<Cut>)
    requires InflateLaw(p) && Boundary(s) && d.index == s.nextIndex && PlanOk(plan, d.encSize)
    requires d.encOffset != s.encOffset || d.encSize == 0 || d.encSize > |payload| - d.encOffset
    ensures DriveBlock(p, s, payload, d, plan).0 != Ok
  {
    hide InflateLaw, FeedAll, Script, BlockGood;
    if d.encOffset <= |payload| && 0 < d.encSize <= |payload| - d.encOffset {
      BlockRun(p, s, d, payload[d.encOffset..d.encOffset + d.encSize], plan);
    }
  }

  // The main result: for signed fields in the embedded range, any cutting of the blocks into chunks and any
  // immediate repeats, the stream takes the package, with output X, exactly when the whole-buffer verifier
  // accepts its contents with image X.
  lemma {:induction false} StreamEqualsBatch(p: Prims, f: Signed, payload: Bytes, ds: seq<Desc>,
                                             plans: seq<seq<Cut>>, base: Option<Bytes>)
    requires InflateLaw(p) && FieldsFor(f, |ds|, |payload|) && PlansOk(ds, plans)
    requires A.SizesOk(f, |ds|, |payload|) && |f.baseSha| == 0
    ensures var (err, end) := DriveAndFinish(p, Fresh(f), payload, ds, plans, 0);
            var batch := A.VerifyContents(p, f, ds, payload, base);
            && (err == Ok <==> batch.Good?)
            && (err == Ok ==> end.output == batch.value)
  {
    hide Drive, A.VerifyBlocks, ChainFrom, InflateLaw, ZeroChain;
    assert payload[..0] == [] && ds[0..] == ds;
    TailAccept(p, Fresh(f), f, payload, ds, plans, 0, 0, [], ZeroChain());
  }
}
