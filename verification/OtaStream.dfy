// The streaming validator (keemash_ota_v3_stream.c, keemash_ota_v3_inflate.c and
// keemash_ota_v3.c:279-336).
//
// A hash context is the bytes it was fed.  `output` is what the output callback was given.
module OtaStream {
  import opened Base
  import opened OtaTypes

  datatype Resume = Resume(nextIndex: nat, rawOffset: nat, encOffset: nat, chain: Bytes, prefixSha: Bytes)

  datatype Chunk = Chunk(desc: Desc, offset: nat, bytes: Bytes, final: bool)

  datatype LastChunk = NoChunk | LastChunk(desc: Desc, offset: nat, size: nat, final: bool, sha: Bytes)

  datatype Stream = Stream(
    fields: Signed,
    image: Bytes, payload: Bytes, blockRaw: Bytes, blockEnc: Bytes, // hash contexts
    inflated: nat,                                                  // bytes the inflater has produced
    block: Desc, chain: Bytes,
    rawOffset: nat, encOffset: nat, blockOffset: nat, nextIndex: nat,
    last: LastChunk,
    active: bool, failed: bool, finished: bool, payloadComplete: bool,
    output: Bytes)

  const NO_DESC: Desc := Desc(0, 0, 0, 0, 0, OtherKind(0), [], [])

  // ---- keemash_ota_v3_check_block_descriptor

  function CheckDesc(p: Prims, f: Signed, d: Desc, index: nat, rawOffset: nat, encOffset: nat, chain: Bytes)
    : (r: (Err, Bytes))
  {
    if index >= f.blockCount || d.index != index || d.rawOffset != rawOffset || d.encOffset != encOffset ||
       d.rawSize == 0 || d.rawSize > f.blockSize ||
       (index + 1 < f.blockCount && d.rawSize != f.blockSize) ||
       rawOffset > f.rawSize || d.rawSize > f.rawSize - rawOffset ||
       encOffset > f.encSize || d.encSize > f.encSize - encOffset ||
       |d.rawSha| != SHA_LEN || |d.encSha| != SHA_LEN then (InvalidArg, [])
    else if d.kind.Deflate? && d.encSize == 0 then (InvalidSize, [])
    else if !d.kind.Deflate? then (NotSupported, []) // the delta codec is not compiled in
    else
      var next := ChainStep(p, chain, d);
      if index + 1 == f.blockCount &&
         (rawOffset + d.rawSize != f.rawSize || encOffset + d.encSize != f.encSize || next != f.tableSha)
      then (InvalidCrc, [])
      else (Ok, next)
  }

  // ---- begin, resume, checkpoint

  predicate Startable(f: Signed) {
    f.codec.FullDeflate? && f.blockSize == FULL_BLOCK && f.blockCount != 0
  }

  function Fresh(f: Signed): Stream {
    Stream(f, [], [], [], [], 0, NO_DESC, ZeroChain(), 0, 0, 0, 0, NoChunk, false, false, false, true, [])
  }

  predicate ResumePointOk(f: Signed, at: Resume) {
    && 0 < at.nextIndex < f.blockCount
    && at.nextIndex * f.blockSize == at.rawOffset && at.rawOffset < f.rawSize
    && 0 < at.encOffset < f.encSize
  }

  // keemash_ota_v3_stream_resume; `flash` is what the partition holds
  function Resumed(p: Prims, f: Signed, at: Resume, flash: Bytes): (Err, Stream) {
    if !ResumePointOk(f, at) || !Startable(f) then (InvalidArg, Fresh(f))
    else if at.rawOffset > |flash| then
      (Failed, Fresh(f).(image := flash[..|flash| / READ_BYTES * READ_BYTES], failed := true))
    else
      var prefix := flash[..at.rawOffset];
      if p.sha(prefix) != at.prefixSha then (InvalidCrc, Fresh(f).(image := prefix, failed := true))
      else
        (Ok, Fresh(f).(image := prefix, nextIndex := at.nextIndex, rawOffset := at.rawOffset,
                       encOffset := at.encOffset, chain := at.chain, payloadComplete := false))
  }

  predicate Checkpointable(s: Stream) {
    && !s.failed && !s.finished && !s.active
    && 0 < s.nextIndex < s.fields.blockCount && s.rawOffset % CHECKPOINT_BYTES == 0
  }

  // keemash_ota_v3_stream_checkpoint
  function CheckpointOf(p: Prims, s: Stream): Resume {
    Resume(s.nextIndex, s.rawOffset, s.encOffset, s.chain, p.sha(s.image))
  }

  // ---- feed

  function Fail(s: Stream, e: Err): (Err, Stream) {
    (e, s.(failed := true, active := false))
  }

  // start_block; inflater_begin accepts 1..16384 bytes
  function StartBlock(p: Prims, s: Stream, d: Desc): (Err, Stream) {
    var (err, next) := CheckDesc(p, s.fields, d, s.nextIndex, s.rawOffset, s.encOffset, s.chain);
    if err != Ok then (err, s)
    else
      var started := s.(block := d, chain := next, blockOffset := 0, blockRaw := [], blockEnc := [], inflated := 0);
      if d.rawSize == 0 || d.rawSize > FULL_BLOCK then (InvalidArg, started)
      else (Ok, started.(active := true))
  }

  // keemash_ota_v3_inflater_feed with stream_output; `sinkOk` says whether the output callback accepts
  // what this call gives it
  function Inflate(p: Prims, s: Stream, chunk: Bytes, final: bool, sinkOk: bool): (Err, Stream) {
    var input := s.blockEnc + chunk;
    var out := if final then p.inflate(input) else p.inflatePart(input);
    if out.None? then (InvalidResponse, s)
    else if |out.value| > s.block.rawSize || |out.value| < s.inflated then (InvalidSize, s)
    else if |out.value| > s.inflated && !sinkOk then (Failed, s)
    else if final && |out.value| != s.block.rawSize then (InvalidResponse, s)
    else
      var gained := out.value[s.inflated..];
      (Ok, s.(blockEnc := input, payload := s.payload + chunk,
              blockRaw := s.blockRaw + gained, image := s.image + gained,
              inflated := |out.value|, output := s.output + gained))
  }

  // finish_block
  function FinishBlock(p: Prims, s: Stream): (Err, Stream) {
    if p.sha(s.blockRaw) != s.block.rawSha || p.sha(s.blockEnc) != s.block.encSha then (InvalidCrc, s)
    else (Ok, s.(rawOffset := s.rawOffset + s.block.rawSize, encOffset := s.encOffset + s.block.encSize,
                 blockOffset := 0, nextIndex := s.nextIndex + 1, active := false))
  }

  predicate IsRepeat(s: Stream, c: Chunk) {
    s.last.LastChunk? && c.desc.index == s.last.desc.index && c.offset == s.last.offset
  }

  predicate SameAsLast(p: Prims, s: Stream, c: Chunk)
    requires s.last.LastChunk?
  {
    && c.desc == s.last.desc && |c.desc.rawSha| == SHA_LEN && |c.desc.encSha| == SHA_LEN
    && |c.bytes| == s.last.size && c.final == s.last.final && p.sha(c.bytes) == s.last.sha
  }

  function Noted(p: Prims, s: Stream, c: Chunk): Stream {
    s.(last := LastChunk(c.desc, c.offset, |c.bytes|, c.final, p.sha(c.bytes)))
  }

  // The part of a feed after the block is known to be the active one.
  function FeedActive(p: Prims, s: Stream, c: Chunk, sinkOk: bool): (Err, Stream)
    requires s.blockOffset <= s.block.encSize
  {
    if c.offset != s.blockOffset || |c.bytes| > s.block.encSize - s.blockOffset ||
       c.final != (|c.bytes| == s.block.encSize - s.blockOffset) then Fail(s, InvalidSize)
    else
      var (err, fed) := Inflate(p, s, c.bytes, c.final, sinkOk);
      if err != Ok then Fail(s, err)
      else
        var moved := fed.(blockOffset := s.blockOffset + |c.bytes|);
        if !c.final then (Ok, Noted(p, moved, c))
        else
          var (verdict, finished) := FinishBlock(p, moved);
          if verdict != Ok then Fail(moved, verdict) else (Ok, Noted(p, finished, c))
  }

  predicate StreamWF(s: Stream) {
    s.active ==> s.blockOffset <= s.block.encSize
  }

  // keemash_ota_v3_stream_feed
  function Feed(p: Prims, s: Stream, c: Chunk, sinkOk: bool): (r: (Err, Stream))
    requires StreamWF(s)
    ensures StreamWF(r.1)
  {
    if s.failed || s.finished || |c.bytes| == 0 || |c.bytes| > MAX_CHUNK then (InvalidArg, s)
    else if IsRepeat(s, c) then
      if SameAsLast(p, s, c) then (Ok, s) else Fail(s, InvalidCrc)
    else if !s.active then
      if c.offset != 0 then Fail(s, InvalidArg)
      else
        var (err, started) := StartBlock(p, s, c.desc);
        if err != Ok then Fail(started, err) else FeedActive(p, started, c, sinkOk)
    else if !(c.desc == s.block && |c.desc.rawSha| == SHA_LEN && |c.desc.encSha| == SHA_LEN) then
      Fail(s, InvalidArg)
    else FeedActive(p, s, c, sinkOk)
  }

  // keemash_ota_v3_stream_finish
  function Finish(p: Prims, s: Stream): (r: (Err, Stream))
    requires StreamWF(s)
    ensures StreamWF(r.1)
  {
    if s.failed || s.finished || s.active || s.nextIndex != s.fields.blockCount ||
       s.rawOffset != s.fields.rawSize || s.encOffset != s.fields.encSize then (InvalidState, s)
    else if p.sha(s.image) != s.fields.imageSha ||
            (s.payloadComplete && p.sha(s.payload) != s.fields.encSha) ||
            s.chain != s.fields.tableSha then Fail(s, InvalidCrc)
    else (Ok, s.(finished := true))
  }

  lemma {:induction false} InflateOutcome(p: Prims, s: Stream, chunk: Bytes, final: bool, sinkOk: bool)
    ensures var (err, end) := Inflate(p, s, chunk, final, sinkOk);
            && end == s.(blockEnc := end.blockEnc, payload := end.payload, blockRaw := end.blockRaw, image := end.image,
                         inflated := end.inflated, output := end.output)
            && s.output <= end.output && (end.output != s.output ==> sinkOk)
  {
  }

  lemma {:induction false} ActiveOutcome(p: Prims, s: Stream, c: Chunk, sinkOk: bool)
    requires s.blockOffset <= s.block.encSize
    ensures var (err, end) := FeedActive(p, s, c, sinkOk);
            && (err != Ok ==> end.failed && !end.active)
            && (err == Ok ==> end.failed == s.failed && end.finished == s.finished)
            && s.output <= end.output && (end.output != s.output ==> sinkOk)
  {
    hide Inflate;
    InflateOutcome(p, s, c.bytes, c.final, sinkOk);
  }

  // An empty or oversized chunk, or one for a stream that failed or finished, changes nothing; any other that is
  // refused fails the stream, and a stream that failed never finishes.  What the output did not take is not counted
  // as put out.
  lemma {:induction false} FeedRefused(p: Prims, s: Stream, c: Chunk, sinkOk: bool)
    requires StreamWF(s)
    ensures var (err, end) := Feed(p, s, c, sinkOk);
            var usable := !s.failed && !s.finished && 1 <= |c.bytes| <= 2048;
            && (!usable ==> err == InvalidArg && end == s)
            && (usable && err != Ok ==> end.failed && !end.active)
            && (usable && err == Ok ==> !end.failed && !end.finished)
            && s.output <= end.output && (end.output != s.output ==> sinkOk)
    ensures s.failed || s.finished ==> Finish(p, s) == (InvalidState, s)
  {
    hide CheckDesc, SameAsLast, FeedActive;
    if s.active {
      ActiveOutcome(p, s, c, sinkOk);
    } else {
      var (err, started) := StartBlock(p, s, c.desc);
      if err == Ok {
        ActiveOutcome(p, started, c, sinkOk);
      }
    }
  }

  // ---- Feeding a script of chunks until one is refused

  function FeedAll(p: Prims, s: Stream, script: seq<Chunk>): (r: (Err, Stream))
    requires StreamWF(s)
    ensures StreamWF(r.1)
    decreases |script|
  {
    if |script| == 0 then (Ok, s)
    else
      var (err, next) := Feed(p, s, script[0], true);
      if err != Ok then (err, next) else FeedAll(p, next, script[1..])
  }

  lemma {:induction false} FeedAllJoin(p: Prims, s: Stream, a: seq<Chunk>, b: seq<Chunk>)
    requires StreamWF(s)
    ensures FeedAll(p, s, a + b) ==
            var (err, mid) := FeedAll(p, s, a); if err != Ok then (err, mid) else FeedAll(p, mid, b)
    decreases |a|
  {
    if |a| == 0 {
      assert a + b == b;
    } else {
      var (err, next) := Feed(p, s, a[0], true);
      assert (a + b)[0] == a[0] && (a + b)[1..] == a[1..] + b;
      if err == Ok {
        FeedAllJoin(p, next, a[1..], b);
      }
    }
  }
}
