// The streaming validator as the device keeps it: one object, updated in place
// (keemash_ota_v3_stream.c).  Every method changes the object as the function of the same name in
// OtaStream says.
module OtaValidator {
  import opened Base
  import opened OtaTypes
  import opened OtaStream

  lemma {:induction false} StartedAtZero(p: Prims, s: Stream, d: Desc)
    requires StartBlock(p, s, d).0 == Ok
    ensures StartBlock(p, s, d).1.blockOffset == 0
  {
  }

  class Validator {
    var fields: Signed
    var image: Bytes
    var payload: Bytes
    var blockRaw: Bytes
    var blockEnc: Bytes
    var inflated: nat
    var block: Desc
    var chain: Bytes
    var rawOffset: nat
    var encOffset: nat
    var blockOffset: nat
    var nextIndex: nat
    var last: LastChunk
    var active: bool
    var failed: bool
    var finished: bool
    var payloadComplete: bool
    var output: Bytes

    function View(): Stream
      reads this
    {
      Stream(fields, image, payload, blockRaw, blockEnc, inflated, block, chain, rawOffset, encOffset,
             blockOffset, nextIndex, last, active, failed, finished, payloadComplete, output)
    }

    constructor (f: Signed)
      ensures View() == OtaStream.Fresh(f)
    {
      new;
      Load(OtaStream.Fresh(f));
    }

    method Load(s: Stream)
      modifies this
      ensures View() == s
    {
      LoadBlock(s);
      LoadPlace(s);
      fields, image, payload, output, last := s.fields, s.image, s.payload, s.output, s.last;
      failed, finished, payloadComplete := s.failed, s.finished, s.payloadComplete;
    }

    method LoadBlock(s: Stream)
      modifies `blockRaw, `blockEnc, `inflated, `block, `active
      ensures blockRaw == s.blockRaw && blockEnc == s.blockEnc && inflated == s.inflated && block == s.block
      ensures active == s.active
    {
      blockRaw, blockEnc, inflated, block, active := s.blockRaw, s.blockEnc, s.inflated, s.block, s.active;
    }

    method LoadPlace(s: Stream)
      modifies `chain, `rawOffset, `encOffset, `blockOffset, `nextIndex
      ensures chain == s.chain && rawOffset == s.rawOffset && encOffset == s.encOffset
      ensures blockOffset == s.blockOffset && nextIndex == s.nextIndex
    {
      chain, rawOffset, encOffset := s.chain, s.rawOffset, s.encOffset;
      blockOffset, nextIndex := s.blockOffset, s.nextIndex;
    }

    method Begin(f: Signed) returns (err: Err)
      modifies this
      ensures err == if Startable(f) then Ok else InvalidArg
      ensures View() == if Startable(f) then OtaStream.Fresh(f) else old(View())
    {
      hide *;
      if !Startable(f) { return InvalidArg; }
      Load(OtaStream.Fresh(f));
      err := Ok;
    }

    // Reads the flash back in pieces of at most 2048 bytes, and hashes what it gets.
    method HashPrefix(flash: Bytes, upTo: nat) returns (ok: bool)
      requires image == []
      modifies this`image
      ensures ok <==> upTo <= |flash|
      ensures image == if ok then flash[..upTo] else flash[..|flash| / READ_BYTES * READ_BYTES]
    {
      var offset := 0;
      while offset < upTo
        invariant offset <= upTo && offset <= |flash|
        invariant offset < upTo ==> offset % READ_BYTES == 0
        invariant image == flash[..offset]
      {
        var length := if upTo - offset > READ_BYTES then READ_BYTES else upTo - offset;
        if offset + length > |flash| { return false; }
        image := image + flash[offset..offset + length];
        offset := offset + length;
      }
      ok := true;
    }

    method ResumeAt(p: Prims, f: Signed, at: Resume, flash: Bytes) returns (err: Err)
      modifies this
      ensures err == Resumed(p, f, at, flash).0
      ensures View() == if err == InvalidArg then old(View()) else Resumed(p, f, at, flash).1
    {
      hide ResumePointOk, Startable, ZeroChain;
      if !ResumePointOk(f, at) { return InvalidArg; }
      err := Begin(f);
      if err != Ok { return; }
      err := CheckPrefix(p, at, flash);
      if err != Ok { return; }
      Place(at);
    }

    method CheckPrefix(p: Prims, at: Resume, flash: Bytes) returns (err: Err)
      requires image == [] && !failed
      modifies `image, `failed
      ensures image == if at.rawOffset <= |flash| then flash[..at.rawOffset]
                       else flash[..|flash| / READ_BYTES * READ_BYTES]
      ensures err == if at.rawOffset > |flash| then Failed else if p.sha(image) != at.prefixSha then InvalidCrc else Ok
      ensures failed <==> err != Ok
    {
      var read := HashPrefix(flash, at.rawOffset);
      err := if !read then Failed else if p.sha(image) != at.prefixSha then InvalidCrc else Ok;
      failed := err != Ok;
    }

    method Place(at: Resume)
      modifies `nextIndex, `rawOffset, `encOffset, `chain, `payloadComplete
      ensures nextIndex == at.nextIndex && rawOffset == at.rawOffset && encOffset == at.encOffset
      ensures chain == at.chain && !payloadComplete
    {
      nextIndex, rawOffset, encOffset, chain := at.nextIndex, at.rawOffset, at.encOffset, at.chain;
      payloadComplete := false;
    }

    method Checkpoint(p: Prims) returns (err: Err, at: Resume)
      ensures err == if Checkpointable(View()) then Ok else InvalidState
      ensures err == Ok ==> at == CheckpointOf(p, View())
    {
      at := Resume(nextIndex, rawOffset, encOffset, chain, p.sha(image));
      if failed || finished || active || nextIndex == 0 || nextIndex >= fields.blockCount ||
         rawOffset % CHECKPOINT_BYTES != 0 {
        return InvalidState, at;
      }
      err := Ok;
    }

    // stream_fail
    method Refuse(e: Err) returns (err: Err)
      modifies this
      ensures (err, View()) == Fail(old(View()), e)
    {
      failed, active := true, false;
      err := e;
    }

    method OpenBlock(d: Desc, next: Bytes)
      modifies `block, `chain, `blockOffset, `blockRaw, `blockEnc, `inflated
      ensures block == d && chain == next && blockOffset == 0 && blockRaw == [] && blockEnc == [] && inflated == 0
    {
      block, chain, blockOffset, blockRaw, blockEnc, inflated := d, next, 0, [], [], 0;
    }

    method Start(p: Prims, d: Desc) returns (err: Err)
      modifies this
      ensures (err, View()) == StartBlock(p, old(View()), d)
    {
      hide CheckDesc;
      var (check, next) := CheckDesc(p, fields, d, nextIndex, rawOffset, encOffset, chain);
      if check != Ok { return check; }
      OpenBlock(d, next);
      if d.rawSize == 0 || d.rawSize > FULL_BLOCK { return InvalidArg; }
      active := true;
      err := Ok;
    }

    // keemash_ota_v3_inflater_feed
    method InflateChunk(p: Prims, chunk: Bytes, final: bool, sinkOk: bool) returns (err: Err)
      modifies this
      ensures (err, View()) == Inflate(p, old(View()), chunk, final, sinkOk)
    {
      var out := if final then p.inflate(blockEnc + chunk) else p.inflatePart(blockEnc + chunk);
      if out.None? { return InvalidResponse; }
      if |out.value| > block.rawSize || |out.value| < inflated { return InvalidSize; }
      if |out.value| > inflated && !sinkOk { return Failed; }
      if final && |out.value| != block.rawSize { return InvalidResponse; }
      var gained := out.value[inflated..];
      blockEnc, payload := blockEnc + chunk, payload + chunk;
      blockRaw, image, output := blockRaw + gained, image + gained, output + gained;
      inflated := |out.value|;
      err := Ok;
    }

    method EndBlock(p: Prims) returns (err: Err)
      modifies this
      ensures (err, View()) == FinishBlock(p, old(View()))
    {
      if p.sha(blockRaw) != block.rawSha || p.sha(blockEnc) != block.encSha { return InvalidCrc; }
      rawOffset, encOffset := rawOffset + block.rawSize, encOffset + block.encSize;
      blockOffset, nextIndex, active := 0, nextIndex + 1, false;
      err := Ok;
    }

    // What is left of a feed once its chunk is inflated.
    function Closed(p: Prims, s: Stream, c: Chunk): (Err, Stream) {
      var moved := s.(blockOffset := s.blockOffset + |c.bytes|);
      if !c.final then (Ok, Noted(p, moved, c))
      else
        var (verdict, finished) := FinishBlock(p, moved);
        if verdict != Ok then Fail(moved, verdict) else (Ok, Noted(p, finished, c))
    }

    lemma {:induction false} FeedActiveIs(p: Prims, s: Stream, c: Chunk, sinkOk: bool)
      requires s.blockOffset <= s.block.encSize
      ensures FeedActive(p, s, c, sinkOk) ==
              if c.offset != s.blockOffset || |c.bytes| > s.block.encSize - s.blockOffset ||
                 c.final != (|c.bytes| == s.block.encSize - s.blockOffset) then Fail(s, InvalidSize)
              else
                var (err, fed) := Inflate(p, s, c.bytes, c.final, sinkOk);
                if err != Ok then Fail(fed, err) else Closed(p, fed, c)
    {
      hide FinishBlock;
    }

    method CloseChunk(p: Prims, c: Chunk) returns (err: Err)
      modifies this
      ensures (err, View()) == Closed(p, old(View()), c)
    {
      blockOffset := blockOffset + |c.bytes|;
      if c.final {
        err := EndBlock(p);
        if err != Ok { err := Refuse(err); return; }
      }
      last := LastChunk(c.desc, c.offset, |c.bytes|, c.final, p.sha(c.bytes));
      err := Ok;
    }

    method FeedBlock(p: Prims, c: Chunk, sinkOk: bool) returns (err: Err)
      requires blockOffset <= block.encSize
      modifies this
      ensures (err, View()) == FeedActive(p, old(View()), c, sinkOk)
    {
      FeedActiveIs(p, View(), c, sinkOk);
      hide Inflate, Closed, FeedActive;
      if c.offset != blockOffset || |c.bytes| > block.encSize - blockOffset ||
         c.final != (|c.bytes| == block.encSize - blockOffset) {
        err := Refuse(InvalidSize);
        return;
      }
      err := InflateChunk(p, c.bytes, c.final, sinkOk);
      if err != Ok { err := Refuse(err); return; }
      err := CloseChunk(p, c);
    }

    method Feed(p: Prims, c: Chunk, sinkOk: bool) returns (err: Err)
      requires StreamWF(View())
      modifies this
      ensures (err, View()) == OtaStream.Feed(p, old(View()), c, sinkOk)
      ensures StreamWF(View())
    {
      hide FeedActive, StartBlock;
      if failed || finished || |c.bytes| == 0 || |c.bytes| > MAX_CHUNK { return InvalidArg; }
      if last.LastChunk? && c.desc.index == last.desc.index && c.offset == last.offset {
        if SameAsLast(p, View(), c) { return Ok; }
        err := Refuse(InvalidCrc);
        return;
      }
      if !active {
        if c.offset != 0 { err := Refuse(InvalidArg); return; }
        err := Start(p, c.desc);
        if err != Ok { err := Refuse(err); return; }
        StartedAtZero(p, old(View()), c.desc);
      } else if !(c.desc == block && |c.desc.rawSha| == SHA_LEN && |c.desc.encSha| == SHA_LEN) {
        err := Refuse(InvalidArg);
        return;
      }
      err := FeedBlock(p, c, sinkOk);
    }

    method Finish(p: Prims) returns (err: Err)
      requires StreamWF(View())
      modifies this
      ensures (err, View()) == OtaStream.Finish(p, old(View()))
    {
      if failed || finished || active || nextIndex != fields.blockCount ||
         rawOffset != fields.rawSize || encOffset != fields.encSize {
        return InvalidState;
      }
      if p.sha(image) != fields.imageSha || (payloadComplete && p.sha(payload) != fields.encSha) ||
         chain != fields.tableSha {
        err := Refuse(InvalidCrc);
        return;
      }
      finished := true;
      err := Ok;
    }
  }
}
