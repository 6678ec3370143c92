// Checkpoints: what every feed keeps, and that a run resumed from a checkpoint refines the run it interrupts.
module OtaResume {
  import opened Base
  import opened OtaTypes
  import opened OtaStream
  import opened OtaEquivalence

  // ---- What every feed keeps, whatever is fed and whether or not the sink accepts it

  // `prefix` is what the image hash had taken when the stream was begun or resumed.
  predicate Coherent(s: Stream, prefix: Bytes) {
    && s.image == prefix + s.output
    && |s.image| == s.rawOffset + (if s.active then s.inflated else 0)
    && s.nextIndex <= s.fields.blockCount
    && (s.nextIndex < s.fields.blockCount ==> s.rawOffset == s.nextIndex * FULL_BLOCK)
    && s.rawOffset <= s.fields.rawSize && s.encOffset <= s.fields.encSize
    && (s.nextIndex > 0 ==> s.encOffset > 0)
    && (s.nextIndex == s.fields.blockCount ==> s.rawOffset == s.fields.rawSize)
    && (s.active ==> ActiveOk(s))
    && (s.last.LastChunk? ==> LastOf(s))
  }

  predicate LastOf(s: Stream)
    requires s.last.LastChunk?
  {
    && |s.last.desc.rawSha| == SHA_LEN && |s.last.desc.encSha| == SHA_LEN
    && (!s.active ==> s.last.desc.index < s.nextIndex && s.last.final)
  }

  predicate ActiveOk(s: Stream) {
    && s.block.index == s.nextIndex < s.fields.blockCount
    && s.inflated <= s.block.rawSize <= s.fields.rawSize - s.rawOffset
    && 0 < s.block.encSize <= s.fields.encSize - s.encOffset
    && (if s.nextIndex + 1 < s.fields.blockCount then s.block.rawSize == FULL_BLOCK
        else s.rawOffset + s.block.rawSize == s.fields.rawSize)
    && |s.block.rawSha| == SHA_LEN && |s.block.encSha| == SHA_LEN
  }

  predicate Kept(s: Stream, prefix: Bytes) {
    && StreamWF(s) && Startable(s.fields)
    && (s.failed || s.finished || Coherent(s, prefix))
    && (s.finished && !s.failed ==> FinishedOk(s, prefix))
  }

  predicate FinishedOk(s: Stream, prefix: Bytes) {
    s.image == prefix + s.output && |s.image| == s.fields.rawSize
  }

  lemma {:induction false} FreshKept(f: Signed)
    requires Startable(f)
    ensures Kept(Fresh(f), [])
  {
    hide ZeroChain;
  }

  // Inflating a chunk keeps what the stream holds together, and says how much the block has given.
  lemma {:induction false} InflateKept(p: Prims, s: Stream, chunk: Bytes, final: bool, sinkOk: bool, prefix: Bytes)
    requires Coherent(s, prefix) && s.active
    requires Inflate(p, s, chunk, final, sinkOk).0 == Ok
    ensures var fed := Inflate(p, s, chunk, final, sinkOk).1;
            && Coherent(fed, prefix) && fed.active
            && fed == s.(blockEnc := fed.blockEnc, payload := fed.payload, blockRaw := fed.blockRaw,
                         image := fed.image, inflated := fed.inflated, output := fed.output)
            && (final ==> fed.inflated == s.block.rawSize)
  {
    var out := if final then p.inflate(s.blockEnc + chunk).value else p.inflatePart(s.blockEnc + chunk).value;
    assert (prefix + s.output) + out[s.inflated..] == prefix + (s.output + out[s.inflated..]);
  }

  lemma {:induction false} FinishKept(p: Prims, s: Stream, prefix: Bytes, c: Chunk)
    requires Coherent(s, prefix) && s.active && s.inflated == s.block.rawSize && c.desc == s.block && c.final
    requires FinishBlock(p, s).0 == Ok
    ensures Coherent(Noted(p, FinishBlock(p, s).1, c), prefix)
  {
    var index: int := s.nextIndex;
    assert index + 1 < s.fields.blockCount ==> s.rawOffset + s.block.rawSize == (index + 1) * FULL_BLOCK;
  }

  lemma {:induction false} ActiveKept(p: Prims, s: Stream, c: Chunk, sinkOk: bool, prefix: Bytes)
    requires Coherent(s, prefix) && s.active && !s.failed && !s.finished && s.blockOffset <= s.block.encSize
    requires Startable(s.fields) && c.desc == s.block
    ensures Kept(FeedActive(p, s, c, sinkOk).1, prefix)
    ensures FeedActive(p, s, c, sinkOk).1.fields == s.fields
  {
    hide Inflate, FinishBlock, Coherent;
    var (err, fed) := Inflate(p, s, c.bytes, c.final, sinkOk);
    InflateFrame(p, s, c.bytes, c.final, sinkOk);
    if err == Ok {
      InflateKept(p, s, c.bytes, c.final, sinkOk, prefix);
      var moved := fed.(blockOffset := s.blockOffset + |c.bytes|);
      MovedKept(fed, s.blockOffset + |c.bytes|, prefix);
      if c.final {
        FinishFrame(p, moved);
        if FinishBlock(p, moved).0 == Ok {
          FinishKept(p, moved, prefix, c);
        }
      } else {
        NotedKept(p, moved, prefix, c);
      }
    }
  }

  lemma {:induction false} MovedKept(s: Stream, offset: nat, prefix: Bytes)
    requires Coherent(s, prefix)
    ensures Coherent(s.(blockOffset := offset), prefix)
  {
  }

  lemma {:induction false} NotedKept(p: Prims, s: Stream, prefix: Bytes, c: Chunk)
    requires Coherent(s, prefix) && s.active && c.desc == s.block
    ensures Coherent(Noted(p, s, c), prefix)
  {
  }

  lemma {:induction false} FinishFrame(p: Prims, s: Stream)
    ensures var end := FinishBlock(p, s).1;
            && end.fields == s.fields && end.finished == s.finished && end.failed == s.failed
            && (FinishBlock(p, s).0 == Ok ==> !end.active)
  {
  }

  lemma {:induction false} InflateFrame(p: Prims, s: Stream, chunk: Bytes, final: bool, sinkOk: bool)
    ensures var fed := Inflate(p, s, chunk, final, sinkOk).1;
            && fed.fields == s.fields && fed.block == s.block && fed.blockOffset == s.blockOffset
            && fed.finished == s.finished && fed.failed == s.failed
  {
  }

  lemma {:induction false} FeedKeeps(p: Prims, s: Stream, c: Chunk, sinkOk: bool, prefix: Bytes)
    requires Kept(s, prefix)
    ensures Kept(OtaStream.Feed(p, s, c, sinkOk).1, prefix)
    ensures OtaStream.Feed(p, s, c, sinkOk).1.fields == s.fields
  {
    hide FeedActive;
    if !s.failed && !s.finished && 0 < |c.bytes| <= MAX_CHUNK && !IsRepeat(s, c) {
      if !s.active {
        if c.offset == 0 {
          StartKept(p, s, c.desc, prefix);
          var (err, started) := StartBlock(p, s, c.desc);
          hide StartBlock;
          if err == Ok {
            ActiveKept(p, started, c, sinkOk, prefix);
          }
        }
      } else if c.desc == s.block {
        ActiveKept(p, s, c, sinkOk, prefix);
      }
    }
  }

  lemma {:induction false} StartKept(p: Prims, s: Stream, d: Desc, prefix: Bytes)
    requires Coherent(s, prefix) && !s.active && !s.failed && !s.finished && Startable(s.fields)
    ensures var (err, started) := StartBlock(p, s, d);
            && started.fields == s.fields && !started.finished
            && (err == Ok ==> Coherent(started, prefix) && started.active && !started.failed &&
                              started.blockOffset <= started.block.encSize && started.block == d)
  {
    hide ChainStep;
  }

  lemma {:induction false} FinishKeeps(p: Prims, s: Stream, prefix: Bytes)
    requires Kept(s, prefix)
    ensures Kept(Finish(p, s).1, prefix) && Finish(p, s).1.fields == s.fields
  {
  }

  // Any chunks, in any order, with any answers from the sink, whatever came back.
  function FeedAny(p: Prims, s: Stream, script: seq<(Chunk, bool)>): (r: Stream)
    requires StreamWF(s)
    ensures StreamWF(r)
    decreases |script|
  {
    if |script| == 0 then s else FeedAny(p, OtaStream.Feed(p, s, script[0].0, script[0].1).1, script[1..])
  }

  lemma {:induction false} FeedAnyKeeps(p: Prims, s: Stream, script: seq<(Chunk, bool)>, prefix: Bytes)
    requires Kept(s, prefix)
    ensures Kept(FeedAny(p, s, script), prefix) && FeedAny(p, s, script).fields == s.fields
    decreases |script|
  {
    assert StreamWF(s);
    hide Kept, OtaStream.Feed;
    if |script| > 0 {
      FeedKeeps(p, s, script[0].0, script[0].1, prefix);
      FeedAnyKeeps(p, OtaStream.Feed(p, s, script[0].0, script[0].1).1, script[1..], prefix);
    }
  }

  // Whatever was fed after a begin or a resume: if finish succeeds, the bytes already in flash and the bytes
  // put out since are together of the signed size, and hash to the signed image hash.
  lemma {:induction false} FinishedImage(p: Prims, s: Stream, script: seq<(Chunk, bool)>, prefix: Bytes)
    requires Kept(s, prefix)
    requires Finish(p, FeedAny(p, s, script)).0 == Ok
    ensures var end := Finish(p, FeedAny(p, s, script)).1;
            && |prefix + end.output| == s.fields.rawSize && p.sha(prefix + end.output) == s.fields.imageSha
  {
    FeedAnyKeeps(p, s, script, prefix);
  }

  lemma {:induction false} ResumedKept(p: Prims, f: Signed, at: Resume, flash: Bytes)
    requires Resumed(p, f, at, flash).0 == Ok
    ensures at.rawOffset <= |flash| && Kept(Resumed(p, f, at, flash).1, flash[..at.rawOffset])
    ensures Resumed(p, f, at, flash).1.fields == f
  {
    hide ZeroChain;
  }

  // ---- Checkpoints and the journal's checks

  // The signed fields' own count of blocks.
  predicate Counted(f: Signed) {
    && f.blockCount == (f.rawSize + FULL_BLOCK - 1) / FULL_BLOCK
    && 0 < f.rawSize <= MAX_IMAGE && f.encSize <= MAX_PACKAGE && f.blockCount <= MAX_BLOCKS
  }

  // What the journal asks of a checkpoint in the middle of a transfer (keemash_ota_v3_checkpoint.c:69-79,
  // 195-206).
  predicate TransferPointOk(at: Resume) {
    && 0 < at.nextIndex < MAX_BLOCKS && 0 < at.rawOffset && at.rawOffset % CHECKPOINT_BYTES == 0
    && at.nextIndex * FULL_BLOCK == at.rawOffset && at.rawOffset <= MAX_IMAGE
    && 0 < at.encOffset <= MAX_PACKAGE
  }

  // Every checkpoint the stream gives passes the journal's checks, and resumes over the bytes it covers,
  // except when the rest of the encoded payload is empty: exactly then resuming refuses it.
  lemma {:induction false} CheckpointAccepted(p: Prims, s: Stream, prefix: Bytes, flash: Bytes)
    requires Kept(s, prefix) && Counted(s.fields) && Checkpointable(s)
    requires s.image <= flash
    ensures TransferPointOk(CheckpointOf(p, s))
    ensures Resumed(p, s.fields, CheckpointOf(p, s), flash).0 == Ok <==> s.encOffset < s.fields.encSize
    ensures s.encOffset < s.fields.encSize ==>
            Resumed(p, s.fields, CheckpointOf(p, s), flash).1 ==
            Fresh(s.fields).(image := s.image, nextIndex := s.nextIndex, rawOffset := s.rawOffset,
                             encOffset := s.encOffset, chain := s.chain, payloadComplete := false)
  {
    hide ZeroChain;
    var f, k := s.fields, s.nextIndex;
    assert k * FULL_BLOCK < f.rawSize by {
      assert k + 1 <= (f.rawSize + FULL_BLOCK - 1) / FULL_BLOCK;
    }
    assert flash[..s.rawOffset] == s.image;
  }

  // ---- A resumed run refines the uninterrupted one

  // The same place in the same transfer, one of them perhaps without the payload hash.
  predicate Twins(s: Stream, r: Stream) {
    && Boundary(s) && Boundary(r)
    && s.fields == r.fields && s.image == r.image && s.chain == r.chain
    && s.rawOffset == r.rawOffset && s.encOffset == r.encOffset && s.nextIndex == r.nextIndex
    && !r.payloadComplete
  }

  lemma {:induction false} TwinsStep(p: Prims, s: Stream, r: Stream, payload: Bytes, d: Desc, plan: seq<Cut>,
                                     plan2: seq<Cut>)
    requires InflateLaw(p) && Twins(s, r) && d.index == s.nextIndex
    requires PlanOk(plan, d.encSize) && PlanOk(plan2, d.encSize)
    requires DriveBlock(p, s, payload, d, plan).0 == Ok
    ensures DriveBlock(p, r, payload, d, plan2).0 == Ok
    ensures Twins(DriveBlock(p, s, payload, d, plan).1, DriveBlock(p, r, payload, d, plan2).1)
    ensures DriveBlock(p, s, payload, d, plan).1.nextIndex == s.nextIndex + 1
    ensures DriveBlock(p, s, payload, d, plan).1.encOffset > s.encOffset
  {
    hide InflateLaw, FeedAll, Script, PlanOk, BlockGood;
    var enc := payload[d.encOffset..d.encOffset + d.encSize];
    BlockRun(p, s, d, enc, plan);
    BlockRun(p, r, d, enc, plan2);
    DriveOne(p, s, payload, d, plan);
    DriveOne(p, r, payload, d, plan2);
    hide CheckDesc;
  }

  lemma {:induction false} TwinsEnd(p: Prims, s: Stream, r: Stream, payload: Bytes, ds: seq<Desc>, plans: seq<seq<Cut>>,
                 plans2: seq<seq<Cut>>)
    requires Twins(s, r) && PlansOk(ds, plans) && PlansOk(ds, plans2)
    requires DriveAndFinish(p, s, payload, ds, plans, |ds|).0 == Ok
    ensures DriveAndFinish(p, r, payload, ds, plans2, |ds|).0 == Ok
    ensures DriveAndFinish(p, r, payload, ds, plans2, |ds|).1.image == s.image
    ensures DriveAndFinish(p, s, payload, ds, plans, |ds|).1.image == s.image
    ensures s.encOffset == s.fields.encSize
  {
  }

  // From one place, if the one run finishes, so does the other, however either is cut into chunks, with the
  // same image.
  lemma {:induction false} TwinsFinish(p: Prims, s: Stream, r: Stream, payload: Bytes, ds: seq<Desc>,
                                       plans: seq<seq<Cut>>, plans2: seq<seq<Cut>>, i: nat)
    requires InflateLaw(p) && Twins(s, r) && PlansOk(ds, plans) && PlansOk(ds, plans2)
    requires i <= |ds| == s.fields.blockCount && s.nextIndex == i
    requires DriveAndFinish(p, s, payload, ds, plans, i).0 == Ok
    ensures DriveAndFinish(p, r, payload, ds, plans2, i).0 == Ok
    ensures DriveAndFinish(p, r, payload, ds, plans2, i).1.image == DriveAndFinish(p, s, payload, ds, plans, i).1.image
    ensures i < |ds| ==> s.encOffset < s.fields.encSize
    ensures s.encOffset <= s.fields.encSize
    decreases |ds| - i
  {
    hide DriveAndFinish, DriveBlock, InflateLaw, PlanOk, Startable;
    assert StreamWF(s) && StreamWF(r);
    if i == |ds| {
      TwinsEnd(p, s, r, payload, ds, plans, plans2);
    } else {
      if ds[i].index != i {
        OutOfTurn(p, s, payload, ds, plans, i);
      }
      if DriveBlock(p, s, payload, ds[i], plans[i]).0 != Ok {
        Refused(p, s, payload, ds, plans, i);
      }
      TwinsStep(p, s, r, payload, ds[i], plans[i], plans2[i]);
      var (s', r') := (DriveBlock(p, s, payload, ds[i], plans[i]).1, DriveBlock(p, r, payload, ds[i], plans2[i]).1);
      DriveOne(p, s, payload, ds[i], plans[i]);
      Taken(p, s, payload, ds, plans, i, s');
      Taken(p, r, payload, ds, plans2, i, r');
      TwinsFinish(p, s', r', payload, ds, plans, plans2, i + 1);
    }
  }

  // A transfer is checkpointed at block i, the device loses its memory, and then takes the remaining blocks,
  // cut in any other way, over a flash that starts with the bytes the checkpoint covers.  If the
  // uninterrupted transfer finishes, so does this one, and leaves the same bytes in the slot.
  lemma {:induction false} ResumeRefines(p: Prims, s: Stream, prefix: Bytes, flash: Bytes, payload: Bytes,
                                         ds: seq<Desc>,
                      plans: seq<seq<Cut>>, plans2: seq<seq<Cut>>)
    requires InflateLaw(p) && Kept(s, prefix) && Counted(s.fields) && Checkpointable(s) && s.image <= flash
    requires |ds| == s.fields.blockCount && PlansOk(ds, plans) && PlansOk(ds, plans2)
    requires DriveAndFinish(p, s, payload, ds, plans, s.nextIndex).0 == Ok
    ensures var at := CheckpointOf(p, s);
            var (err, r) := Resumed(p, s.fields, at, flash);
            && err == Ok && StreamWF(r)
            && var (end, last) := DriveAndFinish(p, r, payload, ds, plans2, s.nextIndex);
            && end == Ok
            && var whole := DriveAndFinish(p, s, payload, ds, plans, s.nextIndex).1;
            && flash[..at.rawOffset] + last.output == whole.image == prefix + whole.output
  {
    hide ActiveOk, Counted, DriveAndFinish, DriveBlock, FinishedOk, InflateLaw, PlansOk, Resumed, Script, Startable,
         TransferPointOk, ZeroChain;
    var at, i := CheckpointOf(p, s), s.nextIndex;
    CheckpointAccepted(p, s, prefix, flash);
    var r := Fresh(s.fields).(image := s.image, nextIndex := s.nextIndex, rawOffset := s.rawOffset,
                              encOffset := s.encOffset, chain := s.chain, payloadComplete := false);
    assert Twins(s, r);
    TwinsFinish(p, s, r, payload, ds, plans, plans2, i);
    ResumedKept(p, s.fields, at, flash);
    DriveKept(p, r, payload, ds, plans2, i, flash[..at.rawOffset]);
    DriveKept(p, s, payload, ds, plans, i, prefix);
  }

  lemma {:induction false} FeedAllKept(p: Prims, s: Stream, script: seq<Chunk>, prefix: Bytes)
    requires Kept(s, prefix)
    ensures Kept(FeedAll(p, s, script).1, prefix)
    decreases |script|
  {
    assert StreamWF(s);
    hide Kept, OtaStream.Feed;
    if |script| > 0 {
      FeedKeeps(p, s, script[0], true, prefix);
      FeedAllKept(p, OtaStream.Feed(p, s, script[0], true).1, script[1..], prefix);
    }
  }

  lemma {:induction false} FinishedBytes(p: Prims, s: Stream, prefix: Bytes)
    requires Kept(s, prefix) && Finish(p, s).0 == Ok
    ensures Finish(p, s).1.image == prefix + Finish(p, s).1.output
  {
  }

  lemma {:induction false} KeptWF(s: Stream, prefix: Bytes)
    requires Kept(s, prefix)
    ensures StreamWF(s)
  {
  }

  lemma {:induction false} BlockKept(p: Prims, s: Stream, payload: Bytes, d: Desc, plan: seq<Cut>, prefix: Bytes)
    requires Kept(s, prefix) && StreamWF(s) && PlanOk(plan, d.encSize)
    ensures Kept(DriveBlock(p, s, payload, d, plan).1, prefix)
  {
    hide Kept, FeedAll, Script, PlanOk;
    if d.encOffset <= |payload| && 0 < d.encSize <= |payload| - d.encOffset {
      FeedAllKept(p, s, Script(d, payload[d.encOffset..d.encOffset + d.encSize], plan, 0), prefix);
    }
  }

  lemma {:induction false} DriveKept(p: Prims, s: Stream, payload: Bytes, ds: seq<Desc>, plans: seq<seq<Cut>>,
                                     i: nat, prefix: Bytes)
    requires Kept(s, prefix) && StreamWF(s) && PlansOk(ds, plans) && i <= |ds|
    ensures Kept(DriveAndFinish(p, s, payload, ds, plans, i).1, prefix)
    ensures DriveAndFinish(p, s, payload, ds, plans, i).0 == Ok ==>
            DriveAndFinish(p, s, payload, ds, plans, i).1.image ==
            prefix + DriveAndFinish(p, s, payload, ds, plans, i).1.output
  {
    hide Kept, Drive, Finish;
    DrivenKept(p, s, payload, ds, plans, i, prefix);
    var end := Drive(p, s, payload, ds, plans, i).1;
    FinishKeeps(p, end, prefix);
    if Finish(p, end).0 == Ok {
      FinishedBytes(p, end, prefix);
    }
  }

  // ---- From the first byte

  // A run of all blocks is a run of the first k and a run of the others.
  lemma {:induction false} DriveSplit(p: Prims, s: Stream, payload: Bytes, ds: seq<Desc>, plans: seq<seq<Cut>>,
                                      i: nat, k: nat)
    requires StreamWF(s) && PlansOk(ds, plans) && i <= k <= |ds|
    ensures var (err, middle) := Drive(p, s, payload, ds[..k], plans[..k], i);
            DriveAndFinish(p, s, payload, ds, plans, i) ==
            if err != Ok then (err, middle) else DriveAndFinish(p, middle, payload, ds, plans, k)
    decreases k - i
  {
    hide DriveBlock, Finish;
    if i < k {
      var (err, next) := DriveBlock(p, s, payload, ds[i], plans[i]);
      if err == Ok {
        DriveSplit(p, next, payload, ds, plans, i + 1, k);
      }
    }
  }

  // A whole transfer that finishes, interrupted at any block boundary where a checkpoint is allowed: the
  // checkpoint passes the journal's checks, resuming over the flash works, and the rest of the blocks, cut in
  // any other way, complete the same slot bytes.
  lemma {:induction false} InterruptedTransfer(p: Prims, f: Signed, payload: Bytes, ds: seq<Desc>, plans: seq<seq<Cut>>,
                            plans2: seq<seq<Cut>>, k: nat, flash: Bytes)
    requires InflateLaw(p) && Startable(f) && Counted(f) && |ds| == f.blockCount && k <= |ds|
    requires PlansOk(ds, plans) && PlansOk(ds, plans2)
    requires DriveAndFinish(p, Fresh(f), payload, ds, plans, 0).0 == Ok
    requires var s := Drive(p, Fresh(f), payload, ds[..k], plans[..k], 0).1;
             Checkpointable(s) && s.image <= flash
    ensures var s := Drive(p, Fresh(f), payload, ds[..k], plans[..k], 0).1;
            var at := CheckpointOf(p, s);
            var (err, r) := Resumed(p, f, at, flash);
            && TransferPointOk(at) && at.nextIndex == k && err == Ok && StreamWF(r)
            && var (end, last) := DriveAndFinish(p, r, payload, ds, plans2, k);
            && end == Ok
            && flash[..at.rawOffset] + last.output == DriveAndFinish(p, Fresh(f), payload, ds, plans, 0).1.output
  {
    hide Checkpointable, Counted, Drive, DriveBlock, Fail, InflateLaw, Kept, PlanOk, Resumed, Script, Startable,
         TransferPointOk, Twins, ZeroChain;
    assert StreamWF(Fresh(f)) && Boundary(Fresh(f)) && Fresh(f).nextIndex == 0 && Fresh(f).fields == f by {
    }
    DriveSplit(p, Fresh(f), payload, ds, plans, 0, k);
    var (err, s) := Drive(p, Fresh(f), payload, ds[..k], plans[..k], 0);
    NextIndexLag(p, Fresh(f), payload, ds[..k], plans[..k], 0);
    if err == Ok {
      NextIndexLag(p, s, payload, ds, plans, k);
      assert s.nextIndex == k;
      FreshKept(f);
      DrivenKept(p, Fresh(f), payload, ds[..k], plans[..k], 0, []);
      CheckpointAccepted(p, s, [], flash);
      ResumeRefines(p, s, [], flash, payload, ds, plans, plans2);
    }
  }

  lemma {:induction false} DrivenKept(p: Prims, s: Stream, payload: Bytes, ds: seq<Desc>, plans: seq<seq<Cut>>,
                                      i: nat, prefix: Bytes)
    requires Kept(s, prefix) && PlansOk(ds, plans) && i <= |ds|
    ensures Kept(Drive(p, s, payload, ds, plans, i).1, prefix)
    decreases |ds| - i
  {
    hide Kept, DriveBlock, PlanOk;
    KeptWF(s, prefix);
    if i < |ds| {
      BlockKept(p, s, payload, ds[i], plans[i], prefix);
      if DriveBlock(p, s, payload, ds[i], plans[i]).0 == Ok {
        DrivenKept(p, DriveBlock(p, s, payload, ds[i], plans[i]).1, payload, ds, plans, i + 1, prefix);
      }
    }
  }
}
