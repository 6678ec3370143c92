// A transfer interrupted any number of times, after any number of chunks: each time the device restarts, is
// asked to prepare the same request, and goes on from its last checkpoint; in the end it boots the image that
// was built (keemash_ota_v3_flash_receiver.c:124-330).
module OtaInterrupted {
  import opened Base
  import opened OtaTypes
  import opened OtaFields
  import opened OtaStream
  import opened OtaEquivalence
  import opened OtaResume
  import opened OtaJournal
  import opened OtaReceiver
  import opened OtaTransfer
  import A = OtaArtifact
  import P = OtaPackage
  import S = OtaBootSafety

  // ---- Streams that finish with an image, however the rest is cut into chunks

  ghost predicate Finishes(p: Prims, s: Stream, payload: Bytes, ds: seq<Desc>, image: Bytes) {
    && Boundary(s) && s.nextIndex <= |ds| == s.fields.blockCount
    && forall plans :: PlansOk(ds, plans) ==>
                         DriveAndFinish(p, s, payload, ds, plans, s.nextIndex).0 == Ok &&
                         DriveAndFinish(p, s, payload, ds, plans, s.nextIndex).1.image == image
  }

  lemma {:induction false} FinishesPlace(p: Prims, s: Stream, payload: Bytes, ds: seq<Desc>, image: Bytes)
    requires Finishes(p, s, payload, ds, image)
    ensures Boundary(s) && StreamWF(s) && s.nextIndex <= |ds| == s.fields.blockCount
  {
  }

  // How the blocks before i were to be cut plays no part from block i on.
  lemma {:induction false} PastPlans(p: Prims, s: Stream, payload: Bytes, ds: seq<Desc>, plans: seq<seq<Cut>>,
                                     others: seq<seq<Cut>>, i: nat)
    requires StreamWF(s) && PlansOk(ds, plans) && PlansOk(ds, others) && i <= |ds|
    requires forall k :: i <= k < |ds| ==> plans[k] == others[k]
    ensures Drive(p, s, payload, ds, plans, i) == Drive(p, s, payload, ds, others, i)
    decreases |ds| - i
  {
    hide DriveBlock, PlanOk;
    if i < |ds| && DriveBlock(p, s, payload, ds[i], plans[i]).0 == Ok {
      PastPlans(p, DriveBlock(p, s, payload, ds[i], plans[i]).1, payload, ds, plans, others, i + 1);
    }
  }

  // The next block of such a stream is taken, and leaves such a stream.
  lemma {:induction false} FinishesStep(p: Prims, s: Stream, payload: Bytes, ds: seq<Desc>, image: Bytes,
                                        plans: seq<seq<Cut>>)
    requires InflateLaw(p) && Finishes(p, s, payload, ds, image) && s.nextIndex < |ds| && PlansOk(ds, plans)
    ensures var i := s.nextIndex;
            var (err, next) := DriveBlock(p, s, payload, ds[i], plans[i]);
            && err == Ok && InPayload(ds[i], payload) && ds[i].index == i
            && next.nextIndex == i + 1 && next.fields == s.fields && Finishes(p, next, payload, ds, image)
  {
    hide InflateLaw, DriveAndFinish, PlanOk, Startable, FeedAll, Script;
    var i := s.nextIndex;
    assert StreamWF(s) && DriveAndFinish(p, s, payload, ds, plans, i).0 == Ok;
    if ds[i].index != i { OutOfTurn(p, s, payload, ds, plans, i); }
    if DriveBlock(p, s, payload, ds[i], plans[i]).0 != Ok { Refused(p, s, payload, ds, plans, i); }
    DriveOne(p, s, payload, ds[i], plans[i]);
    var next := DriveBlock(p, s, payload, ds[i], plans[i]).1;
    BlockMoves(p, s, payload, ds[i], plans[i]);
    hide DriveBlock;
    forall others | PlansOk(ds, others)
      ensures DriveAndFinish(p, next, payload, ds, others, i + 1).0 == Ok
      ensures DriveAndFinish(p, next, payload, ds, others, i + 1).1.image == image
    {
      var mixed := others[i := plans[i]];
      assert PlansOk(ds, mixed) && DriveAndFinish(p, s, payload, ds, mixed, i).0 == Ok;
      Taken(p, s, payload, ds, mixed, i, next);
      PastPlans(p, next, payload, ds, mixed, others, i + 1);
      SameFinish(p, next, payload, ds, mixed, others, i + 1);
    }
  }

  lemma {:induction false} SameFinish(p: Prims, s: Stream, payload: Bytes, ds: seq<Desc>, plans: seq<seq<Cut>>,
                                      others: seq<seq<Cut>>, i: nat)
    requires StreamWF(s) && PlansOk(ds, plans) && PlansOk(ds, others) && i <= |ds|
    requires Drive(p, s, payload, ds, plans, i) == Drive(p, s, payload, ds, others, i)
    ensures DriveAndFinish(p, s, payload, ds, plans, i) == DriveAndFinish(p, s, payload, ds, others, i)
  {
  }

  lemma {:induction false} BlockMoves(p: Prims, s: Stream, payload: Bytes, d: Desc, plan: seq<Cut>)
    requires InflateLaw(p) && Boundary(s) && PlanOk(plan, d.encSize) && d.index == s.nextIndex
    requires DriveBlock(p, s, payload, d, plan).0 == Ok
    ensures InPayload(d, payload) && DriveBlock(p, s, payload, d, plan).1.nextIndex == s.nextIndex + 1
  {
    hide InflateLaw, FeedAll, Script, PlanOk, BlockGood, CheckDesc;
    BlockRun(p, s, d, payload[d.encOffset..d.encOffset + d.encSize], plan);
  }

  lemma {:induction false} TwinFinishes(p: Prims, s: Stream, r: Stream, payload: Bytes, ds: seq<Desc>, image: Bytes)
    requires InflateLaw(p) && Finishes(p, s, payload, ds, image) && Twins(s, r)
    ensures Finishes(p, r, payload, ds, image)
  {
    hide InflateLaw, DriveAndFinish, Startable;
    forall plans | PlansOk(ds, plans)
      ensures DriveAndFinish(p, r, payload, ds, plans, r.nextIndex).0 == Ok
      ensures DriveAndFinish(p, r, payload, ds, plans, r.nextIndex).1.image == image
    {
      TwinsFinish(p, s, r, payload, ds, plans, plans, s.nextIndex);
    }
  }

  // There is always payload left for a block that is still to come.
  lemma {:induction false} PayloadLeft(p: Prims, s: Stream, payload: Bytes, ds: seq<Desc>, image: Bytes,
                                       plans: seq<seq<Cut>>)
    requires InflateLaw(p) && Finishes(p, s, payload, ds, image) && s.nextIndex < |ds| && PlansOk(ds, plans)
    ensures s.encOffset < s.fields.encSize
  {
    var r := s.(payloadComplete := false);
    assert Twins(s, r);
    hide InflateLaw, DriveAndFinish, Startable, PlanOk;
    TwinsFinish(p, s, r, payload, ds, plans, plans, s.nextIndex);
  }

  // The stream at the end of any block.
  lemma {:induction false} DriveFinishes(p: Prims, s: Stream, payload: Bytes, ds: seq<Desc>, image: Bytes,
                                         plans: seq<seq<Cut>>, k: nat)
    requires InflateLaw(p) && Finishes(p, s, payload, ds, image) && s.nextIndex <= k <= |ds| && PlansOk(ds, plans)
    ensures StreamWF(s) && PlansOk(ds[..k], plans[..k])
    ensures var (err, t) := Drive(p, s, payload, ds[..k], plans[..k], s.nextIndex);
            err == Ok && Finishes(p, t, payload, ds, image) && t.nextIndex == k && t.fields == s.fields
    decreases k - s.nextIndex
  {
    hide InflateLaw, Finishes, DriveBlock, PlanOk;
    FinishesPlace(p, s, payload, ds, image);
    if s.nextIndex < k {
      FinishesStep(p, s, payload, ds, image, plans);
      DriveFinishes(p, DriveBlock(p, s, payload, ds[s.nextIndex], plans[s.nextIndex]).1, payload, ds, image, plans, k);
    }
  }

  // In an artifact that verifies, every checkpoint leaves payload, and so can be resumed.
  lemma {:induction false} VerifiedLeavesPayload(p: Prims, f: Signed, payload: Bytes, ds: seq<Desc>, image: Bytes,
                                                 plans: seq<seq<Cut>>, k: nat)
    requires InflateLaw(p) && FieldsFor(f, |ds|, |payload|) && A.SizesOk(f, |ds|, |payload|) && |f.baseSha| == 0
    requires A.VerifyContents(p, f, ds, payload, None) == A.Good(image) && PlansOk(ds, plans) && k < |ds|
    ensures StreamWF(Fresh(f)) && PlansOk(ds[..k], plans[..k])
    ensures var (err, s) := Drive(p, Fresh(f), payload, ds[..k], plans[..k], 0);
            err == Ok && s.nextIndex == k && s.encOffset < f.encSize
  {
    FreshFinishes(p, f, payload, ds, image);
    assert Fresh(f).nextIndex == 0 && Fresh(f).fields == f;
    hide InflateLaw, Finishes, Drive, A.VerifyContents, Fresh, PlansOk;
    DriveFinishes(p, Fresh(f), payload, ds, image, plans, k);
    PayloadLeft(p, Drive(p, Fresh(f), payload, ds[..k], plans[..k], 0).1, payload, ds, image, plans);
  }

  // ---- The chunks of one block

  // In block k or just after it.
  predicate AtBlock(s: Stream, k: nat) {
    s.nextIndex == k || (s.nextIndex == k + 1 && !s.active)
  }

  predicate AllOf(chunks: seq<Chunk>, k: nat) {
    forall i :: 0 <= i < |chunks| ==> chunks[i].desc.index == k
  }

  lemma {:induction false} FeedAtBlock(p: Prims, s: Stream, c: Chunk, k: nat)
    requires StreamWF(s) && !s.failed && !s.finished && AtBlock(s, k) && c.desc.index == k
    requires OtaStream.Feed(p, s, c, true).0 == Ok
    ensures AtBlock(OtaStream.Feed(p, s, c, true).1, k)
    ensures s.nextIndex == k + 1 ==> OtaStream.Feed(p, s, c, true).1 == s
  {
    hide Inflate, ChainStep;
    InflatePlace(p, s, c.bytes, c.final);
    if !s.active && !IsRepeat(s, c) {
      InflatePlace(p, StartBlock(p, s, c.desc).1, c.bytes, c.final);
    }
  }

  // Once the block is finished, what is left of its chunks are repeats.
  lemma {:induction false} IdleRest(p: Prims, s: Stream, chunks: seq<Chunk>, k: nat)
    requires StreamWF(s) && !s.failed && !s.finished && s.nextIndex == k + 1 && !s.active && AllOf(chunks, k)
    requires FeedAll(p, s, chunks).0 == Ok
    ensures FeedAll(p, s, chunks) == (Ok, s)
    decreases |chunks|
  {
    hide OtaStream.Feed;
    if |chunks| > 0 {
      FeedAtBlock(p, s, chunks[0], k);
      IdleRest(p, s, chunks[1..], k);
    }
  }

  lemma {:induction false} CopiesOf(c: Chunk, n: nat, k: nat)
    requires c.desc.index == k
    ensures AllOf(Copies(c, n), k)
  {
    if n > 0 { CopiesOf(c, n - 1, k); }
  }

  lemma {:induction false} ScriptOf(d: Desc, enc: Bytes, plan: seq<Cut>, offset: nat)
    requires offset <= |enc| && PlanOk(plan, |enc| - offset)
    ensures AllOf(Script(d, enc, plan, offset), d.index)
    decreases |plan|
  {
    hide Copies;
    if |plan| > 0 {
      CopiesOf(ChunkAt(d, enc, offset, plan[0].len), plan[0].repeats, d.index);
      ScriptOf(d, enc, plan[1..], offset + plan[0].len);
    }
  }

  // ---- The journal while writing

  // The journal holds a checkpoint of the stream as it is now.
  predicate JustMarked(p: Prims, d: Device) {
    && Checkpointable(d.rx.stream) && d.rx.checkpointRaw == d.rx.stream.rawOffset
    && Load(d.journal) == Some(CheckpointFor(d.rx, TRANSFERRING, CheckpointOf(p, d.rx.stream)))
  }

  predicate SameMark(d: Device, t: Device) {
    t.journal == d.journal && t.rx.checkpointRaw == d.rx.checkpointRaw
  }

  predicate Ready(d: Device) {
    Steady(d) && StreamWF(d.rx.stream) && JournalOk(d.journal)
  }

  // What writing leaves as it was.
  predicate Onward(d: Device, t: Device) {
    && Ready(d) && Ready(t) && t.boot == d.boot && d.rx.stream.image <= t.rx.stream.image
    && t.rx == d.rx.(stream := t.rx.stream, checkpointRaw := t.rx.checkpointRaw)
    && t.rx.stream.fields == d.rx.stream.fields
  }

  lemma {:induction false} WriteMarks(p: Prims, d: Device, c: Chunk)
    requires Ready(d) && OtaStream.Feed(p, d.rx.stream, c, true).0 == Ok
    ensures var (err, t) := Write(p, d, c, GoodWrite());
            && err == Ok && Onward(d, t) && t.rx.stream == OtaStream.Feed(p, d.rx.stream, c, true).1
            && (SameMark(d, t) || (JustMarked(p, t) && t.rx.stream.rawOffset != d.rx.stream.rawOffset))
  {
    WriteIsFeed(p, d, c);
    S.FeedGrows(p, d.rx.stream, c, true);
    hide OtaStream.Feed, Kept, Counted, CheckpointOk, CheckpointOf, JournalOk, Load, WriteRecord;
    var t := OtaStream.Feed(p, d.rx.stream, c, true).1;
    var fed := d.rx.(stream := t);
    if CheckpointDue(fed) {
      FeedMoves(p, d.rx.stream, c);
      DueIsCheckpointable(t, d.rx.checkpointRaw);
      WriteSaves(d.journal, CheckpointFor(fed, TRANSFERRING, CheckpointOf(p, t)));
    }
  }

  lemma {:induction false} WriteSaves(s: Slots, c: Checkpoint)
    requires JournalOk(s)
    ensures var (err, t) := Save(s, c, Succeeded);
            JournalOk(t) && (err == Ok ==> Load(t) == Some(c))
  {
    hide CheckpointOk, WriteRecord, JournalOk, Latest;
    if CheckpointOk(c) { WriteIsAtomic(s, Some(c), Succeeded); }
  }

  // Some or all of the chunks of block k: the journal is as it was, or marks the end of the block.
  lemma {:induction false} BlockMarks(p: Prims, d: Device, chunks: seq<Chunk>, k: nat)
    requires Ready(d) && AtBlock(d.rx.stream, k) && AllOf(chunks, k) && FeedAll(p, d.rx.stream, chunks).0 == Ok
    ensures var (err, t) := WriteAll(p, d, chunks);
            && err == Ok && Onward(d, t) && t.rx.stream == FeedAll(p, d.rx.stream, chunks).1
            && AtBlock(t.rx.stream, k)
            && (SameMark(d, t) || (JustMarked(p, t) && t.rx.stream.nextIndex == k + 1))
    decreases |chunks|
  {
    hide OtaStream.Feed, Write, Steady, JournalOk, Load, CheckpointOf, Checkpointable, Kept, PrefixOf;
    if |chunks| > 0 {
      WriteMarks(p, d, chunks[0]);
      var next := Write(p, d, chunks[0], GoodWrite()).1;
      SteadyAlive(d);
      FeedAtBlock(p, d.rx.stream, chunks[0], k);
      FeedMoves(p, d.rx.stream, chunks[0]);
      BlockMarks(p, next, chunks[1..], k);
      if next.rx.stream.nextIndex == k + 1 {
        SteadyAlive(next);
        IdleRest(p, next.rx.stream, chunks[1..], k);
      }
    }
  }

  lemma {:induction false} SteadyAlive(d: Device)
    requires Steady(d)
    ensures !d.rx.stream.failed && !d.rx.stream.finished && d.rx.active && Kept(d.rx.stream, PrefixOf(d.rx.stream))
  {
  }

  // ---- The latest checkpoint

  // The journal holds the checkpoint of `mark`, a stream that finishes with the image and whose bytes the slot
  // still has; or there is no checkpoint yet.
  ghost predicate Marked(p: Prims, d: Device, mark: Option<Stream>, payload: Bytes, ds: seq<Desc>, image: Bytes) {
    if mark.None? then Load(d.journal) == None && d.rx.checkpointRaw == 0
    else
      var m := mark.value;
      && Finishes(p, m, payload, ds, image) && m.fields == d.rx.fields
      && Kept(m, PrefixOf(m)) && Checkpointable(m) && d.rx.checkpointRaw == m.rawOffset
      && Load(d.journal) == Some(CheckpointFor(d.rx, TRANSFERRING, CheckpointOf(p, m)))
      && m.image <= d.rx.stream.image
  }

  lemma {:induction false} MarkStays(p: Prims, d: Device, t: Device, mark: Option<Stream>, payload: Bytes,
                                     ds: seq<Desc>, image: Bytes)
    requires Marked(p, d, mark, payload, ds, image) && Onward(d, t) && SameMark(d, t)
    ensures Marked(p, t, mark, payload, ds, image)
  {
    hide Finishes, Kept, Load, Ready;
  }

  lemma {:induction false} NewMark(p: Prims, t: Device, payload: Bytes, ds: seq<Desc>, image: Bytes)
    requires Ready(t) && JustMarked(p, t) && Finishes(p, t.rx.stream, payload, ds, image)
    ensures Marked(p, t, Some(t.rx.stream), payload, ds, image)
  {
    hide Finishes, Kept, Load, JournalOk, Counted;
  }

  // A transfer under way, at the end of a block: the stream will finish with the image, and so will a stream
  // resumed from the journal.
  ghost predicate UnderWay(p: Prims, d: Device, mark: Option<Stream>, payload: Bytes, ds: seq<Desc>, image: Bytes) {
    Ready(d) && Finishes(p, d.rx.stream, payload, ds, image) && Marked(p, d, mark, payload, ds, image)
  }

  function Prefix(script: seq<Chunk>, n: nat): seq<Chunk> {
    if n <= |script| then script[..n] else script
  }

  lemma {:induction false} WriteAllJoin(p: Prims, d: Device, a: seq<Chunk>, b: seq<Chunk>)
    requires Ready(d) && FeedAll(p, d.rx.stream, a).0 == Ok
    ensures StreamWF(WriteAll(p, d, a).1.rx.stream)
    ensures WriteAll(p, d, a + b) == WriteAll(p, WriteAll(p, d, a).1, b)
    decreases |a|
  {
    hide OtaStream.Feed, Write, Steady, JournalOk;
    if |a| == 0 {
      assert a + b == b;
    } else {
      WriteMarks(p, d, a[0]);
      assert (a + b)[0] == a[0] && (a + b)[1..] == a[1..] + b;
      WriteAllJoin(p, Write(p, d, a[0], GoodWrite()).1, a[1..], b);
    }
  }

  lemma {:induction false} FeedPrefix(p: Prims, s: Stream, script: seq<Chunk>, n: nat)
    requires StreamWF(s) && n <= |script| && FeedAll(p, s, script).0 == Ok
    ensures FeedAll(p, s, script[..n]).0 == Ok
    ensures FeedAll(p, FeedAll(p, s, script[..n]).1, script[n..]) == FeedAll(p, s, script)
  {
    hide FeedAll;
    assert script == script[..n] + script[n..];
    FeedAllJoin(p, s, script[..n], script[n..]);
  }

  function BlockScript(payload: Bytes, ds: seq<Desc>, plans: seq<seq<Cut>>, i: nat): seq<Chunk>
    requires PlansOk(ds, plans) && i < |ds| && InPayload(ds[i], payload)
  {
    Script(ds[i], payload[ds[i].encOffset..ds[i].encOffset + ds[i].encSize], plans[i], 0)
  }

  // The chunks of a block lead to the end of the block.
  predicate Leads(p: Prims, s: Stream, script: seq<Chunk>, next: Stream) {
    && StreamWF(s) && AllOf(script, s.nextIndex) && FeedAll(p, s, script) == (Ok, next)
    && next.nextIndex == s.nextIndex + 1
  }

  lemma {:induction false} BlockLeads(p: Prims, s: Stream, payload: Bytes, ds: seq<Desc>, image: Bytes,
                                      plans: seq<seq<Cut>>)
    returns (next: Stream)
    requires InflateLaw(p) && Finishes(p, s, payload, ds, image) && s.nextIndex < |ds| && PlansOk(ds, plans)
    ensures InPayload(ds[s.nextIndex], payload) && Finishes(p, next, payload, ds, image)
    ensures Leads(p, s, BlockScript(payload, ds, plans, s.nextIndex), next)
  {
    hide InflateLaw, Finishes, FeedAll, Script, PlanOk, DriveBlock;
    FinishesPlace(p, s, payload, ds, image);
    var i := s.nextIndex;
    FinishesStep(p, s, payload, ds, image, plans);
    next := DriveBlock(p, s, payload, ds[i], plans[i]).1;
    DriveIsScript(p, s, payload, ds[i], plans[i]);
    ScriptOf(ds[i], payload[ds[i].encOffset..ds[i].encOffset + ds[i].encSize], plans[i], 0);
  }

  lemma {:induction false} OnwardOn(d: Device, t: Device, u: Device)
    requires Onward(d, t) && Onward(t, u)
    ensures Onward(d, u)
  {
    hide Ready;
  }

  // Part of a block is sent, or all of it.
  lemma {:induction false} PartSent(p: Prims, d: Device, mark: Option<Stream>, payload: Bytes, ds: seq<Desc>,
                                    image: Bytes, script: seq<Chunk>, next: Stream, n: nat)
    returns (now: Option<Stream>)
    requires Ready(d) && Marked(p, d, mark, payload, ds, image) && n <= |script|
    requires Leads(p, d.rx.stream, script, next) && Finishes(p, next, payload, ds, image)
    ensures var (err, t) := WriteAll(p, d, script[..n]);
            && err == Ok && Onward(d, t) && Marked(p, t, now, payload, ds, image)
            && (n == |script| ==> t.rx.stream == next)
  {
    var k, s := d.rx.stream.nextIndex, d.rx.stream;
    FeedPrefix(p, s, script, n);
    assert n == |script| ==> script[..n] == script;
    hide FeedAll, Finishes, Steady, JournalOk, Load, Marked;
    BlockMarks(p, d, script[..n], k);
    var t := WriteAll(p, d, script[..n]).1;
    if SameMark(d, t) {
      now := mark;
      MarkStays(p, d, t, mark, payload, ds, image);
    } else {
      SteadyAlive(t);
      hide WriteAll;
      IdleRest(p, t.rx.stream, script[n..], k);
      now := Some(t.rx.stream);
      NewMark(p, t, payload, ds, image);
    }
  }

  // The first n chunks of a script are taken, and all of them lead to the last block's end.
  ghost predicate Delivered(p: Prims, d: Device, script: seq<Chunk>, n: nat, now: Option<Stream>, payload: Bytes,
                        ds: seq<Desc>, image: Bytes)
    requires StreamWF(d.rx.stream)
  {
    var (err, t) := WriteAll(p, d, Prefix(script, n));
    && err == Ok && Onward(d, t) && Marked(p, t, now, payload, ds, image)
    && (n >= |script| ==> Finishes(p, t.rx.stream, payload, ds, image) && t.rx.stream.nextIndex == |ds|)
  }

  lemma {:induction false} DeliveredPart(p: Prims, d: Device, first: seq<Chunk>, rest: seq<Chunk>, n: nat,
                                     now: Option<Stream>, payload: Bytes, ds: seq<Desc>, image: Bytes)
    requires StreamWF(d.rx.stream) && n < |first|
    requires var (err, t) := WriteAll(p, d, first[..n]);
             err == Ok && Onward(d, t) && Marked(p, t, now, payload, ds, image)
    ensures Delivered(p, d, first + rest, n, now, payload, ds, image)
  {
    hide Onward, Marked, Finishes, WriteAll;
    assert Prefix(first + rest, n) == first[..n];
  }

  lemma {:induction false} DeliveredMore(p: Prims, d: Device, first: seq<Chunk>, rest: seq<Chunk>, n: nat,
                                     now: Option<Stream>, payload: Bytes, ds: seq<Desc>, image: Bytes)
    requires StreamWF(d.rx.stream) && n >= |first| && FeedAll(p, d.rx.stream, first).0 == Ok
    requires var (err, t) := WriteAll(p, d, first);
             err == Ok && Onward(d, t) && Delivered(p, t, rest, n - |first|, now, payload, ds, image)
    ensures Delivered(p, d, first + rest, n, now, payload, ds, image)
  {
    hide Marked, Finishes, WriteAll, FeedAll, Steady, JournalOk;
    var t, tail := WriteAll(p, d, first).1, Prefix(rest, n - |first|);
    assert Prefix(first + rest, n) == first + tail;
    OnwardOn(d, t, WriteAll(p, t, tail).1);
    WriteAllJoin(p, d, first, tail);
  }

  lemma {:induction false} WholeSplit(payload: Bytes, ds: seq<Desc>, plans: seq<seq<Cut>>, i: nat)
    requires PlansOk(ds, plans) && i < |ds| && InPayload(ds[i], payload)
    ensures WholeScript(payload, ds, plans, i) ==
            BlockScript(payload, ds, plans, i) + WholeScript(payload, ds, plans, i + 1)
  {
    hide Script, PlanOk;
  }

  lemma {:induction false} DeliveredNone(p: Prims, d: Device, mark: Option<Stream>, payload: Bytes, ds: seq<Desc>,
                                     image: Bytes, plans: seq<seq<Cut>>, n: nat)
    requires UnderWay(p, d, mark, payload, ds, image) && PlansOk(ds, plans) && d.rx.stream.nextIndex == |ds|
    requires StreamWF(d.rx.stream)
    ensures Delivered(p, d, WholeScript(payload, ds, plans, |ds|), n, mark, payload, ds, image)
  {
    hide Finishes, Marked, Steady, JournalOk;
  }

  // Any number of the chunks still to be sent.
  lemma {:induction false} Sent(p: Prims, d: Device, mark: Option<Stream>, payload: Bytes, ds: seq<Desc>,
                                image: Bytes, plans: seq<seq<Cut>>, n: nat)
    returns (now: Option<Stream>)
    requires InflateLaw(p) && UnderWay(p, d, mark, payload, ds, image) && PlansOk(ds, plans)
    ensures Delivered(p, d, WholeScript(payload, ds, plans, d.rx.stream.nextIndex), n, now, payload, ds, image)
    decreases |ds| - d.rx.stream.nextIndex
  {
    hide Finishes, Marked, InflateLaw, PlansOk, InPayload, BlockScript, FeedAll, AllOf, Steady, JournalOk, Boundary,
         WholeScript, WriteAll, Prefix, Delivered;
    var k, s := d.rx.stream.nextIndex, d.rx.stream;
    FinishesPlace(p, s, payload, ds, image);
    if k == |ds| {
      now := mark;
      DeliveredNone(p, d, mark, payload, ds, image, plans, n);
    } else {
      var next := BlockLeads(p, s, payload, ds, image, plans);
      WholeSplit(payload, ds, plans, k);
      var first, rest := BlockScript(payload, ds, plans, k), WholeScript(payload, ds, plans, k + 1);
      if n < |first| {
        now := PartSent(p, d, mark, payload, ds, image, first, next, n);
        DeliveredPart(p, d, first, rest, n, now, payload, ds, image);
      } else {
        var middle := PartSent(p, d, mark, payload, ds, image, first, next, |first|);
        assert first[..|first|] == first;
        var t := WriteAll(p, d, first).1;
        now := Sent(p, t, middle, payload, ds, image, plans, n - |first|);
        DeliveredMore(p, d, first, rest, n, now, payload, ds, image);
      }
    }
  }

  // ---- A restart

  // The receiver's memory is lost; of the slot, the bytes up to the last checkpoint are still there.
  function CutOff(d: Device, tail: Bytes): Device {
    var slot := if d.rx.partition in d.slots then d.slots[d.rx.partition] else [];
    S.RestartDevice(d, Some((if d.rx.checkpointRaw <= |slot| then slot[..d.rx.checkpointRaw] else slot) + tail))
  }

  predicate Requested(rx: Rx, r: Request, f: Signed) {
    SameRequest(rx.operation, rx.artifact, rx.signedBytes, rx.signature, r) && rx.fields == f
  }

  predicate Willing(f: Signed, env: PrepareEnv, partition: string) {
    && env.preflight == Ok && env.load == Ok && env.flashOk && CheckTarget(f, env.target) == Ok
    && env.next == Some(partition)
  }

  // The stream that a checkpoint of `m` resumes.
  function Again(m: Stream): Stream {
    Fresh(m.fields).(image := m.image, nextIndex := m.nextIndex, rawOffset := m.rawOffset,
                     encOffset := m.encOffset, chain := m.chain, payloadComplete := false)
  }

  lemma {:induction false} Resumes(p: Prims, m: Stream, flash: Bytes, payload: Bytes, ds: seq<Desc>, image: Bytes,
                                   plans: seq<seq<Cut>>)
    requires InflateLaw(p) && Finishes(p, m, payload, ds, image) && PlansOk(ds, plans)
    requires Kept(m, PrefixOf(m)) && Checkpointable(m) && Counted(m.fields) && m.image <= flash
    ensures Resumed(p, m.fields, CheckpointOf(p, m), flash) == (Ok, Again(m))
    ensures Finishes(p, Again(m), payload, ds, image) && Kept(Again(m), PrefixOf(Again(m)))
    ensures m.rawOffset <= |flash| && flash[..m.rawOffset] == m.image
  {
    FinishesPlace(p, m, payload, ds, image);
    PayloadLeft(p, m, payload, ds, image, plans);
    CheckpointAccepted(p, m, PrefixOf(m), flash);
    ResumedKept(p, m.fields, CheckpointOf(p, m), flash);
    MarkLength(m);
    assert PrefixOf(Again(m)) == m.image;
    assert Twins(m, Again(m));
    hide InflateLaw, Finishes, Resumed, Kept, Checkpointable, Counted, PlanOk, PlansOk;
    TwinFinishes(p, m, Again(m), payload, ds, image);
  }

  lemma {:induction false} MarkLength(m: Stream)
    requires Kept(m, PrefixOf(m)) && Checkpointable(m)
    ensures |m.image| == m.rawOffset
  {
  }

  // Prepared again, the transfer is under way from its last checkpoint.
  lemma {:induction false} PreparedAgain(p: Prims, t: Device, mark: Option<Stream>, r: Request, f: Signed,
                                         env: PrepareEnv, tail: Bytes, payload: Bytes, ds: seq<Desc>, image: Bytes,
                                         plans: seq<seq<Cut>>)
    requires InflateLaw(p) && Ready(t) && Marked(p, t, mark, payload, ds, image) && PlansOk(ds, plans)
    requires Requested(t.rx, r, f) && Willing(f, env, t.rx.partition)
    requires VerifySigned(p, r.signedBytes, r.signature) == (Ok, Some(f))
    requires Finishes(p, Fresh(f), payload, ds, image)
    ensures var (err, u) := Prepare(p, CutOff(t, tail), r, env);
            && err == Ok && UnderWay(p, u, mark, payload, ds, image) && Requested(u.rx, r, f)
            && u.rx.partition == t.rx.partition && u.boot == t.boot
  {
    var cut := CutOff(t, tail);
    if mark.None? {
      S.IdleOk(p);
      hide VerifySigned, Finishes, CheckTarget, Load, JournalOk, Kept, PlanOk, PlansOk;
      PreparedSteady(p, cut, r, env, f);
      FreshPrepared(p, cut, r, env, f);
    } else {
      hide *;
      PreparedAtMark(p, t, mark.value, r, f, env, tail, payload, ds, image, plans);
    }
  }

  lemma {:induction false} PreparedAtMark(p: Prims, t: Device, m: Stream, r: Request, f: Signed, env: PrepareEnv,
                                          tail: Bytes, payload: Bytes, ds: seq<Desc>, image: Bytes,
                                          plans: seq<seq<Cut>>)
    requires InflateLaw(p) && Ready(t) && Marked(p, t, Some(m), payload, ds, image) && PlansOk(ds, plans)
    requires Requested(t.rx, r, f) && Willing(f, env, t.rx.partition)
    requires VerifySigned(p, r.signedBytes, r.signature) == (Ok, Some(f))
    ensures var (err, u) := Prepare(p, CutOff(t, tail), r, env);
            && err == Ok && UnderWay(p, u, Some(m), payload, ds, image) && Requested(u.rx, r, f)
            && u.rx.partition == t.rx.partition && u.boot == t.boot
  {
    hide Finishes, InflateLaw, VerifySigned, CheckTarget, Load, JournalOk, Kept, PlanOk, PlansOk, Resumed, ZeroChain,
         PrefixOf, Prepare, Checkpointable, CutOff, Willing, UnderWay, Again, CheckpointDue;
    MarkLength(m);
    Resumes(p, m, m.image + tail, payload, ds, image, plans);
    CutSlot(t, m, tail);
    PrepareAtMark(p, CutOff(t, tail), m, t.rx, r, f, env, tail);
    AgainUnderWay(p, t, CutOff(t, tail), m, r, f, payload, ds, image);
  }

  // The device that goes on from the mark.
  function Continued(cut: Device, m: Stream, partition: string, r: Request, f: Signed): Device {
    cut.(slots := cut.slots[partition := m.image],
         rx := Accepting(cut, r, f, partition).(stream := Again(m), checkpointRaw := m.rawOffset,
                                                active := true, resumed := true))
  }

  lemma {:induction false} AgainUnderWay(p: Prims, t: Device, cut: Device, m: Stream, r: Request, f: Signed,
                                         payload: Bytes, ds: seq<Desc>, image: Bytes)
    requires Ready(t) && Marked(p, t, Some(m), payload, ds, image) && Requested(t.rx, r, f)
    requires cut.journal == t.journal && cut.boot == t.boot && |m.image| == m.rawOffset
    requires Finishes(p, Again(m), payload, ds, image) && Kept(Again(m), PrefixOf(Again(m)))
    ensures var u := Continued(cut, m, t.rx.partition, r, f);
            UnderWay(p, u, Some(m), payload, ds, image) && Requested(u.rx, r, f) && StreamWF(u.rx.stream)
  {
    hide Finishes, Load, JournalOk, Kept, ZeroChain, PrefixOf, Checkpointable, Counted;
  }

  lemma {:induction false} CutSlot(t: Device, m: Stream, tail: Bytes)
    requires Ready(t) && m.image <= t.rx.stream.image && |m.image| == m.rawOffset == t.rx.checkpointRaw
    ensures CutOff(t, tail) == t.(rx := Idle(), slots := t.slots[t.rx.partition := m.image + tail])
  {
    hide Kept, Counted, JournalOk, CheckpointDue;
    assert t.slots[t.rx.partition][..m.rawOffset] == m.image;
  }

  lemma {:induction false} PrepareAtMark(p: Prims, cut: Device, m: Stream, rx: Rx, r: Request, f: Signed,
                                         env: PrepareEnv, tail: Bytes)
    requires cut.rx == Idle() && rx.partition in cut.slots && cut.slots[rx.partition] == m.image + tail
    requires Load(cut.journal) == Some(CheckpointFor(rx, TRANSFERRING, CheckpointOf(p, m))) && |m.image| == m.rawOffset
    requires Requested(rx, r, f) && m.fields == f && Willing(f, env, rx.partition)
    requires VerifySigned(p, r.signedBytes, r.signature) == (Ok, Some(f))
    requires Resumed(p, f, CheckpointOf(p, m), m.image + tail) == (Ok, Again(m))
    ensures Prepare(p, cut, r, env) == (Ok, Continued(cut, m, rx.partition, r, f))
  {
    AcceptedLength(p, r.signedBytes, r.signature);
    hide Load, VerifySigned, CheckTarget, Resumed, Fresh;
    assert (m.image + tail)[..m.rawOffset] == m.image;
  }

  lemma {:induction false} AcceptedLength(p: Prims, bytes: Bytes, signature: Bytes)
    requires VerifySigned(p, bytes, signature).0 == Ok
    ensures 0 < |bytes| <= SIGNED_FIELDS_MAX
  {
  }

  lemma {:induction false} FreshPrepared(p: Prims, d: Device, r: Request, env: PrepareEnv, f: Signed)
    requires VerifySigned(p, r.signedBytes, r.signature) == (Ok, Some(f)) && CanReceive(d, f, env)
    ensures var t := Prepare(p, d, r, env).1;
            t.journal == d.journal && t.rx.checkpointRaw == 0 && Requested(t.rx, r, f)
  {
    AcceptedInRange(p, r.signedBytes, r.signature);
    AcceptedLength(p, r.signedBytes, r.signature);
    hide VerifySigned, CheckTarget, Load, ZeroChain;
  }

  // ---- The whole transfer

  // So many chunks of what is left are sent, cut as planned; then the device restarts, and its slot holds
  // anything past the last checkpoint.
  datatype Interruption = Interruption(plans: seq<seq<Cut>>, sent: nat, tail: Bytes)

  predicate AllPlansOk(ds: seq<Desc>, cuts: seq<Interruption>) {
    forall i :: 0 <= i < |cuts| ==> PlansOk(ds, cuts[i].plans)
  }

  // One interruption, and the request prepared again.
  function Interrupted(p: Prims, d: Device, r: Request, env: PrepareEnv, payload: Bytes, ds: seq<Desc>,
                       cut: Interruption): (Err, Device)
    requires StreamWF(d.rx.stream) && PlansOk(ds, cut.plans)
  {
    if d.rx.stream.nextIndex > |ds| then (InvalidState, d)
    else
      var (err, t) := WriteAll(p, d, Prefix(WholeScript(payload, ds, cut.plans, d.rx.stream.nextIndex), cut.sent));
      if err != Ok then (err, t) else Prepare(p, CutOff(t, cut.tail), r, env)
  }

  // What is left is sent, and the transfer is verified and activated.
  function Completed(p: Prims, d: Device, payload: Bytes, ds: seq<Desc>, plans: seq<seq<Cut>>): (Err, Device)
    requires StreamWF(d.rx.stream) && PlansOk(ds, plans)
  {
    if d.rx.stream.nextIndex > |ds| then (InvalidState, d)
    else
      var (writeErr, written) := WriteAll(p, d, WholeScript(payload, ds, plans, d.rx.stream.nextIndex));
      if writeErr != Ok || !StreamWF(written.rx.stream) then (writeErr, written)
      else
        var (verifyErr, verified) := VerifyTransfer(p, written, GoodVerify());
        if verifyErr != Ok then (verifyErr, verified)
        else
          var (activateErr, activated, _) := Activate(verified, GoodActivate());
          (activateErr, activated)
  }

  // All interruptions in turn, and then the rest.
  function Resumptions(p: Prims, d: Device, r: Request, env: PrepareEnv, payload: Bytes, ds: seq<Desc>,
                       cuts: seq<Interruption>, plans: seq<seq<Cut>>): (Err, Device)
    requires StreamWF(d.rx.stream) && PlansOk(ds, plans) && AllPlansOk(ds, cuts)
    decreases |cuts|
  {
    if |cuts| == 0 then Completed(p, d, payload, ds, plans)
    else
      var (err, t) := Interrupted(p, d, r, env, payload, ds, cuts[0]);
      if err != Ok || !StreamWF(t.rx.stream) then (err, t)
      else Resumptions(p, t, r, env, payload, ds, cuts[1..], plans)
  }

  // After an interruption the transfer is under way again.
  lemma {:induction false} InterruptionKeeps(p: Prims, d: Device, mark: Option<Stream>, r: Request, f: Signed,
                                             env: PrepareEnv, payload: Bytes, ds: seq<Desc>, image: Bytes,
                                             cut: Interruption)
    returns (now: Option<Stream>)
    requires InflateLaw(p) && UnderWay(p, d, mark, payload, ds, image) && PlansOk(ds, cut.plans)
    requires Requested(d.rx, r, f) && Willing(f, env, d.rx.partition)
    requires VerifySigned(p, r.signedBytes, r.signature) == (Ok, Some(f)) && Finishes(p, Fresh(f), payload, ds, image)
    ensures var (err, u) := Interrupted(p, d, r, env, payload, ds, cut);
            && err == Ok && UnderWay(p, u, now, payload, ds, image) && Requested(u.rx, r, f)
            && u.rx.partition == d.rx.partition && u.boot == d.boot && StreamWF(u.rx.stream)
  {
    hide Finishes, Marked, InflateLaw, PlansOk, Steady, JournalOk, Boundary, WholeScript, WriteAll, Prefix,
         VerifySigned, Prepare, CutOff, Willing, Fresh;
    FinishesPlace(p, d.rx.stream, payload, ds, image);
    now := Sent(p, d, mark, payload, ds, image, cut.plans, cut.sent);
    var script := WholeScript(payload, ds, cut.plans, d.rx.stream.nextIndex);
    var t := WriteAll(p, d, Prefix(script, cut.sent)).1;
    assert Onward(d, t);
    PreparedAgain(p, t, now, r, f, env, cut.tail, payload, ds, image, cut.plans);
  }

  lemma {:induction false} FinishesEnd(p: Prims, s: Stream, payload: Bytes, ds: seq<Desc>, image: Bytes,
                                       plans: seq<seq<Cut>>)
    requires Finishes(p, s, payload, ds, image) && s.nextIndex == |ds| && PlansOk(ds, plans)
    ensures StreamWF(s) && Finish(p, s).0 == Ok && s.image == image
  {
    hide PlanOk, Startable;
    assert DriveAndFinish(p, s, payload, ds, plans, s.nextIndex) == Finish(p, s);
  }

  // A stream that has finished is activated.
  lemma {:induction false} FinishedBoots(p: Prims, d: Device)
    requires Steady(d) && StreamWF(d.rx.stream) && Finish(p, d.rx.stream).0 == Ok && d.rx.fields.encSize > 0
    ensures var (err, t) := VerifyTransfer(p, d, GoodVerify());
            && err == Ok
            && var (last, u, _) := Activate(t, GoodActivate());
            && last == Ok && u.boot == Some(d.rx.partition) && u.slots == d.slots
            && d.rx.partition in d.slots && d.slots[d.rx.partition] == d.rx.stream.image
  {
    SteadyFinishes(p, d);
    hide Finish, Kept, CheckpointOk, VerifyTransfer, CheckpointDue;
    TerminalSaved(VerifyTransfer(p, d, GoodVerify()).1.rx, BOOT_PENDING);
  }

  lemma {:induction false} CompletionBoots(p: Prims, d: Device, mark: Option<Stream>, payload: Bytes,
                                           ds: seq<Desc>, image: Bytes, plans: seq<seq<Cut>>)
    requires InflateLaw(p) && UnderWay(p, d, mark, payload, ds, image) && PlansOk(ds, plans)
    requires d.rx.fields.encSize > 0 && StreamWF(d.rx.stream)
    ensures var (err, t) := Completed(p, d, payload, ds, plans);
            && err == Ok && t.boot == Some(d.rx.partition) && d.rx.partition in t.slots
            && t.slots[d.rx.partition] == image
  {
    hide Finishes, Marked, InflateLaw, PlansOk, Steady, JournalOk, Boundary, WholeScript, WriteAll, VerifyTransfer,
         Activate, Finish;
    FinishesPlace(p, d.rx.stream, payload, ds, image);
    var script := WholeScript(payload, ds, plans, d.rx.stream.nextIndex);
    var now := Sent(p, d, mark, payload, ds, image, plans, |script|);
    assert Prefix(script, |script|) == script;
    var t := WriteAll(p, d, script).1;
    FinishesEnd(p, t.rx.stream, payload, ds, image, plans);
    FinishedBoots(p, t);
  }

  // However often it is interrupted, and however the rest is cut each time, the transfer boots the image.
  lemma {:induction false} ResumptionsBoot(p: Prims, d: Device, mark: Option<Stream>, r: Request, f: Signed,
                                           env: PrepareEnv, payload: Bytes, ds: seq<Desc>, image: Bytes,
                                           cuts: seq<Interruption>, plans: seq<seq<Cut>>)
    requires InflateLaw(p) && UnderWay(p, d, mark, payload, ds, image) && PlansOk(ds, plans) && AllPlansOk(ds, cuts)
    requires Requested(d.rx, r, f) && Willing(f, env, d.rx.partition) && f.encSize > 0 && StreamWF(d.rx.stream)
    requires VerifySigned(p, r.signedBytes, r.signature) == (Ok, Some(f)) && Finishes(p, Fresh(f), payload, ds, image)
    ensures var (err, t) := Resumptions(p, d, r, env, payload, ds, cuts, plans);
            && err == Ok && t.boot == Some(d.rx.partition) && d.rx.partition in t.slots
            && t.slots[d.rx.partition] == image
    decreases |cuts|
  {
    hide UnderWay, InflateLaw, PlansOk, Interrupted, Completed, Willing, VerifySigned, Finishes, Fresh;
    if |cuts| == 0 {
      CompletionBoots(p, d, mark, payload, ds, image, plans);
    } else {
      var now := InterruptionKeeps(p, d, mark, r, f, env, payload, ds, image, cuts[0]);
      var t := Interrupted(p, d, r, env, payload, ds, cuts[0]).1;
      ResumptionsBoot(p, t, now, r, f, env, payload, ds, image, cuts[1..], plans);
    }
  }

  // ---- From building to booting, with interruptions

  // The first preparation, and all that follows.
  function Persistent(p: Prims, d: Device, r: Request, env: PrepareEnv, payload: Bytes, ds: seq<Desc>,
                      cuts: seq<Interruption>, plans: seq<seq<Cut>>): (Err, Device)
    requires PlansOk(ds, plans) && AllPlansOk(ds, cuts)
  {
    var (err, t) := Prepare(p, d, r, env);
    if err != Ok || !StreamWF(t.rx.stream) then (err, t)
    else Resumptions(p, t, r, env, payload, ds, cuts, plans)
  }

  lemma {:induction false} FreshFinishes(p: Prims, f: Signed, payload: Bytes, ds: seq<Desc>, image: Bytes)
    requires InflateLaw(p) && FieldsFor(f, |ds|, |payload|) && A.SizesOk(f, |ds|, |payload|) && |f.baseSha| == 0
    requires A.VerifyContents(p, f, ds, payload, None) == A.Good(image)
    ensures Finishes(p, Fresh(f), payload, ds, image)
  {
    FreshOk(f);
    FreshKept(f);
    hide InflateLaw, A.VerifyContents, DriveAndFinish, Kept, ZeroChain, PlanOk, PlansOk;
    forall plans | PlansOk(ds, plans)
      ensures DriveAndFinish(p, Fresh(f), payload, ds, plans, 0).0 == Ok
      ensures DriveAndFinish(p, Fresh(f), payload, ds, plans, 0).1.image == image
    {
      StreamEqualsBatch(p, f, payload, ds, plans, None);
      DriveKept(p, Fresh(f), payload, ds, plans, 0, []);
    }
  }

  // A full artifact built for a device it fits is booted with exactly the image it was built from, however
  // often the device restarts on the way, after however many chunks.
  lemma {:induction false} BuiltImageBootsInterrupted(p: Prims, image: Bytes, spec: A.Spec, d: Device,
                                                      operation: Bytes, env: PrepareEnv, cuts: seq<Interruption>,
                                                      plans: seq<seq<Cut>>)
    requires BuildLaws(p) && ShaLaw(p) && InflateLaw(p) && DecodeLaw(p) && A.Build(p, image, None, spec).Good?
    requires JournalOk(d.journal)
    requires var v := A.Verify(p, A.Build(p, image, None, spec).value, None);
             v.Good? ==>
               && FitsDevice(p, v.value.manifest, v.value.signed) && CanReceive(d, v.value.signed, env)
               && PlansOk(v.value.manifest.blocks, plans) && AllPlansOk(v.value.manifest.blocks, cuts)
    ensures var a := A.Build(p, image, None, spec).value;
            var v := A.Verify(p, a, None);
            && v.Good? && A.Parse(p, a).Good?
            && var (id, m) := (v.value.artifactId, v.value.manifest);
            && PlansOk(m.blocks, plans) && AllPlansOk(m.blocks, cuts)
            && var (err, t) := Persistent(p, d, Request(operation, id, m.signedFields, m.signature), env,
                                          A.Parse(p, a).value.payload, m.blocks, cuts, plans);
            && err == Ok && t.boot == env.next && env.next.value in t.slots && t.slots[env.next.value] == image
  {
    BuiltContents(p, image, spec);
    hide A.Build, A.VerifyContents, A.Parse, A.Verify, BuildLaws, InflateLaw, ShaLaw, DecodeLaw, Prepare, CheckTarget,
         VerifySigned, PlanOk, PlansOk, FitsDevice, Finishes, Fresh, JournalOk, Resumptions, Load, UnderWay;
    var a := A.Build(p, image, None, spec).value;
    var v := A.Verify(p, a, None).value;
    var m, f, payload := v.manifest, v.signed, A.Parse(p, a).value.payload;
    var r := Request(operation, v.artifactId, m.signedFields, m.signature);
    FreshFinishes(p, f, payload, m.blocks, image);
    FirstPrepared(p, d, r, env, f, payload, m.blocks, image);
    var t := Prepare(p, d, r, env).1;
    ResumptionsBoot(p, t, None, r, f, env, payload, m.blocks, image, cuts, plans);
  }

  lemma {:induction false} FirstPrepared(p: Prims, d: Device, r: Request, env: PrepareEnv, f: Signed, payload: Bytes,
                                         ds: seq<Desc>, image: Bytes)
    requires VerifySigned(p, r.signedBytes, r.signature) == (Ok, Some(f)) && CanReceive(d, f, env)
    requires JournalOk(d.journal) && Finishes(p, Fresh(f), payload, ds, image)
    ensures var (err, t) := Prepare(p, d, r, env);
            && err == Ok && StreamWF(t.rx.stream) && UnderWay(p, t, None, payload, ds, image)
            && Requested(t.rx, r, f) && env.next == Some(t.rx.partition) && t.rx.fields == f
  {
    PreparedSteady(p, d, r, env, f);
    FreshPrepared(p, d, r, env, f);
    hide Prepare, VerifySigned, CheckTarget, Finishes, Fresh, JournalOk, Steady, Load;
  }
}
