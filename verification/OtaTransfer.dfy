// A transfer in which nothing goes wrong: it ends with the boot partition set to the very image that was
// built (keemash_ota_v3_flash_receiver.c:124-330, rust/keemash-keelink/src/ota.rs:219-323).
module OtaTransfer {
  import opened Base
  import opened OtaTypes
  import opened OtaFields
  import opened OtaStream
  import opened OtaEquivalence
  import opened OtaResume
  import opened OtaJournal
  import opened OtaReceiver
  import A = OtaArtifact
  import P = OtaPackage
  import S = OtaBootSafety

  // ---- The blocks of a package, as one script

  predicate InPayload(d: Desc, payload: Bytes) {
    d.encOffset <= |payload| && 0 < d.encSize <= |payload| - d.encOffset
  }

  function WholeScript(payload: Bytes, ds: seq<Desc>, plans: seq<seq<Cut>>, i: nat): seq<Chunk>
    requires PlansOk(ds, plans) && i <= |ds|
    decreases |ds| - i
  {
    if i == |ds| || !InPayload(ds[i], payload) then []
    else
      Script(ds[i], payload[ds[i].encOffset..ds[i].encOffset + ds[i].encSize], plans[i], 0) +
      WholeScript(payload, ds, plans, i + 1)
  }

  lemma {:induction false} DriveIsFeedAll(p: Prims, s: Stream, payload: Bytes, ds: seq<Desc>,
                                          plans: seq<seq<Cut>>, i: nat)
    requires StreamWF(s) && PlansOk(ds, plans) && i <= |ds| && Drive(p, s, payload, ds, plans, i).0 == Ok
    ensures FeedAll(p, s, WholeScript(payload, ds, plans, i)) == Drive(p, s, payload, ds, plans, i)
    decreases |ds| - i
  {
    hide FeedAll, Script, PlanOk;
    if i < |ds| {
      var script := Script(ds[i], payload[ds[i].encOffset..ds[i].encOffset + ds[i].encSize], plans[i], 0);
      FeedAllJoin(p, s, script, WholeScript(payload, ds, plans, i + 1));
      DriveIsFeedAll(p, DriveBlock(p, s, payload, ds[i], plans[i]).1, payload, ds, plans, i + 1);
    } else {
      NothingToFeed(p, s);
    }
  }

  lemma {:induction false} DriveIsScript(p: Prims, s: Stream, payload: Bytes, d: Desc, plan: seq<Cut>)
    requires StreamWF(s) && PlanOk(plan, d.encSize) && InPayload(d, payload)
    ensures DriveBlock(p, s, payload, d, plan) ==
            FeedAll(p, s, Script(d, payload[d.encOffset..d.encOffset + d.encSize], plan, 0))
  {
    hide FeedAll, Script, PlanOk;
  }

  lemma {:induction false} NothingToFeed(p: Prims, s: Stream)
    requires StreamWF(s)
    ensures FeedAll(p, s, []) == (Ok, s)
  {
  }

  // ---- Writing with storage that works

  function GoodWrite(): WriteEnv {
    WriteEnv(true, Succeeded, Succeeded, [])
  }

  function WriteAll(p: Prims, d: Device, script: seq<Chunk>): (Err, Device)
    requires StreamWF(d.rx.stream)
    decreases |script|
  {
    if |script| == 0 then (Ok, d)
    else
      var (err, next) := Write(p, d, script[0], GoodWrite());
      if err != Ok || !StreamWF(next.rx.stream) then (err, next) else WriteAll(p, next, script[1..])
  }

  // Between writes: the slot holds what the validator hashed, and no checkpoint is overdue.
  predicate Steady(d: Device) {
    var s := d.rx.stream;
    && d.rx.active && !s.failed && !s.finished && s.fields == d.rx.fields
    && Kept(s, PrefixOf(s)) && Counted(s.fields) && !CheckpointDue(d.rx)
    && d.rx.partition in d.slots && d.slots[d.rx.partition] == s.image
    && 0 < |d.rx.partition| <= LABEL_MAX && 0 < |d.rx.signedBytes| <= SIGNED_FIELDS_MAX
  }

  // Finishing a block is the only way the offset moves.
  lemma {:induction false} FeedMoves(p: Prims, s: Stream, c: Chunk)
    requires Kept(s, PrefixOf(s)) && !s.failed && !s.finished && OtaStream.Feed(p, s, c, true).0 == Ok
    ensures var t := OtaStream.Feed(p, s, c, true).1;
            t.rawOffset != s.rawOffset ==> !t.active && t.nextIndex == s.nextIndex + 1
  {
    hide CheckDesc, Inflate, ChainStep;
    InflatePlace(p, s, c.bytes, c.final);
    if !s.active {
      InflatePlace(p, StartBlock(p, s, c.desc).1, c.bytes, c.final);
    }
  }

  lemma {:induction false} InflatePlace(p: Prims, s: Stream, chunk: Bytes, final: bool)
    ensures var fed := Inflate(p, s, chunk, final, true).1;
            fed.rawOffset == s.rawOffset && fed.nextIndex == s.nextIndex && fed.active == s.active
  {
  }

  lemma {:induction false} CheckpointSaved(p: Prims, rx: Rx)
    requires Kept(rx.stream, PrefixOf(rx.stream)) && Counted(rx.stream.fields) && Checkpointable(rx.stream)
    requires 0 < |rx.partition| <= LABEL_MAX && 0 < |rx.signedBytes| <= SIGNED_FIELDS_MAX
    ensures CheckpointOk(CheckpointFor(rx, TRANSFERRING, CheckpointOf(p, rx.stream)))
  {
    CheckpointAccepted(p, rx.stream, PrefixOf(rx.stream), rx.stream.image);
  }

  lemma {:induction false} WriteIsFeed(p: Prims, d: Device, c: Chunk)
    requires Steady(d) && StreamWF(d.rx.stream) && OtaStream.Feed(p, d.rx.stream, c, true).0 == Ok
    ensures var (err, next) := Write(p, d, c, GoodWrite());
            && err == Ok && Steady(next) && next.rx.stream == OtaStream.Feed(p, d.rx.stream, c, true).1
            && next.rx == d.rx.(stream := next.rx.stream, checkpointRaw := next.rx.checkpointRaw)
            && next.boot == d.boot
  {
    hide OtaStream.Feed, Kept, Counted, CheckpointOk, CheckpointOf;
    var s, t := d.rx.stream, OtaStream.Feed(p, d.rx.stream, c, true).1;
    S.FeedGrows(p, s, c, true);
    FeedKeeps(p, s, c, true, PrefixOf(s));
    FeedMoves(p, s, c);
    var slot := d.slots[d.rx.partition] + t.output[|s.output|..];
    assert slot == t.image;
    var fed := d.(slots := d.slots[d.rx.partition := slot], rx := d.rx.(stream := t));
    if CheckpointDue(fed.rx) {
      assert Checkpointable(t) by { DueIsCheckpointable(t, d.rx.checkpointRaw); }
      CheckpointSaved(p, fed.rx);
    }
  }

  lemma {:induction false} DueIsCheckpointable(t: Stream, raw: nat)
    requires Kept(t, PrefixOf(t)) && !t.failed && !t.finished && !t.active && t.nextIndex > 0
    requires t.rawOffset < t.fields.rawSize && t.rawOffset % CHECKPOINT_BYTES == 0
    ensures Checkpointable(t)
  {
  }

  lemma {:induction false} WriteAllIsFeedAll(p: Prims, d: Device, script: seq<Chunk>)
    requires Steady(d) && StreamWF(d.rx.stream) && FeedAll(p, d.rx.stream, script).0 == Ok
    ensures var (err, next) := WriteAll(p, d, script);
            && err == Ok && Steady(next) && next.rx.stream == FeedAll(p, d.rx.stream, script).1
            && next.rx == d.rx.(stream := next.rx.stream, checkpointRaw := next.rx.checkpointRaw)
            && next.boot == d.boot
    decreases |script|
  {
    hide Steady, Write, OtaStream.Feed;
    if |script| > 0 {
      WriteIsFeed(p, d, script[0]);
      WriteAllIsFeedAll(p, Write(p, d, script[0], GoodWrite()).1, script[1..]);
    }
  }

  // ---- The whole transfer

  function GoodVerify(): VerifyEnv {
    VerifyEnv(true, Succeeded, Succeeded)
  }

  function GoodActivate(): ActivateEnv {
    ActivateEnv(Ok, Succeeded, Ok, Succeeded)
  }

  // Prepare, write, verify and activate, each with storage that works.
  function Transferred(p: Prims, d: Device, r: Request, env: PrepareEnv, script: seq<Chunk>): (Err, Device)
    requires StreamWF(d.rx.stream)
  {
    var (prepareErr, prepared) := Prepare(p, d, r, env);
    if prepareErr != Ok || !StreamWF(prepared.rx.stream) then (prepareErr, prepared)
    else
      var (writeErr, written) := WriteAll(p, prepared, script);
      if writeErr != Ok || !StreamWF(written.rx.stream) then (writeErr, written)
      else
        var (verifyErr, verified) := VerifyTransfer(p, written, GoodVerify());
        if verifyErr != Ok then (verifyErr, verified)
        else
          var (activateErr, activated, _) := Activate(verified, GoodActivate());
          (activateErr, activated)
  }

  // A device with no transfer under way, a partition to write, and the target's consent.
  predicate CanReceive(d: Device, f: Signed, env: PrepareEnv) {
    && !d.rx.active && !d.rx.verified && StreamWF(d.rx.stream) && d.rx.checkpointRaw == 0
    && Load(d.journal) == None
    && env.preflight == Ok && env.load == Ok && env.flashOk && CheckTarget(f, env.target) == Ok
    && env.next.Some? && env.next.value in d.slots && 0 < |env.next.value| <= LABEL_MAX
  }

  lemma {:induction false} PreparedSteady(p: Prims, d: Device, r: Request, env: PrepareEnv, f: Signed)
    requires VerifySigned(p, r.signedBytes, r.signature) == (Ok, Some(f)) && CanReceive(d, f, env)
    ensures var (err, t) := Prepare(p, d, r, env);
            && err == Ok && Steady(t) && StreamWF(t.rx.stream) && t.rx.stream == Fresh(f)
            && t.rx.partition == env.next.value && t.rx.fields == f && t.boot == d.boot
  {
    hide ZeroChain, CheckTarget;
    FreshKept(f);
  }

  lemma {:induction false} TerminalSaved(rx: Rx, phase: nat)
    requires Startable(rx.fields) && Counted(rx.fields) && rx.fields.encSize > 0
    requires 0 < |rx.partition| <= LABEL_MAX && 0 < |rx.signedBytes| <= SIGNED_FIELDS_MAX
    requires phase == VERIFIED || phase == BOOT_PENDING
    ensures CheckpointOk(CheckpointFor(rx, phase, TerminalPoint(rx.fields)))
  {
  }

  lemma {:induction false} SteadyFinishes(p: Prims, d: Device)
    requires Steady(d) && StreamWF(d.rx.stream) && Finish(p, d.rx.stream).0 == Ok && d.rx.fields.encSize > 0
    ensures var (err, t) := VerifyTransfer(p, d, GoodVerify());
            && err == Ok && t.rx.verified && !t.rx.active && t.slots == d.slots && t.boot == d.boot
            && t.rx == d.rx.(stream := t.rx.stream, active := false, verified := true)
    ensures d.slots[d.rx.partition] == d.rx.stream.image
  {
    hide Counted, CheckpointOk;
    TerminalSaved(d.rx, VERIFIED);
    TerminalSaved(d.rx.(stream := Finish(p, d.rx.stream).1, active := false, verified := true), VERIFIED);
  }

  // From the first byte on, what is put out is what is hashed.
  lemma {:induction false} OutputIsImage(p: Prims, f: Signed, script: seq<Chunk>)
    requires Startable(f) && FeedAll(p, Fresh(f), script).0 == Ok && Finish(p, FeedAll(p, Fresh(f), script).1).0 == Ok
    ensures FeedAll(p, Fresh(f), script).1.image == FeedAll(p, Fresh(f), script).1.output
  {
    FreshKept(f);
    FeedAllKept(p, Fresh(f), script, []);
  }

  // When the validator takes the script and finishes, a device whose storage works boots what it put out.
  lemma {:induction false} TransferBoots(p: Prims, d: Device, r: Request, env: PrepareEnv, f: Signed,
                                         script: seq<Chunk>)
    requires VerifySigned(p, r.signedBytes, r.signature) == (Ok, Some(f)) && CanReceive(d, f, env)
    requires var (err, end) := FeedAll(p, Fresh(f), script); err == Ok && Finish(p, end).0 == Ok
    ensures var (err, t) := Transferred(p, d, r, env, script);
            && err == Ok && t.boot == env.next && env.next.value in t.slots
            && t.slots[env.next.value] == FeedAll(p, Fresh(f), script).1.output
  {
    hide Prepare, WriteAll, VerifyTransfer, VerifySigned, Fresh, FeedAll, Counted, CheckpointOk, Kept, Finish,
         CheckTarget;
    PreparedSteady(p, d, r, env, f);
    AcceptedInRange(p, r.signedBytes, r.signature);
    OutputIsImage(p, f, script);
    var prepared := Prepare(p, d, r, env).1;
    WriteAllIsFeedAll(p, prepared, script);
    var written := WriteAll(p, prepared, script).1;
    SteadyFinishes(p, written);
    TerminalSaved(VerifyTransfer(p, written, GoodVerify()).1.rx, BOOT_PENDING);
  }

  lemma {:induction false} AcceptedInRange(p: Prims, bytes: Bytes, signature: Bytes)
    requires VerifySigned(p, bytes, signature).0 == Ok
    ensures var f := VerifySigned(p, bytes, signature).1.value;
            Startable(f) && Counted(f) && f.encSize > 0
  {
  }

  // What the device's fixed buffers ask of a built artifact.
  predicate FitsDevice(p: Prims, m: Manifest, f: Signed) {
    && P.FitsManifest(m) && FitsSigned(f) && Named(f.project) && Named(f.chip) && Named(f.keyId)
  }

  // What the device makes of a full artifact built for a device it fits.
  lemma {:induction false} BuiltContents(p: Prims, image: Bytes, spec: A.Spec)
    requires BuildLaws(p) && ShaLaw(p) && DecodeLaw(p) && A.Build(p, image, None, spec).Good?
    requires var v := A.Verify(p, A.Build(p, image, None, spec).value, None);
             v.Good? ==> FitsDevice(p, v.value.manifest, v.value.signed)
    ensures var a := A.Build(p, image, None, spec).value;
            var v := A.Verify(p, a, None);
            && v.Good? && A.Parse(p, a).Good?
            && var (m, f, payload) := (v.value.manifest, v.value.signed, A.Parse(p, a).value.payload);
            && VerifySigned(p, m.signedFields, m.signature) == (Ok, Some(f))
            && FieldsFor(f, |m.blocks|, |payload|) && A.SizesOk(f, |m.blocks|, |payload|) && |f.baseSha| == 0
            && Counted(f) && f.encSize > 0
            && A.VerifyContents(p, f, m.blocks, payload, None) == A.Good(image)
  {
    hide A.Build, A.BlocksOf, A.VerifyContents, A.Parse, BuildLaws, P.FitsManifest, FitsSigned, Named, VerifySigned;
    A.BuildThenVerify(p, image, None, spec);
    var a := A.Build(p, image, None, spec).value;
    var v := A.Verify(p, a, None).value;
    var payload := A.Parse(p, a).value.payload;
    BuiltIsFull(p, image, spec);
    PayloadBound(p, a);
    P.FieldsFollow(p, v.manifest, v.signed, payload, None);
    AcceptedInRange(p, v.manifest.signedFields, v.manifest.signature);
    ContentsAsFields(p, v.signed, v.manifest.blocks, payload);
  }

  // From building to booting: a full artifact built for a device it fits, sent block by block in chunks of any
  // cutting with any immediate repeats, is booted with exactly the image it was built from.
  lemma {:induction false} BuiltImageBoots(p: Prims, image: Bytes, spec: A.Spec, d: Device, operation: Bytes,
                                           env: PrepareEnv, plans: seq<seq<Cut>>)
    requires BuildLaws(p) && ShaLaw(p) && InflateLaw(p) && DecodeLaw(p) && A.Build(p, image, None, spec).Good?
    requires var v := A.Verify(p, A.Build(p, image, None, spec).value, None);
             v.Good? ==>
               && FitsDevice(p, v.value.manifest, v.value.signed) && CanReceive(d, v.value.signed, env)
               && PlansOk(v.value.manifest.blocks, plans)
    ensures var a := A.Build(p, image, None, spec).value;
            var v := A.Verify(p, a, None);
            && v.Good? && A.Parse(p, a).Good?
            && var (id, m, f) := (v.value.artifactId, v.value.manifest, v.value.signed);
            && var payload := A.Parse(p, a).value.payload;
            && PlansOk(m.blocks, plans) && StreamWF(d.rx.stream)
            && var (err, t) := Transferred(p, d, Request(operation, id, m.signedFields, m.signature), env,
                                           WholeScript(payload, m.blocks, plans, 0));
            && err == Ok && t.boot == env.next && env.next.value in t.slots && t.slots[env.next.value] == image
  {
    BuiltContents(p, image, spec);
    hide A.Build, A.VerifyContents, A.Parse, A.Verify, BuildLaws, InflateLaw, Prepare, FeedAll, Transferred, Drive,
         Finish, WholeScript, CheckTarget, VerifySigned, PlanOk, FitsDevice;
    var a := A.Build(p, image, None, spec).value;
    var v := A.Verify(p, a, None).value;
    var (id, m, f) := (v.artifactId, v.manifest, v.signed);
    var payload := A.Parse(p, a).value.payload;
    StreamEqualsBatch(p, f, payload, m.blocks, plans, None);
    FreshOk(f);
    DriveIsFeedAll(p, Fresh(f), payload, m.blocks, plans, 0);
    FinishKeepsOutput(p, Drive(p, Fresh(f), payload, m.blocks, plans, 0).1);
    TransferBoots(p, d, Request(operation, id, m.signedFields, m.signature), env, f,
                  WholeScript(payload, m.blocks, plans, 0));
  }

  lemma {:induction false} FreshOk(f: Signed)
    ensures StreamWF(Fresh(f))
  {
    hide ZeroChain;
  }

  lemma {:induction false} FinishKeepsOutput(p: Prims, s: Stream)
    requires StreamWF(s)
    ensures Finish(p, s).1.output == s.output
  {
  }

  lemma {:induction false} PayloadBound(p: Prims, a: Bytes)
    requires A.Parse(p, a).Good?
    ensures |A.Parse(p, a).value.payload| <= MAX_PACKAGE
    ensures p.decodeSigned(A.Parse(p, a).value.manifest.signedFields) == Some(A.Parse(p, a).value.signed)
  {
    hide A.FromLe, A.Magic;
  }

  lemma {:induction false} ContentsAsFields(p: Prims, f: Signed, ds: seq<Desc>, payload: Bytes)
    requires A.VerifyContents(p, f, ds, payload, None).Good? && f.codec.FullDeflate? && |f.imageSha| == SHA_LEN
    ensures FieldsFor(f, |ds|, |payload|) && A.SizesOk(f, |ds|, |payload|) && |f.baseSha| == 0
  {
    hide A.VerifyBlocks, ChainFrom;
  }

  lemma {:induction false} BuiltIsFull(p: Prims, image: Bytes, spec: A.Spec)
    requires BuildLaws(p) && ShaLaw(p) && A.Build(p, image, None, spec).Good?
    requires A.Verify(p, A.Build(p, image, None, spec).value, None).Good?
    ensures A.Verify(p, A.Build(p, image, None, spec).value, None).value.signed.codec.FullDeflate?
  {
    hide A.BuildBlocks, A.VerifyContents, A.Parse, ChainFrom, ZeroChain, A.VerifyParsed;
    var (ds, payload) := A.BuildBlocks(p, image, None, 0, []).value;
    var signed := p.encodeSigned(A.SignedOf(p, image, None, spec, ds, payload));
    assert BuilderSigned(A.SignedOf(p, image, None, spec, ds, payload));
    A.BuiltShape(p, image, None, 0, []);
    A.ParseAssembled(p, Manifest(signed, ds, p.sign(signed)), payload);
  }
}
