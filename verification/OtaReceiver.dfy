// The flash receiver (keemash_ota_v3_flash_receiver.c): one transfer at a time into an inactive slot, a
// journal that survives restarts, and the selection of the slot to boot.
//
// The flash is, per partition, the bytes written to it in order.  What the outside decides is a parameter of
// each step: whether the safety preflight passes, whether flash and journal writes succeed, and what a failed
// flash operation leaves behind.
module OtaReceiver {
  import opened Base
  import opened OtaTypes
  import opened OtaFields
  import opened OtaStream
  import opened OtaResume
  import opened OtaJournal

  datatype Rx = Rx(stream: Stream, partition: string, fields: Signed, operation: Bytes, artifact: Bytes,
                   signature: Bytes, signedBytes: Bytes, checkpointRaw: nat,
                   active: bool, verified: bool, resumed: bool)

  datatype Device = Device(rx: Rx, slots: map<string, Bytes>, journal: Slots, boot: Option<string>)

  datatype Request = Request(operation: Bytes, artifact: Bytes, signedBytes: Bytes, signature: Bytes)

  const NO_FIELDS: Signed := Signed(0, "", "", "", "", 0, 0, 0, 0, 0, OtherCodec(0), [], [], [], [], 0, 0, 0, "")

  function Idle(): Rx {
    Rx(Fresh(NO_FIELDS), "", NO_FIELDS, [], [], [], [], 0, false, false, false)
  }

  // ---- Checkpoints of the receiver

  function CheckpointFor(rx: Rx, phase: nat, at: Resume): Checkpoint {
    Checkpoint(phase, rx.operation, rx.artifact, rx.signature, rx.signedBytes, rx.partition, at)
  }

  function TerminalPoint(f: Signed): Resume {
    Resume(f.blockCount, f.rawSize, f.encSize, f.tableSha, f.imageSha)
  }

  function SaveTerminal(d: Device, phase: nat, w: BlobWrite): (Err, Device) {
    var (err, journal) := Save(d.journal, CheckpointFor(d.rx, phase, TerminalPoint(d.rx.fields)), w);
    (err, d.(journal := journal))
  }

  // fail_receiver
  function FailWith(d: Device, err: Err, w: BlobWrite): (Err, Device) {
    (err, d.(rx := Idle(), journal := Clear(d.journal, w).1))
  }

  // A flash operation on the receiver's partition failed and left `scribble` there.
  function Scribbled(d: Device, partition: string, scribble: Bytes): Device {
    d.(slots := d.slots[partition := scribble])
  }

  // ---- prepare

  datatype PrepareEnv = PrepareEnv(target: Target, preflight: Err, next: Option<string>, load: Err, flashOk: bool,
                                   scribble: Bytes)

  predicate SameRequest(operation: Bytes, artifact: Bytes, signedBytes: Bytes, signature: Bytes, r: Request) {
    operation == r.operation && artifact == r.artifact && signedBytes == r.signedBytes && signature == r.signature
  }

  function Accepting(d: Device, r: Request, f: Signed, partition: string): Rx {
    d.rx.(partition := partition, fields := f, operation := r.operation, artifact := r.artifact,
          signature := r.signature, signedBytes := r.signedBytes)
  }

  // A verified or boot-pending transfer of this very request survives a restart.
  function PrepareTerminal(d: Device, r: Request, f: Signed, c: Checkpoint): (Err, Device) {
    if !SameRequest(c.operation, c.artifact, c.signedFields, c.signature, r) then (InvalidState, d)
    else if c.partition !in d.slots then (NotFound, d)
    else (Ok, d.(rx := Accepting(d, r, f, c.partition).(verified := true, resumed := true)))
  }

  lemma {:induction false} ResumedWithin(p: Prims, f: Signed, at: Resume, flash: Bytes)
    requires Resumed(p, f, at, flash).0 == Ok
    ensures at.rawOffset <= |flash|
  {
  }

  function PrepareResume(p: Prims, d: Device, r: Request, f: Signed, c: Checkpoint, partition: string, env: PrepareEnv)
    : (Err, Device)
    requires partition in d.slots
  {
    if !SameRequest(c.operation, c.artifact, c.signedFields, c.signature, r) || c.partition != partition then
      (InvalidState, d)
    else
      var (err, s) := Resumed(p, f, c.resume, d.slots[partition]);
      if err != Ok then (err, d.(rx := Idle()))
      else if !env.flashOk then (Failed, Scribbled(d, partition, env.scribble).(rx := Idle()))
      else
        (Ok, d.(slots := d.slots[partition := d.slots[partition][..c.resume.rawOffset]],
                rx := Accepting(d, r, f, partition).(stream := s, checkpointRaw := c.resume.rawOffset,
                                                     active := true, resumed := true)))
  }

  function PrepareFresh(d: Device, r: Request, f: Signed, partition: string, env: PrepareEnv): (Err, Device) {
    if !Startable(f) then (InvalidArg, d.(rx := Idle()))
    else if !env.flashOk then (Failed, Scribbled(d, partition, env.scribble).(rx := Idle()))
    else
      (Ok, d.(slots := d.slots[partition := []],
              rx := Accepting(d, r, f, partition).(stream := Fresh(f), active := true)))
  }

  function PrepareIdle(p: Prims, d: Device, r: Request, f: Signed, partition: string, env: PrepareEnv): (Err, Device)
    requires partition in d.slots
  {
    var c := Load(d.journal);
    if env.load != Ok then (env.load, d)
    else if c.None? then PrepareFresh(d, r, f, partition, env)
    else if c.value.phase == TRANSFERRING then PrepareResume(p, d, r, f, c.value, partition, env)
    else PrepareTerminal(d, r, f, c.value)
  }

  function Prepare(p: Prims, d: Device, r: Request, env: PrepareEnv): (Err, Device) {
    if |r.signedBytes| == 0 || |r.signedBytes| > SIGNED_FIELDS_MAX then (InvalidArg, d)
    else if d.rx.active || d.rx.verified then
      (if SameRequest(d.rx.operation, d.rx.artifact, d.rx.signedBytes, d.rx.signature, r) then Ok else InvalidState, d)
    else
      var (err, signed) := VerifySigned(p, r.signedBytes, r.signature);
      if err != Ok then (err, d)
      else if env.preflight != Ok then (env.preflight, d)
      else if env.next.None? || env.next.value !in d.slots then (NotFound, d)
      else if CheckTarget(signed.value, env.target) != Ok then (CheckTarget(signed.value, env.target), d)
      else PrepareIdle(p, d, r, signed.value, env.next.value, env)
  }

  // ---- write

  datatype WriteEnv = WriteEnv(sinkOk: bool, save: BlobWrite, clear: BlobWrite, scribble: Bytes)

  predicate CheckpointDue(rx: Rx) {
    && rx.stream.rawOffset != rx.checkpointRaw && rx.stream.rawOffset != 0
    && rx.stream.rawOffset < rx.fields.rawSize && rx.stream.rawOffset % CHECKPOINT_BYTES == 0
  }

  // The checkpoint after a feed.
  function WriteCheckpoint(p: Prims, d: Device, env: WriteEnv): (Err, Device) {
    if !CheckpointDue(d.rx) then (Ok, d)
    else if !Checkpointable(d.rx.stream) then FailWith(d, InvalidState, env.clear)
    else
      var (err, journal) := Save(d.journal, CheckpointFor(d.rx, TRANSFERRING, CheckpointOf(p, d.rx.stream)), env.save);
      var saved := d.(journal := journal);
      if err != Ok then FailWith(saved, err, env.clear)
      else (Ok, saved.(rx := d.rx.(checkpointRaw := d.rx.stream.rawOffset)))
  }

  function Write(p: Prims, d: Device, c: Chunk, env: WriteEnv): (Err, Device)
    requires StreamWF(d.rx.stream)
  {
    if !d.rx.active then (InvalidState, d)
    else
      var (err, s) := OtaStream.Feed(p, d.rx.stream, c, env.sinkOk);
      if err != Ok then FailWith(Scribbled(d, d.rx.partition, env.scribble), err, env.clear)
      else
        var was, now := |d.rx.stream.output|, |s.output|;
        var written := if was <= now then s.output[was..] else [];
        var slot := (if d.rx.partition in d.slots then d.slots[d.rx.partition] else []) + written;
        WriteCheckpoint(p, d.(slots := d.slots[d.rx.partition := slot], rx := d.rx.(stream := s)), env)
  }

  // ---- verify

  datatype VerifyEnv = VerifyEnv(endOk: bool, save: BlobWrite, clear: BlobWrite)

  function VerifyTransfer(p: Prims, d: Device, env: VerifyEnv): (Err, Device)
    requires StreamWF(d.rx.stream)
  {
    if !d.rx.active then (InvalidState, d)
    else
      var (err, s) := Finish(p, d.rx.stream);
      if err != Ok then FailWith(d, err, env.clear)
      else if !env.endOk then FailWith(d, Failed, env.clear)
      else
        var (saveErr, saved) :=
          SaveTerminal(d.(rx := d.rx.(stream := s, active := false, verified := true)), VERIFIED, env.save);
        if saveErr != Ok then FailWith(saved, saveErr, env.clear) else (Ok, saved)
  }

  // ---- activate: also the device as it is when the boot partition is set

  datatype ActivateEnv = ActivateEnv(preflight: Err, save: BlobWrite, bootErr: Err, restore: BlobWrite)

  function Activate(d: Device, env: ActivateEnv): (Err, Device, Option<Device>) {
    if d.rx.active || !d.rx.verified then (InvalidState, d, None)
    else if env.preflight != Ok then (env.preflight, d, None)
    else
      var (err, pending) := SaveTerminal(d, BOOT_PENDING, env.save);
      if err != Ok then (err, pending, None)
      else if env.bootErr == Ok then (Ok, pending.(boot := Some(d.rx.partition)), Some(pending))
      else
        var (restoreErr, restored) := SaveTerminal(pending, VERIFIED, env.restore);
        (if restoreErr == Ok then env.bootErr else restoreErr, restored, Some(pending))
  }

  // ---- abort

  function AbortCurrent(d: Device, w: BlobWrite): (Err, Device) {
    if !d.rx.active && !d.rx.verified then (InvalidState, d)
    else
      var (err, journal) := Clear(d.journal, w);
      if err != Ok then (err, d.(journal := journal)) else (Ok, d.(journal := journal, rx := Idle()))
  }

  predicate SameOperation(rx: Rx, operation: Bytes, artifact: Bytes) {
    rx.operation == operation && rx.artifact == artifact
  }

  function Abort(d: Device, operation: Bytes, artifact: Bytes, load: Err, w: BlobWrite): (Err, Device) {
    if (d.rx.active || d.rx.verified) && !SameOperation(d.rx, operation, artifact) then (InvalidState, d)
    else if !d.rx.active && !d.rx.verified && load != Ok then (load, d)
    else if !d.rx.active && !d.rx.verified && Load(d.journal).None? then (NotFound, d)
    else if !d.rx.active && !d.rx.verified &&
            (Load(d.journal).value.operation != operation || Load(d.journal).value.artifact != artifact) then
      (InvalidState, d)
    else AbortCurrent(d, w)
  }

  // ---- handle_transfer

  datatype Transfer =
    | PrepareBody(operation: Option<Bytes>, artifact: Bytes, signedBytes: Bytes, signature: Bytes,
                  chunkSize: nat, window: nat)
    | DataBody(operation: Option<Bytes>, artifact: Bytes, block: Option<Desc>, offset: nat, data: Bytes, final: bool)
    | CommitBody(operation: Option<Bytes>, artifact: Bytes, tableSha: Bytes, imageSha: Bytes)
    | AbortBody(operation: Option<Bytes>, artifact: Bytes)
    | QueryBody(operation: Option<Bytes>, artifact: Bytes)
    | OtherBody

  datatype Env = Env(prepare: PrepareEnv, write: WriteEnv, verify: VerifyEnv, load: Err, clear: BlobWrite)

  predicate Matching(rx: Rx, operation: Bytes, artifact: Bytes) {
    |artifact| == SHA_LEN && (rx.active || rx.verified) && SameOperation(rx, operation, artifact)
  }

  predicate PrepareShape(t: Transfer)
    requires t.PrepareBody?
  {
    && t.operation.Some? && |t.artifact| == SHA_LEN && |t.signature| == SIGNATURE_LEN && |t.signedBytes| != 0
    && (t.chunkSize == 0 || t.chunkSize == 1024 || t.chunkSize == 2048) && t.window <= 4
  }

  predicate CommitShape(rx: Rx, t: Transfer)
    requires t.CommitBody?
  {
    && t.operation.Some? && Matching(rx, t.operation.value, t.artifact)
    && |t.tableSha| == SHA_LEN && |t.imageSha| == SHA_LEN
    && t.tableSha == rx.fields.tableSha && t.imageSha == rx.fields.imageSha
  }

  // match_persisted_transfer
  function Persisted(d: Device, operation: Bytes, artifact: Bytes, load: Err): Err {
    if |artifact| != SHA_LEN then InvalidArg
    else if load != Ok then load
    else if Load(d.journal).None? || Load(d.journal).value.operation != operation ||
            Load(d.journal).value.artifact != artifact then NotFound
    else Ok
  }

  function HandleTransfer(p: Prims, d: Device, t: Transfer, env: Env): (Err, Device)
    requires StreamWF(d.rx.stream)
  {
    match t
    case PrepareBody(op, artifact, signedBytes, signature, _, _) =>
      if !PrepareShape(t) then (InvalidArg, d)
      else Prepare(p, d, Request(op.value, artifact, signedBytes, signature), env.prepare)
    case DataBody(op, artifact, block, offset, data, final) =>
      if op.None? || block.None? || |data| == 0 || !Matching(d.rx, op.value, artifact) then (InvalidArg, d)
      else Write(p, d, Chunk(block.value, offset, data, final), env.write)
    case CommitBody(_, _, _, _) =>
      if !CommitShape(d.rx, t) then (InvalidArg, d)
      else if d.rx.verified then (Ok, d)
      else VerifyTransfer(p, d, env.verify)
    case AbortBody(op, artifact) =>
      if op.None? || |artifact| != SHA_LEN then (InvalidArg, d)
      else Abort(d, op.value, artifact, env.load, env.clear)
    case QueryBody(op, artifact) =>
      if op.None? then (InvalidArg, d)
      else if Matching(d.rx, op.value, artifact) then (Ok, d)
      else (Persisted(d, op.value, artifact, env.load), d)
    case OtherBody => (NotSupported, d)
  }

  // ---- The invariant

  // The partition holds the whole image these signed bytes stand for.
  predicate Holds(p: Prims, slots: map<string, Bytes>, partition: string, signedBytes: Bytes, signature: Bytes) {
    && var (err, signed) := VerifySigned(p, signedBytes, signature);
    && err == Ok && partition in slots
    && |slots[partition]| == signed.value.rawSize && p.sha(slots[partition]) == signed.value.imageSha
  }

  predicate TerminalHolds(p: Prims, d: Device) {
    var c := Load(d.journal);
    c.Some? && c.value.phase != TRANSFERRING ==>
      Holds(p, d.slots, c.value.partition, c.value.signedFields, c.value.signature)
  }

  predicate NotTerminal(d: Device) {
    Load(d.journal).Some? ==> Load(d.journal).value.phase == TRANSFERRING
  }

  function PrefixOf(s: Stream): Bytes {
    if |s.output| <= |s.image| then s.image[..|s.image| - |s.output|] else []
  }

  predicate ActiveRx(p: Prims, d: Device) {
    var s := d.rx.stream;
    && !d.rx.verified && NotTerminal(d)
    && VerifySigned(p, d.rx.signedBytes, d.rx.signature) == (Ok, Some(d.rx.fields))
    && !s.failed && !s.finished && s.fields == d.rx.fields && Kept(s, PrefixOf(s))
    && d.rx.partition in d.slots && d.slots[d.rx.partition] == s.image
  }

  predicate VerifiedRx(p: Prims, d: Device) {
    && VerifySigned(p, d.rx.signedBytes, d.rx.signature) == (Ok, Some(d.rx.fields))
    && Holds(p, d.slots, d.rx.partition, d.rx.signedBytes, d.rx.signature)
  }

  predicate DeviceOk(p: Prims, d: Device) {
    && JournalOk(d.journal) && TerminalHolds(p, d)
    && StreamWF(d.rx.stream)
    && (d.rx.active ==> ActiveRx(p, d))
    && (d.rx.verified ==> VerifiedRx(p, d))
  }
}
