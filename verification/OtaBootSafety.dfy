// Over any run of transfers, aborts, activations, storage failures and restarts: when the boot partition is
// set, it holds the whole signed image and the journal says so.
module OtaBootSafety {
  import opened Base
  import opened OtaTypes
  import opened OtaFields
  import opened OtaStream
  import opened OtaResume
  import opened OtaJournal
  import opened OtaReceiver

  datatype Action =
    | Handle(transfer: Transfer, env: Env)
    | PrepareCall(request: Request, prepareEnv: PrepareEnv)
    | WriteCall(chunk: Chunk, writeEnv: WriteEnv)
    | VerifyCall(verifyEnv: VerifyEnv)
    | ActivateCall(activateEnv: ActivateEnv)
    | AbortCall(operation: Bytes, artifact: Bytes, load: Err, abort: BlobWrite)
    | AbortCurrentCall(current: BlobWrite)
    | Restart(scribble: Option<Bytes>)  // RAM is lost; a write that was going on may have left anything

  function RestartDevice(d: Device, scribble: Option<Bytes>): Device {
    var slots := if d.rx.active && scribble.Some? then d.slots[d.rx.partition := scribble.value] else d.slots;
    d.(rx := Idle(), slots := slots)
  }

  // The device after an action, and as it was when the boot partition was set, if it was.
  function Act(p: Prims, d: Device, a: Action): (Device, Option<Device>)
    requires StreamWF(d.rx.stream)
  {
    match a
    case Handle(t, env) => (HandleTransfer(p, d, t, env).1, None)
    case PrepareCall(r, env) => (Prepare(p, d, r, env).1, None)
    case WriteCall(c, env) => (Write(p, d, c, env).1, None)
    case VerifyCall(env) => (VerifyTransfer(p, d, env).1, None)
    case ActivateCall(env) => (Activate(d, env).1, Activate(d, env).2)
    case AbortCall(op, artifact, load, w) => (Abort(d, op, artifact, load, w).1, None)
    case AbortCurrentCall(w) => (AbortCurrent(d, w).1, None)
    case Restart(scribble) => (RestartDevice(d, scribble), None)
  }

  // What must hold when the boot partition is set.
  predicate SafeCall(p: Prims, d: Device) {
    && VerifySigned(p, d.rx.signedBytes, d.rx.signature) == (Ok, Some(d.rx.fields))
    && d.rx.partition in d.slots
    && |d.slots[d.rx.partition]| == d.rx.fields.rawSize && p.sha(d.slots[d.rx.partition]) == d.rx.fields.imageSha
    && var c := Load(d.journal);
    && c.Some? && c.value.phase == BOOT_PENDING
    && c.value.operation == d.rx.operation && c.value.artifact == d.rx.artifact
    && c.value.partition == d.rx.partition && c.value.signedFields == d.rx.signedBytes
    && c.value.signature == d.rx.signature
  }

  // ---- The journal under one write

  lemma {:induction false} SaveEffect(s: Slots, c: Checkpoint, w: BlobWrite)
    requires JournalOk(s) && Age(s) < LAST_GENERATION
    ensures var (err, t) := Save(s, c, w);
            && JournalOk(t) && Age(t) <= Age(s) + 1
            && (Load(t) == Load(s) || Load(t) == Some(c))
            && (err == Ok ==> Load(t) == Some(c))
  {
    hide CheckpointOk, WriteRecord, JournalOk, Latest;
    if CheckpointOk(c) {
      WriteIsAtomic(s, Some(c), w);
    }
  }

  lemma {:induction false} ClearEffect(s: Slots, w: BlobWrite)
    requires JournalOk(s) && Age(s) < LAST_GENERATION
    ensures var (err, t) := Clear(s, w);
            && JournalOk(t) && Age(t) <= Age(s) + 1
            && (Load(t) == Load(s) || Load(t) == None)
            && (err == Ok ==> Load(t) == None)
  {
    hide CheckpointOk, WriteRecord, JournalOk, Latest;
    WriteIsAtomic(s, None, w);
  }

  // ---- Each operation keeps the invariant

  lemma {:induction false} IdleOk(p: Prims)
    ensures StreamWF(Idle().stream) && !Idle().active && !Idle().verified
  {
    hide ZeroChain;
  }

  lemma {:induction false} FailKeeps(p: Prims, d: Device, err: Err, w: BlobWrite)
    requires JournalOk(d.journal) && Age(d.journal) < LAST_GENERATION && TerminalHolds(p, d)
    ensures var t := FailWith(d, err, w).1;
            DeviceOk(p, t) && Age(t.journal) <= Age(d.journal) + 1
  {
    hide Holds, JournalOk, Load, Clear, Kept, Idle;
    ClearEffect(d.journal, w);
    IdleOk(p);
  }

  lemma {:induction false} PrepareKeeps(p: Prims, d: Device, r: Request, env: PrepareEnv)
    requires DeviceOk(p, d)
    ensures DeviceOk(p, Prepare(p, d, r, env).1) && Prepare(p, d, r, env).1.journal == d.journal
  {
    hide CheckTarget, DeviceOk, Load, PrepareIdle, VerifySigned;
    if !d.rx.active && !d.rx.verified && VerifySigned(p, r.signedBytes, r.signature).0 == Ok &&
       env.next.Some? && env.next.value in d.slots {
      PrepareIdleKeeps(p, d, r, VerifySigned(p, r.signedBytes, r.signature).1.value, env.next.value, env);
    }
  }

  lemma {:induction false} PrepareIdleKeeps(p: Prims, d: Device, r: Request, f: Signed, partition: string,
                                            env: PrepareEnv)
    requires DeviceOk(p, d) && !d.rx.active && !d.rx.verified && partition in d.slots
    requires VerifySigned(p, r.signedBytes, r.signature) == (Ok, Some(f))
    ensures var t := PrepareIdle(p, d, r, f, partition, env).1;
            DeviceOk(p, t) && t.journal == d.journal
  {
    hide VerifySigned, JournalOk, Load, Resumed, Kept, Fresh, StreamWF;
    IdleOk(p);
    var c := Load(d.journal);
    if env.load == Ok {
      if c.None? {
        PrepareFreshKeeps(p, d, r, f, partition, env);
      } else if c.value.phase == TRANSFERRING {
        PrepareResumeKeeps(p, d, r, f, c.value, partition, env);
      }
    }
  }

  lemma {:induction false} PrepareFreshKeeps(p: Prims, d: Device, r: Request, f: Signed, partition: string,
                                             env: PrepareEnv)
    requires DeviceOk(p, d) && !d.rx.active && !d.rx.verified && partition in d.slots && Load(d.journal) == None
    requires VerifySigned(p, r.signedBytes, r.signature) == (Ok, Some(f))
    ensures var t := PrepareFresh(d, r, f, partition, env).1;
            DeviceOk(p, t) && t.journal == d.journal
  {
    hide VerifySigned, JournalOk, Load, Kept, ZeroChain, Holds;
    IdleOk(p);
    if Startable(f) {
      FreshKept(f);
    }
  }

  lemma {:induction false} PrepareResumeKeeps(p: Prims, d: Device, r: Request, f: Signed, c: Checkpoint,
                                              partition: string,
                           env: PrepareEnv)
    requires DeviceOk(p, d) && !d.rx.active && !d.rx.verified && partition in d.slots
    requires Load(d.journal) == Some(c) && c.phase == TRANSFERRING
    requires VerifySigned(p, r.signedBytes, r.signature) == (Ok, Some(f))
    ensures var t := PrepareResume(p, d, r, f, c, partition, env).1;
            DeviceOk(p, t) && t.journal == d.journal
  {
    hide VerifySigned, JournalOk, Load, Kept, ZeroChain, Holds;
    IdleOk(p);
    var (err, s) := Resumed(p, f, c.resume, d.slots[partition]);
    if err == Ok {
      ResumedKept(p, f, c.resume, d.slots[partition]);
      assert s.image == d.slots[partition][..c.resume.rawOffset] && s.output == [];
      assert StreamWF(s) && !s.failed && !s.finished && PrefixOf(s) == s.image;
    }
  }

  // A feed only adds output, and while it succeeds the image grows by just that.
  lemma {:induction false} FeedGrows(p: Prims, s: Stream, c: Chunk, sinkOk: bool)
    requires Kept(s, PrefixOf(s)) && !s.failed && !s.finished && OtaStream.Feed(p, s, c, sinkOk).0 == Ok
    ensures var t := OtaStream.Feed(p, s, c, sinkOk).1;
            && !t.failed && !t.finished && t.fields == s.fields
            && |s.output| <= |t.output| && t.image == s.image + t.output[|s.output|..]
            && PrefixOf(t) == PrefixOf(s) && Kept(t, PrefixOf(t))
  {
    FeedKeeps(p, s, c, sinkOk, PrefixOf(s));
    FeedOutput(p, s, c, sinkOk);
    assert s.image == PrefixOf(s) + s.output by { assert Coherent(s, PrefixOf(s)); }
  }

  lemma {:induction false} FeedOutput(p: Prims, s: Stream, c: Chunk, sinkOk: bool)
    requires StreamWF(s) && !s.failed && !s.finished && OtaStream.Feed(p, s, c, sinkOk).0 == Ok
    ensures var t := OtaStream.Feed(p, s, c, sinkOk).1;
            && !t.failed && !t.finished
            && |s.output| <= |t.output| && s.output == t.output[..|s.output|]
            && t.image == s.image + t.output[|s.output|..]
  {
    hide CheckDesc, ChainStep, FeedActive;
    if IsRepeat(s, c) {
      assert s.output[|s.output|..] == [];
    } else if !s.active {
      var (err, started) := StartBlock(p, s, c.desc);
      if err == Ok { ActiveOutput(p, started, c, sinkOk); }
    } else {
      ActiveOutput(p, s, c, sinkOk);
    }
  }

  lemma {:induction false} ActiveOutput(p: Prims, s: Stream, c: Chunk, sinkOk: bool)
    requires s.blockOffset <= s.block.encSize && !s.failed && !s.finished && FeedActive(p, s, c, sinkOk).0 == Ok
    ensures var t := FeedActive(p, s, c, sinkOk).1;
            && !t.failed && !t.finished
            && |s.output| <= |t.output| && s.output == t.output[..|s.output|]
            && t.image == s.image + t.output[|s.output|..]
  {
  }

  lemma {:induction false} WriteKeeps(p: Prims, d: Device, c: Chunk, env: WriteEnv)
    requires DeviceOk(p, d) && Age(d.journal) + 2 <= LAST_GENERATION
    ensures var t := Write(p, d, c, env).1;
            DeviceOk(p, t) && Age(t.journal) <= Age(d.journal) + 2
  {
    hide Age, CheckpointDue, CheckpointFor, CheckpointOf, Checkpointable, Coherent, FailWith, Feed, Holds,
         JournalOk, Kept, Load, PrefixOf, Save, StreamWF, VerifiedRx, VerifySigned, WriteCheckpoint;
    if d.rx.active {
      assert ActiveRx(p, d);
      var (err, s) := OtaStream.Feed(p, d.rx.stream, c, env.sinkOk);
      if err != Ok {
        var bad := Scribbled(d, d.rx.partition, env.scribble);
        assert TerminalHolds(p, bad) && bad.journal == d.journal;
        FailKeeps(p, bad, err, env.clear);
      } else {
        FeedGrows(p, d.rx.stream, c, env.sinkOk);
        var slot := d.slots[d.rx.partition] + s.output[|d.rx.stream.output|..];
        var fed := d.(slots := d.slots[d.rx.partition := slot], rx := d.rx.(stream := s));
        assert ActiveRx(p, fed) && TerminalHolds(p, fed);
        CheckpointKeeps(p, fed, env);
      }
    }
  }

  lemma {:induction false} CheckpointKeeps(p: Prims, d: Device, env: WriteEnv)
    requires JournalOk(d.journal) && TerminalHolds(p, d) && StreamWF(d.rx.stream) && d.rx.active && ActiveRx(p, d)
    requires Age(d.journal) + 2 <= LAST_GENERATION
    ensures var t := WriteCheckpoint(p, d, env).1;
            DeviceOk(p, t) && Age(t.journal) <= Age(d.journal) + 2
  {
    hide Age, CheckpointDue, CheckpointOf, CheckpointOk, Checkpointable, FailWith, Holds, JournalOk, Kept, Load,
         PrefixOf, Save, StreamWF, VerifiedRx, VerifySigned;
    if CheckpointDue(d.rx) {
      if !Checkpointable(d.rx.stream) {
        FailKeeps(p, d, InvalidState, env.clear);
      } else {
        var c := CheckpointFor(d.rx, TRANSFERRING, CheckpointOf(p, d.rx.stream));
        assert c.phase == TRANSFERRING;
        SaveEffect(d.journal, c, env.save);
        var (err, journal) := Save(d.journal, c, env.save);
        var saved := d.(journal := journal);
        assert NotTerminal(saved) && TerminalHolds(p, saved);
        if err != Ok {
          FailKeeps(p, saved, err, env.clear);
        } else {
        }
      }
    } else {
    }
  }

  lemma {:induction false} VerifyKeeps(p: Prims, d: Device, env: VerifyEnv)
    requires DeviceOk(p, d) && Age(d.journal) + 2 <= LAST_GENERATION
    ensures var t := VerifyTransfer(p, d, env).1;
            DeviceOk(p, t) && Age(t.journal) <= Age(d.journal) + 2
  {
    hide ActiveRx, Age, CheckpointFor, FailWith, Finish, Holds, JournalOk, Load, SaveTerminal, StreamWF,
         TerminalPoint, VerifySigned;
    if d.rx.active {
      var (err, s) := Finish(p, d.rx.stream);
      if err != Ok {
        FailKeeps(p, d, err, env.clear);
      } else if !env.endOk {
        FailKeeps(p, d, Failed, env.clear);
      } else {
        var done := d.(rx := d.rx.(stream := s, active := false, verified := true));
        assert VerifiedRx(p, done) && TerminalHolds(p, done) by {
          FinishedSlot(p, d);
        }
        SaveTerminalKeeps(p, done, VERIFIED, env.save);
        var (saveErr, saved) := SaveTerminal(done, VERIFIED, env.save);
        if saveErr != Ok {
          FailKeeps(p, saved, saveErr, env.clear);
        }
      }
    }
  }

  // When finish succeeds, the slot holds the signed image.
  lemma {:induction false} FinishedSlot(p: Prims, d: Device)
    requires StreamWF(d.rx.stream) && ActiveRx(p, d) && Finish(p, d.rx.stream).0 == Ok
    ensures Holds(p, d.slots, d.rx.partition, d.rx.signedBytes, d.rx.signature)
    ensures VerifySigned(p, d.rx.signedBytes, d.rx.signature) == (Ok, Some(d.rx.fields))
    ensures StreamWF(Finish(p, d.rx.stream).1)
  {
    hide VerifySigned;
  }

  // A terminal record of a verified receiver, written or not, is true.
  lemma {:induction false} SaveTerminalKeeps(p: Prims, d: Device, phase: nat, w: BlobWrite)
    requires JournalOk(d.journal) && TerminalHolds(p, d) && StreamWF(d.rx.stream) && Age(d.journal) < LAST_GENERATION
    requires !d.rx.active && d.rx.verified && VerifiedRx(p, d)
    ensures var (err, t) := SaveTerminal(d, phase, w);
            && DeviceOk(p, t) && Age(t.journal) <= Age(d.journal) + 1
            && t.rx == d.rx && t.slots == d.slots
            && (err == Ok ==> Load(t.journal) == Some(CheckpointFor(d.rx, phase, TerminalPoint(d.rx.fields))))
  {
    hide JournalOk, Load, Save, VerifySigned, StreamWF;
    SaveEffect(d.journal, CheckpointFor(d.rx, phase, TerminalPoint(d.rx.fields)), w);
  }

  lemma {:induction false} ActivateKeeps(p: Prims, d: Device, env: ActivateEnv)
    requires DeviceOk(p, d) && Age(d.journal) + 2 <= LAST_GENERATION
    ensures var (err, t, call) := Activate(d, env);
            && DeviceOk(p, t) && Age(t.journal) <= Age(d.journal) + 2
            && (call.Some? ==> SafeCall(p, call.value) && call.value.slots == d.slots)
            && (err == Ok ==> call.Some? && t.boot == Some(call.value.rx.partition))
            && (call.None? ==> t.boot == d.boot)
  {
    hide ActiveRx, Age, JournalOk, Load, Save, StreamWF, TerminalPoint, VerifySigned;
    if !d.rx.active && d.rx.verified && env.preflight == Ok {
      SaveTerminalKeeps(p, d, BOOT_PENDING, env.save);
      var (err, pending) := SaveTerminal(d, BOOT_PENDING, env.save);
      assert pending.boot == d.boot;
      if err == Ok && env.bootErr != Ok {
        SaveTerminalKeeps(p, pending, VERIFIED, env.restore);
      }
    }
  }

  lemma {:induction false} AbortCurrentKeeps(p: Prims, d: Device, w: BlobWrite)
    requires DeviceOk(p, d) && Age(d.journal) < LAST_GENERATION
    ensures var t := AbortCurrent(d, w).1;
            DeviceOk(p, t) && Age(t.journal) <= Age(d.journal) + 1
  {
    hide JournalOk, Load, Clear, VerifySigned, Kept, StreamWF, Idle;
    ClearEffect(d.journal, w);
    IdleOk(p);
  }

  lemma {:induction false} AbortKeeps(p: Prims, d: Device, operation: Bytes, artifact: Bytes, load: Err, w: BlobWrite)
    requires DeviceOk(p, d) && Age(d.journal) < LAST_GENERATION
    ensures var t := Abort(d, operation, artifact, load, w).1;
            DeviceOk(p, t) && Age(t.journal) <= Age(d.journal) + 1
  {
    hide DeviceOk, Age, AbortCurrent, Load;
    AbortCurrentKeeps(p, d, w);
  }

  lemma {:induction false} RestartKeeps(p: Prims, d: Device, scribble: Option<Bytes>)
    requires DeviceOk(p, d)
    ensures DeviceOk(p, RestartDevice(d, scribble)) && RestartDevice(d, scribble).journal == d.journal
  {
    hide JournalOk, Load, VerifySigned, Kept, StreamWF, Idle;
    IdleOk(p);
  }

  // ---- Runs

  lemma {:induction false} ActKeeps(p: Prims, d: Device, a: Action)
    requires DeviceOk(p, d) && StreamWF(d.rx.stream) && Age(d.journal) + 2 <= LAST_GENERATION
    ensures var (t, call) := Act(p, d, a);
            && DeviceOk(p, t) && Age(t.journal) <= Age(d.journal) + 2
            && (call.Some? ==> SafeCall(p, call.value))
  {
    hide AbortCurrent, Activate, ActiveRx, Age, DeviceOk, Feed, Finish, HandleTransfer, Load, Prepare, PrepareShape,
         RestartDevice, SafeCall, SameOperation, SaveTerminal, Scribbled, StreamWF, TerminalHolds, VerifiedRx,
         VerifySigned, VerifyTransfer, Write;
    match a
    case Handle(t, env) => HandleKeeps(p, d, t, env);
    case PrepareCall(r, env) => PrepareKeeps(p, d, r, env);
    case WriteCall(c, env) => WriteKeeps(p, d, c, env);
    case VerifyCall(env) => VerifyKeeps(p, d, env);
    case ActivateCall(env) => ActivateKeeps(p, d, env);
    case AbortCall(op, artifact, load, w) => AbortKeeps(p, d, op, artifact, load, w);
    case AbortCurrentCall(w) => AbortCurrentKeeps(p, d, w);
    case Restart(scribble) => RestartKeeps(p, d, scribble);
  }

  lemma {:induction false} HandleKeeps(p: Prims, d: Device, t: Transfer, env: Env)
    requires DeviceOk(p, d) && StreamWF(d.rx.stream) && Age(d.journal) + 2 <= LAST_GENERATION
    ensures var end := HandleTransfer(p, d, t, env).1;
            DeviceOk(p, end) && Age(end.journal) <= Age(d.journal) + 2
  {
    hide AbortCurrent, ActiveRx, Age, CommitShape, DeviceOk, Feed, Finish, Load, Matching, Persisted, Prepare,
         SameOperation, SaveTerminal, Scribbled, StreamWF, TerminalHolds, VerifiedRx, VerifySigned, VerifyTransfer,
         Write;
    match t
    case PrepareBody(op, artifact, signedBytes, signature, _, _) =>
      if PrepareShape(t) {
        assert op.Some?;
        PrepareKeeps(p, d, Request(op.value, artifact, signedBytes, signature), env.prepare);
      }
    case DataBody(op, artifact, block, offset, data, final) =>
      if block.Some? { WriteKeeps(p, d, Chunk(block.value, offset, data, final), env.write); }
    case CommitBody(_, _, _, _) => VerifyKeeps(p, d, env.verify);
    case AbortBody(op, artifact) =>
      if op.Some? { AbortKeeps(p, d, op.value, artifact, env.load, env.clear); }
    case QueryBody(_, _) =>
    case OtherBody =>
  }

  // The device after a run, and the device at each setting of the boot partition.
  function RunActions(p: Prims, d: Device, actions: seq<Action>): (Device, seq<Device>)
    requires StreamWF(d.rx.stream)
    decreases |actions|
  {
    if |actions| == 0 then (d, [])
    else
      var (t, call) := Act(p, d, actions[0]);
      if !StreamWF(t.rx.stream) then (t, [])
      else
        var (end, calls) := RunActions(p, t, actions[1..]);
        (end, if call.Some? then [call.value] + calls else calls)
  }

  // The device as delivered: nothing in the journal, the receiver idle.
  function Blank(slots: map<string, Bytes>): Device {
    Device(Idle(), slots, OtaJournal.Blank(), None)
  }

  // In any run the journal's generations can number, every setting of the boot partition is safe; and in the
  // end a verified or boot-pending journal still tells the truth about its slot.
  lemma {:induction false} BootSelectionSafe(p: Prims, d: Device, actions: seq<Action>)
    requires DeviceOk(p, d) && StreamWF(d.rx.stream) && Age(d.journal) + 2 * |actions| <= LAST_GENERATION
    ensures var (end, calls) := RunActions(p, d, actions);
            && DeviceOk(p, end)
            && forall i :: 0 <= i < |calls| ==> SafeCall(p, calls[i])
    decreases |actions|
  {
    hide Act, SafeCall, Age, ActiveRx, VerifiedRx, TerminalHolds, JournalOk;
    if |actions| > 0 {
      ActKeeps(p, d, actions[0]);
      var (t, call) := Act(p, d, actions[0]);
      assert StreamWF(t.rx.stream);
      BootSelectionSafe(p, t, actions[1..]);
    }
  }

  lemma {:induction false} BlankDeviceOk(p: Prims, slots: map<string, Bytes>)
    ensures DeviceOk(p, Blank(slots)) && Age(Blank(slots).journal) == 0
  {
    hide VerifySigned, ZeroChain;
    IdleOk(p);
  }
}
