// What each message of a transfer achieves, and a whole transfer sent as messages
// (keemash_ota_v3_flash_receiver.c:412-503).
module OtaMessages {
  import opened Base
  import opened OtaTypes
  import opened OtaFields
  import opened OtaStream
  import opened OtaEquivalence
  import opened OtaResume
  import opened OtaJournal
  import opened OtaReceiver
  import opened OtaAbort
  import opened OtaPrepare
  import opened OtaTransfer
  import A = OtaArtifact
  import S = OtaBootSafety

  // The receiver has this operation on this artifact.
  predicate HasOn(rx: Rx, operation: Option<Bytes>, artifact: Bytes) {
    && operation.Some? && |artifact| == 32 && (rx.active || rx.verified)
    && rx.operation == operation.value && rx.artifact == artifact
  }

  // ---- prepare

  // A preparation is looked at when it names an operation, its artifact and signature are whole, it has signed
  // fields, and it asks for chunks and a window the device knows; then it is what is prepared.
  lemma {:induction false} PrepareMessage(p: Prims, d: Device, t: Transfer, env: Env)
    requires StreamWF(d.rx.stream) && t.PrepareBody?
    ensures var legal := t.operation.Some? && |t.artifact| == 32 && |t.signature| == 64 && |t.signedBytes| > 0 &&
                         t.chunkSize in {0, 1024, 2048} && t.window <= 4;
            && (!legal ==> HandleTransfer(p, d, t, env) == (InvalidArg, d))
            && (legal ==>
                  HandleTransfer(p, d, t, env) ==
                  Prepare(p, d, Request(t.operation.value, t.artifact, t.signedBytes, t.signature), env.prepare))
  {
    hide Prepare;
  }

  // ---- data

  // What the stream has put out beyond `was`.
  function NewOutput(was: Stream, now: Stream): Bytes {
    if |was.output| <= |now.output| then now.output[|was.output|..] else []
  }

  // A checkpoint is due: the validator is at another multiple of 64 KiB, not yet at the end.
  predicate Due(rx: Rx) {
    rx.stream.rawOffset != rx.checkpointRaw && 0 < rx.stream.rawOffset < rx.fields.rawSize &&
    rx.stream.rawOffset % 65536 == 0
  }

  // Data of the transfer under way are taken exactly when the validator takes them and, where a checkpoint falls
  // due, it is saved.  Then the slot has gained what the validator put out, and the journal has the checkpoint if
  // one was due.  Else the transfer is given up.
  lemma {:induction false} DataMessage(p: Prims, d: Device, t: Transfer, env: Env)
    requires DeviceOk(p, d) && Age(d.journal) + 2 <= LAST_GENERATION && t.DataBody? && !(d.rx.active && Due(d.rx))
    ensures var (err, end) := HandleTransfer(p, d, t, env);
            var legal := HasOn(d.rx, t.operation, t.artifact) && t.block.Some? && |t.data| > 0;
            && (!legal ==> err == InvalidArg && end == d)
            && (legal && !d.rx.active ==> err == InvalidState && end == d)
            && (legal && d.rx.active ==>
                  Taken(p, d, Chunk(t.block.value, t.offset, t.data, t.final), env.write, err, end))
  {
    hide Write, Taken, DeviceOk, Due;
    if HasOn(d.rx, t.operation, t.artifact) && t.block.Some? && |t.data| > 0 {
      var c := Chunk(t.block.value, t.offset, t.data, t.final);
      assert HandleTransfer(p, d, t, env) == Write(p, d, c, env.write) by { WellFormed(p, d); }
      if d.rx.active { WriteExactly(p, d, c, env.write); } else { WriteIdle(p, d, c, env.write); }
    }
  }

  lemma {:induction false} WellFormed(p: Prims, d: Device)
    requires DeviceOk(p, d)
    ensures StreamWF(d.rx.stream)
  {
  }

  lemma {:induction false} WriteIdle(p: Prims, d: Device, c: Chunk, env: WriteEnv)
    requires StreamWF(d.rx.stream) && !d.rx.active
    ensures Write(p, d, c, env) == (InvalidState, d)
  {
  }

  // The outcome of writing a chunk.
  predicate Taken(p: Prims, d: Device, c: Chunk, env: WriteEnv, err: Err, end: Device) {
    && StreamWF(d.rx.stream) && d.rx.partition in d.slots
    && var (fed, s) := OtaStream.Feed(p, d.rx.stream, c, env.sinkOk);
    var due := Due(d.rx.(stream := s));
    && (err == Ok <==> fed == Ok && (due ==> env.save.Succeeded? && 0 < |d.rx.partition| <= 16))
    && (err == Ok ==>
          && end.rx == d.rx.(stream := s, checkpointRaw := if due then s.rawOffset else d.rx.checkpointRaw)
          && end.boot == d.boot
          && end.slots == d.slots[d.rx.partition := d.slots[d.rx.partition] + NewOutput(d.rx.stream, s)]
          && (due ==> Load(end.journal) == Some(CheckpointFor(d.rx, TRANSFERRING, CheckpointOf(p, s))))
          && (!due ==> end.journal == d.journal))
    && (err != Ok ==> GivenUp(d, env.clear, end))
  }

  // The receiver is idle, and its checkpoint gone if the tombstone could be written.
  predicate GivenUp(d: Device, w: BlobWrite, end: Device) {
    !Live(end.rx) && end.boot == d.boot && (w.Succeeded? ==> Load(end.journal) == None)
  }

  lemma {:induction false} FailGivesUp(d: Device, err: Err, w: BlobWrite)
    requires JournalOk(d.journal) && Age(d.journal) < LAST_GENERATION
    ensures FailWith(d, err, w).0 == err && GivenUp(d, w, FailWith(d, err, w).1)
  {
    hide Age, JournalOk, Load, Clear, Fresh;
    S.ClearEffect(d.journal, w);
    ClearSucceeds(d.journal, w);
  }

  lemma {:induction false} ClearSucceeds(s: Slots, w: BlobWrite)
    ensures Clear(s, w).0 == Ok <==> w.Succeeded?
  {
    hide WriteRecord;
  }

  // A feed that is taken although the sink takes nothing does as if the sink took everything.
  lemma {:induction false} SinkUnused(p: Prims, s: Stream, c: Chunk)
    requires StreamWF(s) && OtaStream.Feed(p, s, c, false).0 == Ok
    ensures OtaStream.Feed(p, s, c, false) == OtaStream.Feed(p, s, c, true)
  {
    hide CheckDesc, ChainStep, FinishBlock;
  }

  lemma {:induction false} WriteExactly(p: Prims, d: Device, c: Chunk, env: WriteEnv)
    requires DeviceOk(p, d) && Age(d.journal) + 2 <= LAST_GENERATION && d.rx.active && !Due(d.rx)
    ensures StreamWF(d.rx.stream) && var (err, end) := Write(p, d, c, env); Taken(p, d, c, env, err, end)
  {
    hide OtaStream.Feed, Kept, Age, JournalOk, TerminalHolds, VerifiedRx, WriteCheckpoint, FailWith, PrefixOf,
         VerifySigned, Counted, Load, GivenUp, Save, CheckpointOf, CheckpointFor, Due;
    var (fed, s) := OtaStream.Feed(p, d.rx.stream, c, env.sinkOk);
    if fed != Ok {
      FailGivesUp(Scribbled(d, d.rx.partition, env.scribble), fed, env.clear);
      SameFlash(d, Scribbled(d, d.rx.partition, env.scribble), env.clear, fed);
    } else {
      if !env.sinkOk { SinkUnused(p, d.rx.stream, c); }
      S.FeedGrows(p, d.rx.stream, c, env.sinkOk);
      FeedMoves(p, d.rx.stream, c);
      SignedCounts(p, d);
      var slot := d.slots[d.rx.partition] + NewOutput(d.rx.stream, s);
      var now := d.(slots := d.slots[d.rx.partition := slot], rx := d.rx.(stream := s));
      CheckpointExactly(p, d, now, env);
      assert Write(p, d, c, env) == WriteCheckpoint(p, now, env);
    }
  }

  lemma {:induction false} SameFlash(d: Device, m: Device, w: BlobWrite, err: Err)
    requires m.boot == d.boot && GivenUp(m, w, FailWith(m, err, w).1)
    ensures GivenUp(d, w, FailWith(m, err, w).1)
  {
    hide FailWith;
  }

  lemma {:induction false} SignedCounts(p: Prims, d: Device)
    requires StreamWF(d.rx.stream) && d.rx.active && ActiveRx(p, d)
    ensures Counted(d.rx.fields) && 0 < |d.rx.signedBytes| <= SIGNED_FIELDS_MAX
  {
    AcceptedInRange(p, d.rx.signedBytes, d.rx.signature);
  }

  lemma {:induction false} CheckpointExactly(p: Prims, d: Device, now: Device, env: WriteEnv)
    requires JournalOk(d.journal) && Age(d.journal) + 2 <= LAST_GENERATION && !Due(d.rx) && now.journal == d.journal
    requires now == d.(slots := now.slots, rx := d.rx.(stream := now.rx.stream))
    requires now.rx.fields == now.rx.stream.fields
    requires var s := now.rx.stream;
             && Kept(s, PrefixOf(s)) && !s.failed && !s.finished && Counted(s.fields)
             && (s.rawOffset != d.rx.stream.rawOffset ==> !s.active && s.nextIndex > 0)
    requires 0 < |d.rx.signedBytes| <= SIGNED_FIELDS_MAX
    ensures var (err, end) := WriteCheckpoint(p, now, env);
            && (err == Ok <==> (Due(now.rx) ==> env.save.Succeeded? && 0 < |d.rx.partition| <= 16))
            && (err == Ok ==>
                  && end == now.(rx := now.rx.(checkpointRaw := end.rx.checkpointRaw), journal := end.journal)
                  && end.rx.checkpointRaw == (if Due(now.rx) then now.rx.stream.rawOffset else d.rx.checkpointRaw)
                  && (Due(now.rx) ==>
                        Load(end.journal) == Some(CheckpointFor(d.rx, TRANSFERRING, CheckpointOf(p, now.rx.stream))))
                  && (!Due(now.rx) ==> end.journal == d.journal))
            && (err != Ok ==> GivenUp(d, env.clear, end))
  {
    hide Kept, PrefixOf, Counted, Age, JournalOk, Load, GivenUp, FailWith, Save, CheckpointOf;
    assert CheckpointDue(now.rx) == Due(now.rx);
    if Due(now.rx) {
      var s := now.rx.stream;
      assert s.rawOffset != d.rx.stream.rawOffset;
      DueIsCheckpointable(s, d.rx.checkpointRaw);
      var c := CheckpointFor(now.rx, TRANSFERRING, CheckpointOf(p, s));
      if 0 < |d.rx.partition| <= LABEL_MAX { CheckpointSaved(p, now.rx); }
      SaveExactly(d.journal, c, env.save);
      S.SaveEffect(d.journal, c, env.save);
      hide CheckpointDue, Checkpointable, CheckpointOk;
      var (err, journal) := Save(d.journal, c, env.save);
      if err != Ok {
        FailGivesUp(now.(journal := journal), err, env.clear);
        SameFlash(d, now.(journal := journal), env.clear, err);
      }
    }
  }

  // A checkpoint is saved exactly when it reads back and its blob is written.
  lemma {:induction false} SaveExactly(s: Slots, c: Checkpoint, w: BlobWrite)
    ensures Save(s, c, w).0 == Ok <==> CheckpointOk(c) && w.Succeeded?
  {
    hide CheckpointOk, WriteRecord;
  }

  // ---- Checkpoints are never overdue

  predicate Punctual(d: Device) {
    d.rx.active ==> !Due(d.rx)
  }

  lemma {:induction false} PreparePunctual(p: Prims, d: Device, r: Request, env: PrepareEnv)
    requires Punctual(d)
    ensures Punctual(Prepare(p, d, r, env).1)
  {
    hide VerifySigned, CheckTarget, Load, ZeroChain;
  }

  lemma {:induction false} WritePunctual(p: Prims, d: Device, c: Chunk, env: WriteEnv)
    requires DeviceOk(p, d) && Age(d.journal) + 2 <= LAST_GENERATION && Punctual(d)
    ensures StreamWF(d.rx.stream) && Punctual(Write(p, d, c, env).1)
  {
    hide Write, Age, OtaStream.Feed, CheckpointFor, CheckpointOf, Load;
    if d.rx.active { WriteExactly(p, d, c, env); } else { WriteIdle(p, d, c, env); }
  }

  lemma {:induction false} OthersPunctual(p: Prims, d: Device, a: S.Action)
    requires StreamWF(d.rx.stream) && Punctual(d) && !a.Handle? && !a.PrepareCall? && !a.WriteCall?
    ensures Punctual(S.Act(p, d, a).0)
  {
    hide Save, Clear, Finish, Load, CheckpointFor, Due;
  }

  lemma {:induction false} HandlePunctual(p: Prims, d: Device, t: Transfer, env: Env)
    requires DeviceOk(p, d) && Age(d.journal) + 2 <= LAST_GENERATION && Punctual(d)
    ensures StreamWF(d.rx.stream) && Punctual(HandleTransfer(p, d, t, env).1)
  {
    hide Prepare, Write, Age, Punctual, VerifyTransfer, Abort, DeviceOk;
    WellFormed(p, d);
    match t
    case PrepareBody(op, artifact, signedBytes, signature, _, _) =>
      if op.Some? { PreparePunctual(p, d, Request(op.value, artifact, signedBytes, signature), env.prepare); }
    case DataBody(_, _, block, offset, data, final) =>
      if block.Some? { WritePunctual(p, d, Chunk(block.value, offset, data, final), env.write); }
    case CommitBody(_, _, _, _) => OthersPunctual(p, d, S.VerifyCall(env.verify));
    case AbortBody(op, artifact) =>
      if op.Some? { OthersPunctual(p, d, S.AbortCall(op.value, artifact, env.load, env.clear)); }
    case _ =>
  }

  // In any run, whenever a transfer is under way every checkpoint that fell due was saved.
  lemma {:induction false} NeverOverdue(p: Prims, d: Device, actions: seq<S.Action>)
    requires DeviceOk(p, d) && StreamWF(d.rx.stream) && Age(d.journal) + 2 * |actions| <= LAST_GENERATION
    requires Punctual(d)
    ensures Punctual(S.RunActions(p, d, actions).0)
    decreases |actions|
  {
    hide S.Act, Age, DeviceOk, Punctual;
    if |actions| > 0 {
      S.ActKeeps(p, d, actions[0]);
      ActPunctual(p, d, actions[0]);
      var t := S.Act(p, d, actions[0]).0;
      if StreamWF(t.rx.stream) { NeverOverdue(p, t, actions[1..]); }
    }
  }

  lemma {:induction false} ActPunctual(p: Prims, d: Device, a: S.Action)
    requires DeviceOk(p, d) && StreamWF(d.rx.stream) && Age(d.journal) + 2 <= LAST_GENERATION && Punctual(d)
    ensures Punctual(S.Act(p, d, a).0)
  {
    hide Prepare, Write, VerifyTransfer, Activate, Abort, AbortCurrent, HandleTransfer, Age, Punctual, DeviceOk;
    match a
    case Handle(t, env) => HandlePunctual(p, d, t, env);
    case PrepareCall(r, env) => PreparePunctual(p, d, r, env);
    case WriteCall(c, env) => WritePunctual(p, d, c, env);
    case _ => OthersPunctual(p, d, a);
  }

  // ---- commit

  // The transfer is complete: verified for this operation, with its table and image hashes, its partition holding
  // the signed image.
  predicate Committed(p: Prims, d: Device, t: Transfer) {
    && t.CommitBody? && HasOn(d.rx, t.operation, t.artifact) && d.rx.verified
    && |t.tableSha| == |t.imageSha| == 32 && t.tableSha == d.rx.fields.tableSha && t.imageSha == d.rx.fields.imageSha
    && VerifySigned(p, d.rx.signedBytes, d.rx.signature) == (Ok, Some(d.rx.fields))
    && d.rx.partition in d.slots
    && |d.slots[d.rx.partition]| == d.rx.fields.rawSize && p.sha(d.slots[d.rx.partition]) == d.rx.fields.imageSha
  }

  // The journal says that the transfer is verified.
  predicate NotedVerified(d: Device) {
    Load(d.journal) == Some(CheckpointFor(d.rx, VERIFIED, TerminalPoint(d.rx.fields)))
  }

  // A commit is answered Ok exactly when the transfer is complete afterwards.  One under way is completed exactly
  // when the validator finishes, the flash accepts the end, and the journal takes the record; else it is given up.
  // One verified already stays as it is, as does everything else.
  lemma {:induction false} CommitMessage(p: Prims, d: Device, t: Transfer, env: Env)
    requires DeviceOk(p, d) && Age(d.journal) + 2 <= LAST_GENERATION && t.CommitBody?
    ensures StreamWF(d.rx.stream)
    ensures var (err, end) := HandleTransfer(p, d, t, env);
            var legal := HasOn(d.rx, t.operation, t.artifact) && |t.tableSha| == |t.imageSha| == 32 &&
                         t.tableSha == d.rx.fields.tableSha && t.imageSha == d.rx.fields.imageSha;
            && (err == Ok <==> Committed(p, end, t)) && end.boot == d.boot
            && (!legal ==> err == InvalidArg && end == d)
            && (legal && d.rx.verified ==> err == Ok && end == d)
            && (legal && !d.rx.verified ==>
                  && (err == Ok <==> Finish(p, d.rx.stream).0 == Ok && env.verify.endOk && env.verify.save.Succeeded? &&
                                     0 < |d.rx.partition| <= 16)
                  && (err == Ok ==> NotedVerified(end) && !end.rx.active && end.slots == d.slots)
                  && (err != Ok ==> GivenUp(d, env.verify.clear, end)))
  {
    hide VerifyTransfer, Committed, NotedVerified, GivenUp, Finish, Age;
    WellFormed(p, d);
    var legal := HasOn(d.rx, t.operation, t.artifact) && |t.tableSha| == |t.imageSha| == 32 &&
                 t.tableSha == d.rx.fields.tableSha && t.imageSha == d.rx.fields.imageSha;
    assert legal == CommitShape(d.rx, t);
    if !legal {
      NotCommitted(p, d, t);
    } else if d.rx.verified {
      StaysCommitted(p, d, t);
    } else {
      hide DeviceOk, CommitShape, HasOn;
      assert HandleTransfer(p, d, t, env) == VerifyTransfer(p, d, env.verify);
      assert d.rx.active by { Underway(d, t); }
      VerifyExactly(p, d, env.verify);
      CommittedNow(p, d, VerifyTransfer(p, d, env.verify).1, t, env.verify);
    }
  }

  lemma {:induction false} Underway(d: Device, t: Transfer)
    requires t.CommitBody? && HasOn(d.rx, t.operation, t.artifact) && !d.rx.verified
    ensures d.rx.active
  {
  }

  lemma {:induction false} NotCommitted(p: Prims, d: Device, t: Transfer)
    requires t.CommitBody?
    requires !(HasOn(d.rx, t.operation, t.artifact) && |t.tableSha| == |t.imageSha| == 32 &&
               t.tableSha == d.rx.fields.tableSha && t.imageSha == d.rx.fields.imageSha)
    ensures !Committed(p, d, t)
  {
    hide VerifySigned;
  }

  lemma {:induction false} StaysCommitted(p: Prims, d: Device, t: Transfer)
    requires DeviceOk(p, d) && t.CommitBody? && HasOn(d.rx, t.operation, t.artifact) && d.rx.verified
    requires |t.tableSha| == |t.imageSha| == 32
    requires t.tableSha == d.rx.fields.tableSha && t.imageSha == d.rx.fields.imageSha
    ensures Committed(p, d, t)
  {
    hide VerifySigned;
  }

  lemma {:induction false} CommittedNow(p: Prims, d: Device, end: Device, t: Transfer, env: VerifyEnv)
    requires t.CommitBody? && HasOn(d.rx, t.operation, t.artifact) && |t.tableSha| == |t.imageSha| == 32
    requires t.tableSha == d.rx.fields.tableSha && t.imageSha == d.rx.fields.imageSha
    requires Live(end.rx) ==> end.rx == d.rx.(stream := end.rx.stream, active := false, verified := true)
    requires end.rx.verified ==> DeviceOk(p, end)
    ensures Committed(p, end, t) <==> end.rx.verified
  {
    hide VerifySigned;
  }

  // What verifying achieves.
  lemma {:induction false} VerifyExactly(p: Prims, d: Device, env: VerifyEnv)
    requires DeviceOk(p, d) && Age(d.journal) + 2 <= LAST_GENERATION && d.rx.active
    ensures StreamWF(d.rx.stream)
    ensures var (err, end) := VerifyTransfer(p, d, env);
            && (err == Ok <==> Finish(p, d.rx.stream).0 == Ok && env.endOk && env.save.Succeeded? &&
                               0 < |d.rx.partition| <= 16)
            && (err == Ok ==>
                  && end.rx == d.rx.(stream := end.rx.stream, active := false, verified := true)
                  && end.slots == d.slots && end.boot == d.boot && NotedVerified(end))
            && (err != Ok ==> GivenUp(d, env.clear, end) && !Live(end.rx) && end.boot == d.boot)
            && DeviceOk(p, end)
  {
    hide Finish, Age, JournalOk, TerminalHolds, VerifiedRx, FailWith, VerifySigned, Counted, Load, Save, Kept,
         CheckpointFor, TerminalPoint, Startable;
    S.VerifyKeeps(p, d, env);
    SignedCounts(p, d);
    SignedStarts(p, d);
    hide ActiveRx;
    var (err, s) := Finish(p, d.rx.stream);
    if err != Ok {
      FailGivesUp(d, err, env.clear);
    } else if !env.endOk {
      FailGivesUp(d, Failed, env.clear);
    } else {
      var done := d.(rx := d.rx.(stream := s, active := false, verified := true));
      var c := CheckpointFor(done.rx, VERIFIED, TerminalPoint(d.rx.fields));
      SaveExactly(d.journal, c, env.save);
      S.SaveEffect(d.journal, c, env.save);
      TerminalOk(done.rx);
      hide CheckpointOk;
      var (saveErr, journal) := Save(d.journal, c, env.save);
      if saveErr != Ok {
        FailGivesUp(done.(journal := journal), saveErr, env.clear);
        SameFlash(d, done.(journal := journal), env.clear, saveErr);
      }
    }
  }

  lemma {:induction false} SignedStarts(p: Prims, d: Device)
    requires StreamWF(d.rx.stream) && d.rx.active && ActiveRx(p, d)
    ensures Startable(d.rx.fields) && d.rx.fields.encSize > 0
  {
    AcceptedInRange(p, d.rx.signedBytes, d.rx.signature);
  }

  lemma {:induction false} TerminalOk(rx: Rx)
    requires Startable(rx.fields) && Counted(rx.fields) && rx.fields.encSize > 0
    requires 0 < |rx.signedBytes| <= SIGNED_FIELDS_MAX
    ensures CheckpointOk(CheckpointFor(rx, VERIFIED, TerminalPoint(rx.fields))) <==> 0 < |rx.partition| <= 16
    ensures CheckpointOk(CheckpointFor(rx, BOOT_PENDING, TerminalPoint(rx.fields))) <==> 0 < |rx.partition| <= 16
  {
  }

  // ---- abort, query and the rest

  // An abort that names an operation and a whole artifact hash ends the live transfer of just that operation, when
  // its tombstone is written; then nothing is left of it.  Else the receiver has what it had.
  lemma {:induction false} AbortMessage(p: Prims, d: Device, t: Transfer, env: Env)
    requires DeviceOk(p, d) && Age(d.journal) + 2 <= LAST_GENERATION && t.AbortBody?
    ensures StreamWF(d.rx.stream)
    ensures var (err, end) := HandleTransfer(p, d, t, env);
            && (err == Ok <==> HasOn(d.rx, t.operation, t.artifact) && env.clear.Succeeded?)
            && (err == Ok ==> !Live(end.rx) && Load(end.journal) == None)
            && (err != Ok ==> end.rx == d.rx)
            && (!HasOn(d.rx, t.operation, t.artifact) ==> end == d)
            && (t.operation.None? || |t.artifact| != 32 ==> err == InvalidArg)
            && end.slots == d.slots && end.boot == d.boot
  {
    hide Abort, Age, Load, JournalOk, Fresh;
    WellFormed(p, d);
    if t.operation.Some? {
      AbortExactly(d, t.operation.value, t.artifact, env.load, env.clear);
      AbortForgets(d, t.operation.value, t.artifact, env.load, env.clear);
    }
  }

  // The journal has a checkpoint of this operation on this artifact.
  predicate JournalHas(d: Device, operation: Bytes, artifact: Bytes) {
    var c := Load(d.journal);
    c.Some? && c.value.operation == operation && c.value.artifact == artifact
  }

  // A query is answered Ok exactly when the transfer is live or, as far as the journal can be read, in it.  It
  // changes nothing.
  lemma {:induction false} QueryMessage(p: Prims, d: Device, t: Transfer, env: Env)
    requires StreamWF(d.rx.stream) && t.QueryBody?
    ensures var (err, end) := HandleTransfer(p, d, t, env);
            var whole := t.operation.Some? && |t.artifact| == 32;
            && end == d
            && (err == Ok <==>
                  || HasOn(d.rx, t.operation, t.artifact)
                  || (whole && env.load == Ok && JournalHas(d, t.operation.value, t.artifact)))
            && (!whole ==> err == InvalidArg)
            && (whole && env.load == Ok && err != Ok ==> err == NotFound)
  {
    hide Load;
  }

  lemma {:induction false} OtherMessage(p: Prims, d: Device, env: Env)
    requires StreamWF(d.rx.stream)
    ensures HandleTransfer(p, d, OtherBody, env) == (NotSupported, d)
  {
  }

  // ---- activate

  // Activation succeeds exactly for a verified transfer, when the preflight passes, the journal takes the
  // boot-pending record and the partition is selected; a selection that fails is taken back in the journal.
  lemma {:induction false} ActivateExactly(p: Prims, d: Device, env: ActivateEnv)
    requires DeviceOk(p, d) && Age(d.journal) + 2 <= LAST_GENERATION
    ensures var (err, end, _) := Activate(d, env);
            && end.rx == d.rx && end.slots == d.slots
            && (err == Ok <==>
                  && d.rx.verified && !d.rx.active && env.preflight == Ok && env.save.Succeeded?
                  && 0 < |d.rx.partition| <= 16 && env.bootErr == Ok)
            && end.boot == (if err == Ok then Some(d.rx.partition) else d.boot)
            && (err == Ok ==> Load(end.journal) == Some(CheckpointFor(d.rx, BOOT_PENDING, TerminalPoint(d.rx.fields))))
            && (err != Ok && (!d.rx.verified || d.rx.active || env.preflight != Ok) ==> end == d)
            && (d.rx.verified && !d.rx.active && env.preflight == Ok && env.save.Succeeded? && env.bootErr != Ok ==>
                  0 < |d.rx.partition| <= 16 && env.restore.Succeeded? ==> err == env.bootErr && NotedVerified(end))
  {
    hide Age, JournalOk, TerminalHolds, ActiveRx, VerifySigned, Counted, Load, Save, CheckpointFor, TerminalPoint,
         Startable, StreamWF;
    if d.rx.verified && !d.rx.active && env.preflight == Ok {
      AcceptedInRange(p, d.rx.signedBytes, d.rx.signature);
      AcceptedBytes(p, d);
      TerminalOk(d.rx);
      var c := CheckpointFor(d.rx, BOOT_PENDING, TerminalPoint(d.rx.fields));
      SaveExactly(d.journal, c, env.save);
      S.SaveEffect(d.journal, c, env.save);
      var (err, journal) := Save(d.journal, c, env.save);
      SaveExactly(journal, CheckpointFor(d.rx, VERIFIED, TerminalPoint(d.rx.fields)), env.restore);
      S.SaveEffect(journal, CheckpointFor(d.rx, VERIFIED, TerminalPoint(d.rx.fields)), env.restore);
      hide CheckpointOk;
    }
  }

  lemma {:induction false} AcceptedBytes(p: Prims, d: Device)
    requires VerifySigned(p, d.rx.signedBytes, d.rx.signature).0 == Ok
    ensures 0 < |d.rx.signedBytes| <= SIGNED_FIELDS_MAX
  {
  }
}
