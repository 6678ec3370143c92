// What an abort can and cannot do about a transfer the journal holds (keemash_ota_v3_flash_receiver.c:332-367).
module OtaAbort {
  import opened Base
  import opened OtaTypes
  import opened OtaFields
  import opened OtaStream
  import opened OtaResume
  import opened OtaJournal
  import opened OtaReceiver
  import opened OtaBootSafety

  predicate Live(rx: Rx) {
    rx.active || rx.verified
  }

  // ---- One abort

  // An abort succeeds exactly for the live transfer of that operation, when its tombstone is written; then the
  // receiver is idle.  Otherwise it still has what it had.
  lemma {:induction false} AbortExactly(d: Device, operation: Bytes, artifact: Bytes, load: Err, w: BlobWrite)
    ensures var (err, t) := Abort(d, operation, artifact, load, w);
            && (err == Ok <==> Live(d.rx) && SameOperation(d.rx, operation, artifact) && w.Succeeded?)
            && t.rx == (if err == Ok then Idle() else d.rx)
            && t.slots == d.slots && t.boot == d.boot
            && (!Live(d.rx) || !SameOperation(d.rx, operation, artifact) ==> t == d)
  {
    hide Load, WriteRecord, Idle;
  }

  // And its checkpoint is gone; a failed abort may have removed it too, but leaves no other.
  lemma {:induction false} AbortForgets(d: Device, operation: Bytes, artifact: Bytes, load: Err, w: BlobWrite)
    requires JournalOk(d.journal) && Age(d.journal) < LAST_GENERATION
    ensures var (err, t) := Abort(d, operation, artifact, load, w);
            && (err == Ok ==> Load(t.journal) == None)
            && (Load(t.journal) == None || Load(t.journal) == Load(d.journal))
  {
    hide Load, WriteRecord, Idle, Clear, Age, JournalOk;
    ClearEffect(d.journal, w);
  }

  // After a restart the checkpoint's own operation cannot be aborted.
  lemma {:induction false} RestartedCannotAbort(d: Device, scribble: Option<Bytes>, c: Checkpoint, w: BlobWrite)
    requires Load(d.journal) == Some(c)
    ensures var restarted := RestartDevice(d, scribble);
            Abort(restarted, c.operation, c.artifact, Ok, w) == (InvalidState, restarted)
  {
    hide Load;
  }

  // ---- While a checkpoint stands and the receiver is idle

  predicate Stands(d: Device, c: Checkpoint) {
    !Live(d.rx) && StreamWF(d.rx.stream) && Load(d.journal) == Some(c)
  }

  // The checkpoint can still be resumed: its fields verify, and a transfer's partition has the bytes it covers.
  predicate Resumable(p: Prims, d: Device, c: Checkpoint) {
    var (err, f) := VerifySigned(p, c.signedFields, c.signature);
    && err == Ok && c.partition in d.slots
    && (c.phase == TRANSFERRING ==> Resumed(p, f.value, c.resume, d.slots[c.partition]).0 == Ok)
  }

  predicate Asked(c: Checkpoint, r: Request) {
    SameRequest(c.operation, c.artifact, c.signedFields, c.signature, r)
  }

  // Preparing another request, or this one when the partition has lost its bytes, changes nothing; when all
  // else is in order it is the journal that refuses.
  lemma {:induction false} PrepareRefused(p: Prims, d: Device, c: Checkpoint, r: Request, env: PrepareEnv)
    requires Stands(d, c) && !(Asked(c, r) && Resumable(p, d, c))
    ensures var (err, t) := Prepare(p, d, r, env);
            && err != Ok && (t == d || t == d.(rx := Idle()))
            && (VerifySigned(p, r.signedBytes, r.signature).0 == Ok && env.preflight == Ok && env.load == Ok &&
                env.next.Some? && env.next.value in d.slots && !Asked(c, r) &&
                CheckTarget(VerifySigned(p, r.signedBytes, r.signature).1.value, env.target) == Ok ==>
                  err == InvalidState && t == d)
  {
    hide Load, Resumed, CheckTarget, StreamWF, Startable;
    if |r.signedBytes| > 0 {
      assert VerifySigned(p, r.signedBytes, r.signature).0 == Ok ==> |r.signedBytes| <= SIGNED_FIELDS_MAX;
      hide VerifySigned;
    }
  }

  // An action that prepares the checkpoint's own request.
  predicate Asks(c: Checkpoint, a: Action) {
    match a
    case PrepareCall(r, _) => Asked(c, r)
    case Handle(t, _) =>
      && t.PrepareBody? && t.operation.Some?
      && Asked(c, Request(t.operation.value, t.artifact, t.signedBytes, t.signature))
    case _ => false
  }

  // The same device, except for what an idle receiver still has in memory.
  predicate SameButIdle(d: Device, t: Device) {
    !Live(t.rx) && StreamWF(t.rx.stream) && t.journal == d.journal && t.slots == d.slots && t.boot == d.boot
  }

  lemma {:induction false} ActStands(p: Prims, d: Device, c: Checkpoint, a: Action)
    requires Stands(d, c) && !(Asks(c, a) && Resumable(p, d, c))
    ensures SameButIdle(d, Act(p, d, a).0) && Act(p, d, a).1 == None
  {
    IdleOk(p);
    match a
    case PrepareCall(r, env) =>
      PrepareRefused(p, d, c, r, env);
    case Handle(PrepareBody(op, artifact, signedBytes, signature, _, _), env) =>
      hide Prepare, Load, Idle, Resumable, StreamWF;
      if op.Some? { PrepareRefused(p, d, c, Request(op.value, artifact, signedBytes, signature), env.prepare); }
    case AbortCall(op, artifact, load, w) =>
      AbortExactly(d, op, artifact, load, w);
    case Handle(AbortBody(op, artifact), env) =>
      hide Abort, Load, Resumable, StreamWF;
      if op.Some? { AbortExactly(d, op.value, artifact, env.load, env.clear); }
    case _ =>
      hide Load, Resumable;
  }

  // Over any actions, aborts among them, the checkpoint stands until its own request is prepared, and that is
  // of use only while the partition has the bytes.
  lemma {:induction false} CheckpointStands(p: Prims, d: Device, c: Checkpoint, actions: seq<Action>)
    requires Stands(d, c)
    requires Resumable(p, d, c) ==> forall i :: 0 <= i < |actions| ==> !Asks(c, actions[i])
    ensures SameButIdle(d, RunActions(p, d, actions).0) && RunActions(p, d, actions).1 == []
    decreases |actions|
  {
    hide Act, Asks, Load, Resumed, VerifySigned, StreamWF;
    if |actions| > 0 {
      ActStands(p, d, c, actions[0]);
      CheckpointStands(p, Act(p, d, actions[0]).0, c, actions[1..]);
    }
  }

  // ---- The way out

  // An environment in which everything is in order.
  function Willing(f: Signed, partition: string): PrepareEnv {
    PrepareEnv(Target(f.project, f.chip, f.slotSize, f.minCore, f.minFabric), Ok, Some(partition), Ok, true, [])
  }

  lemma {:induction false} PrepareResumes(p: Prims, d: Device, c: Checkpoint)
    requires Stands(d, c) && Resumable(p, d, c)
    ensures var f := VerifySigned(p, c.signedFields, c.signature).1.value;
            var r := Request(c.operation, c.artifact, c.signedFields, c.signature);
            var (err, t) := Prepare(p, d, r, Willing(f, c.partition));
            && err == Ok && Live(t.rx) && SameOperation(t.rx, c.operation, c.artifact) && t.journal == d.journal
            && StreamWF(t.rx.stream)
  {
    hide Load;
  }

  // Preparing the very request again, and then aborting it.
  function WayOut(f: Signed, c: Checkpoint): seq<Action> {
    [PrepareCall(Request(c.operation, c.artifact, c.signedFields, c.signature), Willing(f, c.partition)),
     AbortCall(c.operation, c.artifact, Ok, Succeeded)]
  }

  lemma {:induction false} WayOutClears(p: Prims, d: Device, c: Checkpoint)
    requires Stands(d, c) && Resumable(p, d, c) && JournalOk(d.journal) && Age(d.journal) < LAST_GENERATION
    ensures var f := VerifySigned(p, c.signedFields, c.signature).1.value;
            Load(RunActions(p, d, WayOut(f, c)).0.journal) == None
  {
    var f := VerifySigned(p, c.signedFields, c.signature).1.value;
    PrepareResumes(p, d, c);
    var actions := WayOut(f, c);
    var t := Act(p, d, actions[0]).0;
    AbortExactly(t, c.operation, c.artifact, Ok, Succeeded);
    AbortForgets(t, c.operation, c.artifact, Ok, Succeeded);
    IdleOk(p);
    hide Prepare, Abort, Load, Age, JournalOk, StreamWF, Resumable;
    var rest := actions[1..];
    assert rest == [AbortCall(c.operation, c.artifact, Ok, Succeeded)] && |rest[1..]| == 0;
    assert RunActions(p, t, rest).0 == Act(p, t, rest[0]).0;
  }

  // Exactly while the checkpoint can be resumed is there a run of actions that is rid of it.
  lemma {:induction false} CheckpointLeavesExactly(p: Prims, d: Device, c: Checkpoint)
    requires Stands(d, c) && JournalOk(d.journal) && Age(d.journal) < LAST_GENERATION
    ensures (exists actions :: Load(RunActions(p, d, actions).0.journal) != Some(c)) <==> Resumable(p, d, c)
  {
    hide RunActions, Load, Age, JournalOk, Resumable;
    if Resumable(p, d, c) {
      WayOutClears(p, d, c);
    } else {
      forall actions
        ensures Load(RunActions(p, d, actions).0.journal) == Some(c)
      {
        CheckpointStands(p, d, c, actions);
      }
    }
  }
}
