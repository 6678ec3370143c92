// Which transfers a receiver takes on, and that whatever it boots was meant for this device.
module OtaPrepare {
  import opened Base
  import opened OtaTypes
  import opened OtaFields
  import opened OtaStream
  import opened OtaResume
  import opened OtaJournal
  import opened OtaReceiver
  import opened OtaBootSafety
  import opened OtaAbort

  // ---- Meant for this device

  // The firmware is of this project and for this chip, it and the slot it asks for fit the device's slot, and the
  // device's core and fabric are at least the ones it needs.
  predicate ForTarget(f: Signed, t: Target) {
    && f.project == t.project && f.chip == t.chip
    && f.rawSize <= t.slotSize && f.slotSize <= t.slotSize
    && f.minCore <= t.core && f.minFabric <= t.fabric
  }

  lemma {:induction false} TargetExactly(f: Signed, t: Target)
    ensures CheckTarget(f, t) == Ok <==> ForTarget(f, t)
    ensures CheckTarget(f, t) == InvalidArg <==> f.project != t.project || f.chip != t.chip
    ensures CheckTarget(f, t) == InvalidSize <==>
            f.project == t.project && f.chip == t.chip && (f.rawSize > t.slotSize || f.slotSize > t.slotSize)
  {
  }

  // ---- Going on from a checkpoint

  // The checkpoint is at the end of a block before the last, encoded bytes are left, and the flash still has the
  // bytes it covers.
  predicate StillThere(p: Prims, f: Signed, at: Resume, flash: Bytes) {
    && 0 < at.nextIndex < f.blockCount && at.rawOffset == at.nextIndex * FULL_BLOCK && at.rawOffset < f.rawSize
    && 0 < at.encOffset < f.encSize
    && at.rawOffset <= |flash| && p.sha(flash[..at.rawOffset]) == at.prefixSha
  }

  lemma {:induction false} ResumedExactly(p: Prims, f: Signed, at: Resume, flash: Bytes)
    requires Startable(f)
    ensures var (err, s) := Resumed(p, f, at, flash);
            && (err == Ok <==> StillThere(p, f, at, flash))
            && (err == Ok ==>
                  && s.fields == f && s.image == flash[..at.rawOffset] && s.output == [] && s.chain == at.chain
                  && s.nextIndex == at.nextIndex && s.rawOffset == at.rawOffset && s.encOffset == at.encOffset
                  && !s.active && !s.failed && !s.finished)
  {
    hide ZeroChain;
    assert at.nextIndex * f.blockSize == at.nextIndex * FULL_BLOCK;
  }

  // ---- prepare

  // Everything that is asked before the journal is looked at.
  predicate Welcome(p: Prims, d: Device, r: Request, env: PrepareEnv) {
    && 0 < |r.signedBytes| <= 1024
    && VerifySigned(p, r.signedBytes, r.signature).0 == Ok
    && env.preflight == Ok && env.next.Some? && env.next.value in d.slots
    && ForTarget(VerifySigned(p, r.signedBytes, r.signature).1.value, env.target)
  }

  // What the journal has, if anything, is this very request's, and can be gone on with.
  predicate GoesOnWith(p: Prims, d: Device, r: Request, f: Signed, env: PrepareEnv, c: Checkpoint)
    requires env.next.Some? && env.next.value in d.slots
  {
    && c.operation == r.operation && c.artifact == r.artifact
    && c.signedFields == r.signedBytes && c.signature == r.signature
    && if c.phase == TRANSFERRING then
         c.partition == env.next.value && StillThere(p, f, c.resume, d.slots[c.partition]) && env.flashOk
       else c.partition in d.slots
  }

  // The receiver has taken on the request with these fields.
  predicate TakenOn(rx: Rx, r: Request, f: Signed) {
    && rx.fields == f && rx.operation == r.operation && rx.artifact == r.artifact
    && rx.signedBytes == r.signedBytes && rx.signature == r.signature
  }

  // An idle receiver takes a request on exactly when it is properly signed, meant for this device and safe to
  // write, and the journal is blank or has this very request to go on with.  Then it is live with the signed
  // fields: afresh in an erased slot, after its checkpoint, or verified already.
  lemma {:induction false} PrepareExactly(p: Prims, d: Device, r: Request, env: PrepareEnv)
    requires !Live(d.rx)
    ensures var (err, t) := Prepare(p, d, r, env);
            var c := Load(d.journal);
            && t.journal == d.journal && t.boot == d.boot
            && (err == Ok <==>
                  && Welcome(p, d, r, env) && env.load == Ok
                  && if c.None? then env.flashOk
                     else GoesOnWith(p, d, r, VerifySigned(p, r.signedBytes, r.signature).1.value, env, c.value))
            && (err != Ok ==> !Live(t.rx))
            && (err == Ok ==>
                  var f := VerifySigned(p, r.signedBytes, r.signature).1.value;
                  && TakenOn(t.rx, r, f) && ForTarget(f, env.target) && env.preflight == Ok
                  && (c.None? ==>
                        && t.rx.active && !t.rx.verified && t.rx.stream == Fresh(f)
                        && t.rx.partition == env.next.value && t.slots == d.slots[env.next.value := []])
                  && (c.Some? && c.value.phase == TRANSFERRING ==>
                        && t.rx.active && !t.rx.verified
                        && t.rx.stream == Resumed(p, f, c.value.resume, d.slots[env.next.value]).1
                        && t.rx.partition == env.next.value
                        && t.slots == d.slots[env.next.value := d.slots[env.next.value][..c.value.resume.rawOffset]])
                  && (c.Some? && c.value.phase != TRANSFERRING ==>
                        && t.rx.verified && !t.rx.active && t.rx.partition == c.value.partition && t.slots == d.slots))
  {
    var (verdict, signed) := VerifySigned(p, r.signedBytes, r.signature);
    if verdict == Ok {
      AcceptedStartable(p, r);
      TargetExactly(signed.value, env.target);
      if Load(d.journal).Some? && env.next.Some? && env.next.value in d.slots {
        ResumedExactly(p, signed.value, Load(d.journal).value.resume, d.slots[env.next.value]);
      }
    }
    hide VerifySigned, CheckTarget, Load, Resumed, Startable, ForTarget, StillThere, Fresh;
    IdleOk(p);
  }

  lemma {:induction false} AcceptedStartable(p: Prims, r: Request)
    requires VerifySigned(p, r.signedBytes, r.signature).0 == Ok
    ensures Startable(VerifySigned(p, r.signedBytes, r.signature).1.value)
  {
  }

  // A live receiver takes only the very request it has on again, and nothing changes.
  lemma {:induction false} PrepareLive(p: Prims, d: Device, r: Request, env: PrepareEnv)
    requires Live(d.rx)
    ensures var (err, t) := Prepare(p, d, r, env);
            && t == d
            && (err == Ok <==>
                  && 0 < |r.signedBytes| <= 1024 && d.rx.operation == r.operation && d.rx.artifact == r.artifact
                  && d.rx.signedBytes == r.signedBytes && d.rx.signature == r.signature)
  {
    hide VerifySigned;
  }

  // ---- Whatever is booted was meant for this device

  // The device answers as this target whenever it is asked.
  predicate AnswersAs(a: Action, t: Target) {
    match a
    case PrepareCall(_, env) => env.target == t
    case Handle(_, env) => env.prepare.target == t
    case _ => true
  }

  predicate OnTarget(d: Device, t: Target) {
    Live(d.rx) ==> ForTarget(d.rx.fields, t)
  }

  lemma {:induction false} PrepareOnTarget(p: Prims, d: Device, r: Request, env: PrepareEnv)
    requires OnTarget(d, env.target)
    ensures OnTarget(Prepare(p, d, r, env).1, env.target)
  {
    hide Prepare, VerifySigned, ForTarget, Load;
    if Live(d.rx) {
      PrepareLive(p, d, r, env);
    } else {
      PrepareExactly(p, d, r, env);
    }
  }

  // No call but prepare changes the fields of a live receiver.
  lemma {:induction false} OthersKeepFields(p: Prims, d: Device, a: Action)
    requires StreamWF(d.rx.stream) && !a.Handle? && !a.PrepareCall?
    ensures var t := Act(p, d, a).0; Live(t.rx) ==> Live(d.rx) && t.rx.fields == d.rx.fields
    ensures var call := Act(p, d, a).1; call.Some? ==> Live(d.rx) && call.value.rx.fields == d.rx.fields
  {
    hide Save, Clear, Feed, Finish, Load, CheckpointFor, CheckpointDue, Checkpointable, CheckpointOf, Fresh;
  }

  lemma {:induction false} HandleOnTarget(p: Prims, d: Device, t: Transfer, env: Env)
    requires StreamWF(d.rx.stream) && OnTarget(d, env.prepare.target)
    ensures OnTarget(HandleTransfer(p, d, t, env).1, env.prepare.target)
  {
    hide Prepare, ForTarget, Save, Clear, Feed, Finish, Load, CheckpointFor, CheckpointDue, Checkpointable,
         CheckpointOf, Fresh;
    if t.PrepareBody? && PrepareShape(t) {
      PrepareOnTarget(p, d, Request(t.operation.value, t.artifact, t.signedBytes, t.signature), env.prepare);
    }
  }

  lemma {:induction false} ActOnTarget(p: Prims, d: Device, a: Action, target: Target)
    requires StreamWF(d.rx.stream) && OnTarget(d, target) && AnswersAs(a, target)
    ensures OnTarget(Act(p, d, a).0, target)
    ensures Act(p, d, a).1.Some? ==> ForTarget(Act(p, d, a).1.value.rx.fields, target)
  {
    hide Prepare, HandleTransfer, Write, VerifyTransfer, Activate, Abort, AbortCurrent, RestartDevice, ForTarget;
    match a
    case Handle(t, env) => HandleOnTarget(p, d, t, env);
    case PrepareCall(r, env) => PrepareOnTarget(p, d, r, env);
    case _ => OthersKeepFields(p, d, a);
  }

  predicate AllForTarget(calls: seq<Device>, target: Target) {
    forall i :: 0 <= i < |calls| ==> ForTarget(calls[i].rx.fields, target)
  }

  lemma {:induction false} CallsForTarget(p: Prims, d: Device, actions: seq<Action>, target: Target)
    requires DeviceOk(p, d) && StreamWF(d.rx.stream) && Age(d.journal) + 2 * |actions| <= LAST_GENERATION
    requires OnTarget(d, target) && forall i :: 0 <= i < |actions| ==> AnswersAs(actions[i], target)
    ensures AllForTarget(RunActions(p, d, actions).1, target)
    decreases |actions|
  {
    hide Act, SafeCall, Age, DeviceOk, OnTarget, ForTarget, AnswersAs;
    if |actions| > 0 {
      ActKeeps(p, d, actions[0]);
      ActOnTarget(p, d, actions[0], target);
      var (t, call) := Act(p, d, actions[0]);
      if StreamWF(t.rx.stream) {
        CallsForTarget(p, t, actions[1..], target);
      }
    }
  }

  // In any run on one device, whenever the boot partition is set, what it holds is safe to boot, as
  // BootSelectionSafe says, and is firmware meant for this device.
  lemma {:induction false} BootsOnlyForTarget(p: Prims, d: Device, actions: seq<Action>, target: Target)
    requires DeviceOk(p, d) && StreamWF(d.rx.stream) && Age(d.journal) + 2 * |actions| <= LAST_GENERATION
    requires OnTarget(d, target) && forall i :: 0 <= i < |actions| ==> AnswersAs(actions[i], target)
    ensures var calls := RunActions(p, d, actions).1;
            forall i :: 0 <= i < |calls| ==> SafeCall(p, calls[i]) && ForTarget(calls[i].rx.fields, target)
  {
    hide Act, RunActions, SafeCall, Age, DeviceOk, OnTarget, ForTarget, AnswersAs;
    BootSelectionSafe(p, d, actions);
    CallsForTarget(p, d, actions, target);
  }
}
