// The flash receiver as the device keeps it: its own fields, its validator and the journal, all updated in
// place.  Every method changes them as the function of the same name in OtaReceiver says.
module OtaFlashReceiver {
  import opened Base
  import opened OtaTypes
  import opened OtaFields
  import opened OtaStream
  import opened OtaResume
  import opened OtaJournal
  import opened OtaValidator
  import R = OtaReceiver

  class FlashReceiver {
    const stream: Validator
    const journal: Journal
    var partition: string
    var fields: Signed
    var operation: Bytes
    var artifact: Bytes
    var signature: Bytes
    var signedBytes: Bytes
    var checkpointRaw: nat
    var active: bool
    var verified: bool
    var resumed: bool
    var slots: map<string, Bytes> // the flash
    var boot: Option<string>      // the partition selected to boot

    function Rx(): R.Rx
      reads this, stream
    {
      R.Rx(stream.View(), partition, fields, operation, artifact, signature, signedBytes, checkpointRaw,
           active, verified, resumed)
    }

    function View(): R.Device
      reads this, stream, journal
    {
      R.Device(Rx(), slots, journal.View(), boot)
    }

    constructor (flash: map<string, Bytes>)
      ensures View() == R.Device(R.Idle(), flash, Blank(), None)
      ensures fresh(stream) && fresh(journal)
    {
      stream := new Validator(R.NO_FIELDS);
      journal := new Journal();
      partition, fields, operation, artifact, signature, signedBytes := "", R.NO_FIELDS, [], [], [], [];
      checkpointRaw, active, verified, resumed := 0, false, false, false;
      slots, boot := flash, None;
    }

    method Reset()
      modifies this, stream
      ensures Rx() == R.Idle() && slots == old(slots) && boot == old(boot)
    {
      hide Fresh;
      Forget();
      stream.Load(Fresh(R.NO_FIELDS));
    }

    method Forget()
      modifies `partition, `fields, `operation, `artifact, `signature, `signedBytes, `checkpointRaw,
               `active, `verified, `resumed
      ensures partition == "" && fields == R.NO_FIELDS && operation == [] && artifact == [] && signature == []
      ensures signedBytes == [] && checkpointRaw == 0 && !active && !verified && !resumed
    {
      partition, fields, operation, artifact, signature, signedBytes := "", R.NO_FIELDS, [], [], [], [];
      checkpointRaw, active, verified, resumed := 0, false, false, false;
    }

    method FailWith(e: Err, w: BlobWrite) returns (err: Err)
      modifies this, stream, journal
      ensures (err, View()) == R.FailWith(old(View()), e, w)
    {
      hide Clear, R.Idle, Rx;
      var ignored := journal.ClearCheckpoint(w);
      Reset();
      err := e;
    }

    method Accept(r: R.Request, f: Signed, slot: string)
      modifies `partition, `fields, `operation, `artifact, `signature, `signedBytes
      ensures Rx() == R.Accepting(old(View()), r, f, slot)
    {
      partition, fields, operation, artifact := slot, f, r.operation, r.artifact;
      signature, signedBytes := r.signature, r.signedBytes;
    }

    method SaveTerminal(phase: nat, w: BlobWrite) returns (err: Err)
      modifies journal
      ensures (err, View()) == R.SaveTerminal(old(View()), phase, w)
    {
      hide R.CheckpointFor, Save, R.TerminalPoint;
      var c := R.CheckpointFor(Rx(), phase, R.TerminalPoint(fields));
      err := journal.SaveCheckpoint(c, w);
    }

    // ---- prepare

    method PrepareTerminal(r: R.Request, f: Signed, c: Checkpoint) returns (err: Err)
      modifies this
      ensures (err, View()) == R.PrepareTerminal(old(View()), r, f, c)
    {
      hide R.Accepting, R.SameRequest;
      if !R.SameRequest(c.operation, c.artifact, c.signedFields, c.signature, r) { return InvalidState; }
      if c.partition !in slots { return NotFound; }
      Accept(r, f, c.partition);
      verified, resumed := true, true;
      err := Ok;
    }

    method PrepareResume(p: Prims, r: R.Request, f: Signed, c: Checkpoint, slot: string, env: R.PrepareEnv)
      returns (err: Err)
      requires slot in slots
      modifies this, stream
      ensures (err, View()) == R.PrepareResume(p, old(View()), r, f, c, slot, env)
    {
      hide Fresh, R.Idle, Resumed, ResumePointOk, R.SameRequest;
      if !R.SameRequest(c.operation, c.artifact, c.signedFields, c.signature, r) || c.partition != slot {
        return InvalidState;
      }
      err := stream.ResumeAt(p, f, c.resume, slots[slot]);
      if err != Ok {
        Reset();
        return;
      }
      if !env.flashOk {
        slots := slots[slot := env.scribble];
        Reset();
        return Failed;
      }
      R.ResumedWithin(p, f, c.resume, slots[slot]);
      Continue(r, f, slot, c.resume.rawOffset);
    }

    method Continue(r: R.Request, f: Signed, slot: string, raw: nat)
      requires slot in slots && raw <= |slots[slot]|
      modifies this
      ensures slots == old(slots)[slot := old(slots)[slot][..raw]] && boot == old(boot)
      ensures Rx() == R.Accepting(old(View()), r, f, slot).(checkpointRaw := raw, active := true, resumed := true)
    {
      Accept(r, f, slot);
      slots := slots[slot := slots[slot][..raw]];
      checkpointRaw, active, resumed := raw, true, true;
    }

    method PrepareFresh(r: R.Request, f: Signed, slot: string, env: R.PrepareEnv) returns (err: Err)
      modifies this, stream
      ensures (err, View()) == R.PrepareFresh(old(View()), r, f, slot, env)
    {
      hide Fresh, R.Idle, Startable;
      err := stream.Begin(f);
      if err != Ok {
        Reset();
        return;
      }
      if !env.flashOk {
        slots := slots[slot := env.scribble];
        Reset();
        return Failed;
      }
      Accept(r, f, slot);
      slots := slots[slot := []];
      active := true;
    }

    method Prepare(p: Prims, r: R.Request, env: R.PrepareEnv) returns (err: Err)
      modifies this, stream, journal
      ensures (err, View()) == R.Prepare(p, old(View()), r, env)
    {
      hide CheckTarget, Load, R.PrepareFresh, R.PrepareResume, R.PrepareTerminal, R.SameRequest, VerifySigned;
      if |r.signedBytes| == 0 || |r.signedBytes| > SIGNED_FIELDS_MAX { return InvalidArg; }
      if active || verified {
        return if R.SameRequest(operation, artifact, signedBytes, signature, r) then Ok else InvalidState;
      }
      var (signedErr, signed) := VerifySigned(p, r.signedBytes, r.signature);
      if signedErr != Ok { return signedErr; }
      if env.preflight != Ok { return env.preflight; }
      if env.next.None? || env.next.value !in slots { return NotFound; }
      err := CheckTarget(signed.value, env.target);
      if err != Ok { return; }
      if env.load != Ok { return env.load; }
      var loadErr, c := journal.LoadCheckpoint();
      if c.None? {
        err := PrepareFresh(r, signed.value, env.next.value, env);
      } else if c.value.phase == TRANSFERRING {
        err := PrepareResume(p, r, signed.value, c.value, env.next.value, env);
      } else {
        err := PrepareTerminal(r, signed.value, c.value);
      }
    }

    // ---- write, verify, activate

    method WriteCheckpoint(p: Prims, env: R.WriteEnv) returns (err: Err)
      modifies this, stream, journal
      ensures (err, View()) == R.WriteCheckpoint(p, old(View()), env)
    {
      hide R.CheckpointDue, R.CheckpointFor, CheckpointOf, Checkpointable, Clear, R.Idle, Save;
      if !R.CheckpointDue(Rx()) { return Ok; }
      var at;
      err, at := stream.Checkpoint(p);
      if err == Ok {
        err := journal.SaveCheckpoint(R.CheckpointFor(Rx(), TRANSFERRING, at), env.save);
      }
      if err != Ok {
        err := FailWith(err, env.clear);
        return;
      }
      checkpointRaw := stream.rawOffset;
    }

    // The sink writes to flash what the validator puts out; a refused feed may leave anything there.
    method Write(p: Prims, c: Chunk, env: R.WriteEnv) returns (err: Err)
      requires StreamWF(stream.View())
      modifies this, stream, journal
      ensures (err, View()) == R.Write(p, old(View()), c, env)
    {
      hide Clear, Feed, R.Idle, StreamWF, R.WriteCheckpoint;
      if !active { return InvalidState; }
      var was := |stream.View().output|;
      err := stream.Feed(p, c, env.sinkOk);
      if err != Ok {
        slots := slots[partition := env.scribble];
        err := FailWith(err, env.clear);
        return;
      }
      var out := stream.View().output;
      var slot := (if partition in slots then slots[partition] else []) + if was <= |out| then out[was..] else [];
      slots := slots[partition := slot];
      err := WriteCheckpoint(p, env);
    }

    method VerifyTransfer(p: Prims, env: R.VerifyEnv) returns (err: Err)
      requires StreamWF(stream.View())
      modifies this, stream, journal
      ensures (err, View()) == R.VerifyTransfer(p, old(View()), env)
    {
      hide Clear, Finish, R.Idle, R.SaveTerminal, StreamWF;
      if !active { return InvalidState; }
      err := stream.Finish(p);
      if err != Ok {
        err := FailWith(err, env.clear);
        return;
      }
      active := false;
      if !env.endOk {
        err := FailWith(Failed, env.clear);
        return;
      }
      verified := true;
      err := SaveTerminal(VERIFIED, env.save);
      if err != Ok {
        err := FailWith(err, env.clear);
      }
    }

    // `called` is the device at the moment the boot partition is set.
    method Activate(env: R.ActivateEnv) returns (err: Err, ghost called: Option<R.Device>)
      modifies this, journal
      ensures (err, View(), called) == R.Activate(old(View()), env)
    {
      hide R.CheckpointFor, Save, R.TerminalPoint;
      if active || !verified { return InvalidState, None; }
      if env.preflight != Ok { return env.preflight, None; }
      err := SaveTerminal(BOOT_PENDING, env.save);
      if err != Ok { return err, None; }
      called := Some(View());
      if env.bootErr == Ok {
        boot := Some(partition);
        return Ok, called;
      }
      var restoreErr := SaveTerminal(VERIFIED, env.restore);
      err := if restoreErr == Ok then env.bootErr else restoreErr;
    }

    // ---- abort

    method AbortCurrent(w: BlobWrite) returns (err: Err)
      modifies this, stream, journal
      ensures (err, View()) == R.AbortCurrent(old(View()), w)
    {
      hide Clear, R.Idle;
      if !active && !verified { return InvalidState; }
      err := journal.ClearCheckpoint(w);
      if err == Ok {
        Reset();
      }
    }

    method Abort(op: Bytes, art: Bytes, load: Err, w: BlobWrite) returns (err: Err)
      modifies this, stream, journal
      ensures (err, View()) == R.Abort(old(View()), op, art, load, w)
    {
      hide R.AbortCurrent, Load;
      if (active || verified) && !(operation == op && artifact == art) { return InvalidState; }
      if !active && !verified {
        if load != Ok { return load; }
        var loadErr, c := journal.LoadCheckpoint();
        if c.None? { return NotFound; }
        if c.value.operation != op || c.value.artifact != art { return InvalidState; }
      }
      err := AbortCurrent(w);
    }

    // ---- handle_transfer

    method HandleTransfer(p: Prims, t: R.Transfer, env: R.Env) returns (err: Err)
      requires StreamWF(stream.View())
      modifies this, stream, journal
      ensures (err, View()) == R.HandleTransfer(p, old(View()), t, env)
    {
      hide R.Abort, R.CommitShape, Load, R.Matching, R.Prepare, StreamWF, R.VerifyTransfer, R.Write;
      match t
      case PrepareBody(op, art, signed, sig, _, _) =>
        if !R.PrepareShape(t) { return InvalidArg; }
        err := Prepare(p, R.Request(op.value, art, signed, sig), env.prepare);
      case DataBody(op, art, block, offset, data, final) =>
        if op.None? || block.None? || |data| == 0 || !R.Matching(Rx(), op.value, art) { return InvalidArg; }
        err := Write(p, Chunk(block.value, offset, data, final), env.write);
      case CommitBody(_, _, _, _) =>
        if !R.CommitShape(Rx(), t) { return InvalidArg; }
        if verified { return Ok; }
        err := VerifyTransfer(p, env.verify);
      case AbortBody(op, art) =>
        if op.None? || |art| != SHA_LEN { return InvalidArg; }
        err := Abort(op.value, art, env.load, env.clear);
      case QueryBody(op, art) =>
        if op.None? { return InvalidArg; }
        if R.Matching(Rx(), op.value, art) { return Ok; }
        if |art| != SHA_LEN { return InvalidArg; }
        if env.load != Ok { return env.load; }
        var loadErr, c := journal.LoadCheckpoint();
        err := if c.None? || c.value.operation != op.value || c.value.artifact != art then NotFound else Ok;
      case OtherBody =>
        err := NotSupported;
    }
  }
}
