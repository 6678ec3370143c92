// A whole transfer sent as messages: prepare, data, commit.
module OtaConversation {
  import opened Base
  import opened OtaTypes
  import opened OtaFields
  import opened OtaStream
  import opened OtaEquivalence
  import opened OtaResume
  import opened OtaJournal
  import opened OtaReceiver
  import opened OtaTransfer
  import A = OtaArtifact

  // Messages handled one after the other until one is refused.
  function HandleAll(p: Prims, d: Device, messages: seq<Transfer>, env: Env): (r: (Err, Device))
    requires StreamWF(d.rx.stream)
    decreases |messages|
  {
    if |messages| == 0 then (Ok, d)
    else
      var (err, next) := HandleTransfer(p, d, messages[0], env);
      if err != Ok || !StreamWF(next.rx.stream) then (err, next) else HandleAll(p, next, messages[1..], env)
  }

  function DataOf(operation: Bytes, artifact: Bytes, c: Chunk): Transfer {
    DataBody(Some(operation), artifact, Some(c.desc), c.offset, c.bytes, c.final)
  }

  function DataMessages(operation: Bytes, artifact: Bytes, script: seq<Chunk>): seq<Transfer>
  {
    seq(|script|, i requires 0 <= i < |script| => DataOf(operation, artifact, script[i]))
  }

  // Everything works.
  function GoodEnv(prepare: PrepareEnv): Env {
    Env(prepare, GoodWrite(), GoodVerify(), Ok, Succeeded)
  }

  // The conversation about one artifact.
  function Conversation(operation: Bytes, artifact: Bytes, m: Manifest, f: Signed, chunkSize: nat, window: nat,
                        script: seq<Chunk>): seq<Transfer>
  {
    [PrepareBody(Some(operation), artifact, m.signedFields, m.signature, chunkSize, window)] +
    DataMessages(operation, artifact, script) +
    [CommitBody(Some(operation), artifact, f.tableSha, f.imageSha)]
  }

  lemma {:induction false} HandleOne(p: Prims, d: Device, t: Transfer, rest: seq<Transfer>, env: Env)
    requires StreamWF(d.rx.stream)
    ensures HandleAll(p, d, [t] + rest, env) ==
            var (err, next) := HandleTransfer(p, d, t, env);
            if err != Ok || !StreamWF(next.rx.stream) then (err, next) else HandleAll(p, next, rest, env)
  {
    hide HandleTransfer;
    assert ([t] + rest)[1..] == rest;
  }

  // A chunk the validator takes is taken as a message too, and leaves what writing it leaves.
  lemma {:induction false} DataIsWrite(p: Prims, d: Device, operation: Bytes, artifact: Bytes, c: Chunk,
                                       env: PrepareEnv)
    requires Steady(d) && StreamWF(d.rx.stream) && OtaStream.Feed(p, d.rx.stream, c, true).0 == Ok
    requires d.rx.operation == operation && d.rx.artifact == artifact && |artifact| == SHA_LEN
    ensures HandleTransfer(p, d, DataOf(operation, artifact, c), GoodEnv(env)) == Write(p, d, c, GoodWrite())
  {
    hide Write, Kept, Counted, CheckpointDue;
    assert |c.bytes| > 0 by { TakenHasBytes(p, d.rx.stream, c); }
    assert Chunk(c.desc, c.offset, c.bytes, c.final) == c;
    hide Steady;
  }

  lemma {:induction false} TakenHasBytes(p: Prims, s: Stream, c: Chunk)
    requires StreamWF(s) && OtaStream.Feed(p, s, c, true).0 == Ok
    ensures |c.bytes| > 0
  {
    hide FeedActive, StartBlock;
  }

  // All data of a script the validator takes, and then the rest of the conversation.
  lemma {:induction false} DataAreWrites(p: Prims, d: Device, operation: Bytes, artifact: Bytes, script: seq<Chunk>,
                                         rest: seq<Transfer>, env: PrepareEnv)
    requires Steady(d) && StreamWF(d.rx.stream) && FeedAll(p, d.rx.stream, script).0 == Ok
    requires d.rx.operation == operation && d.rx.artifact == artifact && |artifact| == SHA_LEN
    ensures StreamWF(WriteAll(p, d, script).1.rx.stream)
    ensures HandleAll(p, d, DataMessages(operation, artifact, script) + rest, GoodEnv(env)) ==
            HandleAll(p, WriteAll(p, d, script).1, rest, GoodEnv(env))
    decreases |script|
  {
    hide Write, OtaStream.Feed, Steady, HandleTransfer, HandleAll, GoodEnv, DataOf;
    if |script| == 0 {
      assert DataMessages(operation, artifact, script) + rest == rest;
    } else {
      var first, more := DataOf(operation, artifact, script[0]), DataMessages(operation, artifact, script[1..]);
      assert DataMessages(operation, artifact, script) + rest == [first] + (more + rest);
      DataIsWrite(p, d, operation, artifact, script[0], env);
      WriteIsFeed(p, d, script[0]);
      HandleOne(p, d, first, more + rest, GoodEnv(env));
      DataAreWrites(p, Write(p, d, script[0], GoodWrite()).1, operation, artifact, script[1..], rest, env);
    }
  }

  // The commit that ends it.
  lemma {:induction false} CommitEnds(p: Prims, d: Device, operation: Bytes, artifact: Bytes, f: Signed,
                                      env: PrepareEnv)
    requires Steady(d) && StreamWF(d.rx.stream) && Finish(p, d.rx.stream).0 == Ok && d.rx.fields == f && f.encSize > 0
    requires d.rx.operation == operation && d.rx.artifact == artifact && |artifact| == SHA_LEN
    requires |f.tableSha| == |f.imageSha| == SHA_LEN && !d.rx.verified
    ensures var (err, t) := HandleTransfer(p, d, CommitBody(Some(operation), artifact, f.tableSha, f.imageSha),
                                           GoodEnv(env));
            && err == Ok && t.rx.verified && !t.rx.active && t.slots == d.slots && t.boot == d.boot
            && t.rx == d.rx.(stream := t.rx.stream, active := false, verified := true)
            && StreamWF(t.rx.stream)
  {
    SteadyFinishes(p, d);
    VerifiedWF(p, d);
    hide VerifyTransfer, Kept, Counted, CheckpointDue, Finish;
  }

  lemma {:induction false} VerifiedWF(p: Prims, d: Device)
    requires StreamWF(d.rx.stream) && VerifyTransfer(p, d, GoodVerify()).0 == Ok
    ensures StreamWF(VerifyTransfer(p, d, GoodVerify()).1.rx.stream)
  {
    hide Finish;
  }

  lemma {:induction false} PrepareStarts(p: Prims, d: Device, operation: Bytes, artifact: Bytes, m: Manifest,
                                         chunkSize: nat, window: nat, env: PrepareEnv, f: Signed)
    requires VerifySigned(p, m.signedFields, m.signature) == (Ok, Some(f)) && CanReceive(d, f, env)
    requires |artifact| == SHA_LEN && chunkSize in {0, 1024, 2048} && window <= 4
    ensures var (err, t) := HandleTransfer(p, d, PrepareBody(Some(operation), artifact, m.signedFields, m.signature,
                                                             chunkSize, window), GoodEnv(env));
            && err == Ok && Steady(t) && StreamWF(t.rx.stream) && t.rx.stream == Fresh(f)
            && t.rx.partition == env.next.value && t.rx.fields == f && t.boot == d.boot && !t.rx.verified
            && t.rx.operation == operation && t.rx.artifact == artifact
    ensures |f.tableSha| == |f.imageSha| == SHA_LEN
  {
    var r := Request(operation, artifact, m.signedFields, m.signature);
    PreparedSteady(p, d, r, env, f);
    PreparedFor(p, d, r, env, f);
    hide Prepare, Steady, Fresh, CheckTarget, Load;
  }

  lemma {:induction false} PreparedFor(p: Prims, d: Device, r: Request, env: PrepareEnv, f: Signed)
    requires VerifySigned(p, r.signedBytes, r.signature) == (Ok, Some(f)) && CanReceive(d, f, env)
    ensures var t := Prepare(p, d, r, env).1;
            !t.rx.verified && t.rx.operation == r.operation && t.rx.artifact == r.artifact
  {
    hide ZeroChain, CheckTarget;
  }

  // When the validator takes the script and finishes, every message of the conversation is answered Ok, and the
  // transfer, activated, boots what it put out.
  lemma {:induction false} ConversationBoots(p: Prims, d: Device, operation: Bytes, artifact: Bytes, m: Manifest,
                                             f: Signed, chunkSize: nat, window: nat, env: PrepareEnv,
                                             script: seq<Chunk>)
    requires VerifySigned(p, m.signedFields, m.signature) == (Ok, Some(f)) && CanReceive(d, f, env)
    requires |artifact| == SHA_LEN && chunkSize in {0, 1024, 2048} && window <= 4
    requires var (err, end) := FeedAll(p, Fresh(f), script); err == Ok && Finish(p, end).0 == Ok
    ensures StreamWF(d.rx.stream)
    ensures var (err, t) := HandleAll(p, d, Conversation(operation, artifact, m, f, chunkSize, window, script),
                                      GoodEnv(env));
            && err == Ok && t.rx.verified
            && var (last, u, _) := Activate(t, GoodActivate());
            && last == Ok && u.boot == env.next && env.next.value in u.slots
            && u.slots[env.next.value] == FeedAll(p, Fresh(f), script).1.output
  {
    hide HandleTransfer, HandleAll, WriteAll, VerifySigned, Fresh, FeedAll, Finish, CheckTarget, DataMessages, GoodEnv,
         Steady, Activate, Load;
    var first := PrepareBody(Some(operation), artifact, m.signedFields, m.signature, chunkSize, window);
    var commit := CommitBody(Some(operation), artifact, f.tableSha, f.imageSha);
    PrepareStarts(p, d, operation, artifact, m, chunkSize, window, env, f);
    var prepared := HandleTransfer(p, d, first, GoodEnv(env)).1;
    var rest := DataMessages(operation, artifact, script) + [commit];
    assert Conversation(operation, artifact, m, f, chunkSize, window, script) == [first] + rest;
    HandleOne(p, d, first, rest, GoodEnv(env));
    DataAreWrites(p, prepared, operation, artifact, script, [commit], env);
    WriteAllIsFeedAll(p, prepared, script);
    AcceptedInRange(p, m.signedFields, m.signature);
    OutputIsImage(p, f, script);
    var written := WriteAll(p, prepared, script).1;
    CommitEnds(p, written, operation, artifact, f, env);
    var verified := HandleTransfer(p, written, commit, GoodEnv(env)).1;
    assert [commit] == [commit] + [];
    HandleOne(p, written, commit, [], GoodEnv(env));
    HandleNone(p, verified, GoodEnv(env));
    VerifiedBoots(p, written, verified);
  }

  lemma {:induction false} HandleNone(p: Prims, d: Device, env: Env)
    requires StreamWF(d.rx.stream)
    ensures HandleAll(p, d, [], env) == (Ok, d)
  {
  }

  lemma {:induction false} VerifiedBoots(p: Prims, d: Device, t: Device)
    requires Steady(d) && StreamWF(d.rx.stream) && d.rx.fields.encSize > 0
    requires t.rx == d.rx.(stream := t.rx.stream, active := false, verified := true) && t.slots == d.slots
    ensures var (err, u, _) := Activate(t, GoodActivate());
            && err == Ok && u.boot == Some(d.rx.partition) && u.slots == d.slots
            && d.rx.partition in d.slots && d.slots[d.rx.partition] == d.rx.stream.image
  {
    SteadyStarts(d);
    hide Kept, Counted, CheckpointOk, CheckpointDue, Load, WriteRecord, Startable;
    TerminalSaved(t.rx, BOOT_PENDING);
  }

  lemma {:induction false} SteadyStarts(d: Device)
    requires Steady(d)
    ensures Startable(d.rx.fields) && Counted(d.rx.fields)
  {
  }

  // From building to booting by messages alone: a full artifact built for a device it fits is prepared, sent in
  // chunks of any cutting with any immediate repeats, committed and activated; every message is answered Ok, and
  // what is booted is exactly the image it was built from.
  lemma {:induction false} BuiltImageBootsByMessage(p: Prims, image: Bytes, spec: A.Spec, d: Device, operation: Bytes,
                                                    chunkSize: nat, window: nat, env: PrepareEnv,
                                                    plans: seq<seq<Cut>>)
    requires BuildLaws(p) && ShaLaw(p) && InflateLaw(p) && DecodeLaw(p) && A.Build(p, image, None, spec).Good?
    requires chunkSize in {0, 1024, 2048} && window <= 4
    requires var v := A.Verify(p, A.Build(p, image, None, spec).value, None);
             v.Good? ==>
               && FitsDevice(p, v.value.manifest, v.value.signed) && CanReceive(d, v.value.signed, env)
               && PlansOk(v.value.manifest.blocks, plans)
    ensures var a := A.Build(p, image, None, spec).value;
            var v := A.Verify(p, a, None);
            && v.Good? && A.Parse(p, a).Good?
            && var (id, m, f) := (v.value.artifactId, v.value.manifest, v.value.signed);
            && var payload := A.Parse(p, a).value.payload;
            && PlansOk(m.blocks, plans) && StreamWF(d.rx.stream)
            && var (err, t) := HandleAll(p, d, Conversation(operation, id, m, f, chunkSize, window,
                                                            WholeScript(payload, m.blocks, plans, 0)), GoodEnv(env));
            && err == Ok && t.rx.verified
            && var (last, u, _) := Activate(t, GoodActivate());
            && last == Ok && u.boot == env.next && env.next.value in u.slots && u.slots[env.next.value] == image
  {
    BuiltContents(p, image, spec);
    hide A.Build, A.VerifyContents, A.Parse, A.Verify, BuildLaws, InflateLaw, FeedAll, Drive, Activate, HandleAll,
         Finish, WholeScript, CheckTarget, VerifySigned, PlanOk, FitsDevice, Conversation;
    var a := A.Build(p, image, None, spec).value;
    var v := A.Verify(p, a, None).value;
    var (id, m, f) := (v.artifactId, v.manifest, v.signed);
    var payload := A.Parse(p, a).value.payload;
    ArtifactNamed(p, a);
    StreamEqualsBatch(p, f, payload, m.blocks, plans, None);
    FreshOk(f);
    DriveIsFeedAll(p, Fresh(f), payload, m.blocks, plans, 0);
    FinishKeepsOutput(p, Drive(p, Fresh(f), payload, m.blocks, plans, 0).1);
    ConversationBoots(p, d, operation, id, m, f, chunkSize, window, env, WholeScript(payload, m.blocks, plans, 0));
  }

  lemma {:induction false} ArtifactNamed(p: Prims, a: Bytes)
    requires ShaLaw(p) && A.Verify(p, a, None).Good?
    ensures |A.Verify(p, a, None).value.artifactId| == SHA_LEN
  {
    hide A.Parse, A.VerifyParsed;
  }
}
