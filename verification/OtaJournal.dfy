// The two-slot checkpoint journal (keemash_ota_v3_checkpoint.c).
//
// A slot holds a record, or nothing that reads as one: missing, or torn so that its checksum fails.
module OtaJournal {
  import opened Base
  import opened OtaTypes
  import opened OtaStream
  import opened OtaResume

  const GENERATIONS: nat := 0x1_0000_0000
  const LAST_GENERATION: nat := 0xFFFF_FFFF
  const TRANSFERRING: nat := 1
  const VERIFIED: nat := 2
  const BOOT_PENDING: nat := 3
  const LABEL_MAX: nat := 16

  datatype Checkpoint = Checkpoint(phase: nat, operation: Bytes, artifact: Bytes, signature: Bytes,
                                   signedFields: Bytes, partition: string, resume: Resume)

  // None is a tombstone.
  datatype Record = Record(generation: u32, content: Option<Checkpoint>)

  datatype Slots = Slots(a: Option<Record>, b: Option<Record>)

  // How a blob write ends: the caller sees success only for the first.
  datatype BlobWrite = Succeeded | TookEffect | NoEffect | Torn

  function Blank(): Slots {
    Slots(None, None)
  }

  // ---- Validity

  predicate TerminalPointOk(at: Resume) {
    && 0 < at.nextIndex <= MAX_BLOCKS && 0 < at.rawOffset <= MAX_IMAGE && 0 < at.encOffset <= MAX_PACKAGE
  }

  predicate CheckpointOk(c: Checkpoint) {
    && TRANSFERRING <= c.phase <= BOOT_PENDING
    && 0 < |c.signedFields| <= SIGNED_FIELDS_MAX
    && 0 < |c.partition| <= LABEL_MAX
    && if c.phase == TRANSFERRING then TransferPointOk(c.resume) else TerminalPointOk(c.resume)
  }

  // record_valid, past the magic, the version and the checksum
  predicate RecordValid(r: Record) {
    r.generation != 0 && (r.content.Some? ==> CheckpointOk(r.content.value))
  }

  // ---- Reading

  function Readable(slot: Option<Record>): Option<Record> {
    if slot.Some? && RecordValid(slot.value) then slot else None
  }

  // The sign of the difference of two 32-bit words.
  predicate Newer(x: u32, y: u32) {
    var (i: int, j: int) := (x, y);
    0 < (i - j) % GENERATIONS < 0x8000_0000
  }

  function Latest(s: Slots): Option<Record> {
    var first, second := Readable(s.a), Readable(s.b);
    if second.Some? && (first.None? || Newer(second.value.generation, first.value.generation)) then second else first
  }

  function Load(s: Slots): Option<Checkpoint> {
    var r := Latest(s);
    if r.Some? then r.value.content else None
  }

  // ---- Writing

  function NextGeneration(s: Slots): u32 {
    var r := Latest(s);
    if r.None? || r.value.generation == LAST_GENERATION then 1 else r.value.generation + 1
  }

  // checkpoint_key: odd generations to the first slot, even ones to the second
  function Put(s: Slots, generation: u32, blob: Option<Record>): Slots {
    if generation % 2 == 1 then s.(a := blob) else s.(b := blob)
  }

  function NewRecord(s: Slots, content: Option<Checkpoint>): Record {
    Record(NextGeneration(s), content)
  }

  predicate Effective(w: BlobWrite) {
    w.Succeeded? || w.TookEffect?
  }

  // write_record
  function WriteRecord(s: Slots, content: Option<Checkpoint>, w: BlobWrite): Slots {
    var r := NewRecord(s, content);
    match w
    case Succeeded => Put(s, r.generation, Some(r))
    case TookEffect => Put(s, r.generation, Some(r))
    case NoEffect => s
    case Torn => Put(s, r.generation, None)
  }

  function Save(s: Slots, c: Checkpoint, w: BlobWrite): (Err, Slots) {
    if !CheckpointOk(c) then (InvalidArg, s)
    else (if w.Succeeded? then Ok else Failed, WriteRecord(s, Some(c), w))
  }

  function Clear(s: Slots, w: BlobWrite): (Err, Slots) {
    (if w.Succeeded? then Ok else Failed, WriteRecord(s, None, w))
  }

  // ---- The invariant: each record in the slot of its parity, and two records one generation apart.
  // (Past the last generation comes 1, in the same slot, two away from the record that is left.)

  predicate SlotOk(slot: Option<Record>, parity: nat) {
    slot.Some? ==> RecordValid(slot.value) && slot.value.generation % 2 == parity
  }

  predicate Adjacent(x: nat, y: nat) {
    x == y + 1 || y == x + 1 || (x == 1 && y == LAST_GENERATION - 1)
  }

  predicate JournalOk(s: Slots) {
    && SlotOk(s.a, 1) && SlotOk(s.b, 0)
    && (s.a.Some? && s.b.Some? ==> Adjacent(s.a.value.generation, s.b.value.generation))
  }

  lemma {:induction false} BlankOk()
    ensures JournalOk(Blank()) && Load(Blank()) == None
  {
  }

  // What a checkpoint of a transfer or of a whole image says, in numbers.
  ghost predicate Plausible(c: Checkpoint) {
    && c.phase in {1, 2, 3} && 1 <= |c.signedFields| <= 1024 && 1 <= |c.partition| <= 16
    && 1 <= c.resume.rawOffset <= 8 * 1024 * 1024 && 1 <= c.resume.encOffset <= 16 * 1024 * 1024
    && 1 <= c.resume.nextIndex <= 1024
    && (c.phase == 1 ==>
          && c.resume.nextIndex < 1024 && c.resume.rawOffset == 16384 * c.resume.nextIndex
          && exists k: nat :: c.resume.rawOffset == 65536 * k)
  }

  lemma {:induction false} PlausibleExactly(c: Checkpoint)
    ensures CheckpointOk(c) <==> Plausible(c)
  {
    assert c.resume.rawOffset == 65536 * (c.resume.rawOffset / 65536) + c.resume.rawOffset % 65536;
  }

  // Whatever the two slots hold, only a plausible checkpoint is loaded, and only such a one is saved.
  lemma {:induction false} OnlyPlausible(s: Slots, c: Checkpoint, w: BlobWrite)
    ensures Load(s).Some? ==> Plausible(Load(s).value)
    ensures Save(s, c, w).0 == Ok <==> Plausible(c) && w.Succeeded?
    ensures !Plausible(c) ==> Save(s, c, w) == (InvalidArg, s)
  {
    PlausibleExactly(c);
    if Load(s).Some? {
      PlausibleExactly(Load(s).value);
    }
    hide CheckpointOk, Plausible, WriteRecord, Newer;
  }

  // The other record, when there are two.
  function Older(s: Slots): Option<Record> {
    if Latest(s) == Readable(s.a) then Readable(s.b) else Readable(s.a)
  }

  predicate AtLast(s: Slots) {
    Latest(s).Some? && Latest(s).value.generation == LAST_GENERATION
  }

  // In such a journal the latest record is plain to see.
  lemma {:induction false} LatestIs(s: Slots)
    requires JournalOk(s)
    ensures Latest(s) == if s.a.None? then s.b
                         else if s.b.Some? && s.b.value.generation == s.a.value.generation + 1 then s.b
                         else s.a
    ensures Older(s) == if s.a.None? then s.a
                        else if s.b.Some? && s.b.value.generation == s.a.value.generation + 1 then s.a
                        else s.b
  {
    hide CheckpointOk;
  }

  // What one write does to the journal: it leaves the record it wrote when it took effect and what was there
  // before when it did not; a torn write is among the latter, except over the last generation, where it
  // brings back the older record.
  lemma {:induction false} WriteIsAtomic(s: Slots, content: Option<Checkpoint>, w: BlobWrite)
    requires JournalOk(s) && (content.Some? ==> CheckpointOk(content.value))
    ensures var t := WriteRecord(s, content, w);
            && JournalOk(t)
            && (Effective(w) ==> Latest(t) == Some(NewRecord(s, content)))
            && (w.NoEffect? ==> Latest(t) == Latest(s))
            && (w.Torn? ==> Latest(t) == if AtLast(s) then Older(s) else Latest(s))
  {
    hide CheckpointOk, Latest, Older;
    assert RecordValid(NewRecord(s, content));
    assert s.a.Some? ==> s.a.value.generation >= 1;
    assert s.b.Some? ==> s.b.value.generation >= 1;
    hide RecordValid;
    var t := WriteRecord(s, content, w);
    LatestIs(s);
    assert JournalOk(t);
    LatestIs(t);
  }

  // Exactly at the last generation, a torn write loses the latest record.
  lemma {:induction false} TornKeepsLatest(s: Slots, content: Option<Checkpoint>)
    requires JournalOk(s) && (content.Some? ==> CheckpointOk(content.value)) && Latest(s).Some?
    ensures Latest(WriteRecord(s, content, Torn)) == Latest(s) <==> Latest(s).value.generation < LAST_GENERATION
  {
    hide CheckpointOk;
    WriteIsAtomic(s, content, Torn);
  }

  // Such a journal exists, and there a torn tombstone brings an older checkpoint back.
  lemma {:induction false} TornAtTheEnd(older: Checkpoint)
    requires CheckpointOk(older)
    ensures var s := Slots(Some(Record(LAST_GENERATION, None)), Some(Record(LAST_GENERATION - 1, Some(older))));
            && JournalOk(s) && Load(s) == None
            && Load(Clear(s, Torn).1) == Some(older)
  {
    hide CheckpointOk;
  }

  // ---- Runs of saves and clears

  datatype Op = SaveOp(checkpoint: Checkpoint, write: BlobWrite) | ClearOp(write: BlobWrite)

  function Step(s: Slots, op: Op): Slots {
    match op
    case SaveOp(c, w) => Save(s, c, w).1
    case ClearOp(w) => Clear(s, w).1
  }

  function Run(s: Slots, ops: seq<Op>): Slots
    decreases |ops|
  {
    if |ops| == 0 then s else Run(Step(s, ops[0]), ops[1..])
  }

  // No write is torn over the last generation.
  predicate Guarded(s: Slots, ops: seq<Op>)
    decreases |ops|
  {
    |ops| > 0 ==> !(ops[0].write.Torn? && AtLast(s)) && Guarded(Step(s, ops[0]), ops[1..])
  }

  // The register the journal stands for: the last save or clear that took effect.
  function Register(was: Option<Checkpoint>, ops: seq<Op>): Option<Checkpoint>
    decreases |ops|
  {
    if |ops| == 0 then was
    else
      var now := match ops[0]
                 case SaveOp(c, w) => if Effective(w) && CheckpointOk(c) then Some(c) else was
                 case ClearOp(w) => if Effective(w) then None else was;
      Register(now, ops[1..])
  }

  lemma {:induction false} StepIsRegister(s: Slots, op: Op)
    requires JournalOk(s) && !(op.write.Torn? && AtLast(s))
    ensures JournalOk(Step(s, op)) && Load(Step(s, op)) == Register(Load(s), [op])
  {
    hide CheckpointOk, WriteRecord, JournalOk, Latest;
    match op
    case SaveOp(c, w) => if CheckpointOk(c) { WriteIsAtomic(s, Some(c), w); }
    case ClearOp(w) => WriteIsAtomic(s, None, w);
  }

  lemma {:induction false} JournalIsRegister(s: Slots, ops: seq<Op>)
    requires JournalOk(s) && Guarded(s, ops)
    ensures JournalOk(Run(s, ops)) && Load(Run(s, ops)) == Register(Load(s), ops)
    decreases |ops|
  {
    hide CheckpointOk, Step, JournalOk, Load;
    if |ops| > 0 {
      StepIsRegister(s, ops[0]);
      JournalIsRegister(Step(s, ops[0]), ops[1..]);
    }
  }

  // After a clear that took effect, no checkpoint is seen until a save takes effect.
  lemma {:induction false} TombstoneHolds(s: Slots, ops: seq<Op>)
    requires JournalOk(s) && Load(s) == None && Guarded(s, ops)
    requires forall i :: 0 <= i < |ops| && ops[i].SaveOp? ==> !Effective(ops[i].write)
    ensures Load(Run(s, ops)) == None
    decreases |ops|
  {
    hide CheckpointOk, Step, JournalOk, Load;
    if |ops| > 0 {
      StepIsRegister(s, ops[0]);
      TombstoneHolds(Step(s, ops[0]), ops[1..]);
    }
  }

  // Fewer writes than generations: nothing is ever torn over the last one.
  lemma {:induction false} ShortRunsAreGuarded(s: Slots, ops: seq<Op>)
    requires JournalOk(s) && Age(s) + |ops| <= LAST_GENERATION
    ensures Guarded(s, ops)
    decreases |ops|
  {
    hide CheckpointOk;
    if |ops| > 0 {
      AgeStep(s, ops[0]);
      ShortRunsAreGuarded(Step(s, ops[0]), ops[1..]);
    }
  }

  function Age(s: Slots): nat {
    if Latest(s).Some? then Latest(s).value.generation else 0
  }

  lemma {:induction false} AgeStep(s: Slots, op: Op)
    requires JournalOk(s) && Age(s) < LAST_GENERATION
    ensures JournalOk(Step(s, op)) && Age(Step(s, op)) <= Age(s) + 1
  {
    hide CheckpointOk, WriteRecord, JournalOk, Latest;
    match op
    case SaveOp(c, w) => if CheckpointOk(c) { WriteIsAtomic(s, Some(c), w); }
    case ClearOp(w) => WriteIsAtomic(s, None, w);
  }

  // ---- The journal as the device keeps it

  class Journal {
    var a: Option<Record>
    var b: Option<Record>

    function View(): Slots
      reads this
    {
      Slots(a, b)
    }

    constructor ()
      ensures View() == Blank()
    {
      a, b := None, None;
    }

    method LatestRecord() returns (r: Option<Record>)
      ensures r == Latest(View())
    {
      r := Readable(a);
      var other := Readable(b);
      if other.Some? && (r.None? || Newer(other.value.generation, r.value.generation)) {
        r := other;
      }
    }

    method LoadCheckpoint() returns (err: Err, c: Option<Checkpoint>)
      ensures c == Load(View()) && err == if c.Some? then Ok else NotFound
    {
      var r := LatestRecord();
      c := if r.Some? then r.value.content else None;
      err := if c.Some? then Ok else NotFound;
    }

    method Store(content: Option<Checkpoint>, w: BlobWrite) returns (err: Err)
      modifies this
      ensures View() == WriteRecord(old(View()), content, w)
      ensures err == if w.Succeeded? then Ok else Failed
    {
      hide RecordValid;
      var latest := LatestRecord();
      var generation: int := if latest.Some? then latest.value.generation + 1 else 1;
      if generation == GENERATIONS { generation := 1; }
      if !w.NoEffect? {
        var blob := if w.Torn? then None else Some(Record(generation, content));
        if generation % 2 == 1 { a := blob; } else { b := blob; }
      }
      err := if w.Succeeded? then Ok else Failed;
    }

    method SaveCheckpoint(c: Checkpoint, w: BlobWrite) returns (err: Err)
      modifies this
      ensures (err, View()) == Save(old(View()), c, w)
    {
      if !CheckpointOk(c) { return InvalidArg; }
      err := Store(Some(c), w);
    }

    method ClearCheckpoint(w: BlobWrite) returns (err: Err)
      modifies this
      ensures (err, View()) == Clear(old(View()), w)
    {
      err := Store(None, w);
    }
  }
}
