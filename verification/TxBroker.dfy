// The transmit broker: a table of slots that stands for a stable priority queue
// (keemash_mesh_tx_broker.c:35-192).  Locked sections are single steps.
module TxBroker {
  import opened Base
  import opened Serial
  import opened Slots

  const CONTROL: nat := 4

  type Packet = seq<nat>

  // `n` is the ticket the job would have if tickets never wrapped.
  datatype Job = Job(n: int, priority: nat, dst: nat, bytes: Packet)

  datatype Slot = Free | Used(ticket: SeqNum, priority: nat, dst: nat, bytes: Packet, sending: bool)

  datatype Status = Accepted | InvalidArg | InvalidSize | Full | Reserved

  datatype Stats = Stats(accepted: u32, completed: u32, pending: u32, highWatermark: u32, rejectedFull: u32,
                         rejectedReserved: u32, rejectedSize: u32, transportErrors: u32)

  const NO_STATS: Stats := Stats(0, 0, 0, 0, 0, 0, 0, 0)

  function Bump(x: u32): u32 {
    (x + 1) % MOD
  }

  ghost function JobOf(s: Slot): Job
    requires s.Used?
  {
    Job(s.ticket.n, s.priority, s.dst, s.bytes)
  }

  predicate Waits(s: Slot) {
    s.Used? && !s.sending
  }

  function IsUsed(): Slot -> bool {
    (s: Slot) => s.Used?
  }

  function IsPlain(): Slot -> bool {
    (s: Slot) => s.Used? && s.priority < CONTROL
  }

  function IsFree(): Slot -> bool {
    (s: Slot) => s.Free?
  }

  // ---- The queue the table stands for

  ghost predicate Ordered(q: seq<Job>) {
    forall k, l :: 0 <= k < l < |q| ==> q[k].n < q[l].n
  }

  ghost predicate Held(slots: seq<Slot>, job: Job) {
    exists i :: 0 <= i < |slots| && Waits(slots[i]) && JobOf(slots[i]) == job
  }

  // The waiting slots are the queue's jobs, which stand in the order of their tickets.
  ghost predicate Mirrors(slots: seq<Slot>, q: seq<Job>) {
    && Ordered(q)
    && (forall i :: 0 <= i < |slots| && Waits(slots[i]) ==> JobOf(slots[i]) in q)
    && (forall k :: 0 <= k < |q| ==> Held(slots, q[k]))
    && (forall i, j :: 0 <= i < j < |slots| && slots[i].Used? && slots[j].Used? ==>
          slots[i].ticket.n != slots[j].ticket.n)
  }

  // Waiting tickets of one priority span less than half the number circle.
  ghost predicate Span(slots: seq<Slot>) {
    forall i, j :: 0 <= i < |slots| && 0 <= j < |slots| && Waits(slots[i]) && Waits(slots[j]) ==>
      slots[i].priority == slots[j].priority ==> slots[i].ticket.n - slots[j].ticket.n < HALF
  }

  // At most the current slot is being sent, no ticket is newer than the newest, and every packet fits.
  ghost predicate TableOk(slots: seq<Slot>, current: nat, newest: int, maxPacket: nat) {
    forall i :: 0 <= i < |slots| ==>
      && (slots[i].Used? && slots[i].sending <==> i == current)
      && (slots[i].Used? ==> slots[i].ticket.n <= newest && 0 < |slots[i].bytes| <= maxPacket)
  }

  lemma {:induction false} TableFill(slots: seq<Slot>, current: nat, newest: int, maxPacket: nat, i: nat, s: Slot)
    requires TableOk(slots, current, newest, maxPacket) && i < |slots| && slots[i].Free?
    requires s.Used? && !s.sending && s.ticket.n == newest + 1 && 0 < |s.bytes| <= maxPacket
    ensures TableOk(slots[i := s], current, newest + 1, maxPacket)
    ensures forall j :: 0 <= j < |slots| && slots[j].Used? ==> slots[j].ticket.n < s.ticket.n
    ensures i != current
  {
  }

  // Job k of the queue is the oldest of the highest priority waiting.
  ghost predicate IsNext(q: seq<Job>, k: nat) {
    && k < |q|
    && (forall l :: 0 <= l < |q| ==> q[l].priority <= q[k].priority)
    && (forall l :: 0 <= l < k ==> q[l].priority < q[k].priority)
  }

  function Without<T>(q: seq<T>, k: nat): (r: seq<T>)
    requires k < |q|
  {
    q[..k] + q[k + 1..]
  }

  lemma {:induction false} WithoutIsRest<T>(q: seq<T>, k: nat)
    requires k < |q|
    ensures multiset(q) == multiset(Without(q, k)) + multiset{q[k]}
  {
    assert q == q[..k] + [q[k]] + q[k + 1..];
  }

  lemma {:induction false} NextIsUnique(q: seq<Job>, k: nat, l: nat)
    requires IsNext(q, k) && IsNext(q, l)
    ensures k == l
  {
    assert q[l].priority <= q[k].priority && q[k].priority <= q[l].priority;
  }

  // ---- pick_next_locked

  // Whether slot `s` goes before the best so far.
  predicate Better(s: Slot, best: Slot)
    requires s.Used? && best.Used?
  {
    s.priority > best.priority || (s.priority == best.priority && Before(s.ticket, best.ticket))
  }

  // Past the span the order fails: of two tickets half a turn apart, the newer goes first.
  lemma {:induction false} SpanNeeded(older: Slot, newer: Slot)
    requires older.Used? && newer.Used? && older.priority == newer.priority
    requires newer.ticket.n == older.ticket.n + HALF
    ensures Better(newer, older)
  {
    Difference(newer.ticket, older.ticket);
  }

  ghost predicate BestOf(slots: seq<Slot>, upTo: nat, best: nat)
    requires upTo <= |slots|
  {
    && (best == |slots| ==> forall j :: 0 <= j < upTo ==> !Waits(slots[j]))
    && (best != |slots| ==>
          && best < upTo && Waits(slots[best])
          && forall j :: 0 <= j < upTo && Waits(slots[j]) ==>
               slots[j].priority < slots[best].priority ||
               (slots[j].priority == slots[best].priority && slots[best].ticket.n <= slots[j].ticket.n))
  }

  // Some waiting slot, if there is one.
  ghost predicate SomeOf(slots: seq<Slot>, upTo: nat, best: nat)
    requires upTo <= |slots|
  {
    if best == |slots| then forall j :: 0 <= j < upTo ==> !Waits(slots[j]) else best < upTo && Waits(slots[best])
  }

  method PickNext(slots: array<Slot>) returns (best: nat)
    ensures SomeOf(slots[..], slots.Length, best)
    ensures Span(slots[..]) ==> BestOf(slots[..], slots.Length, best)
  {
    best := slots.Length;
    for i := 0 to slots.Length
      invariant SomeOf(slots[..], i, best)
      invariant Span(slots[..]) ==> BestOf(slots[..], i, best)
    {
      if Waits(slots[i]) {
        if best != slots.Length && slots[i].priority == slots[best].priority && Span(slots[..]) {
          assert slots[..][i] == slots[i] && slots[..][best] == slots[best];
          BeforeExact(slots[i].ticket, slots[best].ticket);
        }
        if best == slots.Length || Better(slots[i], slots[best]) {
          best := i;
        }
      }
    }
  }

  // The slot picked holds one of the queue's jobs; within the span, the next one.
  lemma {:induction false} PickedIsNext(slots: seq<Slot>, q: seq<Job>, best: nat) returns (k: nat)
    requires Mirrors(slots, q) && SomeOf(slots, |slots|, best) && best < |slots|
    ensures k < |q| && q[k] == JobOf(slots[best])
    ensures BestOf(slots, |slots|, best) ==> IsNext(q, k)
  {
    var job := JobOf(slots[best]);
    k :| 0 <= k < |q| && q[k] == job;
    if BestOf(slots, |slots|, best) {
      forall l | 0 <= l < |q|
        ensures q[l].priority < job.priority || (q[l].priority == job.priority && job.n <= q[l].n)
      {
        assert Held(slots, q[l]);
        var j :| 0 <= j < |slots| && Waits(slots[j]) && JobOf(slots[j]) == q[l];
      }
    }
  }

  lemma {:induction false} NothingWaits(slots: seq<Slot>, q: seq<Job>)
    requires Mirrors(slots, q) && SomeOf(slots, |slots|, |slots|)
    ensures q == []
  {
    assert |q| > 0 ==> Held(slots, q[0]);
  }

  // ---- The table under each step

  lemma {:induction false} MirrorsSubmit(slots: seq<Slot>, q: seq<Job>, i: nat, s: Slot)
    requires Mirrors(slots, q) && i < |slots| && slots[i].Free? && s.Used? && !s.sending
    requires forall j :: 0 <= j < |slots| && slots[j].Used? ==> slots[j].ticket.n < s.ticket.n
    ensures Mirrors(slots[i := s], q + [JobOf(s)])
  {
    var after, jobs := slots[i := s], q + [JobOf(s)];
    forall k | 0 <= k < |q|
      ensures Held(after, q[k]) && q[k].n < s.ticket.n
    {
      assert Held(slots, q[k]);
      var j :| 0 <= j < |slots| && Waits(slots[j]) && JobOf(slots[j]) == q[k];
      assert after[j] == slots[j];
    }
    assert after[i] == s;
    assert Held(after, JobOf(s));
    forall j | 0 <= j < |after| && Waits(after[j])
      ensures JobOf(after[j]) in jobs
    {
      if j != i {
        assert JobOf(slots[j]) in q;
      } else {
        assert jobs[|q|] == JobOf(s);
      }
    }
  }

  lemma {:induction false} MirrorsPick(slots: seq<Slot>, q: seq<Job>, i: nat, k: nat)
    requires Mirrors(slots, q) && i < |slots| && Waits(slots[i]) && k < |q| && q[k] == JobOf(slots[i])
    ensures Mirrors(slots[i := slots[i].(sending := true)], Without(q, k))
  {
    var after, rest := slots[i := slots[i].(sending := true)], Without(q, k);
    assert Ordered(rest);
    forall l | 0 <= l < |rest|
      ensures Held(after, rest[l])
    {
      var was := if l < k then l else l + 1;
      assert rest[l] == q[was];
      StillHeld(slots, q, i, k, was);
    }
    forall j | 0 <= j < |after| && Waits(after[j])
      ensures JobOf(after[j]) in rest
    {
      assert after[j] == slots[j];
      StillListed(slots, q, i, k, j);
    }
  }

  lemma {:induction false} StillListed(slots: seq<Slot>, q: seq<Job>, i: nat, k: nat, j: nat)
    requires Mirrors(slots, q) && i < |slots| && Waits(slots[i]) && k < |q| && q[k] == JobOf(slots[i])
    requires j < |slots| && j != i && Waits(slots[j])
    ensures JobOf(slots[j]) in Without(q, k)
  {
    var rest := Without(q, k);
    assert JobOf(slots[j]) in q;
    var l :| 0 <= l < |q| && q[l] == JobOf(slots[j]);
    assert l != k;
    assert rest[if l < k then l else l - 1] == q[l];
  }

  lemma {:induction false} StillHeld(slots: seq<Slot>, q: seq<Job>, i: nat, k: nat, l: nat)
    requires Mirrors(slots, q) && i < |slots| && Waits(slots[i]) && k < |q| && q[k] == JobOf(slots[i])
    requires l < |q| && l != k
    ensures Held(slots[i := slots[i].(sending := true)], q[l])
  {
    assert Held(slots, q[l]);
    var j :| 0 <= j < |slots| && Waits(slots[j]) && JobOf(slots[j]) == q[l];
    assert q[l].n != q[k].n;
    assert slots[i := slots[i].(sending := true)][j] == slots[j];
  }

  lemma {:induction false} MirrorsComplete(slots: seq<Slot>, q: seq<Job>, i: nat)
    requires Mirrors(slots, q) && i < |slots| && slots[i].Used? && slots[i].sending
    ensures Mirrors(slots[i := Free], q)
  {
    var after := slots[i := Free];
    forall k | 0 <= k < |q|
      ensures Held(after, q[k])
    {
      assert Held(slots, q[k]);
      var j :| 0 <= j < |slots| && Waits(slots[j]) && JobOf(slots[j]) == q[k];
      assert after[j] == slots[j];
    }
  }

  lemma {:induction false} BumpCounts(n: nat)
    ensures Bump(n % MOD) == (n + 1) % MOD
  {
  }

  lemma {:induction false} CountsAdd(slots: seq<Slot>)
    ensures Count(slots, IsUsed()) + Count(slots, IsFree()) == |slots|
    ensures Count(slots, IsPlain()) <= Count(slots, IsUsed())
  {
    CountComplement(slots, IsUsed(), IsFree());
    CountMono(slots, slots, IsPlain(), IsUsed());
  }

  // Every job accepted is waiting, being sent, or sent, just once.
  ghost predicate JobsKept(accepted: seq<Job>, sent: seq<Job>, sending: seq<Job>, waiting: seq<Job>, newest: int) {
    && multiset(accepted) == multiset(sent) + multiset(sending) + multiset(waiting)
    && Ordered(accepted) && newest == |accepted| && (forall k :: 0 <= k < |accepted| ==> accepted[k].n <= newest)
  }

  lemma {:induction false} JobsSubmit(accepted: seq<Job>, sent: seq<Job>, sending: seq<Job>, waiting: seq<Job>,
                                      job: Job)
    requires JobsKept(accepted, sent, sending, waiting, job.n - 1)
    ensures JobsKept(accepted + [job], sent, sending, waiting + [job], job.n)
  {
  }

  lemma {:induction false} JobsPick(accepted: seq<Job>, sent: seq<Job>, waiting: seq<Job>, newest: int, k: nat)
    requires JobsKept(accepted, sent, [], waiting, newest) && k < |waiting|
    ensures JobsKept(accepted, sent, [waiting[k]], Without(waiting, k), newest)
  {
    WithoutIsRest(waiting, k);
  }

  lemma {:induction false} JobsComplete(accepted: seq<Job>, sent: seq<Job>, sending: seq<Job>, waiting: seq<Job>,
                                        newest: int)
    requires JobsKept(accepted, sent, sending, waiting, newest)
    ensures JobsKept(accepted, sent + sending, [], waiting, newest)
  {
  }

  // The counters say how many, and the reserve is kept.
  ghost predicate CountersKept(stats: Stats, slots: seq<Slot>, accepted: nat, sent: nat, reserved: nat) {
    && stats.pending == Count(slots, IsUsed())
    && accepted == sent + stats.pending
    && stats.accepted == accepted % MOD && stats.completed == sent % MOD
    && Count(slots, IsPlain()) + reserved <= |slots|
  }

  function NoteAccepted(stats: Stats): Stats {
    var pending := Bump(stats.pending);
    stats.(accepted := Bump(stats.accepted), pending := pending,
           highWatermark := if pending > stats.highWatermark then pending else stats.highWatermark)
  }

  function NoteCompleted(stats: Stats, ok: bool): Stats {
    stats.(completed := Bump(stats.completed), pending := (stats.pending + MOD - 1) % MOD,
           transportErrors := if ok then stats.transportErrors else Bump(stats.transportErrors))
  }

  lemma {:induction false} CountersSubmit(stats: Stats, slots: seq<Slot>, accepted: nat, sent: nat, reserved: nat,
                                          i: nat, s: Slot)
    requires CountersKept(stats, slots, accepted, sent, reserved) && i < |slots| < MOD
    requires slots[i].Free? && s.Used? && (s.priority < CONTROL ==> Count(slots, IsFree()) > reserved)
    ensures CountersKept(NoteAccepted(stats), slots[i := s], accepted + 1, sent, reserved)
  {
    hide Count, First;
    CountsAdd(slots);
    CountsAdd(slots[i := s]);
    BumpCounts(accepted);
    var (used, plain) := (Count(slots, IsUsed()), Count(slots, IsPlain()));
    assert Count(slots[i := s], IsUsed()) == used + 1 by { CountUpdate(slots, IsUsed(), i, s); }
    assert Count(slots[i := s], IsPlain()) == plain + if s.priority < CONTROL then 1 else 0 by {
      CountUpdate(slots, IsPlain(), i, s);
    }
    assert Bump(used) == used + 1;
  }

  lemma {:induction false} CountersPick(stats: Stats, slots: seq<Slot>, accepted: nat, sent: nat, reserved: nat, i: nat)
    requires CountersKept(stats, slots, accepted, sent, reserved) && i < |slots| && slots[i].Used?
    ensures CountersKept(stats, slots[i := slots[i].(sending := true)], accepted, sent, reserved)
  {
    hide Count;
    CountUpdate(slots, IsUsed(), i, slots[i].(sending := true));
    CountUpdate(slots, IsPlain(), i, slots[i].(sending := true));
  }

  lemma {:induction false} CountersComplete(stats: Stats, slots: seq<Slot>, accepted: nat, sent: nat, reserved: nat,
                                            i: nat, ok: bool)
    requires CountersKept(stats, slots, accepted, sent, reserved) && i < |slots| < MOD && slots[i].Used?
    ensures CountersKept(NoteCompleted(stats, ok), slots[i := Free], accepted, sent + 1, reserved)
  {
    hide Count;
    CountPositive(slots, IsUsed(), i);
    CountUpdate(slots, IsUsed(), i, Free);
    CountUpdate(slots, IsPlain(), i, Free);
    BumpCounts(sent);
  }

  lemma {:induction false} TablePick(slots: seq<Slot>, newest: int, maxPacket: nat, i: nat)
    requires TableOk(slots, |slots|, newest, maxPacket) && i < |slots| && slots[i].Used?
    ensures TableOk(slots[i := slots[i].(sending := true)], i, newest, maxPacket)
  {
  }

  lemma {:induction false} TableComplete(slots: seq<Slot>, current: nat, newest: int, maxPacket: nat)
    requires TableOk(slots, current, newest, maxPacket) && current < |slots|
    ensures slots[current].Used? && slots[current].sending
    ensures TableOk(slots[current := Free], |slots|, newest, maxPacket)
  {
  }

  // ---- The broker

  class Broker {
    const maxPacket: nat
    const reserved: nat
    const slots: array<Slot>
    var next: SeqNum
    var stats: Stats
    var current: nat             // the slot being sent; slots.Length when there is none

    ghost var waiting: seq<Job>  // accepted and not yet picked, in the order accepted
    ghost var accepted: seq<Job>
    ghost var sent: seq<Job>     // handed to the transport, in order

    ghost function Sending(): seq<Job>
      reads this, slots
    {
      if current < slots.Length && slots[current].Used? then [JobOf(slots[current])] else []
    }

    ghost predicate Valid()
      reads this, slots
    {
      && 0 < slots.Length < MOD && reserved < slots.Length && current <= slots.Length
      && TableOk(slots[..], current, next.n, maxPacket)
      && Mirrors(slots[..], waiting)
      && JobsKept(accepted, sent, Sending(), waiting, next.n)
      && CountersKept(stats, slots[..], |accepted|, |sent|, reserved)
    }

    constructor (size: nat, maxPacket: nat, reserved: nat)
      requires 0 < size < 65536 && reserved < size && maxPacket > 0
      ensures Valid() && waiting == [] && accepted == [] && sent == [] && fresh(slots)
      ensures slots.Length == size && this.reserved == reserved && this.maxPacket == maxPacket
    {
      this.maxPacket, this.reserved := maxPacket, reserved;
      slots := new Slot[size](_ => Free);
      next, stats, current := Seq(0, 0), NO_STATS, size;
      waiting, accepted, sent := [], [], [];
      new;
      CountZero(slots[..], IsUsed());
      CountZero(slots[..], IsPlain());
    }

    // Counts the free slots and finds the first.
    method FindFree() returns (index: nat, free: nat)
      ensures index == First(slots[..], IsFree()) && free == Count(slots[..], IsFree())
    {
      index, free := slots.Length, 0;
      var i := 0;
      while i < slots.Length
        invariant i <= slots.Length
        invariant free == Count(slots[..i], IsFree())
        invariant index == slots.Length ==> forall j :: 0 <= j < i ==> !slots[j].Free?
        invariant index != slots.Length ==>
          index < i && slots[index].Free? && forall j :: 0 <= j < index ==> !slots[j].Free?
      {
        assert slots[..i + 1][..i] == slots[..i];
        if slots[i].Free? {
          free := free + 1;
          if index == slots.Length { index := i; }
        }
        i := i + 1;
      }
      assert slots[..i] == slots[..];
      FirstUnique(slots[..], IsFree(), index);
    }

    // A packet is refused only for its size, for want of a slot, or, below CONTROL, for the reserve; an
    // accepted one goes to the end of the queue with its bytes.
    method Submit(dst: nat, packet: Packet, priority: nat) returns (status: Status)
      requires Valid()
      modifies this, slots
      ensures Valid() && sent == old(sent) && current == old(current)
      ensures status == Accepted <==>
              && 0 < |packet| <= maxPacket && old(Count(slots[..], IsFree())) > 0
              && (priority < 4 ==> old(Count(slots[..], IsFree())) > reserved)
      ensures status == Accepted ==>
              && waiting == old(waiting) + [Job(next.n, priority, dst, packet)]
              && accepted == old(accepted) + [Job(next.n, priority, dst, packet)]
      ensures status != Accepted ==>
              waiting == old(waiting) && accepted == old(accepted) && slots[..] == old(slots[..])
    {
      hide Bump, Count, First, IsFree, IsPlain, IsUsed, JobOf, JobsKept, Mirrors, TableOk;
      if |packet| == 0 { return InvalidArg; }
      if |packet| > maxPacket {
        stats := stats.(rejectedSize := Bump(stats.rejectedSize));
        return InvalidSize;
      }
      var index, free := FindFree();
      FreeOrNot(slots[..]);
      if index == slots.Length {
        stats := stats.(rejectedFull := Bump(stats.rejectedFull));
        return Full;
      }
      if priority < CONTROL && free <= reserved {
        stats := stats.(rejectedReserved := Bump(stats.rejectedReserved));
        return Reserved;
      }
      Fill(index, dst, packet, priority);
      status := Accepted;
    }

    method Fill(index: nat, dst: nat, packet: Packet, priority: nat)
      requires Valid() && 0 < |packet| <= maxPacket && index < slots.Length && slots[index].Free?
      requires priority < CONTROL ==> Count(slots[..], IsFree()) > reserved
      modifies this, slots
      ensures Valid() && sent == old(sent) && current == old(current)
      ensures waiting == old(waiting) + [Job(next.n, priority, dst, packet)]
      ensures accepted == old(accepted) + [Job(next.n, priority, dst, packet)]
    {
      hide Bump, Count, CountersKept, Held, IsFree, IsPlain, IsUsed, JobsKept, Mirrors, NoteAccepted, Plus, TableOk;
      ghost var was := slots[..];
      ghost var sending := Sending();
      next := Plus(next, 1);
      var slot := Used(next, priority, dst, packet, false);
      TableFill(was, current, old(next).n, maxPacket, index, slot);
      CountersSubmit(stats, was, |accepted|, |sent|, reserved, index, slot);
      MirrorsSubmit(was, waiting, index, slot);
      slots[index] := slot;
      assert slots[..] == was[index := slot];
      ghost var job := Job(next.n, priority, dst, packet);
      JobsSubmit(accepted, sent, sending, waiting, job);
      waiting, accepted := waiting + [job], accepted + [job];
      assert Sending() == sending;
      stats := NoteAccepted(stats);
    }

    // The task takes a packet that waits; while waiting tickets keep their span, the oldest of the highest
    // priority.
    method Pick() returns (picked: bool, ghost k: nat)
      requires Valid() && current == slots.Length
      modifies this, slots
      ensures Valid() && accepted == old(accepted) && sent == old(sent)
      ensures picked <==> |old(waiting)| > 0
      ensures picked ==>
              k < |old(waiting)| && Sending() == [old(waiting)[k]] && waiting == Without(old(waiting), k)
      ensures picked && old(Span(slots[..])) ==> IsNext(old(waiting), k)
      ensures !picked ==> waiting == old(waiting) && current == old(current)
    {
      hide CountersKept, Held, IsPlain, IsUsed, JobsKept, Mirrors, Ordered, Span, TableOk, Without, BestOf, IsNext;
      ghost var was := slots[..];
      var best := PickNext(slots);
      if best == slots.Length {
        NothingWaits(was, waiting);
        return false, 0;
      }
      assert best < slots.Length && Waits(was[best]);
      k := PickedIsNext(was, waiting, best);
      MirrorsPick(was, waiting, best, k);
      TablePick(was, next.n, maxPacket, best);
      CountersPick(stats, was, |accepted|, |sent|, reserved, best);
      JobsPick(accepted, sent, waiting, next.n, k);
      slots[best] := slots[best].(sending := true);
      assert slots[..] == was[best := was[best].(sending := true)];
      current := best;
      waiting := Without(waiting, k);
      picked := true;
    }

    // The transport has returned: the packet counts as sent, whatever it returned, and its slot is free.
    method Complete(ok: bool)
      requires Valid() && current < slots.Length
      modifies this, slots
      ensures Valid() && accepted == old(accepted) && waiting == old(waiting) && current == slots.Length
      ensures sent == old(sent) + old(Sending())
    {
      hide CountersKept, Held, IsPlain, IsUsed, JobsKept, Mirrors, NoteCompleted, TableOk;
      ghost var was := slots[..];
      TableComplete(was, current, next.n, maxPacket);
      MirrorsComplete(was, waiting, current);
      CountersComplete(stats, was, |accepted|, |sent|, reserved, current, ok);
      JobsComplete(accepted, sent, Sending(), waiting, next.n);
      sent := sent + Sending();
      stats := NoteCompleted(stats, ok);
      slots[current] := Free;
      assert slots[..] == was[current := Free];
      current := slots.Length;
    }
  }

  lemma {:induction false} FreeOrNot(slots: seq<Slot>)
    ensures var i := First(slots, IsFree());
            if i < |slots| then slots[i].Free? && Count(slots, IsFree()) > 0 else Count(slots, IsFree()) == 0
  {
    var i := First(slots, IsFree());
    if i < |slots| {
      CountPositive(slots, IsFree(), i);
    } else {
      CountZero(slots, IsFree());
    }
  }
}
