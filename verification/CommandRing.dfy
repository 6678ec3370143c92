// The node's command ring: 32 cached replies behind an 8-bit cursor stand for a lookup in the last 32
// commands executed (keemash_mesh_node.c:124-171, 226-258, 309-361).
module CommandRing {
  import opened Base

  const SLOTS: nat := 32
  const CURSORS: nat := 256

  // A command is known by its operation id, or by its command id when it has none.
  datatype Key = Operation(high: nat, low: nat) | Plain(commandId: nat)

  datatype Entry = Entry(key: Key, commandId: nat, status: nat)

  datatype Command = Command(commandId: nat, flagged: bool, operation: Option<(nat, nat)>)

  datatype Reply = NoReply | Reply(commandId: nat, status: nat)

  function KeyOf(c: Command): Key {
    if c.operation.Some? then Operation(c.operation.value.0, c.operation.value.1) else Plain(c.commandId)
  }

  // One command sent twice: with operation ids when both have one, else by command id when neither has.
  predicate SameCommand(a: Command, b: Command) {
    || (a.operation.Some? && b.operation.Some? && a.operation.value == b.operation.value)
    || (a.operation.None? && b.operation.None? && a.commandId == b.commandId)
  }

  // Two commands have one key exactly when both have operation ids and these are equal, or neither has one
  // and the command ids are equal.
  lemma {:induction false} KeyExact(a: Command, b: Command)
    ensures KeyOf(a) == KeyOf(b) <==>
            if a.operation.Some? then
              b.operation.Some? && a.operation.value.0 == b.operation.value.0 &&
              a.operation.value.1 == b.operation.value.1
            else b.operation.None? && a.commandId == b.commandId
    ensures KeyOf(a) == KeyOf(b) <==> SameCommand(a, b)
  {
  }

  // ---- What was executed

  datatype Execution = Execution(command: Command, status: nat)

  function Entries(history: seq<Execution>): (entries: seq<Entry>)
    ensures |entries| == |history|
  {
    seq(|history|, i requires 0 <= i < |history| =>
      Entry(KeyOf(history[i].command), history[i].command.commandId, history[i].status))
  }

  lemma {:induction false} EntriesGrow(history: seq<Execution>, x: Execution)
    ensures Entries(history + [x]) ==
            Entries(history) + [Entry(KeyOf(x.command), x.command.commandId, x.status)]
  {
  }

  // ---- What the ring stands for

  // The place of the last of `n` commands that went to slot j; negative when none has.
  function LastAt(n: nat, j: nat): (k: int)
    requires j < SLOTS
    ensures k < n && n - SLOTS <= k && k % SLOTS == j
  {
    n - 1 - (n - 1 - j) % SLOTS
  }

  function RingOf(executed: seq<Entry>): (ring: seq<Option<Entry>>)
    ensures |ring| == SLOTS
  {
    seq(SLOTS, j requires 0 <= j < SLOTS =>
      if LastAt(|executed|, j) >= 0 then Some(executed[LastAt(|executed|, j)]) else None)
  }

  // The command with this key among the last 32 executed: the later one, should there be two.
  function Recent(executed: seq<Entry>, key: Key, left: nat): (r: Option<Entry>)
    ensures r.Some? ==> r.value.key == key && r.value in executed
  {
    if left == 0 || |executed| == 0 then None
    else if executed[|executed| - 1].key == key then Some(executed[|executed| - 1])
    else Recent(executed[..|executed| - 1], key, left - 1)
  }

  // No key comes twice among any 32 in a row.
  predicate Spaced(executed: seq<Entry>) {
    forall k, l :: 0 <= k < l < |executed| && l - k < SLOTS ==> executed[k].key != executed[l].key
  }

  // The slot of the next command is where its 8-bit cursor points, however often the cursor has wrapped.
  lemma {:induction false} CursorSlot(n: nat)
    ensures n % CURSORS % SLOTS == n % SLOTS
  {
  }

  lemma {:induction false} CursorAdvances(n: nat)
    ensures (n % CURSORS + 1) % CURSORS == (n + 1) % CURSORS
  {
  }

  lemma {:induction false} StoreAdvances(executed: seq<Entry>, e: Entry)
    ensures RingOf(executed + [e]) == RingOf(executed)[|executed| % SLOTS := Some(e)]
  {
    var n, after := |executed|, executed + [e];
    forall j | 0 <= j < SLOTS
      ensures RingOf(after)[j] == RingOf(executed)[n % SLOTS := Some(e)][j]
    {
      SlotAfter(n, j);
    }
  }

  lemma {:induction false} SlotAfter(n: nat, j: nat)
    requires j < SLOTS
    ensures LastAt(n + 1, j) == if j == n % SLOTS then n else LastAt(n, j)
  {
    if j == n % SLOTS {
      assert (n - j) % SLOTS == 0;
    } else {
      UniqueInTurn(LastAt(n + 1, j), LastAt(n, j), n, j);
    }
  }

  // Two numbers of one residue within one turn are equal.
  lemma {:induction false} UniqueInTurn(a: int, b: int, n: int, j: nat)
    requires a % SLOTS == j && b % SLOTS == j && j != n % SLOTS
    requires n + 1 - SLOTS <= a <= n && n - SLOTS <= b < n
    ensures a == b
  {
  }

  // Looking at the ring slot by slot finds just what is among the last 32.
  lemma {:induction false} RecentExact(executed: seq<Entry>, key: Key, left: nat)
    ensures Recent(executed, key, left) == None <==>
            forall k :: 0 <= k < |executed| && |executed| - left <= k ==> executed[k].key != key
  {
    if left > 0 && |executed| > 0 {
      RecentExact(executed[..|executed| - 1], key, left - 1);
      var front := executed[..|executed| - 1];
      assert forall k :: 0 <= k < |front| ==> front[k] == executed[k];
    }
  }

  lemma {:induction false} RecentIs(executed: seq<Entry>, key: Key, left: nat, k: nat)
    requires k < |executed| && |executed| - left <= k && executed[k].key == key
    requires forall l :: k < l < |executed| ==> executed[l].key != key
    ensures Recent(executed, key, left) == Some(executed[k])
  {
    if k < |executed| - 1 {
      RecentIs(executed[..|executed| - 1], key, left - 1, k);
    }
  }

  // With keys spaced, a slot with the key is the one.
  lemma {:induction false} FoundIsRecent(executed: seq<Entry>, key: Key, j: nat)
    requires Spaced(executed) && j < SLOTS && RingOf(executed)[j].Some? && RingOf(executed)[j].value.key == key
    ensures Recent(executed, key, SLOTS) == RingOf(executed)[j]
  {
    RecentIs(executed, key, SLOTS, LastAt(|executed|, j));
  }

  lemma {:induction false} NotFoundIsNotRecent(executed: seq<Entry>, key: Key)
    requires forall j :: 0 <= j < SLOTS && RingOf(executed)[j].Some? ==> RingOf(executed)[j].value.key != key
    ensures Recent(executed, key, SLOTS) == None
  {
    var n := |executed|;
    forall k | 0 <= k < n && n - SLOTS <= k
      ensures executed[k].key != key
    {
      var j := k % SLOTS;
      SameTurn(n, k);
      assert RingOf(executed)[j] == Some(executed[k]);
    }
    RecentExact(executed, key, SLOTS);
  }

  lemma {:induction false} SameTurn(n: nat, k: nat)
    requires k < n && n - SLOTS <= k
    ensures LastAt(n, k % SLOTS) == k
  {
  }

  lemma {:induction false} SpacedGrows(executed: seq<Entry>, e: Entry)
    requires Spaced(executed) && Recent(executed, e.key, SLOTS) == None
    ensures Spaced(executed + [e])
  {
    RecentExact(executed, e.key, SLOTS);
  }

  // Execution k is one of the last 32, and of this command.
  ghost predicate RepeatOf(history: seq<Execution>, k: int, c: Command) {
    0 <= k < |history| && |history| - 32 <= k && SameCommand(history[k].command, c)
  }

  // The lookup by key is the lookup of the command itself among the last 32 executed.
  lemma {:induction false} RecentIsRepeat(history: seq<Execution>, c: Command)
    requires Spaced(Entries(history))
    ensures var recent := Recent(Entries(history), KeyOf(c), SLOTS);
            && (recent == None <==> forall k :: !RepeatOf(history, k, c))
            && forall k :: RepeatOf(history, k, c) ==> recent.Some? && recent.value.status == history[k].status
  {
    var entries := Entries(history);
    var recent := Recent(entries, KeyOf(c), SLOTS);
    RecentExact(entries, KeyOf(c), SLOTS);
    forall k | 0 <= k < |history|
      ensures entries[k].key == KeyOf(c) <==> SameCommand(history[k].command, c)
    {
      KeyExact(history[k].command, c);
    }
    forall k | RepeatOf(history, k, c) ensures recent.Some? && recent.value.status == history[k].status {
      RecentIs(entries, KeyOf(c), SLOTS, k);
    }
    if recent.Some? {
      var k :| 0 <= k < |entries| && |entries| - SLOTS <= k && entries[k].key == KeyOf(c);
      assert RepeatOf(history, k, c);
    }
  }

  // ---- The ring as the node keeps it

  class Ring {
    const slots: array<Option<Entry>>
    var cursor: nat

    ghost var history: seq<Execution> // the commands executed since the last clear

    ghost predicate Valid()
      reads this, slots
    {
      && slots.Length == SLOTS && slots[..] == RingOf(Entries(history))
      && cursor == |history| % CURSORS && Spaced(Entries(history))
    }

    constructor ()
      ensures Valid() && history == [] && fresh(slots)
    {
      slots := new Option<Entry>[SLOTS](_ => None);
      cursor, history := 0, [];
    }

    method Clear()
      requires Valid()
      modifies this, slots
      ensures Valid() && history == []
    {
      for i := 0 to SLOTS
        modifies slots
        invariant forall j :: 0 <= j < i ==> slots[j] == None
      {
        slots[i] := None;
      }
      cursor, history := 0, [];
      assert Entries(history) == [] && slots[..] == RingOf([]);
    }

    method Find(key: Key) returns (found: Option<Entry>)
      requires Valid()
      ensures found == Recent(Entries(history), key, SLOTS)
    {
      ghost var executed := Entries(history);
      for i := 0 to SLOTS
        invariant forall j :: 0 <= j < i ==> slots[..][j].Some? ==> slots[..][j].value.key != key
      {
        if slots[i].Some? && slots[i].value.key == key {
          FoundIsRecent(executed, key, i);
          return slots[i];
        }
        assert slots[..][i] == slots[i];
      }
      NotFoundIsNotRecent(executed, key);
      found := None;
    }

    method Store(c: Command, status: nat)
      requires Valid() && forall k :: !RepeatOf(history, k, c)
      modifies this, slots
      ensures Valid() && history == old(history) + [Execution(c, status)]
    {
      hide Recent, RingOf, Spaced, RepeatOf, SameCommand, Entries;
      ghost var executed := Entries(history);
      ghost var e := Entry(KeyOf(c), c.commandId, status);
      RecentIsRepeat(history, c);
      CursorSlot(|executed|);
      CursorAdvances(|executed|);
      StoreAdvances(executed, e);
      SpacedGrows(executed, e);
      EntriesGrow(history, Execution(c, status));
      ghost var was := slots[..];
      slots[cursor % SLOTS] := Some(Entry(KeyOf(c), c.commandId, status));
      assert slots[..] == was[|executed| % SLOTS := Some(e)];
      cursor := (cursor + 1) % CURSORS;
      history := history + [Execution(c, status)];
    }

    // A command whose flag promises an operation id it does not carry is ignored.  Any other is executed exactly
    // when it is the same as none of the last 32 executed; when it is the same as one of them, it is answered
    // with the status of that execution.
    method Deliver(c: Command, status: nat) returns (reply: Reply)
      requires Valid()
      modifies this, slots
      ensures Valid()
      ensures c.flagged && c.operation.None? ==> reply == NoReply && history == old(history)
      ensures !(c.flagged && c.operation.None?) ==>
              && (history == old(history) + [Execution(c, status)] <==>
                    forall k :: !RepeatOf(old(history), k, c))
              && ((forall k :: !RepeatOf(old(history), k, c)) ==> reply == Reply(c.commandId, status))
              && ((exists k :: RepeatOf(old(history), k, c)) ==> history == old(history))
              && (forall k :: RepeatOf(old(history), k, c) ==>
                    reply == Reply(c.commandId, old(history)[k].status))
    {
      hide Recent, RingOf, Spaced, RepeatOf, SameCommand, Entries;
      if c.flagged && c.operation.None? { return NoReply; }
      RecentIsRepeat(history, c);
      var cached := Find(KeyOf(c));
      if cached.Some? {
        assert history != history + [Execution(c, status)];
        return Reply(c.commandId, cached.value.status);
      }
      Store(c, status);
      reply := Reply(c.commandId, status);
    }
  }
}
