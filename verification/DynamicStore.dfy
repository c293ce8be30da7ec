/** The dynamic store as it stands in memory, refining DynamicSpec: fixed buffers, flags, and one timer. */
module DynamicStore {
  import opened Bytes
  import D = DynamicSpec
  import E = ExecutorSpec
  import Executor

  const WRAP: nat := 0x1_0000_0000

  /** One slot's buffer and metadata. */
  class Slot {
    const committed: array<byte>
    var deadline: nat
    var generation: u32
    var length: nat
    var valid: bool
    var consume: bool

    /** Unused bytes are zero, and an empty slot is all zero. */
    ghost predicate Valid()
      reads this, committed
    {
      && committed.Length == D.MAX_LENGTH
      && (valid ==> 1 <= length <= D.MAX_LENGTH && deadline > 0 && AllZero(committed[length..]))
      && (!valid ==> length == 0 && deadline == 0 && consume && AllZero(committed[..]))
    }

    ghost function View(): Option<D.Committed>
      reads this, committed
    {
      if valid && length <= committed.Length then Some(D.Committed(committed[..length], deadline, consume)) else None
    }

    constructor ()
      ensures Valid() && View() == None && fresh(committed)
    {
      committed := new byte[D.MAX_LENGTH](_ => 0);
      deadline, generation, length, valid, consume := 0, 0, 0, false, true;
    }

    method Clear()
      requires Valid()
      modifies this, committed
      ensures Valid() && View() == None
    {
      for i := 0 to committed.Length
        invariant forall j | 0 <= j < i :: committed[j] == 0
        modifies committed
      {
        committed[i] := 0;
      }
      length, valid, consume, deadline := 0, false, true, 0;
      generation := (generation + 1) % WRAP;
    }

    /** Replace the text by the first n bytes of source and zero the rest. */
    method Replace(source: array<byte>, n: nat, policy: bool, newDeadline: nat)
      requires Valid() && 1 <= n <= source.Length == D.MAX_LENGTH && source != committed && newDeadline > 0
      modifies this, committed
      ensures Valid() && View() == Some(D.Committed(source[..n], newDeadline, policy))
    {
      for i := 0 to n
        invariant committed[..i] == source[..i]
        modifies committed
      {
        committed[i] := source[i];
      }
      for i := n to committed.Length
        invariant committed[..n] == source[..n]
        invariant forall j | n <= j < i :: committed[j] == 0
        modifies committed
      {
        committed[i] := 0;
      }
      length, valid, consume, deadline := n, true, policy, newDeadline;
      generation := (generation + 1) % WRAP;
    }
  }

  /** The first n slots have been looked at by an expiry scan at time now. */
  ghost function ExpireFirst(s: D.Store, now: nat, n: nat): D.Store
    requires n <= |s.slots|
  {
    s.(slots := seq(|s.slots|, i requires 0 <= i < |s.slots| => if i < n && D.DueAt(s, i, now) then None else s.slots[i]),
       staged := if s.staged.Some? && s.staged.value.slot < n && D.DueAt(s, s.staged.value.slot, now) then None else s.staged)
  }

  /** One slot is looked at. */
  ghost function ExpireAt(s: D.Store, now: nat, i: nat): D.Store
    requires i < |s.slots|
  {
    if D.DueAt(s, i, now)
    then s.(slots := s.slots[i := None], staged := if s.staged.Some? && s.staged.value.slot == i then None else s.staged)
    else s
  }

  lemma ExpireFirstStep(s: D.Store, now: nat, i: nat)
    requires i < |s.slots|
    ensures ExpireFirst(s, now, i + 1) == ExpireAt(ExpireFirst(s, now, i), now, i)
  {
    var p, q := ExpireFirst(s, now, i), ExpireFirst(s, now, i + 1);
    assert q.slots == if D.DueAt(s, i, now) then p.slots[i := None] else p.slots;
  }

  lemma ExpireFirstAll(s: D.Store, now: nat)
    ensures ExpireFirst(s, now, 0) == s
    ensures ExpireFirst(s, now, |s.slots|) == D.ExpireDue(s, now)
  {
    assert ExpireFirst(s, now, 0).slots == s.slots;
    assert ExpireFirst(s, now, |s.slots|).slots == D.ExpireDue(s, now).slots;
  }

  /** What the executor answers to a press of this slot. */
  ghost function StartOf(s: D.Store, slot: nat, e: E.Exec, sched: Errno): (E.Exec, Errno) {
    if slot < |s.slots| && s.slots[slot].Some? then E.Start(e, s.slots[slot].value.text, sched) else (e, Success)
  }

  class DynamicStore {
    const slots: seq<Slot>
    /** The slots and their buffers. */
    ghost const objects: set<object>
    const staging: array<byte>
    var stagingSlot: nat
    var expected: nat
    var received: nat
    var active: bool
    var ttl: nat
    var consume: bool
    var ttlGeneration: u32
    var workGeneration: u32
    /** When the TTL work item is pending for. */
    var timer: Option<nat>
    ghost var rearmed: nat
    ghost var armed: bool
    /** The kernel's answers to attempts to schedule the work item, and how many there were. */
    const kernel: D.Kernel
    var armings: nat
    /** What the slots hold, one entry a slot. */
    ghost var contents: seq<Option<D.Committed>>

    ghost function Repr(): set<object> {
      {this, staging} + objects
    }

    ghost predicate Shape() {
      && staging.Length == D.MAX_LENGTH && staging !in objects && this !in objects
      && (forall i | 0 <= i < |slots| :: slots[i] in objects && slots[i].committed in objects && slots[i].committed != staging)
      && forall i, j | 0 <= i < j < |slots| :: slots[i] != slots[j] && slots[i].committed != slots[j].committed
    }

    ghost predicate Valid()
      reads this, Repr()
    {
      && SlotsValid()
      && ttlGeneration == workGeneration
      && StagingValid()
    }

    ghost predicate SlotsValid()
      reads this`contents, objects
    {
      Shape() && |contents| == |slots| && forall i | 0 <= i < |slots| :: slots[i].Valid() && slots[i].View() == contents[i]
    }

    ghost predicate StagingValid()
      reads this, staging
    {
      && staging.Length == D.MAX_LENGTH
      && (active ==> stagingSlot < |slots| && received < expected <= D.MAX_LENGTH && ttl > 0 && AllZero(staging[received..]))
      && (!active ==> stagingSlot == 0 && expected == 0 && received == 0 && ttl == 0 && consume && AllZero(staging[..]))
    }

    ghost function Staged(): Option<D.Staged>
      reads this, staging
      requires StagingValid()
    {
      if active then Some(D.Staged(stagingSlot, expected, ttl, consume, staging[..received])) else None
    }

    ghost function Abs(): (s: D.Store)
      reads this, Repr()
      requires Valid()
      ensures |s.slots| == |slots|
    {
      D.Store(contents, Staged(), timer, rearmed, kernel, armings, armed)
    }

    constructor (n: nat, kernel: D.Kernel)
      ensures Valid() && fresh(Repr()) && Abs() == D.Boot(n, kernel)
    {
      var made: seq<Slot> := [];
      ghost var all: set<object> := {};
      while |made| < n
        invariant |made| <= n
        invariant forall s | s in made :: s in all && s.committed in all && s.Valid() && s.View() == None
        invariant fresh(all)
        invariant forall i, j | 0 <= i < j < |made| :: made[i] != made[j] && made[i].committed != made[j].committed
      {
        var s := new Slot();
        made := made + [s];
        all := all + {s, s.committed};
      }
      slots := made;
      objects := all;
      staging := new byte[D.MAX_LENGTH](_ => 0);
      stagingSlot, expected, received, active, ttl, consume := 0, 0, 0, false, 0, true;
      ttlGeneration, workGeneration, timer, rearmed := 0, 0, None, 0;
      this.kernel, armings, armed := kernel, 0, true;
      contents := seq(n, _ => None);
    }

    /** The earliest deadline of a valid slot; 0 stands for none. */
    method EarliestDeadline() returns (earliest: nat)
      requires Valid()
      ensures match D.Earliest(contents, |slots|) case None => earliest == 0 case Some(d) => earliest == d > 0
    {
      earliest := 0;
      for i := 0 to |slots|
        invariant match D.Earliest(contents, i) case None => earliest == 0 case Some(d) => earliest == d > 0
      {
        assert slots[i].Valid() && slots[i].View() == contents[i];
        if slots[i].valid && slots[i].deadline != 0 && (earliest == 0 || slots[i].deadline < earliest) {
          earliest := slots[i].deadline;
        }
      }
    }

    /** Note a re-arming at time now under a new generation. */
    method NoteArming(now: nat, newTimer: Option<nat>, asked: nat, accepted: bool)
      requires Valid()
      modifies this`ttlGeneration, this`workGeneration, this`timer, this`rearmed, this`armings, this`armed
      ensures Valid() && Abs() == old(Abs()).(timer := newTimer, rearmed := now, armings := asked, armed := accepted)
    {
      ttlGeneration := (ttlGeneration + 1) % WRAP;
      workGeneration := ttlGeneration;
      timer, rearmed, armings, armed := newTimer, now, asked, accepted;
    }

    /** Re-arm the one timer for the earliest deadline, or cancel it when there is none. */
    method RearmLocked(now: nat)
      requires Valid()
      modifies this`ttlGeneration, this`workGeneration, this`timer, this`rearmed, this`armings, this`armed
      ensures Valid() && Abs() == D.Rearm(old(Abs()), now)
    {
      var earliest := EarliestDeadline();
      if earliest == 0 {
        NoteArming(now, None, armings, true);
        return;
      }
      var delay := if earliest > now then earliest - now else 1;
      var accepted := kernel(armings);
      NoteArming(now, if accepted then Some(now + delay) else timer, armings + 1, accepted);
    }

    method CancelStagingLocked()
      requires staging.Length == D.MAX_LENGTH
      modifies this`stagingSlot, this`expected, this`received, this`active, this`ttl, this`consume, staging
      ensures StagingValid() && Staged() == None
    {
      for i := 0 to staging.Length
        invariant forall j | 0 <= j < i :: staging[j] == 0
        modifies staging
      {
        staging[i] := 0;
      }
      stagingSlot, expected, received, active, ttl, consume := 0, 0, 0, false, 0, true;
    }

    method ExpireSlotLocked(slot: nat)
      requires Valid() && slot < |slots|
      modifies Repr()
      ensures Valid()
      ensures Abs() == old(Abs()).(slots := old(Abs()).slots[slot := None],
                                   staged := if old(active && stagingSlot == slot) then None else old(Staged()))
      ensures timer == old(timer) && rearmed == old(rearmed) && armings == old(armings) && armed == old(armed)
    {
      slots[slot].Clear();
      contents := contents[slot := None];
      if active && stagingSlot == slot {
        CancelStagingLocked();
      }
    }

    /** One turn of the scan. */
    method ExpireIfDueLocked(i: nat, now: nat)
      requires Valid() && i < |slots|
      modifies Repr()
      ensures Valid() && Abs() == ExpireAt(old(Abs()), now, i)
    {
      assert slots[i].Valid() && slots[i].View() == contents[i];
      if slots[i].valid && slots[i].deadline != 0 && now >= slots[i].deadline {
        ExpireSlotLocked(i);
      }
    }

    method ExpireDueLocked(now: nat)
      requires Valid()
      modifies Repr()
      ensures Valid() && Abs() == D.ExpireDue(old(Abs()), now)
    {
      ghost var before := Abs();
      ExpireFirstAll(before, now);
      for i := 0 to |slots|
        invariant Valid() && Abs() == ExpireFirst(before, now, i)
      {
        ExpireFirstStep(before, now, i);
        ExpireIfDueLocked(i, now);
      }
    }

    /** Move the completed staging buffer into its slot. */
    method InstallStaged(now: nat, ghost t: D.Staged)
      requires SlotsValid() && ttlGeneration == workGeneration
      requires active && stagingSlot < |slots| && 1 <= expected == received <= D.MAX_LENGTH && ttl > 0
      requires t == D.Staged(stagingSlot, expected, ttl, consume, staging[..received])
      modifies Repr()
      ensures Valid() && Staged() == None
      ensures contents == old(contents)[t.slot := Some(D.Committed(t.text, now + t.ttl * 1000, t.consume))]
      ensures timer == old(timer) && rearmed == old(rearmed) && armings == old(armings) && armed == old(armed)
    {
      var slot, length := stagingSlot, expected;
      slots[slot].Replace(staging, length, consume, now + ttl * 1000);
      contents := contents[slot := Some(D.Committed(t.text, now + t.ttl * 1000, t.consume))];
      CancelStagingLocked();
    }

    /** Commit the completed staging buffer to its slot. */
    method CommitLocked(now: nat, ghost t: D.Staged)
      requires SlotsValid() && ttlGeneration == workGeneration
      requires active && stagingSlot < |slots| && 1 <= expected == received <= D.MAX_LENGTH && ttl > 0
      requires t == D.Staged(stagingSlot, expected, ttl, consume, staging[..received])
      modifies Repr()
      ensures Valid()
      ensures Abs() == D.Commit(D.Store(old(contents), None, old(timer), old(rearmed), kernel, old(armings), old(armed)), now, t)
    {
      InstallStaged(now, t);
      RearmLocked(now);
    }

    method BeginLocked(now: nat, slot: nat, total: nat, ttlSeconds: nat, policy: bool) returns (err: Errno)
      requires Valid()
      modifies Repr()
      ensures Valid()
      ensures (Abs(), err) == D.Begin(old(Abs()), now, slot, total, ttlSeconds, policy)
    {
      ExpireDueLocked(now);
      CancelStagingLocked();
      if slot >= |slots| || total == 0 || total > D.MAX_LENGTH || ttlSeconds < D.MIN_TTL || ttlSeconds > D.MAX_TTL {
        return Einval;
      }
      stagingSlot, expected, ttl, consume, active := slot, total, ttlSeconds, policy, true;
      return Success;
    }

    method CancelStaging(now: nat)
      requires Valid()
      modifies Repr()
      ensures Valid() && Abs() == D.CancelStaging(old(Abs()), now)
    {
      ExpireDueLocked(now);
      CancelStagingLocked();
    }

    /** Whether the first n bytes of data all have a keycode. */
    method BytesAreValid(data: array<byte>, from: nat, n: nat) returns (ok: bool)
      requires from + n <= data.Length
      ensures ok == TextOk(data[from..from + n])
    {
      for i := 0 to n
        invariant forall k | from <= k < from + i :: TextByte(data[k])
      {
        if !TextByte(data[from + i]) {
          assert data[from..from + n][i] == data[from + i];
          return false;
        }
      }
      return true;
    }

    method CopyToStaging(offset: nat, data: array<byte>, from: nat, n: nat)
      requires staging.Length == D.MAX_LENGTH && offset + n <= D.MAX_LENGTH && from + n <= data.Length && data != staging
      requires AllZero(staging[offset..])
      modifies staging
      ensures staging[..offset + n] == old(staging[..offset]) + data[from..from + n] && AllZero(staging[offset + n..])
    {
      for i := 0 to n
        invariant staging[..offset] == old(staging[..offset]) && staging[offset..offset + i] == data[from..from + i]
        invariant AllZero(staging[offset + i..])
      {
        staging[offset + i] := data[from + i];
      }
    }

    /** The checks of an append: right slot, next offset, room for it, and only bytes with a keycode. */
    method ChunkFits(slot: nat, offset: nat, data: array<byte>, from: nat, n: nat) returns (ok: bool)
      requires StagingValid() && active && from + n <= data.Length
      ensures ok == (slot < |slots| && D.Fits(Staged().value, slot, offset, data[from..from + n]))
    {
      if slot >= |slots| || slot != stagingSlot || n == 0 || offset != received || offset > expected || n > expected - offset {
        return false;
      }
      ok := BytesAreValid(data, from, n);
    }

    method AcceptChunk(now: nat, data: array<byte>, from: nat, n: nat)
      requires Valid() && active && from + n <= data.Length && data !in Repr()
      requires D.Fits(Staged().value, stagingSlot, received, data[from..from + n])
      modifies Repr()
      ensures Valid()
      ensures Abs() == D.AppendLocked(old(Abs()), now, old(stagingSlot), old(received), data[from..from + n]).0
    {
      ghost var t := Staged().value.(text := Staged().value.text + data[from..from + n]);
      CopyToStaging(received, data, from, n);
      received := received + n;
      assert staging[..received] == t.text;
      if received == expected {
        CommitLocked(now, t);
      }
    }

    method AppendLocked(now: nat, slot: nat, offset: nat, data: array<byte>, from: nat, n: nat) returns (err: Errno)
      requires Valid() && from + n <= data.Length && data !in Repr()
      modifies Repr()
      ensures Valid()
      ensures (Abs(), err) == D.AppendLocked(old(Abs()), now, slot, offset, data[from..from + n])
    {
      if !active {
        return Enoent;
      }
      var ok := ChunkFits(slot, offset, data, from, n);
      if !ok {
        CancelStagingLocked();
        return Einval;
      }
      AcceptChunk(now, data, from, n);
      return Success;
    }

    /** Append n bytes of data, starting at `from`, to the staged upload. */
    method Append(now: nat, slot: nat, offset: nat, data: array<byte>, from: nat, n: nat) returns (err: Errno)
      requires Valid() && from + n <= data.Length && data !in Repr()
      modifies Repr()
      ensures Valid()
      ensures (Abs(), err) == D.Append(old(Abs()), now, slot, offset, data[from..from + n])
    {
      ExpireDueLocked(now);
      err := AppendLocked(now, slot, offset, data, from, n);
    }

    method ClearSlot(now: nat, slot: nat)
      requires Valid()
      modifies Repr()
      ensures Valid() && Abs() == D.ClearSlot(old(Abs()), now, slot)
    {
      if slot >= |slots| {
        return;
      }
      ExpireSlotLocked(slot);
      RearmLocked(now);
    }

    method ClearSlots()
      requires Valid()
      modifies this`contents, objects
      ensures Valid() && Abs() == old(Abs()).(slots := seq(|slots|, _ => None))
    {
      ghost var before := Abs();
      for i := 0 to |slots|
        invariant Valid() && Staged() == before.staged
        invariant forall j | 0 <= j < i :: contents[j] == None
      {
        slots[i].Clear();
        contents := contents[i := None];
      }
      assert contents == seq(|slots|, _ => None);
    }

    method ClearAll(now: nat)
      requires Valid()
      modifies Repr()
      ensures Valid() && Abs() == D.ClearAll(old(Abs()), now)
    {
      ClearSlots();
      CancelStagingLocked();
      RearmLocked(now);
    }

    /** The work item's handler; it expires nothing when a newer arming is on record. */
    method TtlHandler(now: nat)
      requires Valid()
      modifies Repr()
      ensures Valid() && Abs() == D.TtlHandler(old(Abs()), now)
    {
      timer := None;
      if workGeneration == ttlGeneration {
        ExpireDueLocked(now);
      }
      RearmLocked(now);
    }

    method Consume(now: nat, slot: nat)
      requires Valid() && slot < |slots|
      modifies Repr()
      ensures Valid() && Abs() == D.Rearm(old(Abs()).(slots := old(Abs()).slots[slot := None]), now)
    {
      slots[slot].Clear();
      contents := contents[slot := None];
      RearmLocked(now);
    }

    /** Hand the slot's text to the executor. */
    method Offer(slot: nat, executor: Executor.Executor, sched: Errno) returns (err: Errno)
      requires Valid() && executor.Valid() && executor !in Repr() && executor.text !in Repr()
      requires slot < |slots| && contents[slot].Some?
      modifies executor, executor.text
      ensures Valid() && Abs() == old(Abs()) && executor.Valid()
      ensures (executor.Abs(), err) == E.Start(old(executor.Abs()), contents[slot].value.text, sched)
    {
      var entry := slots[slot];
      assert entry.Valid() && entry.View() == contents[slot];
      err := executor.Start(entry.committed, entry.length, sched);
    }

    method ExecuteLocked(now: nat, slot: nat, executor: Executor.Executor, sched: Errno) returns (err: Errno)
      requires Valid() && executor.Valid() && executor !in Repr() && executor.text !in Repr()
      modifies Repr(), executor, executor.text
      ensures Valid() && executor.Valid()
      ensures var answer := StartOf(old(Abs()), slot, old(executor.Abs()), sched);
              && executor.Abs() == answer.0
              && Abs() == D.ExecuteLocked(old(Abs()), now, slot, answer.1).store
              && err == D.ExecuteLocked(old(Abs()), now, slot, answer.1).err
    {
      if slot >= |slots| {
        return Einval;
      }
      var entry := slots[slot];
      assert entry.Valid() && entry.View() == contents[slot];
      if !entry.valid || entry.length == 0 {
        return Success;
      }
      err := Offer(slot, executor, sched);
      if err == Success && entry.consume {
        Consume(now, slot);
      }
    }

    /** A key press: hand the slot's text to the executor and consume it if accepted and so asked for. */
    method Execute(now: nat, slot: nat, executor: Executor.Executor, sched: Errno) returns (err: Errno)
      requires Valid() && executor.Valid() && executor !in Repr() && executor.text !in Repr()
      modifies Repr(), executor, executor.text
      ensures Valid() && executor.Valid()
      ensures var answer := StartOf(D.ExpireDue(old(Abs()), now), slot, old(executor.Abs()), sched);
              && executor.Abs() == answer.0
              && Abs() == D.Execute(old(Abs()), now, slot, answer.1).store
              && err == D.Execute(old(Abs()), now, slot, answer.1).err
    {
      ExpireDueLocked(now);
      err := ExecuteLocked(now, slot, executor, sched);
    }
  }
}
