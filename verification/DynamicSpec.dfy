/**
 * The RAM-only dynamic macro store as a map from slot to optional committed text plus at most one
 * staged upload. The imperative store in DynamicStore.dfy is proved to refine these operations.
 */
module DynamicSpec {
  import opened Bytes

  const MAX_LENGTH: nat := 512
  const MIN_TTL: nat := 1
  const MAX_TTL: nat := 86400

  datatype Committed = Committed(text: seq<byte>, deadline: nat, consume: bool)
  datatype Staged = Staged(slot: nat, total: nat, ttl: nat, consume: bool, text: seq<byte>)

  /** Whether the kernel accepts the n-th attempt to schedule the TTL work item. */
  type Kernel = nat -> bool

  /**
   * timer is the time the one TTL work item is pending for. rearmed is when it was last to be (re)armed, armings how
   * often the kernel was asked, and armed whether the latest re-arming took effect.
   */
  datatype Store = Store(slots: seq<Option<Committed>>, staged: Option<Staged>, timer: Option<nat>, rearmed: nat,
                         kernel: Kernel, armings: nat, armed: bool)

  predicate DueAt(s: Store, i: nat, now: nat)
    requires i < |s.slots|
  {
    s.slots[i].Some? && s.slots[i].value.deadline <= now
  }

  /** Drop every due text, and the staged upload when it is aimed at a slot that expires. */
  function ExpireDue(s: Store, now: nat): Store {
    s.(slots := seq(|s.slots|, i requires 0 <= i < |s.slots| => if DueAt(s, i, now) then None else s.slots[i]),
       staged := if s.staged.Some? && s.staged.value.slot < |s.slots| && DueAt(s, s.staged.value.slot, now)
                 then None else s.staged)
  }

  /** The least deadline among the first n slots. */
  function Earliest(slots: seq<Option<Committed>>, n: nat): Option<nat>
    requires n <= |slots|
  {
    if n == 0 then None
    else
      var e := Earliest(slots, n - 1);
      match slots[n - 1]
      case None => e
      case Some(c) => if e.None? || c.deadline < e.value then Some(c.deadline) else e
  }

  lemma {:induction false} EarliestIsLeast(slots: seq<Option<Committed>>, n: nat)
    requires n <= |slots|
    ensures var e := Earliest(slots, n);
            && (e.Some? ==> exists i | 0 <= i < n :: slots[i].Some? && slots[i].value.deadline == e.value)
            && forall i | 0 <= i < n && slots[i].Some? :: e.Some? && e.value <= slots[i].value.deadline
  {
    if n > 0 {
      EarliestIsLeast(slots, n - 1);
    }
  }

  /** A refused attempt leaves the timer as it was, and nobody looks at the refusal. */
  function Rearm(s: Store, now: nat): (r: Store)
    ensures r.slots == s.slots && r.staged == s.staged && r.kernel == s.kernel
  {
    match Earliest(s.slots, |s.slots|)
    case None => s.(timer := None, rearmed := now, armed := true)
    case Some(e) =>
      var accepted := s.kernel(s.armings);
      s.(timer := if accepted then Some(if e > now then e else now + 1) else s.timer, rearmed := now,
         armings := s.armings + 1, armed := accepted)
  }

  function CancelStaging(s: Store, now: nat): Store {
    ExpireDue(s, now).(staged := None)
  }

  function Begin(s: Store, now: nat, slot: nat, total: nat, ttl: nat, consume: bool): (Store, Errno) {
    var e := ExpireDue(s, now);
    if slot >= |s.slots| || total == 0 || total > MAX_LENGTH || ttl < MIN_TTL || ttl > MAX_TTL then
      (e.(staged := None), Einval)
    else
      (e.(staged := Some(Staged(slot, total, ttl, consume, []))), Success)
  }

  function Commit(s: Store, now: nat, t: Staged): Store
    requires t.slot < |s.slots|
  {
    var c := Committed(t.text, now + t.ttl * 1000, t.consume);
    Rearm(s.(slots := s.slots[t.slot := Some(c)], staged := None), now)
  }

  /** The chunk is the next one of the staged upload. */
  predicate Fits(t: Staged, slot: nat, offset: nat, data: seq<byte>) {
    slot == t.slot && data != [] && offset == |t.text| <= t.total && |data| <= t.total - offset && TextOk(data)
  }

  /** Append to a store in which nothing is due. */
  function AppendLocked(e: Store, now: nat, slot: nat, offset: nat, data: seq<byte>): (Store, Errno) {
    if e.staged.None? then (e, Enoent)
    else if slot >= |e.slots| || !Fits(e.staged.value, slot, offset, data) then (e.(staged := None), Einval)
    else
      var t := e.staged.value.(text := e.staged.value.text + data);
      if |t.text| == t.total then (Commit(e, now, t), Success) else (e.(staged := Some(t)), Success)
  }

  function Append(s: Store, now: nat, slot: nat, offset: nat, data: seq<byte>): (Store, Errno) {
    AppendLocked(ExpireDue(s, now), now, slot, offset, data)
  }

  function ClearSlot(s: Store, now: nat, slot: nat): Store {
    if slot >= |s.slots| then s
    else
      Rearm(s.(slots := s.slots[slot := None],
               staged := if s.staged.Some? && s.staged.value.slot == slot then None else s.staged), now)
  }

  function ClearAll(s: Store, now: nat): Store {
    Rearm(s.(slots := seq(|s.slots|, _ => None), staged := None), now)
  }

  /** The TTL timer's handler: the work item is no longer pending while it runs. */
  function TtlHandler(s: Store, now: nat): Store {
    Rearm(ExpireDue(s.(timer := None), now), now)
  }

  /** A key press. `start` is what the executor answers; `typed` is the text it accepted, if any. */
  datatype Pressed = Pressed(store: Store, err: Errno, typed: Option<Committed>)

  function ExecuteLocked(e: Store, now: nat, slot: nat, start: Errno): Pressed {
    if slot >= |e.slots| then Pressed(e, Einval, None)
    else match e.slots[slot]
      case None => Pressed(e, Success, None)
      case Some(c) =>
        if start != Success then Pressed(e, start, None)
        else if c.consume then Pressed(Rearm(e.(slots := e.slots[slot := None]), now), Success, Some(c))
        else Pressed(e, Success, Some(c))
  }

  function Execute(s: Store, now: nat, slot: nat, start: Errno): Pressed {
    ExecuteLocked(ExpireDue(s, now), now, slot, start)
  }

  function Boot(slotCount: nat, kernel: Kernel): Store {
    Store(seq(slotCount, _ => None), None, None, 0, kernel, 0, true)
  }
}
