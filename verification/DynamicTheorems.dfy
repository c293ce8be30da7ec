/** What holds of the dynamic store over every history of operations since boot. */
module DynamicTheorems {
  import opened Bytes
  import D = DynamicSpec

  datatype Op =
    | Begin(now: nat, slot: nat, total: nat, ttl: nat, consume: bool)
    | Append(now: nat, slot: nat, offset: nat, data: seq<byte>)
    | Cancel(now: nat)
    | ClearSlot(now: nat, slot: nat)
    | ClearAll(now: nat)
    | Timer(now: nat)
    | Press(now: nat, slot: nat, start: Errno)

  function Apply(s: D.Store, op: Op): D.Store {
    match op
    case Begin(now, slot, total, ttl, consume) => D.Begin(s, now, slot, total, ttl, consume).0
    case Append(now, slot, offset, data) => D.Append(s, now, slot, offset, data).0
    case Cancel(now) => D.CancelStaging(s, now)
    case ClearSlot(now, slot) => D.ClearSlot(s, now, slot)
    case ClearAll(now) => D.ClearAll(s, now)
    case Timer(now) => D.TtlHandler(s, now)
    case Press(now, slot, start) => D.Execute(s, now, slot, start).store
  }

  /** A build of the firmware with n slots on a kernel that accepts or refuses to schedule the timer. */
  datatype Host = Host(n: nat, kernel: D.Kernel)

  /** The store after the first k operations of a history. */
  function Run(d: Host, h: seq<Op>, k: nat): D.Store
    requires k <= |h|
  {
    if k == 0 then D.Boot(d.n, d.kernel) else Apply(Run(d, h, k - 1), h[k - 1])
  }

  ghost predicate Monotone(h: seq<Op>) {
    forall i, j | 0 <= i <= j < |h| :: h[i].now <= h[j].now
  }

  predicate StagedOk(s: D.Store) {
    s.staged.Some? ==>
      var t := s.staged.value;
      t.slot < |s.slots| && 1 <= t.total <= D.MAX_LENGTH && D.MIN_TTL <= t.ttl <= D.MAX_TTL
      && |t.text| < t.total && TextOk(t.text)
  }

  predicate CommittedOk(s: D.Store) {
    forall i | 0 <= i < |s.slots| && s.slots[i].Some? ::
      1 <= |s.slots[i].value.text| <= D.MAX_LENGTH && TextOk(s.slots[i].value.text) && s.slots[i].value.deadline > 0
  }

  /** The timer is pending, for a time no later than the earliest deadline or one tick after the last re-arming. */
  predicate TimerOk(s: D.Store) {
    var e := D.Earliest(s.slots, |s.slots|);
    e.Some? ==> s.timer.Some? && (s.timer.value <= e.value || s.timer.value <= s.rearmed + 1)
  }

  predicate Inv(n: nat, s: D.Store) {
    |s.slots| == n && StagedOk(s) && CommittedOk(s) && (s.armed ==> TimerOk(s))
  }

  /** s' holds no committed text that s does not hold. */
  predicate Shrunk(s: D.Store, s': D.Store) {
    |s'.slots| == |s.slots| && forall i | 0 <= i < |s.slots| && s'.slots[i].Some? :: s'.slots[i] == s.slots[i]
  }

  lemma ShrinkKeepsInv(n: nat, s: D.Store, s': D.Store)
    requires Inv(n, s) && Shrunk(s, s') && StagedOk(s') && s'.timer == s.timer && s'.rearmed == s.rearmed && s'.armed == s.armed
    ensures Inv(n, s')
  {
    D.EarliestIsLeast(s.slots, n);
    D.EarliestIsLeast(s'.slots, n);
  }

  lemma RearmKeepsInv(n: nat, s: D.Store, now: nat)
    requires |s.slots| == n && StagedOk(s) && CommittedOk(s)
    ensures Inv(n, D.Rearm(s, now))
  {
  }

  lemma ExpireKeepsInv(n: nat, s: D.Store, now: nat)
    requires Inv(n, s)
    ensures Inv(n, D.ExpireDue(s, now))
  {
    ShrinkKeepsInv(n, s, D.ExpireDue(s, now));
  }

  lemma AppendKeepsInv(n: nat, s: D.Store, now: nat, slot: nat, offset: nat, data: seq<byte>)
    requires Inv(n, s)
    ensures Inv(n, D.Append(s, now, slot, offset, data).0)
  {
    ExpireKeepsInv(n, s, now);
    var e := D.ExpireDue(s, now);
    var (s', err) := D.Append(s, now, slot, offset, data);
    if err == Success && s'.staged.None? {
      var t := e.staged.value.(text := e.staged.value.text + data);
      RearmKeepsInv(n, e.(slots := e.slots[t.slot := Some(D.Committed(t.text, now + t.ttl * 1000, t.consume))], staged := None), now);
    } else {
      ShrinkKeepsInv(n, e, s');
    }
  }

  lemma TimerKeepsInv(n: nat, s: D.Store, now: nat)
    requires Inv(n, s)
    ensures Inv(n, D.TtlHandler(s, now))
  {
    ExpireKeepsInv(n, s, now);
    RearmKeepsInv(n, D.ExpireDue(s.(timer := None), now), now);
  }

  lemma PressKeepsInv(n: nat, e: D.Store, now: nat, slot: nat, start: Errno)
    requires Inv(n, e)
    ensures Inv(n, D.ExecuteLocked(e, now, slot, start).store)
  {
    if slot < n {
      RearmKeepsInv(n, e.(slots := e.slots[slot := None]), now);
    }
  }

  lemma ApplyKeepsInv(n: nat, s: D.Store, op: Op)
    requires Inv(n, s)
    ensures Inv(n, Apply(s, op))
  {
    ExpireKeepsInv(n, s, op.now);
    var e := D.ExpireDue(s, op.now);
    match op
    case Append(now, slot, offset, data) => AppendKeepsInv(n, s, now, slot, offset, data);
    case ClearSlot(now, slot) =>
      if slot < n {
        RearmKeepsInv(n, s.(slots := s.slots[slot := None], staged := Apply(s, op).staged), now);
      }
    case ClearAll(now) => RearmKeepsInv(n, s.(slots := seq(|s.slots|, _ => None), staged := None), now);
    case Timer(now) => TimerKeepsInv(n, s, now);
    case Begin(now, slot, total, ttl, consume) => ShrinkKeepsInv(n, e, Apply(s, op));
    case Cancel(now) => ShrinkKeepsInv(n, e, Apply(s, op));
    case Press(now, slot, start) => PressKeepsInv(n, e, now, slot, start);
  }

  lemma {:induction false} RunKeepsInv(d: Host, h: seq<Op>, k: nat)
    requires k <= |h|
    ensures Inv(d.n, Run(d, h, k))
  {
    if k == 0 {
      D.EarliestIsLeast(D.Boot(d.n, d.kernel).slots, d.n);
    } else {
      RunKeepsInv(d, h, k - 1);
      ApplyKeepsInv(d.n, Run(d, h, k - 1), h[k - 1]);
    }
  }

  // ------------------------------------------------------------------ where a committed text comes from

  /** The data of every append among operations from..to, in order. */
  function Chunks(h: seq<Op>, from: nat, to: nat): seq<byte>
    requires to <= |h|
  {
    if to <= from then [] else Chunks(h, from, to - 1) + (if h[to - 1].Append? then h[to - 1].data else [])
  }

  /** The operation leaves an upload to slot `slot` going, or extends it. */
  predicate Undisturbing(op: Op, slot: nat) {
    !op.Begin? && !op.Cancel? && !op.ClearAll? && !(op.ClearSlot? && op.slot == slot) && (op.Append? ==> op.slot == slot)
  }

  /** t is what the BEGIN that is operation b and all appends up to e declare; nothing in between disturbs it. */
  ghost predicate Upload(h: seq<Op>, b: nat, e: int, t: D.Staged) {
    && b < e <= |h| && h[b].Begin?
    && t == D.Staged(h[b].slot, h[b].total, h[b].ttl, h[b].consume, Chunks(h, b + 1, e))
    && forall k | b < k < e :: Undisturbing(h[k], t.slot)
  }

  /** c is what the append that is operation e-1 committed to slot i. */
  ghost predicate CommittedBy(h: seq<Op>, e: int, i: nat, c: D.Committed) {
    exists b: nat, t :: Upload(h, b, e, t) && t.slot == i && |t.text| == t.total && h[e - 1].Append?
                   && c == D.Committed(t.text, h[e - 1].now + t.ttl * 1000, t.consume)
  }

  function Extended(t: D.Staged, op: Op): D.Staged {
    if op.Append? then t.(text := t.text + op.data) else t
  }

  lemma StagedStep(s: D.Store, op: Op)
    requires StagedOk(s) && Apply(s, op).staged.Some?
    ensures op.Begin? ==> Apply(s, op).staged.value == D.Staged(op.slot, op.total, op.ttl, op.consume, [])
    ensures !op.Begin? ==>
      s.staged.Some? && Undisturbing(op, s.staged.value.slot) && Apply(s, op).staged.value == Extended(s.staged.value, op)
  {
  }

  lemma ExtendUpload(h: seq<Op>, b: nat, e: nat, t: D.Staged)
    requires e < |h| && Upload(h, b, e, t) && Undisturbing(h[e], t.slot)
    ensures Upload(h, b, e + 1, Extended(t, h[e]))
  {
    assert Chunks(h, b + 1, e + 1) == Extended(t, h[e]).text;
  }

  lemma {:induction false} StagedProvenance(d: Host, h: seq<Op>, k: nat)
    requires k <= |h|
    ensures Run(d, h, k).staged.Some? ==> exists b :: Upload(h, b, k, Run(d, h, k).staged.value)
  {
    if k > 0 && Run(d, h, k).staged.Some? {
      StagedProvenance(d, h, k - 1);
      RunKeepsInv(d, h, k - 1);
      var s, op := Run(d, h, k - 1), h[k - 1];
      StagedStep(s, op);
      if op.Begin? {
        assert Upload(h, k - 1, k, Run(d, h, k).staged.value);
      } else {
        var b :| Upload(h, b, k - 1, s.staged.value);
        ExtendUpload(h, b, k - 1, s.staged.value);
      }
    }
  }

  lemma CommitStep(s: D.Store, op: Op, i: nat)
    requires StagedOk(s) && CommitsTo(s, op, i)
    ensures s.staged.Some? && Undisturbing(op, s.staged.value.slot) && i == s.staged.value.slot < |s.slots|
    ensures var t := Extended(s.staged.value, op);
            |t.text| == t.total && |Apply(s, op).slots| == |s.slots|
            && Apply(s, op).slots[i] == Some(D.Committed(t.text, op.now + t.ttl * 1000, t.consume))
  {
  }

  lemma CommittedByIntro(h: seq<Op>, b: nat, e: nat, i: nat, t: D.Staged)
    requires Upload(h, b, e, t) && t.slot == i && |t.text| == t.total && h[e - 1].Append?
    ensures CommittedBy(h, e, i, D.Committed(t.text, h[e - 1].now + t.ttl * 1000, t.consume))
  {
  }

  lemma CompletionProvenance(d: Host, h: seq<Op>, k: nat, i: nat)
    requires 0 < k <= |h| && CommitsTo(Run(d, h, k - 1), h[k - 1], i)
    ensures Holds(Run(d, h, k), i) && CommittedBy(h, k, i, Run(d, h, k).slots[i].value)
  {
    StagedProvenance(d, h, k - 1);
    RunKeepsInv(d, h, k - 1);
    var s, op := Run(d, h, k - 1), h[k - 1];
    CommitStep(s, op, i);
    var b :| Upload(h, b, k - 1, s.staged.value);
    ExtendUpload(h, b, k - 1, s.staged.value);
    CommittedByIntro(h, b, k, i, Extended(s.staged.value, op));
  }

  lemma TextsStay(d: Host, h: seq<Op>, k: nat, i: nat)
    requires 0 < k <= |h| && i < d.n && !CommitsTo(Run(d, h, k - 1), h[k - 1], i)
    ensures |Run(d, h, k - 1).slots| == |Run(d, h, k).slots| == d.n
    ensures Run(d, h, k).slots[i].Some? ==> Run(d, h, k - 1).slots[i] == Run(d, h, k).slots[i]
  {
    RunKeepsInv(d, h, k - 1);
    OnlyCommitsCreate(d.n, Run(d, h, k - 1), h[k - 1], i);
  }

  /**
   * Nothing is ever in the store that was not uploaded: a committed text is the in-order concatenation of all the
   * chunks of one BEGIN, has exactly the declared length, and carries that BEGIN's policy and time-to-live.
   */
  lemma {:induction false} CommittedProvenance(d: Host, h: seq<Op>, k: nat, i: nat)
    requires k <= |h| && i < |Run(d, h, k).slots| && Run(d, h, k).slots[i].Some?
    ensures exists e :: e <= k && CommittedBy(h, e, i, Run(d, h, k).slots[i].value)
  {
    RunKeepsInv(d, h, k);
    if k > 0 {
      if CommitsTo(Run(d, h, k - 1), h[k - 1], i) {
        CompletionProvenance(d, h, k, i);
      } else {
        TextsStay(d, h, k, i);
        CommittedProvenance(d, h, k - 1, i);
      }
    }
  }

  // ------------------------------------------------------------------ conservation of committed texts

  predicate CommitsTo(s: D.Store, op: Op, i: nat) {
    op.Append? && op.slot == i && s.staged.Some? && !(i < |s.slots| && D.DueAt(s, i, op.now))
    && D.Fits(s.staged.value, i, op.offset, op.data) && |s.staged.value.text| + |op.data| == s.staged.value.total
  }

  predicate Holds(s: D.Store, i: nat) {
    i < |s.slots| && s.slots[i].Some?
  }

  /** The operation passes a slot's deadline and looks at the clock for every slot. */
  predicate Expires(s: D.Store, op: Op, i: nat) {
    Holds(s, i) && !op.ClearSlot? && !op.ClearAll? && D.DueAt(s, i, op.now)
  }

  predicate Clears(s: D.Store, op: Op, i: nat) {
    Holds(s, i) && (op.ClearAll? || (op.ClearSlot? && op.slot == i))
  }

  predicate Consumes(s: D.Store, op: Op, i: nat) {
    Holds(s, i) && !Expires(s, op, i) && op.Press? && op.slot == i && op.start == Success && s.slots[i].value.consume
  }

  predicate Replaces(s: D.Store, op: Op, i: nat) {
    Holds(s, i) && !Expires(s, op, i) && CommitsTo(s, op, i)
  }

  /** Without a commit to it a slot keeps its text unless the text expires, is cleared or is consumed. */
  lemma OnlyCommitsCreate(n: nat, s: D.Store, op: Op, i: nat)
    requires Inv(n, s) && i < n && !CommitsTo(s, op, i)
    ensures |Apply(s, op).slots| == n
    ensures Apply(s, op).slots[i] ==
            if Expires(s, op, i) || Clears(s, op, i) || Consumes(s, op, i) then None else s.slots[i]
  {
  }

  datatype Ledger = Ledger(commits: nat, consumed: nat, expired: nat, cleared: nat, replaced: nat)

  function Bit(b: bool): nat { if b then 1 else 0 }

  function Entry(s: D.Store, op: Op, i: nat): Ledger {
    Ledger(Bit(CommitsTo(s, op, i)), Bit(Consumes(s, op, i)), Bit(Expires(s, op, i)), Bit(Clears(s, op, i)), Bit(Replaces(s, op, i)))
  }

  function Account(d: Host, h: seq<Op>, k: nat, i: nat): Ledger
    requires k <= |h|
  {
    if k == 0 then Ledger(0, 0, 0, 0, 0)
    else Plus(Account(d, h, k - 1, i), Entry(Run(d, h, k - 1), h[k - 1], i))
  }

  function Plus(l: Ledger, e: Ledger): Ledger {
    Ledger(l.commits + e.commits, l.consumed + e.consumed, l.expired + e.expired, l.cleared + e.cleared, l.replaced + e.replaced)
  }

  function Out(l: Ledger): nat {
    l.consumed + l.expired + l.cleared + l.replaced
  }

  predicate StaysHeld(s: D.Store, op: Op, i: nat) {
    CommitsTo(s, op, i) || (Holds(s, i) && !Expires(s, op, i) && !Clears(s, op, i) && !Consumes(s, op, i))
  }

  lemma HeldAfter(n: nat, s: D.Store, op: Op, i: nat)
    requires Inv(n, s) && i < n
    ensures Holds(Apply(s, op), i) == StaysHeld(s, op, i)
  {
    if CommitsTo(s, op, i) {
      CommitStep(s, op, i);
    } else {
      OnlyCommitsCreate(n, s, op, i);
    }
  }

  lemma EntryBalances(s: D.Store, op: Op, i: nat, held: bool, l: Ledger)
    requires i < |s.slots| && held == StaysHeld(s, op, i) && l.commits == Out(l) + Bit(Holds(s, i))
    ensures var m := Plus(l, Entry(s, op, i)); m.commits == Out(m) + Bit(held)
  {
  }

  /**
   * Every commit to a slot is accounted for exactly once: consumed by one accepted press, expired, cleared,
   * replaced by a later commit, or still held. So no text is accepted twice and none disappears otherwise;
   * in particular a press that finds the executor busy or failing loses nothing.
   */
  lemma {:induction false} TextsAreConserved(d: Host, h: seq<Op>, k: nat, i: nat)
    requires k <= |h| && i < d.n
    ensures var l := Account(d, h, k, i);
            l.commits == l.consumed + l.expired + l.cleared + l.replaced + Bit(Holds(Run(d, h, k), i))
  {
    if k > 0 {
      TextsAreConserved(d, h, k - 1, i);
      RunKeepsInv(d, h, k - 1);
      HeldAfter(d.n, Run(d, h, k - 1), h[k - 1], i);
      EntryBalances(Run(d, h, k - 1), h[k - 1], i, Holds(Run(d, h, k), i), Account(d, h, k - 1, i));
    }
  }

  // ------------------------------------------------------------------ expiry and the timer

  lemma RearmStep(s: D.Store, op: Op)
    ensures Apply(s, op).rearmed == s.rearmed || Apply(s, op).rearmed == op.now
  {
  }

  lemma {:induction false} RearmedInThePast(d: Host, h: seq<Op>, k: nat, now: nat)
    requires Monotone(h) && k <= |h| && (k > 0 ==> h[k - 1].now <= now)
    ensures Run(d, h, k).rearmed <= now
  {
    if k > 0 {
      RearmedInThePast(d, h, k - 1, h[k - 1].now);
      RearmStep(Run(d, h, k - 1), h[k - 1]);
    }
  }

  /**
   * Whenever the kernel accepted the latest re-arming, the timer is pending for every held text, no later than its
   * deadline or one tick after that re-arming. Running the handler removes exactly the due texts.
   */
  lemma TimerCoversEveryText(d: Host, h: seq<Op>, k: nat, now: nat, i: nat)
    requires Monotone(h) && k <= |h| && i < d.n && (k > 0 ==> h[k - 1].now <= now)
    ensures var s := Run(d, h, k);
            |s.slots| == d.n && s.rearmed <= now
            && (s.armed && s.slots[i].Some? ==>
                  s.timer.Some? && (s.timer.value <= s.slots[i].value.deadline || s.timer.value <= s.rearmed + 1))
    ensures var s, s' := Run(d, h, k), D.TtlHandler(Run(d, h, k), now);
            |s'.slots| == d.n && s'.slots[i] == (if D.DueAt(s, i, now) then None else s.slots[i])
  {
    RunKeepsInv(d, h, k);
    RearmedInThePast(d, h, k, now);
    D.EarliestIsLeast(Run(d, h, k).slots, d.n);
  }

  /**
   * What an accepted re-arming asks for: the earliest deadline of a held text, or one tick ahead when that has passed, and so
   * always the future; with nothing held the timer is cancelled, and a refusal leaves it as it was.
   */
  lemma RearmAsksFor(s: D.Store, now: nat)
    ensures var t := D.Rearm(s, now);
            if forall i | 0 <= i < |s.slots| :: s.slots[i] == None then t.timer == None && t.armed && t.armings == s.armings
            else
              && t.armings == s.armings + 1 && t.armed == s.kernel(s.armings) && (!t.armed ==> t.timer == s.timer)
              && (t.armed ==>
                    && t.timer.Some? && t.timer.value > now
                    && (forall i | 0 <= i < |s.slots| && s.slots[i].Some? ::
                          t.timer.value <= s.slots[i].value.deadline || t.timer.value == now + 1)
                    && exists i | 0 <= i < |s.slots| && s.slots[i].Some? ::
                         t.timer.value == if s.slots[i].value.deadline > now then s.slots[i].value.deadline else now + 1)
  {
    D.EarliestIsLeast(s.slots, |s.slots|);
  }

  /** While any text is held the timer is pending, no later than its deadline. */
  predicate Covered(s: D.Store) {
    forall i | 0 <= i < |s.slots| && s.slots[i].Some? :: s.timer.Some? && s.timer.value <= s.slots[i].value.deadline
  }

  /**
   * The handler, whose timer is no longer pending, sets it strictly in the future and no later than any deadline if and
   * only if nothing is left or the kernel accepts; the code does not look at the kernel's answer.
   */
  lemma HandlerCoversIff(s: D.Store, now: nat)
    ensures var t := D.TtlHandler(s, now);
            && (Covered(t) <==> (forall i | 0 <= i < |t.slots| :: t.slots[i] == None) || s.kernel(s.armings))
            && (t.timer.Some? ==> t.timer.value > now)
  {
    var t := D.TtlHandler(s, now);
    D.EarliestIsLeast(t.slots, |t.slots|);
  }

  /** A press types exactly the committed bytes of its own slot and only before their deadline. */
  lemma PressTypesLiveText(d: Host, h: seq<Op>, k: nat, now: nat, slot: nat, start: Errno)
    requires k <= |h|
    ensures var s, p := Run(d, h, k), D.Execute(Run(d, h, k), now, slot, start);
            && (p.typed.Some? <==> start == Success && Holds(s, slot) && now < s.slots[slot].value.deadline)
            && (p.typed.Some? ==> p.typed == s.slots[slot]
                                  && exists e :: e <= k && CommittedBy(h, e, slot, p.typed.value))
  {
    if Holds(Run(d, h, k), slot) {
      CommittedProvenance(d, h, k, slot);
    }
  }
}
