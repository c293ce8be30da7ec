/**
 * The dynamic store and the executor together: uploads, expiry and clearing, presses of dynamic and static slots while
 * a macro runs or not, and runs of the executor's work item, in any order.
 */
module Typing {
  import opened Bytes
  import opened ExecutorSpec
  import D = DynamicSpec
  import DT = DynamicTheorems

  /** Where an accepted text came from: the id-th commit of the dynamic store, or a static slot. */
  datatype Source = Dynamic(id: nat) | Static

  datatype Accepted = Accepted(text: seq<byte>, source: Source)

  /**
   * Store, executor and the key events so far. The rest is history: the texts committed, in order; which of them each
   * slot holds; the texts the executor accepted, in order, and how many characters of each were typed.
   */
  datatype Rig = Rig(store: D.Store, exec: Exec, out: seq<KeyEvent>, commits: seq<D.Committed>, ids: seq<Option<nat>>,
                     accepted: seq<Accepted>, done: seq<nat>)

  datatype Step =
    | Edit(op: DT.Op)
    | Press(now: nat, slot: nat, sched: Errno)
    | PressStatic(text: seq<byte>, sched: Errno)
    | Tick(sched: Errno)

  ghost function Boot(d: DT.Host): Rig {
    Rig(D.Boot(d.n, d.kernel), IDLE, [], [], seq(d.n, _ => None), [], [])
  }

  /** What each slot holds after an operation that may have committed to one of them. */
  function HeldIds(ids: seq<Option<nat>>, s: D.Store, committed: Option<nat>, id: nat): seq<Option<nat>>
    requires |ids| == |s.slots|
  {
    seq(|ids|, i requires 0 <= i < |ids| =>
      if committed == Some(i) then Some(id) else if s.slots[i].Some? then ids[i] else None)
  }

  function Committed(s: D.Store, op: DT.Op): Option<nat> {
    if op.Append? && DT.CommitsTo(s, op, op.slot) then Some(op.slot) else None
  }

  /** The executor takes a text: it was idle and now runs it. */
  function Take(r: Rig, x: Exec, a: Accepted): Rig {
    if r.exec.run.None? && x.run.Some? then r.(exec := x, accepted := r.accepted + [a], done := r.done + [0]) else r.(exec := x)
  }

  /** A press of a dynamic slot: what the executor answers decides what the store does. */
  function PressSlot(r: Rig, now: nat, slot: nat, sched: Errno): Rig
    requires |r.ids| == |r.store.slots|
  {
    var e := D.ExpireDue(r.store, now);
    if slot >= |e.slots| || e.slots[slot].None? then
      var t := D.Execute(r.store, now, slot, Success).store;
      if |t.slots| != |r.ids| then r else r.(store := t, ids := HeldIds(r.ids, t, None, 0))
    else
      var text := e.slots[slot].value.text;
      var (x, err) := Start(r.exec, text, sched);
      var t := D.Execute(r.store, now, slot, err).store;
      var u := Take(r, x, Accepted(text, if r.ids[slot].Some? then Dynamic(r.ids[slot].value) else Static));
      if |t.slots| != |r.ids| then u else u.(store := t, ids := HeldIds(r.ids, t, None, 0))
  }

  function Run(r: Rig, sched: Errno): Rig
    requires Sane(r.exec)
  {
    var (x, more) := Handle(r.exec, sched);
    var n := |r.done|;
    var typed := more != [] && more[|more| - 1].Up? && n > 0;
    r.(exec := x, out := r.out + more, done := if typed then r.done[n - 1 := r.done[n - 1] + 1] else r.done)
  }

  function Apply(r: Rig, step: Step): Rig
    requires |r.ids| == |r.store.slots| && Sane(r.exec)
  {
    match step
    case Edit(op) =>
      var t := DT.Apply(r.store, op);
      var c := Committed(r.store, op);
      if op.Press? || |t.slots| != |r.ids| then r
      else
        r.(store := t, ids := HeldIds(r.ids, t, c, |r.commits|),
           commits := if c.Some? && c.value < |t.slots| && t.slots[c.value].Some? then r.commits + [t.slots[c.value].value]
                      else r.commits)
    case Press(now, slot, sched) => PressSlot(r, now, slot, sched)
    case PressStatic(text, sched) => Take(r, Start(r.exec, text, sched).0, Accepted(text, Static))
    case Tick(sched) => Run(r, sched)
  }

  // ------------------------------------------------------------------ what always holds

  /** The complete taps of the first k accepted texts, one text after the other. */
  function Spelled(accepted: seq<Accepted>, done: seq<nat>, k: nat): seq<KeyEvent>
    requires k <= |accepted| == |done| && forall a | 0 <= a < k :: done[a] <= |accepted[a].text|
  {
    if k == 0 then [] else Spelled(accepted, done, k - 1) + Taps(accepted[k - 1].text, done[k - 1])
  }

  /** The key that is down, if any. */
  function KeyDown(x: Exec): seq<KeyEvent>
    requires Sane(x)
  {
    if x.run.Some? && x.run.value.phase.Releasing? then [Down(x.run.value.text[x.run.value.index])] else []
  }

  /** The slots hold the commits that ids says, no commit twice. */
  ghost predicate SlotsOk(n: nat, s: D.Store, ids: seq<Option<nat>>, commits: seq<D.Committed>) {
    && DT.Inv(n, s) && |ids| == n
    && (forall i | 0 <= i < n :: ids[i].Some? == s.slots[i].Some?)
    && (forall i | 0 <= i < n && ids[i].Some? :: ids[i].value < |commits| && commits[ids[i].value] == s.slots[i].value)
    && (forall i, j | 0 <= i < j < n && ids[i].Some? :: ids[i] != ids[j])
  }

  /** The accepted text is static or, byte for byte, a committed one. */
  predicate Genuine(commits: seq<D.Committed>, a: Accepted) {
    a.source.Dynamic? ==> a.source.id < |commits| && commits[a.source.id].text == a.text
  }

  /** The commit stays in its slot when it is accepted. */
  predicate Stays(commits: seq<D.Committed>, id: nat) {
    id < |commits| && !commits[id].consume
  }

  /** What was accepted is genuine; a text to be consumed is accepted once, and then no slot holds it. */
  ghost predicate AcceptedOk(ids: seq<Option<nat>>, commits: seq<D.Committed>, accepted: seq<Accepted>) {
    && (forall a | 0 <= a < |accepted| :: Genuine(commits, accepted[a]))
    && (forall a, i | 0 <= a < |accepted| && 0 <= i < |ids| && accepted[a].source.Dynamic? && ids[i] == Some(accepted[a].source.id) ::
          Stays(commits, accepted[a].source.id))
    && (forall a, b | 0 <= a < b < |accepted| && accepted[a].source.Dynamic? && accepted[a].source == accepted[b].source ::
          Stays(commits, accepted[a].source.id))
  }

  /** The events are taps of prefixes of the accepted texts, in order, then at most one key that is down. */
  ghost predicate OutOk(x: Exec, out: seq<KeyEvent>, accepted: seq<Accepted>, done: seq<nat>) {
    && Sane(x) && |done| == |accepted| && (forall a | 0 <= a < |done| :: done[a] <= |accepted[a].text|)
    && out == Spelled(accepted, done, |accepted|) + KeyDown(x)
    && (x.run.Some? ==>
          var n := |accepted|; n > 0 && x.run.value.text == accepted[n - 1].text && x.run.value.index == done[n - 1])
  }

  ghost predicate Inv(n: nat, r: Rig) {
    && SlotsOk(n, r.store, r.ids, r.commits) && AcceptedOk(r.ids, r.commits, r.accepted)
    && OutOk(r.exec, r.out, r.accepted, r.done)
  }

  lemma {:induction false} SpelledOnlyLooksBack(accepted: seq<Accepted>, done: seq<nat>, a: Accepted, m: nat, k: nat)
    requires k <= |accepted| == |done| && (forall i | 0 <= i < |done| :: done[i] <= |accepted[i].text|) && m <= |a.text|
    ensures Spelled(accepted + [a], done + [m], k) == Spelled(accepted, done, k)
  {
    if k > 0 {
      SpelledOnlyLooksBack(accepted, done, a, m, k - 1);
    }
  }

  lemma {:induction false} SpelledIgnoresLater(accepted: seq<Accepted>, done: seq<nat>, m: nat, k: nat)
    requires k < |accepted| == |done| && (forall i | 0 <= i < |done| :: done[i] <= |accepted[i].text|)
    requires m <= |accepted[|done| - 1].text|
    ensures Spelled(accepted, done[|done| - 1 := m], k) == Spelled(accepted, done, k)
  {
    if k > 0 {
      SpelledIgnoresLater(accepted, done, m, k - 1);
    }
  }

  /** One more tap of the text that is being typed. */
  lemma SpelledOneMore(accepted: seq<Accepted>, done: seq<nat>)
    requires 0 < |accepted| == |done| && (forall i | 0 <= i < |done| :: done[i] <= |accepted[i].text|)
    requires done[|done| - 1] < |accepted[|done| - 1].text|
    ensures var n, m := |done|, done[|done| - 1];
            var key := accepted[n - 1].text[m];
            Spelled(accepted, done[n - 1 := m + 1], n) == Spelled(accepted, done, n) + [Down(key), Up(key)]
  {
    var n, m := |done|, done[|done| - 1];
    SpelledIgnoresLater(accepted, done, m + 1, n - 1);
    TapStep(accepted[n - 1].text, m);
  }

  lemma PressKeepsOut(r: Rig, sched: Errno)
    requires OutOk(r.exec, r.out, r.accepted, r.done) && r.exec.run.Some? && r.exec.run.value.phase.Pressing?
    ensures var u := Run(r, sched); OutOk(u.exec, u.out, u.accepted, u.done)
  {
    SpelledOneMore(r.accepted, r.done);
    var more := Handle(r.exec, sched).1;
    assert r.out == Spelled(r.accepted, r.done, |r.accepted|);
  }

  lemma ReleaseKeepsOut(r: Rig, sched: Errno)
    requires OutOk(r.exec, r.out, r.accepted, r.done) && r.exec.run.Some? && r.exec.run.value.phase.Releasing?
    ensures var u := Run(r, sched); OutOk(u.exec, u.out, u.accepted, u.done)
  {
    SpelledOneMore(r.accepted, r.done);
    var key := r.exec.run.value.text[r.exec.run.value.index];
    assert Handle(r.exec, sched).1 == [Up(key)];
    assert r.out + [Up(key)] == Spelled(r.accepted, r.done, |r.accepted|) + [Down(key), Up(key)];
  }

  lemma RunKeepsOut(r: Rig, sched: Errno)
    requires OutOk(r.exec, r.out, r.accepted, r.done)
    ensures var u := Run(r, sched); OutOk(u.exec, u.out, u.accepted, u.done)
  {
    if r.exec.run.None? {
      assert r.out + [] == r.out;
    } else if r.exec.run.value.phase.Pressing? {
      PressKeepsOut(r, sched);
    } else {
      ReleaseKeepsOut(r, sched);
    }
  }

  lemma TakeKeepsOut(r: Rig, text: seq<byte>, sched: Errno, a: Accepted)
    requires OutOk(r.exec, r.out, r.accepted, r.done) && a.text == text
    ensures var u := Take(r, Start(r.exec, text, sched).0, a); OutOk(u.exec, u.out, u.accepted, u.done)
  {
    var u := Take(r, Start(r.exec, text, sched).0, a);
    if u.accepted != r.accepted {
      SpelledOnlyLooksBack(r.accepted, r.done, a, 0, |r.accepted|);
      assert Spelled(u.accepted, u.done, |u.accepted|) == Spelled(r.accepted, r.done, |r.accepted|) + [];
    }
  }

  /** A change of the store that commits nothing. */
  lemma ShrinkKeepsSlots(n: nat, s: D.Store, t: D.Store, ids: seq<Option<nat>>, commits: seq<D.Committed>, accepted: seq<Accepted>)
    requires SlotsOk(n, s, ids, commits) && AcceptedOk(ids, commits, accepted) && DT.Inv(n, t) && DT.Shrunk(s, t)
    ensures var left := HeldIds(ids, t, None, 0);
            && SlotsOk(n, t, left, commits) && AcceptedOk(left, commits, accepted)
            && forall i | 0 <= i < n :: left[i] == if t.slots[i].Some? then ids[i] else None
  {
    var left := HeldIds(ids, t, None, 0);
    assert forall i | 0 <= i < n :: left[i] == None || left[i] == ids[i];
  }

  /** A commit to slot i gets a new number. */
  lemma CommitKeepsSlots(n: nat, s: D.Store, t: D.Store, i: nat, ids: seq<Option<nat>>, commits: seq<D.Committed>, accepted: seq<Accepted>)
    requires SlotsOk(n, s, ids, commits) && AcceptedOk(ids, commits, accepted) && DT.Inv(n, t) && i < n && t.slots[i].Some?
    requires forall k | 0 <= k < n && k != i :: t.slots[k] == None || t.slots[k] == s.slots[k]
    ensures var held, more := HeldIds(ids, t, Some(i), |commits|), commits + [t.slots[i].value];
            SlotsOk(n, t, held, more) && AcceptedOk(held, more, accepted)
  {
    var held, more := HeldIds(ids, t, Some(i), |commits|), commits + [t.slots[i].value];
    assert forall k | 0 <= k < n :: held[k] == None || held[k] == ids[k] || (k == i && held[k] == Some(|commits|));
    assert forall id | 0 <= id < |commits| :: more[id] == commits[id];
    assert forall a | 0 <= a < |accepted| :: Genuine(commits, accepted[a]) && Genuine(more, accepted[a]);
  }

  lemma OthersOnlyShrink(n: nat, s: D.Store, op: DT.Op)
    requires DT.Inv(n, s)
    ensures |DT.Apply(s, op).slots| == n
    ensures forall i | 0 <= i < n && Committed(s, op) != Some(i) ::
              DT.Apply(s, op).slots[i] == None || DT.Apply(s, op).slots[i] == s.slots[i]
  {
    DT.ApplyKeepsInv(n, s, op);
    forall i | 0 <= i < n && Committed(s, op) != Some(i)
      ensures DT.Apply(s, op).slots[i] == None || DT.Apply(s, op).slots[i] == s.slots[i]
    {
      DT.OnlyCommitsCreate(n, s, op, i);
    }
  }

  lemma CommitKeepsInv(n: nat, r: Rig, op: DT.Op)
    requires Inv(n, r) && Committed(r.store, op).Some?
    ensures Inv(n, Apply(r, Edit(op)))
  {
    var t, i := DT.Apply(r.store, op), op.slot;
    DT.ApplyKeepsInv(n, r.store, op);
    DT.CommitStep(r.store, op, i);
    OthersOnlyShrink(n, r.store, op);
    CommitKeepsSlots(n, r.store, t, i, r.ids, r.commits, r.accepted);
  }

  lemma EditKeepsInv(n: nat, r: Rig, op: DT.Op)
    requires Inv(n, r) && !op.Press?
    ensures Inv(n, Apply(r, Edit(op)))
  {
    if Committed(r.store, op).Some? {
      CommitKeepsInv(n, r, op);
    } else {
      DT.ApplyKeepsInv(n, r.store, op);
      OthersOnlyShrink(n, r.store, op);
      ShrinkKeepsSlots(n, r.store, DT.Apply(r.store, op), r.ids, r.commits, r.accepted);
    }
  }

  /** A held text is taken, and no slot holds it any more when it is to be consumed. */
  lemma TakenKeepsAccepted(ids: seq<Option<nat>>, left: seq<Option<nat>>, commits: seq<D.Committed>, accepted: seq<Accepted>, slot: nat)
    requires AcceptedOk(ids, commits, accepted) && AcceptedOk(left, commits, accepted) && |left| == |ids|
    requires slot < |ids| && ids[slot].Some? && ids[slot].value < |commits|
    requires commits[ids[slot].value].consume ==> forall i | 0 <= i < |left| :: left[i] != ids[slot]
    ensures AcceptedOk(left, commits, accepted + [Accepted(commits[ids[slot].value].text, Dynamic(ids[slot].value))])
  {
    var id := ids[slot].value;
    var last := Accepted(commits[id].text, Dynamic(id));
    var more := accepted + [last];
    forall a | 0 <= a < |accepted| && accepted[a].source == last.source ensures Stays(commits, id) {
      assert ids[slot] == Some(accepted[a].source.id);
    }
  }

  lemma TakenPressKeepsInv(n: nat, r: Rig, now: nat, slot: nat, sched: Errno)
    requires Inv(n, r) && slot < n && D.ExpireDue(r.store, now).slots[slot].Some? && r.exec.run.None? && sched == Success
    ensures Inv(n, PressSlot(r, now, slot, sched))
  {
    var text := r.store.slots[slot].value.text;
    var t := D.Execute(r.store, now, slot, Success).store;
    DT.ApplyKeepsInv(n, r.store, DT.Press(now, slot, Success));
    TakeKeepsOut(r, text, sched, Accepted(text, Dynamic(r.ids[slot].value)));
    ShrinkKeepsSlots(n, r.store, t, r.ids, r.commits, r.accepted);
    TakenKeepsAccepted(r.ids, HeldIds(r.ids, t, None, 0), r.commits, r.accepted, slot);
  }

  predicate Taken(r: Rig, now: nat, slot: nat, sched: Errno) {
    slot < |r.store.slots| && r.store.slots[slot].Some? && now < r.store.slots[slot].value.deadline
    && r.exec.run.None? && sched == Success
  }

  /** A press of an empty slot, or one that the executor turns down, busy or not schedulable, only lets due texts expire. */
  lemma RefusedPressLosesNothing(n: nat, r: Rig, now: nat, slot: nat, sched: Errno)
    requires DT.Inv(n, r.store) && |r.ids| == n && !Taken(r, now, slot, sched)
    ensures var e := D.ExpireDue(r.store, now);
            PressSlot(r, now, slot, sched) == r.(store := e, ids := HeldIds(r.ids, e, None, 0))
  {
  }

  lemma PressKeepsInv(n: nat, r: Rig, now: nat, slot: nat, sched: Errno)
    requires Inv(n, r)
    ensures Inv(n, PressSlot(r, now, slot, sched))
  {
    if Taken(r, now, slot, sched) {
      TakenPressKeepsInv(n, r, now, slot, sched);
    } else {
      RefusedPressLosesNothing(n, r, now, slot, sched);
      DT.ExpireKeepsInv(n, r.store, now);
      ShrinkKeepsSlots(n, r.store, D.ExpireDue(r.store, now), r.ids, r.commits, r.accepted);
    }
  }

  lemma StepKeepsInv(n: nat, r: Rig, step: Step)
    requires Inv(n, r)
    ensures Inv(n, Apply(r, step))
  {
    match step
    case Edit(op) => if !op.Press? { EditKeepsInv(n, r, op); }
    case Press(now, slot, sched) => PressKeepsInv(n, r, now, slot, sched);
    case PressStatic(text, sched) => TakeKeepsOut(r, text, sched, Accepted(text, Static));
    case Tick(sched) => RunKeepsOut(r, sched);
  }

  /** A run: rs[0] is the booted rig and each step leads from rs[k] to rs[k+1]. */
  ghost predicate Runs(d: DT.Host, rs: seq<Rig>, steps: seq<Step>) {
    && |rs| == |steps| + 1 && rs[0] == Boot(d)
    && (forall k | 0 <= k < |rs| :: |rs[k].ids| == |rs[k].store.slots| && Sane(rs[k].exec))
    && forall k {:trigger Apply(rs[k], steps[k])} | 0 <= k < |steps| :: rs[k + 1] == Apply(rs[k], steps[k])
  }

  lemma {:induction false} RunKeepsInv(d: DT.Host, rs: seq<Rig>, steps: seq<Step>, k: nat)
    requires Runs(d, rs, steps) && k <= |steps|
    ensures Inv(d.n, rs[k])
  {
    if k == 0 {
      DT.RunKeepsInv(d, [], 0);
    } else {
      RunKeepsInv(d, rs, steps, k - 1);
      assert rs[k] == Apply(rs[k - 1], steps[k - 1]);
      StepKeepsInv(d.n, rs[k - 1], steps[k - 1]);
    }
  }

  lemma OneMoreStep(d: DT.Host, rs: seq<Rig>, steps: seq<Step>, r: Rig)
    requires |steps| > 0 && Runs(d, rs, steps[..|steps| - 1]) && Inv(d.n, r) && r == Apply(rs[|steps| - 1], steps[|steps| - 1])
    ensures Runs(d, rs + [r], steps)
  {
    var n, all := |steps| - 1, rs + [r];
    forall k | 0 <= k < |steps| ensures all[k + 1] == Apply(all[k], steps[k]) {
      if k < n {
        assert rs[k + 1] == Apply(rs[k], steps[..n][k]);
      }
    }
  }

  /** Every schedule is a run: the side condition of Runs excludes nothing. */
  lemma {:induction false} EveryScheduleRuns(d: DT.Host, steps: seq<Step>) returns (rs: seq<Rig>)
    ensures Runs(d, rs, steps)
  {
    if steps == [] {
      rs := [Boot(d)];
    } else {
      var n := |steps| - 1;
      var front := EveryScheduleRuns(d, steps[..n]);
      RunKeepsInv(d, front, steps[..n], n);
      StepKeepsInv(d.n, front[n], steps[n]);
      var r := Apply(front[n], steps[n]);
      OneMoreStep(d, front, steps, r);
      rs := front + [r];
    }
  }

  /**
   * What is typed. Whatever is uploaded, expires, is cleared, replaced or pressed meanwhile: the key events are taps of
   * prefixes of the accepted texts, one after the other, then at most one key that is down; every accepted dynamic text
   * is, byte for byte, one that was committed; and one that is to be consumed is accepted at most once.
   */
  lemma TypedTexts(d: DT.Host, rs: seq<Rig>, steps: seq<Step>, k: nat)
    requires Runs(d, rs, steps) && k <= |steps|
    ensures var r := rs[k];
            && |r.done| == |r.accepted| && (forall a | 0 <= a < |r.done| :: r.done[a] <= |r.accepted[a].text|)
            && r.out == Spelled(r.accepted, r.done, |r.accepted|) + KeyDown(r.exec)
            && (forall a | 0 <= a < |r.accepted| :: Genuine(r.commits, r.accepted[a]))
            && (forall a, b | 0 <= a < b < |r.accepted| && r.accepted[a].source.Dynamic? && r.accepted[a].source == r.accepted[b].source ::
                  Stays(r.commits, r.accepted[a].source.id))
  {
    RunKeepsInv(d, rs, steps, k);
  }

  /** This step is what the text was accepted for: a press of a static slot, or of the slot that holds that commit in time. */
  predicate PressedFor(r: Rig, step: Step, x: Accepted) {
    match x.source
    case Static => step.PressStatic? && step.text == x.text
    case Dynamic(id) =>
      step.Press? && step.slot < |r.ids| == |r.store.slots| && r.ids[step.slot] == Some(id)
      && r.store.slots[step.slot].Some? && r.store.slots[step.slot].value.text == x.text
      && step.now < r.store.slots[step.slot].value.deadline
  }

  lemma PressAccepts(n: nat, r: Rig, now: nat, slot: nat, sched: Errno)
    requires Inv(n, r)
    ensures var t := PressSlot(r, now, slot, sched);
            t.accepted == r.accepted
            || (|t.accepted| == |r.accepted| + 1 && t.accepted[..|r.accepted|] == r.accepted
                && PressedFor(r, Press(now, slot, sched), t.accepted[|r.accepted|]))
  {
    if !Taken(r, now, slot, sched) {
      RefusedPressLosesNothing(n, r, now, slot, sched);
    }
  }

  lemma StepAccepts(n: nat, r: Rig, step: Step)
    requires Inv(n, r)
    ensures var t := Apply(r, step);
            t.accepted == r.accepted
            || (|t.accepted| == |r.accepted| + 1 && t.accepted[..|r.accepted|] == r.accepted
                && PressedFor(r, step, t.accepted[|r.accepted|]))
  {
    if step.Press? {
      PressAccepts(n, r, step.now, step.slot, step.sched);
    }
  }

  /** Every accepted text was pressed for: a static one by a press of a static slot, a dynamic one while its slot held it. */
  lemma {:induction false} EveryTextWasPressedFor(d: DT.Host, rs: seq<Rig>, steps: seq<Step>, k: nat, a: nat) returns (m: nat)
    requires Runs(d, rs, steps) && k <= |steps| && a < |rs[k].accepted|
    ensures m < k && |rs[m].accepted| == a && PressedFor(rs[m], steps[m], rs[k].accepted[a])
  {
    if k == 0 {
      assert false;
    } else {
      var before := rs[k - 1].accepted;
      assert rs[k] == Apply(rs[k - 1], steps[k - 1]);
      RunKeepsInv(d, rs, steps, k - 1);
      StepAccepts(d.n, rs[k - 1], steps[k - 1]);
      if a < |before| {
        m := EveryTextWasPressedFor(d, rs, steps, k - 1, a);
        assert rs[k].accepted[..|before|][a] == before[a];
      } else {
        m := k - 1;
      }
    }
  }
}
