/** Where the texts in a running device's store come from, told in requests: one BEGIN and every DATA request after it. */
module SentTexts {
  import opened Bytes
  import opened Wire
  import opened ProtocolSpec
  import D = DynamicSpec
  import DT = DynamicTheorems
  import PI = ProtocolInvariants
  import SH = StoreHistory
  import UT = UploadTimer

  predicate IsBegin(step: PI.Step) { step.Request? && step.f.op == DYNAMIC_BEGIN }
  predicate IsData(step: PI.Step) { step.Request? && step.f.op == DYNAMIC_DATA }

  /** The payloads of all DATA requests among steps from..to, in order. */
  function Payloads(steps: seq<PI.Step>, from: nat, to: nat): seq<byte>
    requires to <= |steps|
  {
    if to <= from then []
    else Payloads(steps, from, to - 1) + (if IsData(steps[to - 1]) && steps[to - 1].f.plen <= 22 then steps[to - 1].f.Data() else [])
  }

  /** The step is no BEGIN, and if it is a DATA request then it is the next one of the upload that `begin` began. */
  predicate GoesOn(begin: Frame, sent: nat, step: PI.Step) {
    !IsBegin(step)
    && (IsData(step) ==>
          var f := step.f; f.plen <= 22 && f.slot == begin.slot && f.rid == begin.rid && f.total == begin.total && f.offset == sent)
  }

  /** Step b is a BEGIN request, and all DATA requests from there to step e go on with its upload. */
  predicate OneUpload(steps: seq<PI.Step>, b: nat, e: nat) {
    && b < e <= |steps| && IsBegin(steps[b])
    && forall m | b < m < e :: GoesOn(steps[b].f, |Payloads(steps, b + 1, m)|, steps[m])
  }

  /** The text is all that was sent from BEGIN request b to DATA request e, under the terms of that BEGIN. */
  predicate SentBy(steps: seq<PI.Step>, b: nat, e: nat, i: nat, c: D.Committed) {
    && e < |steps| && OneUpload(steps, b, e + 1) && IsData(steps[e])
    && var f := steps[b].f;
       f.slot == i && c.text == Payloads(steps, b + 1, e + 1) && |c.text| == f.total
       && c.deadline == steps[e].env.op + BeginTtl(f) * 1000 && c.consume == (BeginFlags(f) == 0)
  }

  // ------------------------------------------------------------------ one step

  predicate SlotsFaded(s: D.Store, t: D.Store) {
    |t.slots| == |s.slots| && forall i | 0 <= i < |s.slots| :: t.slots[i] == s.slots[i] || t.slots[i] == None
  }

  /** Nothing is added. */
  predicate Faded(s: D.Store, t: D.Store) {
    SlotsFaded(s, t) && (t.staged == s.staged || t.staged == None)
  }

  lemma OneFades(s: D.Store, op: DT.Op)
    requires !op.Begin? && !op.Append?
    ensures Faded(s, DT.Apply(s, op))
  {
  }

  lemma {:induction false} AllFade(s: D.Store, ops: seq<DT.Op>)
    requires forall m | 0 <= m < |ops| :: !ops[m].Begin? && !ops[m].Append?
    ensures Faded(s, SH.ApplyAll(s, ops))
  {
    if ops != [] {
      var n := |ops| - 1;
      AllFade(s, ops[..n]);
      OneFades(SH.ApplyAll(s, ops[..n]), ops[n]);
    }
  }

  /** The upload that is under way is the same one as before. */
  predicate SameUpload(s: System, t: System) {
    t.ctx.dyn.Some? ==> s.ctx.dyn.Some? && t.ctx.dyn.value.rid == s.ctx.dyn.value.rid
  }

  lemma DispatchKeepsUpload(c: Config, s: System, f: Frame, env: Env)
    requires f.plen <= 22 && KnownOpcode(f.op) && SlotsOk(c, s) && c.dynSlots <= 8 && f.op != DYNAMIC_BEGIN
    ensures SameUpload(s, Dispatch(c, s, f, env).0)
  {
    if f.op == PASSWORD_SET { UT.PasswordSpares(c, s, f, env); }
    else if f.op == LIST || f.op == GET || f.op == SET || f.op == CLEAR { UT.ManagedSpares(c, s, f, env); }
    else if f.op != CAPABILITIES && f.op != DYNAMIC_CLEAR && f.op != DYNAMIC_DATA { UT.AuthSpares(c, s, f, env); }
  }

  lemma StepKeepsUpload(c: Config, s: System, step: PI.Step)
    requires ConfigOk(c) && SlotsOk(c, s) && !IsBegin(step)
    ensures SameUpload(s, PI.Apply(c, s, step))
  {
    match step
    case Request(f, env) =>
      UT.GateSpares(c, s, env.sync, Err(INTERNAL));
      if BaseError(f).None? {
        DispatchKeepsUpload(c, Sync(s, env.sync), f, env);
      }
    case _ =>
  }

  lemma OthersOnlyFade(c: Config, s: System, step: PI.Step)
    requires ConfigOk(c) && SlotsOk(c, s) && !IsBegin(step) && !IsData(step)
    ensures Faded(s.store, PI.Apply(c, s, step).store)
  {
    SH.OpsAreTheSteps(c, s, step);
    SH.StepApplies(c, s, step);
    AllFade(s.store, SH.OpsOf(c, s, step));
  }

  function Began(f: Frame): D.Staged {
    D.Staged(f.slot, f.total, BeginTtl(f), BeginFlags(f) == 0, [])
  }

  lemma SyncFades(s: System, now: nat)
    ensures Faded(s.store, Sync(s, now).store)
  {
  }

  lemma BeginStages(c: Config, s: System, f: Frame, env: Env)
    requires PI.Inv(c, s)
    ensures var t := BeginUpload(c, s, f, env).0;
            && SlotsFaded(s.store, t.store)
            && (t.store.staged.Some? ==> t.store.staged.value == Began(f) && t.ctx.dyn.Some? && t.ctx.dyn.value.rid == f.rid)
  {
  }

  /** The frame is the next one of the upload under way. */
  predicate Next(s: System, f: Frame) {
    && f.plen <= 22 && s.store.staged.Some? && s.ctx.dyn.Some?
    && var t := s.store.staged.value;
       f.slot == t.slot && f.total == t.total && f.offset == |t.text| && f.rid == s.ctx.dyn.value.rid
  }

  function Grown(s: System, f: Frame): D.Staged
    requires Next(s, f)
  {
    var t := s.store.staged.value; t.(text := t.text + f.Data())
  }

  /** What is in slot i was there before, or is what the upload has become with this frame. */
  predicate Filled(s: System, t: System, f: Frame, now: nat, i: nat)
    requires i < |s.store.slots| == |t.store.slots|
  {
    t.store.slots[i].Some? && t.store.slots[i] != s.store.slots[i] ==>
      && Next(s, f) && i == f.slot
      && var g := Grown(s, f);
         |g.text| == g.total && t.store.slots[i].value == D.Committed(g.text, now + g.ttl * 1000, g.consume)
  }

  lemma DataStages(c: Config, s: System, f: Frame, env: Env)
    requires PI.Inv(c, s) && f.plen <= 22
    ensures var t := UploadData(c, s, f, env).0;
            t.store.staged.Some? ==> Next(s, f) && t.store.staged.value == Grown(s, f)
  {
    var op := DT.Append(env.op, f.slot, f.offset, f.Data());
    if DataError(c, s, f).None? && DT.Apply(s.store, op).staged.Some? {
      DT.StagedStep(s.store, op);
    }
  }

  lemma DataFills(c: Config, s: System, f: Frame, env: Env, i: nat)
    requires PI.Inv(c, s) && f.plen <= 22 && i < c.dynSlots
    ensures var t := UploadData(c, s, f, env).0; |t.store.slots| == c.dynSlots && Filled(s, t, f, env.op, i)
  {
    if DataError(c, s, f).None? {
      var op := DT.Append(env.op, f.slot, f.offset, f.Data());
      if DT.CommitsTo(s.store, op, i) {
        DT.CommitStep(s.store, op, i);
      } else {
        DT.OnlyCommitsCreate(c.dynSlots, s.store, op, i);
      }
    }
  }

  lemma BeginStep(c: Config, s: System, f: Frame, env: Env)
    requires ConfigOk(c) && PI.Inv(c, s) && f.op == DYNAMIC_BEGIN
    ensures var t := Process(c, s, f, env).0;
            && SlotsFaded(s.store, t.store)
            && (t.store.staged.Some? ==> t.store.staged.value == Began(f) && t.ctx.dyn.Some? && t.ctx.dyn.value.rid == f.rid)
  {
    SyncFades(s, env.sync);
    PI.SyncKeepsInv(c, s, env.sync);
    if BaseError(f).None? {
      BeginStages(c, Sync(s, env.sync), f, env);
    } else {
      OneFades(Sync(s, env.sync).store, DT.Cancel(env.op));
    }
  }

  lemma DataStep(c: Config, s: System, f: Frame, env: Env, i: nat)
    requires ConfigOk(c) && PI.Inv(c, s) && f.op == DYNAMIC_DATA && i < c.dynSlots
    ensures var t := Process(c, s, f, env).0;
            && |t.store.slots| == c.dynSlots && Filled(s, t, f, env.op, i)
            && (t.store.staged.Some? ==> Next(s, f) && t.store.staged.value == Grown(s, f))
  {
    var u := Sync(s, env.sync);
    SyncFades(s, env.sync);
    UT.GateSpares(c, s, env.sync, Err(INTERNAL));
    PI.SyncKeepsInv(c, s, env.sync);
    if BaseError(f).None? {
      DataStages(c, u, f, env);
      DataFills(c, u, f, env, i);
    } else {
      OneFades(u.store, DT.Cancel(env.op));
    }
  }

  // ------------------------------------------------------------------ runs

  /** What is staged is what has been sent since BEGIN request b. */
  predicate StagedSince(s: System, steps: seq<PI.Step>, b: nat, k: nat) {
    && s.store.staged.Some? && s.ctx.dyn.Some? && OneUpload(steps, b, k)
    && s.ctx.dyn.value.rid == steps[b].f.rid
    && s.store.staged.value == Began(steps[b].f).(text := Payloads(steps, b + 1, k))
  }

  lemma PayloadsGrow(steps: seq<PI.Step>, from: nat, k: nat)
    requires from <= k < |steps|
    ensures Payloads(steps, from, k + 1) ==
            Payloads(steps, from, k) + if IsData(steps[k]) && steps[k].f.plen <= 22 then steps[k].f.Data() else []
  {
  }

  lemma UploadGoesOn(steps: seq<PI.Step>, b: nat, e: nat)
    requires OneUpload(steps, b, e) && e < |steps| && GoesOn(steps[b].f, |Payloads(steps, b + 1, e)|, steps[e])
    ensures OneUpload(steps, b, e + 1)
  {
    assert GoesOn(steps[b].f, |Payloads(steps, b + 1, e)|, steps[e]);
  }

  lemma StagingGoesOn(c: Config, s: System, steps: seq<PI.Step>, b: nat, k: nat)
    requires ConfigOk(c) && PI.Inv(c, s) && k < |steps| && !IsBegin(steps[k]) && PI.Apply(c, s, steps[k]).store.staged.Some?
    requires s.store.staged.Some? ==> StagedSince(s, steps, b, k)
    ensures StagedSince(PI.Apply(c, s, steps[k]), steps, b, k + 1)
  {
    var step := steps[k];
    PI.ApplyKeepsInv(c, s, step);
    StepKeepsUpload(c, s, step);
    if IsData(step) {
      DataStep(c, s, step.f, step.env, 0);
    } else {
      OthersOnlyFade(c, s, step);
    }
    PayloadsGrow(steps, b + 1, k);
    UploadGoesOn(steps, b, k);
  }

  lemma {:induction false} StagedTextsWereSent(c: Config, ss: seq<System>, steps: seq<PI.Step>, k: nat) returns (b: nat)
    requires PI.Runs(c, ss, steps) && k <= |steps|
    ensures ss[k].store.staged.Some? ==> StagedSince(ss[k], steps, b, k)
  {
    b := 0;
    if k > 0 && ss[k].store.staged.Some? {
      b := StagedTextsWereSent(c, ss, steps, k - 1);
      var s, step := ss[k - 1], steps[k - 1];
      assert ss[k] == PI.Apply(c, s, step);
      PI.RunKeepsInv(c, ss, steps, k - 1);
      if IsBegin(step) {
        b := k - 1;
        BeginStep(c, s, step.f, step.env);
      } else {
        StagingGoesOn(c, s, steps, b, k - 1);
      }
    }
  }

  /** A slot comes by a new text only with the DATA request that completes it. */
  lemma OnlyDataFills(c: Config, s: System, step: PI.Step, i: nat)
    requires ConfigOk(c) && PI.Inv(c, s) && i < c.dynSlots
    ensures var t := PI.Apply(c, s, step);
            && |t.store.slots| == c.dynSlots
            && (t.store.slots[i].Some? && t.store.slots[i] != s.store.slots[i] ==>
                  IsData(step) && Filled(s, t, step.f, step.env.op, i))
  {
    if IsBegin(step) {
      BeginStep(c, s, step.f, step.env);
    } else if IsData(step) {
      DataStep(c, s, step.f, step.env, i);
    } else {
      OthersOnlyFade(c, s, step);
    }
  }

  lemma FillingIsSent(s: System, t: System, steps: seq<PI.Step>, b: nat, k: nat, i: nat)
    requires k < |steps| && IsData(steps[k]) && i < |s.store.slots| == |t.store.slots|
    requires s.store.staged.Some? ==> StagedSince(s, steps, b, k)
    requires Filled(s, t, steps[k].f, steps[k].env.op, i) && t.store.slots[i].Some? && t.store.slots[i] != s.store.slots[i]
    ensures b < k && SentBy(steps, b, k, i, t.store.slots[i].value)
  {
    PayloadsGrow(steps, b + 1, k);
    UploadGoesOn(steps, b, k);
  }

  predicate HoldsNew(s: System, t: System, i: nat) {
    i < |s.store.slots| == |t.store.slots| && t.store.slots[i].Some? && t.store.slots[i] != s.store.slots[i]
  }

  lemma NewTextsWereSent(c: Config, ss: seq<System>, steps: seq<PI.Step>, k: nat, i: nat) returns (b: nat)
    requires PI.Runs(c, ss, steps) && k < |steps| && i < c.dynSlots && HoldsNew(ss[k], ss[k + 1], i)
    ensures b < k && SentBy(steps, b, k, i, ss[k + 1].store.slots[i].value)
  {
    assert ss[k + 1] == PI.Apply(c, ss[k], steps[k]);
    PI.RunKeepsInv(c, ss, steps, k);
    OnlyDataFills(c, ss[k], steps[k], i);
    b := StagedTextsWereSent(c, ss, steps, k);
    FillingIsSent(ss[k], ss[k + 1], steps, b, k, i);
  }

  lemma SlotsStay(c: Config, ss: seq<System>, steps: seq<PI.Step>, k: nat)
    requires PI.Runs(c, ss, steps) && k <= |steps|
    ensures |ss[k].store.slots| == c.dynSlots && (k == 0 ==> forall i | 0 <= i < c.dynSlots :: ss[0].store.slots[i] == None)
  {
    PI.RunKeepsInv(c, ss, steps, k);
  }

  /**
   * Nothing is ever in a device's store that was not sent: a text is the payloads of all the DATA requests from one
   * BEGIN request for its slot up to the request that completed it, each with the identifier and total of that BEGIN and
   * at the offset where the one before ended, and it has the length, policy and lifetime that the BEGIN asked for.
   */
  lemma {:induction false} TextsWereSent(c: Config, ss: seq<System>, steps: seq<PI.Step>, k: nat, i: nat) returns (b: nat, e: nat)
    requires PI.Runs(c, ss, steps) && k <= |steps| && i < c.dynSlots
    ensures |ss[k].store.slots| == c.dynSlots
    ensures ss[k].store.slots[i].Some? ==> b < e < k && SentBy(steps, b, e, i, ss[k].store.slots[i].value)
  {
    b, e := 0, 0;
    SlotsStay(c, ss, steps, k);
    if k > 0 {
      SlotsStay(c, ss, steps, k - 1);
      if HoldsNew(ss[k - 1], ss[k], i) {
        b := NewTextsWereSent(c, ss, steps, k - 1, i);
        e := k - 1;
      } else {
        b, e := TextsWereSent(c, ss, steps, k - 1, i);
      }
    }
  }
}
