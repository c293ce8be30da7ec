/** The static slots of a running device: always the outcome of exactly the edits that its SET and CLEAR requests make. */
module StaticHistory {
  import opened Bytes
  import opened Wire
  import opened ProtocolSpec
  import A = AuthSpec
  import AN = Answers
  import AH = AuthHistory
  import PI = ProtocolInvariants
  import S = StaticSpec
  import ST = StaticTheorems

  // ------------------------------------------------------------------ the edit of one request

  /** The chunk is the next one of the SET in progress, or the first one of a new SET. */
  predicate ChunkFits(c: Config, s: System, f: Frame)
    requires f.plen <= 22
  {
    && f.slot < c.limits.count && f.total <= c.limits.maxText && f.offset <= f.total && f.plen <= f.total - f.offset
    && (f.total > 0 ==> f.plen > 0) && TextOk(f.Data())
    && (f.offset > 0 ==> s.ctx.put.Some? && SetContinues(s.ctx.put.value, f) && f.offset == |s.ctx.put.value.data|)
  }

  /** All of the text up to this chunk. */
  function TextSoFar(s: System, f: Frame): seq<byte>
    requires f.plen <= 22
  {
    if f.offset == 0 || s.ctx.put.None? then f.Data() else s.ctx.put.value.data + f.Data()
  }

  /** The edit that a granted request makes. */
  function EditOf(c: Config, s: System, f: Frame, env: Env): seq<ST.Edit>
    requires f.plen <= 22
  {
    if f.op == SET && ChunkFits(c, s, f) && f.offset + f.plen == f.total then
      [ST.Put(f.slot, TextSoFar(s, f), env.slotSave)]
    else if f.op == CLEAR && AN.AsksForClear(c, f) then [ST.Erase(f.slot, env.slotSave)]
    else []
  }

  /** The edit that the step makes, if any. */
  function EditsOf(c: Config, s: System, step: PI.Step): (es: seq<ST.Edit>)
    ensures |es| <= 1
  {
    if step.Request? && BaseError(step.f).None? && AN.Granted(s.auth, step.env) then EditOf(c, Sync(s, step.env.sync), step.f, step.env)
    else []
  }

  lemma SetApplies(c: Config, s: System, f: Frame, env: Env)
    requires PI.Inv(c, s) && f.plen <= 22 && f.op == SET
    ensures var (t, r) := Set(c, s, f, env);
            && t.macros == ST.Edits(c.limits, s.macros, EditOf(c, s, f, env))
            && (r.Ok? <==> ChunkFits(c, s, f) && (f.offset + f.plen == f.total ==> env.slotSave == Success))
            && (r.Ok? ==> r == Ok(f.offset + f.plen, f.total, []))
            && (ChunkFits(c, s, f) && r.Err? ==> r == Err(if env.slotSave == Einval then INVALID_TEXT else STORAGE_ERROR))
            && (t.ctx.put == if ChunkFits(c, s, f) && f.offset + f.plen < f.total
                             then Some(SetTx(f.rid, f.slot, f.total, TextSoFar(s, f), if f.offset == 0 then s.auth.epoch else s.ctx.put.value.epoch))
                             else None)
  {
    if ChunkFits(c, s, f) && f.offset + f.plen == f.total {
      OneEdit(c.limits, s.macros, ST.Put(f.slot, TextSoFar(s, f), env.slotSave));
    }
  }

  lemma OneEdit(l: S.Limits, s: S.Static, e: ST.Edit)
    ensures ST.Edits(l, s, [e]) == ST.Apply(l, s, e).0 && ST.Edits(l, s, []) == s
  {
    assert [e][..0] == [];
  }

  lemma ManageApplies(c: Config, s: System, f: Frame, env: Env)
    requires PI.Inv(c, s) && BaseError(f).None? && AN.Managed(f.op)
    ensures Manage(c, s, f, env).0.macros == ST.Edits(c.limits, s.macros, EditOf(c, s, f, env))
  {
    if f.op == SET {
      SetApplies(c, s, f, env);
    } else if f.op == CLEAR && AN.AsksForClear(c, f) {
      OneEdit(c.limits, s.macros, ST.Erase(f.slot, env.slotSave));
    }
  }

  lemma OthersKeepSlots(c: Config, s: System, f: Frame, env: Env)
    requires f.plen <= 22 && KnownOpcode(f.op) && SlotsOk(c, s) && c.dynSlots <= 8 && !AN.Managed(f.op) && f.op != PASSWORD_SET
    ensures Dispatch(c, s, f, env).0.macros == s.macros
  {
  }

  lemma AdvanceKeeps(c: Config, s: System, w: PwTx, env: Env)
    requires |w.data| <= PASSWORD_LENGTH
    ensures var t := PasswordAdvance(c, s, w, env).0; t.macros == s.macros && SameOrGone(s, t)
  {
  }

  lemma PasswordKeeps(c: Config, s: System, f: Frame, env: Env)
    requires f.plen <= 22
    ensures var t := PasswordSet(c, s, f, env).0; t.macros == s.macros && SameOrGone(s, t)
  {
    if AH.PartFits(s, f) {
      var w := if f.offset == 0 then PwTx(f.rid, f.Data(), s.auth.epoch) else s.ctx.pw.value.(data := s.ctx.pw.value.data + f.Data());
      AdvanceKeeps(c, s, w, env);
    }
  }

  lemma PasswordKeepsSlots(c: Config, s: System, f: Frame, env: Env)
    requires f.plen <= 22
    ensures ManagedPassword(c, s, f, env).0.macros == s.macros
  {
    PasswordKeeps(c, Access(s, env.access).0, f, env);
  }

  lemma RequestApplies(c: Config, s: System, f: Frame, env: Env)
    requires ConfigOk(c) && PI.Inv(c, s) && BaseError(f).None?
    ensures Process(c, s, f, env).0.macros == ST.Edits(c.limits, s.macros, EditsOf(c, s, PI.Request(f, env)))
  {
    var u := Sync(s, env.sync);
    if AN.Managed(f.op) && AN.Granted(s.auth, env) {
      AN.GrantedIsManaged(c, s, f, env);
      ManageApplies(c, u, f, env);
    } else if AN.Managed(f.op) {
      AN.DeniedRequests(c, s, f, env);
    } else if f.op == PASSWORD_SET {
      PasswordKeepsSlots(c, u, f, env);
    } else {
      OthersKeepSlots(c, u, f, env);
    }
  }

  lemma StepApplies(c: Config, s: System, step: PI.Step)
    requires ConfigOk(c) && PI.Inv(c, s)
    ensures PI.Apply(c, s, step).macros == ST.Edits(c.limits, s.macros, EditsOf(c, s, step))
  {
    if step.Request? && BaseError(step.f).None? {
      RequestApplies(c, s, step.f, step.env);
    }
  }

  // ------------------------------------------------------------------ runs

  /** Every edit that the first k steps of a run make, in order. */
  ghost function AllEdits(c: Config, ss: seq<System>, steps: seq<PI.Step>, k: nat): seq<ST.Edit>
    requires PI.Runs(c, ss, steps) && k <= |steps|
  {
    if k == 0 then [] else AllEdits(c, ss, steps, k - 1) + EditsOf(c, ss[k - 1], steps[k - 1])
  }

  lemma EditsInTwo(l: S.Limits, s: S.Static, es: seq<ST.Edit>, more: seq<ST.Edit>)
    requires |more| <= 1
    ensures ST.Edits(l, s, es + more) == ST.Edits(l, ST.Edits(l, s, es), more)
  {
    if more == [] {
      assert es + more == es;
    } else {
      assert (es + more)[..|es + more| - 1] == es;
      OneEdit(l, ST.Edits(l, s, es), more[0]);
      assert more == [more[0]];
    }
  }

  /** The static slots and their settings are the outcome of exactly the edits of the run's requests, in order. */
  lemma {:induction false} SlotsAreARun(c: Config, ss: seq<System>, steps: seq<PI.Step>, k: nat)
    requires PI.Runs(c, ss, steps) && k <= |steps|
    ensures ss[k].macros == ST.Edits(c.limits, ss[0].macros, AllEdits(c, ss, steps, k))
  {
    if k > 0 {
      SlotsAreARun(c, ss, steps, k - 1);
      assert ss[k] == PI.Apply(c, ss[k - 1], steps[k - 1]);
      PI.RunKeepsInv(c, ss, steps, k - 1);
      StepApplies(c, ss[k - 1], steps[k - 1]);
      EditsInTwo(c.limits, ss[0].macros, AllEdits(c, ss, steps, k - 1), EditsOf(c, ss[k - 1], steps[k - 1]));
    }
  }

  /**
   * A reboot of a running device, delivering every stored key in any order, gives every slot the text that was last saved
   * for it; when every edit could be saved, that is exactly the slots from before.
   */
  lemma DeviceRebootRestores(c: Config, ss: seq<System>, steps: seq<PI.Step>, k: nat, order: seq<string>, saves: seq<Errno>, marker: Errno)
    requires PI.Runs(c, ss, steps) && k <= |steps| && ST.Synced(c.limits, ss[0].macros) && |saves| == c.limits.count
    requires forall name :: name in order <==> name in ss[k].macros.nvs
    ensures var replayed := ST.Replay(c.limits, ss[k].macros.nvs, order);
            |replayed.slots| == |replayed.persisted| == c.limits.count
            && var booted := S.SettingsCommit(c.limits, replayed, saves, marker);
               && |booted.slots| == c.limits.count
               && (forall i | 0 <= i < c.limits.count ::
                     booted.slots[i] == ST.LastSaved(c.limits, ss[0].macros, AllEdits(c, ss, steps, k), i))
               && (ST.AllSucceed(c.limits, ss[0].macros, AllEdits(c, ss, steps, k)) ==> booted.slots == ss[k].macros.slots)
  {
    var es := AllEdits(c, ss, steps, k);
    SlotsAreARun(c, ss, steps, k);
    ST.RebootGivesLastSaved(c.limits, ss[0].macros, es, order, saves, marker);
    if ST.AllSucceed(c.limits, ss[0].macros, es) {
      ST.RebootRestores(c.limits, ss[0].macros, es, order, saves, marker);
    }
  }

  // ------------------------------------------------------------------ where the text of an edit comes from

  predicate IsSet(step: PI.Step) { step.Request? && step.f.op == SET }

  /** The payloads of all SET requests among steps from..to, in order. */
  function Payloads(steps: seq<PI.Step>, from: nat, to: nat): seq<byte>
    requires to <= |steps|
  {
    if to <= from then []
    else Payloads(steps, from, to - 1) + if IsSet(steps[to - 1]) && steps[to - 1].f.plen <= 22 then steps[to - 1].f.Data() else []
  }

  /** If the step is a SET request then it is the next one of the text that `first` began. */
  predicate GoesOn(first: Frame, sent: nat, step: PI.Step) {
    IsSet(step) ==>
      var f := step.f; f.plen <= 22 && f.slot == first.slot && f.rid == first.rid && f.total == first.total && f.offset == sent
  }

  /** Step b is the first SET request of a text, and all SET requests from there to step e go on with it. */
  predicate OneText(steps: seq<PI.Step>, b: nat, e: nat) {
    && b < e <= |steps| && IsSet(steps[b]) && steps[b].f.offset == 0
    && forall m | b <= m < e :: GoesOn(steps[b].f, |Payloads(steps, b, m)|, steps[m])
  }

  /** The transaction is the same one as before, or gone. */
  predicate SameOrGone(s: System, t: System) {
    t.ctx.put == s.ctx.put || t.ctx.put == None
  }

  lemma GateKeepsText(c: Config, s: System, now: nat, r: Response)
    ensures SameOrGone(s, Sync(s, now)) && SameOrGone(s, RefreshProtected(c, s, now, r).0)
  {
  }

  lemma OthersKeepText(c: Config, s: System, f: Frame, env: Env)
    requires f.plen <= 22 && KnownOpcode(f.op) && SlotsOk(c, s) && c.dynSlots <= 8 && !AN.Managed(f.op) && f.op != PASSWORD_SET
    ensures SameOrGone(s, Dispatch(c, s, f, env).0)
  {
  }

  lemma PasswordKeepsText(c: Config, s: System, f: Frame, env: Env)
    requires f.plen <= 22
    ensures SameOrGone(s, ManagedPassword(c, s, f, env).0)
  {
    PasswordKeeps(c, Access(s, env.access).0, f, env);
  }

  lemma RequestKeepsText(c: Config, s: System, f: Frame, env: Env)
    requires ConfigOk(c) && PI.Inv(c, s) && BaseError(f).None? && f.op != SET
    ensures SameOrGone(s, Process(c, s, f, env).0)
  {
    var u := Sync(s, env.sync);
    GateKeepsText(c, s, env.sync, Err(INTERNAL));
    if AN.Managed(f.op) && AN.Granted(s.auth, env) {
      AN.GrantedIsManaged(c, s, f, env);
      var (v, r) := Manage(c, u, f, env);
      GateKeepsText(c, v, env.refresh, r);
    } else if AN.Managed(f.op) {
      AN.DeniedRequests(c, s, f, env);
    } else if f.op == PASSWORD_SET {
      PasswordKeepsText(c, u, f, env);
    } else {
      OthersKeepText(c, u, f, env);
    }
  }

  lemma StepKeepsText(c: Config, s: System, step: PI.Step)
    requires ConfigOk(c) && PI.Inv(c, s) && !IsSet(step)
    ensures SameOrGone(s, PI.Apply(c, s, step))
  {
    match step
    case Request(f, env) =>
      GateKeepsText(c, s, env.sync, Err(INTERNAL));
      if BaseError(f).None? {
        RequestKeepsText(c, s, f, env);
      }
    case _ =>
  }

  /** The chunk that a SET request adds fits the transaction from before. */
  lemma SetStep(c: Config, s: System, f: Frame, env: Env)
    requires ConfigOk(c) && PI.Inv(c, s) && f.op == SET
    ensures var t := Process(c, s, f, env).0;
            t.ctx.put.Some? ==>
              && f.plen <= 22 && ChunkFits(c, s, f)
              && t.ctx.put.value.rid == f.rid && t.ctx.put.value.slot == f.slot && t.ctx.put.value.total == f.total
              && t.ctx.put.value.data == TextSoFar(s, f)
  {
    var u := Sync(s, env.sync);
    GateKeepsText(c, s, env.sync, Err(INTERNAL));
    if BaseError(f).None? && AN.Granted(s.auth, env) {
      AN.GrantedIsManaged(c, s, f, env);
      SetApplies(c, u, f, env);
      var (v, r) := Manage(c, u, f, env);
      GateKeepsText(c, v, env.refresh, r);
    } else if BaseError(f).None? {
      AN.DeniedRequests(c, s, f, env);
    }
  }

  /** The transaction holds what has been sent since SET request b. */
  predicate SentSince(s: System, steps: seq<PI.Step>, b: nat, k: nat) {
    && s.ctx.put.Some? && OneText(steps, b, k)
    && var t, f := s.ctx.put.value, steps[b].f;
       t.rid == f.rid && t.slot == f.slot && t.total == f.total && t.data == Payloads(steps, b, k)
  }

  lemma PayloadsGrow(steps: seq<PI.Step>, from: nat, k: nat)
    requires from <= k < |steps|
    ensures Payloads(steps, from, k + 1) ==
            Payloads(steps, from, k) + if IsSet(steps[k]) && steps[k].f.plen <= 22 then steps[k].f.Data() else []
    ensures Payloads(steps, k, k) == []
  {
  }

  lemma TextGoesOn(steps: seq<PI.Step>, b: nat, e: nat)
    requires e < |steps| && b <= e && IsSet(steps[b]) && steps[b].f.offset == 0 && (b < e ==> OneText(steps, b, e))
    requires GoesOn(steps[b].f, |Payloads(steps, b, e)|, steps[e])
    ensures OneText(steps, b, e + 1)
  {
    assert GoesOn(steps[b].f, |Payloads(steps, b, e)|, steps[e]);
  }

  /** The chunk goes on with the text of request b, or begins one of its own. */
  lemma ChunkWasSent(c: Config, s: System, steps: seq<PI.Step>, b: nat, k: nat) returns (b': nat)
    requires k < |steps| && IsSet(steps[k]) && steps[k].f.plen <= 22 && ChunkFits(c, s, steps[k].f)
    requires s.ctx.put.Some? ==> SentSince(s, steps, b, k)
    ensures b' <= k && OneText(steps, b', k + 1) && TextSoFar(s, steps[k].f) == Payloads(steps, b', k + 1)
    ensures steps[b'].f.slot == steps[k].f.slot && steps[b'].f.rid == steps[k].f.rid && steps[b'].f.total == steps[k].f.total
  {
    b' := if steps[k].f.offset == 0 then k else b;
    PayloadsGrow(steps, b', k);
    TextGoesOn(steps, b', k);
  }

  lemma StepGoesOn(c: Config, s: System, t: System, steps: seq<PI.Step>, b: nat, k: nat) returns (b': nat)
    requires ConfigOk(c) && PI.Inv(c, s) && k < |steps| && t == PI.Apply(c, s, steps[k]) && t.ctx.put.Some?
    requires s.ctx.put.Some? ==> SentSince(s, steps, b, k)
    ensures SentSince(t, steps, b', k + 1)
  {
    if IsSet(steps[k]) {
      SetStep(c, s, steps[k].f, steps[k].env);
      b' := ChunkWasSent(c, s, steps, b, k);
    } else {
      b' := b;
      StepKeepsText(c, s, steps[k]);
      PayloadsGrow(steps, b, k);
      TextGoesOn(steps, b, k);
    }
  }

  lemma {:induction false} OpenTextWasSent(c: Config, ss: seq<System>, steps: seq<PI.Step>, k: nat) returns (b: nat)
    requires PI.Runs(c, ss, steps) && k <= |steps|
    ensures ss[k].ctx.put.Some? ==> SentSince(ss[k], steps, b, k)
  {
    b := 0;
    if k > 0 && ss[k].ctx.put.Some? {
      b := OpenTextWasSent(c, ss, steps, k - 1);
      assert ss[k] == PI.Apply(c, ss[k - 1], steps[k - 1]);
      PI.RunKeepsInv(c, ss, steps, k - 1);
      b := StepGoesOn(c, ss[k - 1], ss[k], steps, b, k - 1);
    }
  }

  /**
   * Nothing is ever written to a static slot that was not sent: a text that an edit puts is the payloads of all the SET
   * requests from one with offset 0 to the one that completes it, each with that one's identifier, slot and total and at the
   * offset where the one before ended.
   */
  lemma PutTextsWereSent(c: Config, ss: seq<System>, steps: seq<PI.Step>, k: nat, e: ST.Edit) returns (b: nat)
    requires PI.Runs(c, ss, steps) && k < |steps| && EditsOf(c, ss[k], steps[k]) == [e] && e.Put?
    ensures b <= k && OneText(steps, b, k + 1) && e.slot == steps[b].f.slot
    ensures e.text == Payloads(steps, b, k + 1) && |e.text| == steps[b].f.total && e.save == steps[k].env.slotSave
  {
    b := OpenTextWasSent(c, ss, steps, k);
    var u := Sync(ss[k], steps[k].env.sync);
    GateKeepsText(c, ss[k], steps[k].env.sync, Err(INTERNAL));
    b := ChunkWasSent(c, u, steps, b, k);
  }
}
