/** The inactivity timer: while an upload is open the timer is pending for exactly its deadline. */
module UploadTimer {
  import opened Bytes
  import opened Wire
  import opened ProtocolSpec
  import PI = ProtocolInvariants

  predicate Covered(s: System) {
    s.ctx.dyn.Some? ==> s.owner && s.timeout == Some(s.ctx.dyn.value.deadline)
  }

  /** The upload and its timer are as they were, or the upload is gone. */
  predicate Spared(s: System, t: System) {
    t.ctx.dyn == None || (t.ctx.dyn == s.ctx.dyn && t.owner == s.owner && t.timeout == s.timeout)
  }

  lemma GateSpares(c: Config, s: System, now: nat, r: Response)
    ensures Spared(s, Sync(s, now)) && Spared(s, Access(s, now).0) && Spared(s, RefreshProtected(c, s, now, r).0)
  {
  }

  lemma ManageSpares(c: Config, s: System, f: Frame, env: Env)
    requires f.plen <= 22 && SlotsOk(c, s)
    ensures var t := Manage(c, s, f, env).0; t.ctx.dyn == s.ctx.dyn && t.owner == s.owner && t.timeout == s.timeout
  {
  }

  lemma ManagedSpares(c: Config, s: System, f: Frame, env: Env)
    requires f.plen <= 22 && SlotsOk(c, s)
    ensures Spared(s, Managed(c, s, f, env).0)
  {
    GateSpares(c, s, env.access, Err(INTERNAL));
    var (t, denied) := Access(s, env.access);
    if denied.None? {
      ManageSpares(c, t, f, env);
      var (u, r) := Manage(c, t, f, env);
      GateSpares(c, u, env.refresh, r);
    }
  }

  lemma PasswordAdvanceSpares(c: Config, s: System, t: PwTx, env: Env)
    requires |t.data| <= PASSWORD_LENGTH
    ensures Spared(s, PasswordAdvance(c, s, t, env).0)
  {
    GateSpares(c, s.(ctx := s.ctx.(pw := Some(t))), env.refresh, Ok(0, 0, []));
  }

  lemma PasswordSpares(c: Config, s: System, f: Frame, env: Env)
    requires f.plen <= 22
    ensures Spared(s, ManagedPassword(c, s, f, env).0)
  {
    GateSpares(c, s, env.access, Err(INTERNAL));
    var (t, denied) := Access(s, env.access);
    if denied.None? {
      if f.offset == 0 {
        PasswordAdvanceSpares(c, t, PwTx(f.rid, f.Data(), t.auth.epoch), env);
      } else if t.ctx.pw.Some? && |t.ctx.pw.value.data| + f.plen <= PASSWORD_LENGTH {
        var w := t.ctx.pw.value;
        PasswordAdvanceSpares(c, t, w.(data := w.data + f.Data()), env);
      }
    }
  }

  lemma AuthSpares(c: Config, s: System, f: Frame, env: Env)
    requires f.plen <= 22
    ensures Spared(s, AuthInfo(s, f, env.op).0) && Spared(s, AuthChallenge(c, s, f, env).0)
    ensures Spared(s, AuthProve(c, s, f, env).0) && Spared(s, LockCommand(s, f, env.op).0)
  {
  }

  /** BEGIN and DATA leave an upload only with its timer restarted; a timer that cannot be armed ends the upload. */
  lemma UploadsAreCovered(c: Config, s: System, f: Frame, env: Env)
    requires f.plen <= 22 && Covered(s)
    ensures Covered(BeginUpload(c, s, f, env).0) && Covered(UploadData(c, s, f, env).0) && Covered(ClearUpload(c, s, f, env).0)
    ensures forall t | t == BeginUpload(c, s, f, env).0 || t == UploadData(c, s, f, env).0 ::
              t.ctx.dyn.Some? ==> t.ctx.dyn.value.deadline == env.op + TRANSACTION_TIMEOUT_MS
  {
  }

  lemma DispatchKeepsCovered(c: Config, s: System, f: Frame, env: Env)
    requires f.plen <= 22 && KnownOpcode(f.op) && SlotsOk(c, s) && c.dynSlots <= 8 && Covered(s)
    ensures Covered(Dispatch(c, s, f, env).0)
  {
    if f.op == DYNAMIC_BEGIN || f.op == DYNAMIC_DATA || f.op == DYNAMIC_CLEAR { UploadsAreCovered(c, s, f, env); }
    else if f.op == PASSWORD_SET { PasswordSpares(c, s, f, env); }
    else if f.op == LIST || f.op == GET || f.op == SET || f.op == CLEAR { ManagedSpares(c, s, f, env); }
    else if f.op != CAPABILITIES { AuthSpares(c, s, f, env); }
  }

  lemma ProcessKeepsCovered(c: Config, s: System, f: Frame, env: Env)
    requires ConfigOk(c) && SlotsOk(c, s) && Covered(s)
    ensures Covered(Process(c, s, f, env).0)
  {
    GateSpares(c, s, env.sync, Err(INTERNAL));
    if BaseError(f).None? {
      DispatchKeepsCovered(c, Sync(s, env.sync), f, env);
    }
  }

  /** The handler itself keeps the timer for an upload that is not due if and only if the kernel takes it again. */
  lemma HandlerKeepsCoveredIff(s: System, now: nat, resched: Errno)
    requires Covered(s)
    ensures Covered(UploadTimeout(s, now, resched))
            <==> !(s.ctx.dyn.Some? && now < s.ctx.dyn.value.deadline && resched != Success)
    ensures s.ctx.dyn.Some? && now >= s.ctx.dyn.value.deadline ==>
              var t := UploadTimeout(s, now, resched); t.ctx.dyn == None && t.store.staged == None && t.timeout == None
  {
  }

  /** The timer's handler never found the kernel unwilling. */
  ghost predicate Rearmed(steps: seq<PI.Step>) {
    forall k | 0 <= k < |steps| :: steps[k].UploadTimer? ==> steps[k].resched == Success
  }

  /**
   * In every run in which the handler can re-arm, an open upload has its timer pending for exactly its deadline, and
   * the handler that runs then leaves nothing of it.
   */
  lemma {:induction false} UploadsTimeOut(c: Config, ss: seq<System>, steps: seq<PI.Step>, k: nat)
    requires PI.Runs(c, ss, steps) && Rearmed(steps) && k <= |steps|
    ensures Covered(ss[k])
    ensures ss[k].ctx.dyn.Some? ==>
              var t := UploadTimeout(ss[k], ss[k].timeout.value, Success); t.ctx.dyn == None && t.store.staged == None
  {
    if k > 0 {
      UploadsTimeOut(c, ss, steps, k - 1);
      var s, step := ss[k - 1], steps[k - 1];
      assert ss[k] == PI.Apply(c, s, step);
      StepKeepsCovered(c, s, step);
    }
  }

  lemma StepKeepsCovered(c: Config, s: System, step: PI.Step)
    requires ConfigOk(c) && SlotsOk(c, s) && Covered(s) && (step.UploadTimer? ==> step.resched == Success)
    ensures Covered(PI.Apply(c, s, step))
  {
    match step
    case Request(f, env) => ProcessKeepsCovered(c, s, f, env);
    case UploadTimer(now, resched) => HandlerKeepsCoveredIff(s, now, resched);
    case _ =>
  }

  /** The timer is this context's, and pending, only for an upload that is open. */
  predicate OnlyForUploads(s: System) {
    (s.owner ==> s.ctx.dyn.Some?) && (s.timeout.Some? ==> s.owner)
  }

  lemma GateKeepsOnly(c: Config, s: System, now: nat, r: Response)
    requires OnlyForUploads(s)
    ensures OnlyForUploads(Sync(s, now)) && OnlyForUploads(Access(s, now).0) && OnlyForUploads(RefreshProtected(c, s, now, r).0)
    ensures OnlyForUploads(Discard(s, now)) && OnlyForUploads(ClearDynamic(s, now))
  {
  }

  lemma ManagedKeepsOnly(c: Config, s: System, f: Frame, env: Env)
    requires f.plen <= 22 && SlotsOk(c, s) && OnlyForUploads(s)
    ensures OnlyForUploads(Managed(c, s, f, env).0)
  {
    GateKeepsOnly(c, s, env.access, Err(INTERNAL));
    var (t, denied) := Access(s, env.access);
    if denied.None? {
      ManageSpares(c, t, f, env);
      var (u, r) := Manage(c, t, f, env);
      GateKeepsOnly(c, u, env.refresh, r);
    }
  }

  lemma AdvanceKeepsOnly(c: Config, s: System, t: PwTx, env: Env)
    requires |t.data| <= PASSWORD_LENGTH && OnlyForUploads(s)
    ensures OnlyForUploads(PasswordAdvance(c, s, t, env).0)
  {
    GateKeepsOnly(c, s.(ctx := s.ctx.(pw := Some(t))), env.refresh, Ok(|t.data|, PASSWORD_LENGTH, []));
  }

  lemma PasswordKeepsOnly(c: Config, s: System, f: Frame, env: Env)
    requires f.plen <= 22 && OnlyForUploads(s)
    ensures OnlyForUploads(ManagedPassword(c, s, f, env).0)
  {
    GateKeepsOnly(c, s, env.access, Err(INTERNAL));
    var (t, denied) := Access(s, env.access);
    if denied.None? {
      if f.offset == 0 {
        AdvanceKeepsOnly(c, t, PwTx(f.rid, f.Data(), t.auth.epoch), env);
      } else if t.ctx.pw.Some? && |t.ctx.pw.value.data| + f.plen <= PASSWORD_LENGTH {
        var w := t.ctx.pw.value;
        AdvanceKeepsOnly(c, t, w.(data := w.data + f.Data()), env);
      }
    }
  }

  lemma BeginKeepsOnly(c: Config, s: System, f: Frame, env: Env)
    requires OnlyForUploads(s)
    ensures OnlyForUploads(BeginUpload(c, s, f, env).0) && OnlyForUploads(ClearUpload(c, s, f, env).0)
  {
  }

  lemma DataKeepsOnly(c: Config, s: System, f: Frame, env: Env)
    requires f.plen <= 22 && OnlyForUploads(s)
    ensures OnlyForUploads(UploadData(c, s, f, env).0)
  {
  }

  lemma AuthKeepsOnly(c: Config, s: System, f: Frame, env: Env)
    requires f.plen <= 22 && OnlyForUploads(s)
    ensures OnlyForUploads(AuthInfo(s, f, env.op).0) && OnlyForUploads(AuthChallenge(c, s, f, env).0)
    ensures OnlyForUploads(AuthProve(c, s, f, env).0) && OnlyForUploads(LockCommand(s, f, env.op).0)
  {
  }

  lemma DispatchKeepsOnly(c: Config, s: System, f: Frame, env: Env)
    requires f.plen <= 22 && KnownOpcode(f.op) && SlotsOk(c, s) && c.dynSlots <= 8 && OnlyForUploads(s)
    ensures OnlyForUploads(Dispatch(c, s, f, env).0)
  {
    if f.op == DYNAMIC_BEGIN || f.op == DYNAMIC_CLEAR { BeginKeepsOnly(c, s, f, env); }
    else if f.op == DYNAMIC_DATA { DataKeepsOnly(c, s, f, env); }
    else if f.op == PASSWORD_SET { PasswordKeepsOnly(c, s, f, env); }
    else if f.op == LIST || f.op == GET || f.op == SET || f.op == CLEAR { ManagedKeepsOnly(c, s, f, env); }
    else if f.op != CAPABILITIES { AuthKeepsOnly(c, s, f, env); }
  }

  lemma StepKeepsOnly(c: Config, s: System, step: PI.Step)
    requires ConfigOk(c) && SlotsOk(c, s) && OnlyForUploads(s)
    ensures OnlyForUploads(PI.Apply(c, s, step))
  {
    match step
    case Request(f, env) =>
      GateKeepsOnly(c, s, env.sync, Err(INTERNAL));
      if BaseError(f).None? {
        DispatchKeepsOnly(c, Sync(s, env.sync), f, env);
      }
    case _ =>
  }

  /** In every run the timer is this context's, and pending, only while an upload is open: whatever ends one releases it. */
  lemma {:induction false} TimerOnlyForUploads(c: Config, ss: seq<System>, steps: seq<PI.Step>, k: nat)
    requires PI.Runs(c, ss, steps) && ss[0].timeout == None && k <= |steps|
    ensures OnlyForUploads(ss[k])
  {
    if k > 0 {
      TimerOnlyForUploads(c, ss, steps, k - 1);
      assert ss[k] == PI.Apply(c, ss[k - 1], steps[k - 1]);
      StepKeepsOnly(c, ss[k - 1], steps[k - 1]);
    }
  }
}
