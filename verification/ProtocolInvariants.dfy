/**
 * What every step of the device keeps: the protocol context and the dynamic store agree about the upload in progress,
 * and transactions never outlive the authentication epoch in which they began.
 */
module ProtocolInvariants {
  import opened Bytes
  import opened Wire
  import opened ProtocolSpec
  import A = AuthSpec
  import AT = AuthTheorems
  import D = DynamicSpec
  import DT = DynamicTheorems

  predicate TxOk(c: Config, x: Ctx) {
    && (x.put.Some? ==> x.put.value.slot < c.limits.count && |x.put.value.data| < x.put.value.total <= c.limits.maxText
                        && TextOk(x.put.value.data))
    && (x.pw.Some? ==> |x.pw.value.data| < PASSWORD_LENGTH)
    && (x.dyn.Some? ==> x.dyn.value.slot < c.dynSlots && x.dyn.value.received < x.dyn.value.total <= D.MAX_LENGTH)
  }

  /** Staging in the store implies the same upload in the protocol context; the converse may fail. */
  predicate Paired(s: System) {
    && (s.ctx.dyn.Some? ==> s.owner)
    && (s.store.staged.Some? ==>
          && s.ctx.dyn.Some?
          && var t, d := s.store.staged.value, s.ctx.dyn.value;
             t.slot == d.slot && t.total == d.total && |t.text| == d.received)
  }

  predicate Inv(c: Config, s: System) {
    SlotsOk(c, s) && DT.Inv(c.dynSlots, s.store) && AT.Sound(s.auth) && TxOk(c, s.ctx) && Paired(s)
  }

  lemma ClearDynamicKeepsInv(c: Config, s: System, now: nat)
    requires SlotsOk(c, s) && DT.Inv(c.dynSlots, s.store) && AT.Sound(s.auth) && TxOk(c, s.ctx)
    ensures Inv(c, ClearDynamic(s, now)) && Inv(c, Discard(s, now))
  {
    DT.ApplyKeepsInv(c.dynSlots, s.store, DT.Cancel(now));
  }

  lemma SyncKeepsInv(c: Config, s: System, now: nat)
    requires Inv(c, s)
    ensures Inv(c, Sync(s, now))
  {
    ClearDynamicKeepsInv(c, ClearPassword(ClearSet(s.(auth := A.Expire(s.auth, now)))), now);
  }

  lemma AccessKeepsInv(c: Config, s: System, now: nat)
    requires Inv(c, s)
    ensures Inv(c, Access(s, now).0)
  {
    ClearDynamicKeepsInv(c, s.(auth := A.Expire(s.auth, now)), now);
  }

  lemma RefreshKeepsInv(c: Config, s: System, now: nat, r: Response)
    requires Inv(c, s)
    ensures Inv(c, RefreshProtected(c, s, now, r).0)
  {
    var t := s.(auth := A.Expire(s.auth, now));
    ClearDynamicKeepsInv(c, t.(auth := A.RefreshSession(c.t, t.auth, now).0), now);
  }

  lemma AdvanceKeepsInv(c: Config, s: System, t: SetTx, save: Errno)
    requires Inv(c, s) && |t.data| <= t.total <= c.limits.maxText && t.slot < c.limits.count && TextOk(t.data)
    ensures Inv(c, SetAdvance(c, s, t, save).0)
  {
  }

  lemma SetKeepsInv(c: Config, s: System, f: Frame, env: Env)
    requires Inv(c, s) && f.plen <= 22
    ensures Inv(c, Set(c, s, f, env).0)
  {
    var u := Set(c, s, f, env).0;
    if u != ClearSet(s) {
      if f.offset == 0 {
        AdvanceKeepsInv(c, s, SetTx(f.rid, f.slot, f.total, f.Data(), s.auth.epoch), env.slotSave);
      } else {
        var t := s.ctx.put.value;
        AdvanceKeepsInv(c, s, t.(data := t.data + f.Data()), env.slotSave);
      }
    }
  }

  lemma ManageKeepsInv(c: Config, s: System, f: Frame, env: Env)
    requires Inv(c, s) && f.plen <= 22
    ensures Inv(c, Manage(c, s, f, env).0)
  {
    SetKeepsInv(c, s, f, env);
  }

  lemma ManagedKeepsInv(c: Config, s: System, f: Frame, env: Env)
    requires Inv(c, s) && f.plen <= 22
    ensures Inv(c, Managed(c, s, f, env).0)
  {
    AccessKeepsInv(c, s, env.access);
    var (t, denied) := Access(s, env.access);
    if denied.None? {
      ManageKeepsInv(c, t, f, env);
      var (u, r) := Manage(c, t, f, env);
      RefreshKeepsInv(c, u, env.refresh, r);
    }
  }

  function U(c: Config, s: System): AT.Setup {
    AT.Setup(c.mac, c.t, s.auth)
  }

  lemma NewAuthKeepsInv(c: Config, s: System, ev: AT.Event, now: nat)
    requires Inv(c, s)
    ensures var t := s.(auth := AT.Step(U(c, s), s.auth, ev).0);
            Inv(c, t) && Inv(c, Discard(t, now)) && Inv(c, ClearPassword(t)) && Inv(c, Discard(ClearPassword(t), now))
  {
    AT.StepKeepsSound(U(c, s), s.auth, ev);
    var a := AT.Step(U(c, s), s.auth, ev).0;
    var t := s.(auth := a);
    ClearDynamicKeepsInv(c, t, now);
    ClearDynamicKeepsInv(c, ClearPassword(t), now);
  }

  lemma QueriesKeepInv(c: Config, s: System, f: Frame, env: Env)
    requires Inv(c, s)
    ensures Inv(c, AuthInfo(s, f, env.op).0)
    ensures Inv(c, AuthChallenge(c, s, f, env).0)
    ensures Inv(c, LockCommand(s, f, env.op).0)
  {
    NewAuthKeepsInv(c, s, AT.Observe(env.op), env.op);
    NewAuthKeepsInv(c, s, AT.Ask(env.op, env.random), env.op);
    NewAuthKeepsInv(c, s, AT.LockNow(env.op), env.op);
  }

  lemma ProveKeepsInv(c: Config, s: System, f: Frame, env: Env)
    requires Inv(c, s) && f.plen <= 22
    ensures Inv(c, AuthProve(c, s, f, env).0)
  {
    ClearDynamicKeepsInv(c, s, env.op);
    NewAuthKeepsInv(c, s, AT.Prove(env.op, f.Data(), env.macOk), env.op);
  }

  lemma PasswordCommitShape(c: Config, s: System, t: PwTx, env: Env)
    requires |t.data| == PASSWORD_LENGTH
    ensures var a := AT.Step(U(c, s), s.auth, AT.Change(env.op, ParseCredential(t.data), env.credSave)).0;
            var u := ClearPassword(s.(auth := a));
            PasswordAdvance(c, s, t, env).0 == u || PasswordAdvance(c, s, t, env).0 == Discard(u, env.op)
  {
  }

  lemma PasswordCommitKeepsInv(c: Config, s: System, t: PwTx, env: Env)
    requires Inv(c, s) && |t.data| == PASSWORD_LENGTH
    ensures Inv(c, PasswordAdvance(c, s, t, env).0)
  {
    NewAuthKeepsInv(c, s, AT.Change(env.op, ParseCredential(t.data), env.credSave), env.op);
    PasswordCommitShape(c, s, t, env);
  }

  lemma PasswordAdvanceKeepsInv(c: Config, s: System, t: PwTx, env: Env)
    requires Inv(c, s) && |t.data| <= PASSWORD_LENGTH
    ensures Inv(c, PasswordAdvance(c, s, t, env).0)
  {
    if |t.data| < PASSWORD_LENGTH {
      var u := s.(ctx := s.ctx.(pw := Some(t)));
      assert Inv(c, u);
      RefreshKeepsInv(c, u, env.refresh, Ok(|t.data|, PASSWORD_LENGTH, []));
    } else {
      PasswordCommitKeepsInv(c, s, t, env);
    }
  }

  lemma PasswordKeepsInv(c: Config, s: System, f: Frame, env: Env)
    requires Inv(c, s) && f.plen <= 22
    ensures Inv(c, ManagedPassword(c, s, f, env).0)
  {
    AccessKeepsInv(c, s, env.access);
    var (t, denied) := Access(s, env.access);
    if denied.None? {
      if f.offset == 0 {
        PasswordAdvanceKeepsInv(c, t, PwTx(f.rid, f.Data(), t.auth.epoch), env);
      } else if t.ctx.pw.Some? && |t.ctx.pw.value.data| + |f.Data()| <= PASSWORD_LENGTH {
        var w := t.ctx.pw.value;
        PasswordAdvanceKeepsInv(c, t, w.(data := w.data + f.Data()), env);
      }
      assert Inv(c, ClearPassword(t));
    }
  }

  /** What is left of the store's own checks once the protocol has done its own: nothing, for a BEGIN. */
  lemma BeginNeverRefused(c: Config, s: System, f: Frame, now: nat)
    requires Inv(c, s) && BeginError(c, f).None?
    ensures D.Begin(s.store, now, f.slot, f.total, BeginTtl(f), BeginFlags(f) == 0).1 == Success
  {
  }

  /** A DATA chunk that passes the protocol's checks is refused only when the staging it extends is gone. */
  lemma AppendRefusedOnlyWhenGone(c: Config, s: System, f: Frame, now: nat)
    requires Inv(c, s) && f.plen <= 22 && DataError(c, s, f).None?
    ensures D.Append(s.store, now, f.slot, f.offset, f.Data()).1
            == if D.ExpireDue(s.store, now).staged.None? then Enoent else Success
  {
  }

  lemma BeginKeepsInv(c: Config, s: System, f: Frame, env: Env)
    requires Inv(c, s)
    ensures Inv(c, BeginUpload(c, s, f, env).0)
  {
    ClearDynamicKeepsInv(c, s, env.op);
    if BeginError(c, f).None? {
      BeginNeverRefused(c, s, f, env.op);
      var st := D.Begin(s.store, env.op, f.slot, f.total, BeginTtl(f), BeginFlags(f) == 0).0;
      DT.ApplyKeepsInv(c.dynSlots, s.store, DT.Begin(env.op, f.slot, f.total, BeginTtl(f), BeginFlags(f) == 0));
      var u := ArmTimer(s.(store := st), DynTx(f.slot, f.rid, f.total, 0, 0, s.auth.epoch), env.op, env.sched);
      ClearDynamicKeepsInv(c, u, env.op);
    }
  }

  lemma DataKeepsInv(c: Config, s: System, f: Frame, env: Env)
    requires Inv(c, s) && f.plen <= 22
    ensures Inv(c, UploadData(c, s, f, env).0)
  {
    ClearDynamicKeepsInv(c, s, env.op);
    if DataError(c, s, f).None? {
      AppendRefusedOnlyWhenGone(c, s, f, env.op);
      var st := D.Append(s.store, env.op, f.slot, f.offset, f.Data()).0;
      DT.ApplyKeepsInv(c.dynSlots, s.store, DT.Append(env.op, f.slot, f.offset, f.Data()));
      var t := s.(store := st);
      ClearDynamicKeepsInv(c, t, env.op);
      if f.offset + f.plen < f.total {
        ClearDynamicKeepsInv(c, ArmTimer(t, t.ctx.dyn.value.(received := f.offset + f.plen), env.op, env.sched), env.op);
      }
    }
  }

  lemma ClearUploadKeepsInv(c: Config, s: System, f: Frame, env: Env)
    requires Inv(c, s)
    ensures Inv(c, ClearUpload(c, s, f, env).0)
  {
    DT.ApplyKeepsInv(c.dynSlots, s.store, DT.ClearSlot(env.op, f.slot));
  }

  lemma DiscardForOpcodeKeepsInv(c: Config, s: System, op: byte, now: nat)
    requires Inv(c, s)
    ensures Inv(c, DiscardForOpcode(s, op, now))
  {
    ClearDynamicKeepsInv(c, s, now);
  }

  lemma DispatchKeepsInv(c: Config, s: System, f: Frame, env: Env)
    requires Inv(c, s) && f.plen <= 22 && KnownOpcode(f.op) && c.dynSlots <= 8
    ensures Inv(c, Dispatch(c, s, f, env).0)
  {
    if f.op == DYNAMIC_BEGIN { BeginKeepsInv(c, s, f, env); }
    else if f.op == DYNAMIC_DATA { DataKeepsInv(c, s, f, env); }
    else if f.op == DYNAMIC_CLEAR { ClearUploadKeepsInv(c, s, f, env); }
    else if f.op == PASSWORD_SET { PasswordKeepsInv(c, s, f, env); }
    else if f.op == AUTH_PROVE { ProveKeepsInv(c, s, f, env); }
    else if f.op == AUTH_INFO || f.op == AUTH_CHALLENGE || f.op == LOCK { QueriesKeepInv(c, s, f, env); }
    else if f.op != CAPABILITIES { ManagedKeepsInv(c, s, f, env); }
  }

  lemma ProcessKeepsInv(c: Config, s: System, f: Frame, env: Env)
    requires ConfigOk(c) && Inv(c, s)
    ensures Inv(c, Process(c, s, f, env).0)
  {
    SyncKeepsInv(c, s, env.sync);
    var t := Sync(s, env.sync);
    if BaseError(f).Some? {
      DiscardForOpcodeKeepsInv(c, t, f.op, env.op);
    } else {
      DispatchKeepsInv(c, t, f, env);
    }
  }

  // ------------------------------------------------------------------ every run of the device

  /** The store operations that timers, lifecycle listeners and key presses perform behind the protocol's back. */
  predicate Background(op: DT.Op) {
    op.Timer? || op.ClearAll? || op.Press?
  }

  /** One step of the device: a request, the inactivity timer, a store operation by others or a USB notification. */
  datatype Step =
    | Request(f: Frame, env: Env)
    | UploadTimer(now: nat, resched: Errno)
    | Behind(op: DT.Op)
    | UsbNotification(now: nat, disconnected: bool)

  function Apply(c: Config, s: System, step: Step): System
    requires ConfigOk(c) && SlotsOk(c, s)
  {
    match step
    case Request(f, env) => Process(c, s, f, env).0
    case UploadTimer(now, resched) => UploadTimeout(s, now, resched)
    case Behind(op) => if Background(op) then s.(store := DT.Apply(s.store, op)) else s
    case UsbNotification(now, disconnected) => UsbReset(c, s, now, disconnected)
  }

  /** Behind the protocol's back staging can only vanish. */
  lemma StoreStepKeepsInv(c: Config, s: System, op: DT.Op)
    requires Inv(c, s) && Background(op)
    ensures Inv(c, s.(store := DT.Apply(s.store, op)))
  {
    DT.ApplyKeepsInv(c.dynSlots, s.store, op);
    assert DT.Apply(s.store, op).staged.None? || DT.Apply(s.store, op).staged == s.store.staged;
  }

  lemma UploadTimerKeepsInv(c: Config, s: System, now: nat, resched: Errno)
    requires Inv(c, s)
    ensures Inv(c, UploadTimeout(s, now, resched))
  {
    ClearDynamicKeepsInv(c, s, now);
  }

  lemma UsbKeepsInv(c: Config, s: System, now: nat, disconnected: bool)
    requires Inv(c, s)
    ensures Inv(c, UsbReset(c, s, now, disconnected))
  {
    NewAuthKeepsInv(c, s, AT.Reset(now), now);
    StoreStepKeepsInv(c, Discard(s.(auth := A.TransportReset(s.auth)), now), DT.ClearAll(now));
  }

  lemma ApplyKeepsInv(c: Config, s: System, step: Step)
    requires ConfigOk(c) && Inv(c, s)
    ensures Inv(c, Apply(c, s, step))
  {
    match step
    case Request(f, env) => ProcessKeepsInv(c, s, f, env);
    case UploadTimer(now, resched) => UploadTimerKeepsInv(c, s, now, resched);
    case Behind(op) => if Background(op) { StoreStepKeepsInv(c, s, op); }
    case UsbNotification(now, disconnected) => UsbKeepsInv(c, s, now, disconnected);
  }

  /** The start: nothing in progress, an empty store, and whatever boot loaded from settings. */
  ghost predicate Booted(c: Config, s: System) {
    s.ctx == IDLE && !s.owner && s.store == D.Boot(c.dynSlots, s.store.kernel) && SlotsOk(c, s) && AT.Sound(s.auth)
  }

  /** ss[0] is a booted device and each step leads from ss[k] to ss[k+1]; SlotsOk is part of the invariant below. */
  ghost predicate Runs(c: Config, ss: seq<System>, steps: seq<Step>) {
    && ConfigOk(c) && |ss| == |steps| + 1 && Booted(c, ss[0])
    && (forall k | 0 <= k < |ss| :: SlotsOk(c, ss[k]))
    && forall k {:trigger Apply(c, ss[k], steps[k])} | 0 <= k < |steps| :: ss[k + 1] == Apply(c, ss[k], steps[k])
  }

  lemma BootedKeepsInv(c: Config, s: System)
    requires Booted(c, s)
    ensures Inv(c, s)
  {
    DT.RunKeepsInv(DT.Host(c.dynSlots, s.store.kernel), [], 0);
  }

  lemma {:induction false} RunKeepsInv(c: Config, ss: seq<System>, steps: seq<Step>, k: nat)
    requires Runs(c, ss, steps) && k <= |steps|
    ensures Inv(c, ss[k])
  {
    if k == 0 {
      BootedKeepsInv(c, ss[0]);
    } else {
      RunKeepsInv(c, ss, steps, k - 1);
      assert ss[k] == Apply(c, ss[k - 1], steps[k - 1]);
      ApplyKeepsInv(c, ss[k - 1], steps[k - 1]);
    }
  }

  /** Every booted device runs every schedule: the side condition of Runs excludes nothing. */
  lemma {:induction false} EveryScheduleRuns(c: Config, s: System, steps: seq<Step>) returns (ss: seq<System>)
    requires ConfigOk(c) && Booted(c, s)
    ensures Runs(c, ss, steps) && ss[0] == s
  {
    if steps == [] {
      ss := [s];
    } else {
      var n := |steps| - 1;
      var front := EveryScheduleRuns(c, s, steps[..n]);
      RunKeepsInv(c, front, steps[..n], n);
      ApplyKeepsInv(c, front[n], steps[n]);
      ss := front + [Apply(c, front[n], steps[n])];
      forall k | 0 <= k < |steps| ensures SlotsOk(c, ss[k]) && ss[k + 1] == Apply(c, ss[k], steps[k]) {
        assert ss[k] == front[k];
        if k < n {
          assert front[k + 1] == Apply(c, front[k], steps[..n][k]);
        }
      }
    }
  }

  /**
   * With one protocol context, in every reachable state: staging in the store is the upload the context knows about;
   * a BEGIN that passes the protocol's checks is accepted, a DATA chunk that passes them is accepted unless staging
   * was dropped behind the protocol's back, and INTERNAL is answered only when the kernel cannot arm the timer.
   */
  lemma UploadsStayPaired(c: Config, ss: seq<System>, steps: seq<Step>, k: nat, f: Frame, env: Env)
    requires Runs(c, ss, steps) && k <= |steps| && f.plen <= 22
    ensures Paired(ss[k])
    ensures BeginUpload(c, ss[k], f, env).1 ==
            match BeginError(c, f)
            case Some(e) => Err(e)
            case None => if env.sched == Success then Ok(0, f.total, []) else Err(if env.sched == Einval then BAD_LENGTH else INTERNAL)
    ensures UploadData(c, ss[k], f, env).1 ==
            match DataError(c, ss[k], f)
            case Some(e) => Err(e)
            case None =>
              if D.ExpireDue(ss[k].store, env.op).staged.None? then Err(BAD_REQUEST)
              else if f.offset + f.plen < f.total && env.sched != Success then Err(INTERNAL)
              else Ok(f.offset + f.plen, f.total, [])
  {
    RunKeepsInv(c, ss, steps, k);
    var s := ss[k];
    if BeginError(c, f).None? {
      BeginNeverRefused(c, s, f, env.op);
    }
    if DataError(c, s, f).None? {
      AppendRefusedOnlyWhenGone(c, s, f, env.op);
    }
  }

  /** Two contexts over one store break the pairing: a context's own checked chunk is refused with an internal error. */
  lemma TwoContextsBreakThePairing(c: Config, s: System, begin1: Frame, begin2: Frame, data: Frame, env: Env)
    requires ConfigOk(c) && Booted(c, s) && env.sched == Success
    requires BeginError(c, begin1).None? && BeginError(c, begin2).None? && begin1.slot != begin2.slot
    requires data.plen <= 22 && data.slot == begin1.slot && data.rid == begin1.rid && data.total == begin1.total
    requires data.offset == 0 && 0 < data.plen <= data.total && TextOk(data.Data())
    ensures var one := BeginUpload(c, s, begin1, env).0;
            var two := BeginUpload(c, one.(ctx := IDLE), begin2, env).0;
            var oneAgain := two.(ctx := one.ctx);
            DataError(c, oneAgain, data).None? && UploadData(c, oneAgain, data, env).1 == Err(INTERNAL)
  {
  }
}
