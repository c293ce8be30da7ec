/** Dynamic texts are write-only: two devices that differ only in the bytes of their dynamic texts answer alike. */
module NoReadback {
  import opened Bytes
  import opened Wire
  import opened ProtocolSpec
  import A = AuthSpec
  import D = DynamicSpec
  import DT = DynamicTheorems
  import PI = ProtocolInvariants
  import NI = NonInterference

  predicate BlindSlot(a: Option<D.Committed>, b: Option<D.Committed>) {
    a.Some? == b.Some?
    && (a.Some? ==> |a.value.text| == |b.value.text| && a.value.deadline == b.value.deadline && a.value.consume == b.value.consume)
  }

  predicate BlindStaged(a: Option<D.Staged>, b: Option<D.Staged>) {
    a.Some? == b.Some? && (a.Some? ==> |a.value.text| == |b.value.text| && b.value.(text := []) == a.value.(text := []))
  }

  /** Equal up to text bytes: same lengths, deadlines, policies and timer. */
  ghost predicate Blind(a: D.Store, b: D.Store) {
    && |a.slots| == |b.slots| && a.timer == b.timer && a.rearmed == b.rearmed
    && a.kernel == b.kernel && a.armings == b.armings && a.armed == b.armed
    && BlindStaged(a.staged, b.staged)
    && forall i | 0 <= i < |a.slots| :: BlindSlot(a.slots[i], b.slots[i])
  }

  lemma {:induction false} EarliestIsBlind(a: seq<Option<D.Committed>>, b: seq<Option<D.Committed>>, n: nat)
    requires n <= |a| == |b| && forall i | 0 <= i < |a| :: BlindSlot(a[i], b[i])
    ensures D.Earliest(a, n) == D.Earliest(b, n)
  {
    if n > 0 {
      assert BlindSlot(a[n - 1], b[n - 1]);
      EarliestIsBlind(a, b, n - 1);
    }
  }

  lemma RearmIsBlind(a: D.Store, b: D.Store, now: nat)
    requires Blind(a, b)
    ensures Blind(D.Rearm(a, now), D.Rearm(b, now))
  {
    EarliestIsBlind(a.slots, b.slots, |a.slots|);
  }

  lemma ExpireIsBlind(a: D.Store, b: D.Store, now: nat)
    requires Blind(a, b)
    ensures Blind(D.ExpireDue(a, now), D.ExpireDue(b, now))
  {
  }

  lemma CommitIsBlind(x: D.Store, y: D.Store, now: nat, t: D.Staged, u: D.Staged)
    requires Blind(x, y) && BlindStaged(Some(t), Some(u)) && t.slot < |x.slots|
    ensures Blind(D.Commit(x, now, t), D.Commit(y, now, u))
  {
    RearmIsBlind(x.(slots := x.slots[t.slot := Some(D.Committed(t.text, now + t.ttl * 1000, t.consume))], staged := None),
                 y.(slots := y.slots[u.slot := Some(D.Committed(u.text, now + u.ttl * 1000, u.consume))], staged := None), now);
  }

  lemma AppendIsBlind(a: D.Store, b: D.Store, now: nat, slot: nat, offset: nat, data: seq<byte>)
    requires Blind(a, b)
    ensures Blind(D.Append(a, now, slot, offset, data).0, D.Append(b, now, slot, offset, data).0)
    ensures D.Append(a, now, slot, offset, data).1 == D.Append(b, now, slot, offset, data).1
  {
    ExpireIsBlind(a, b, now);
    var x, y := D.ExpireDue(a, now), D.ExpireDue(b, now);
    if x.staged.Some? && slot < |x.slots| && D.Fits(x.staged.value, slot, offset, data) {
      var t := x.staged.value.(text := x.staged.value.text + data);
      var u := y.staged.value.(text := y.staged.value.text + data);
      CommitIsBlind(x, y, now, t, u);
    }
  }

  lemma ClearSlotIsBlind(a: D.Store, b: D.Store, now: nat, slot: nat)
    requires Blind(a, b)
    ensures Blind(D.ClearSlot(a, now, slot), D.ClearSlot(b, now, slot))
  {
    if slot < |a.slots| {
      RearmIsBlind(a.(slots := a.slots[slot := None], staged := if a.staged.Some? && a.staged.value.slot == slot then None else a.staged),
                   b.(slots := b.slots[slot := None], staged := if b.staged.Some? && b.staged.value.slot == slot then None else b.staged), now);
    }
  }

  lemma ClearAllIsBlind(a: D.Store, b: D.Store, now: nat)
    requires Blind(a, b)
    ensures Blind(D.ClearAll(a, now), D.ClearAll(b, now))
  {
    RearmIsBlind(a.(slots := seq(|a.slots|, _ => None), staged := None), b.(slots := seq(|b.slots|, _ => None), staged := None), now);
  }

  lemma PressIsBlind(a: D.Store, b: D.Store, now: nat, slot: nat, start: Errno)
    requires Blind(a, b)
    ensures Blind(D.Execute(a, now, slot, start).store, D.Execute(b, now, slot, start).store)
    ensures D.Execute(a, now, slot, start).err == D.Execute(b, now, slot, start).err
  {
    ExpireIsBlind(a, b, now);
    var x, y := D.ExpireDue(a, now), D.ExpireDue(b, now);
    if slot < |x.slots| {
      RearmIsBlind(x.(slots := x.slots[slot := None]), y.(slots := y.slots[slot := None]), now);
    }
  }

  lemma BackgroundIsBlind(a: D.Store, b: D.Store, op: DT.Op)
    requires Blind(a, b) && PI.Background(op)
    ensures Blind(DT.Apply(a, op), DT.Apply(b, op))
  {
    match op
    case Timer(now) =>
      ExpireIsBlind(a.(timer := None), b.(timer := None), now);
      RearmIsBlind(D.ExpireDue(a.(timer := None), now), D.ExpireDue(b.(timer := None), now), now);
    case ClearAll(now) => ClearAllIsBlind(a, b, now);
    case Press(now, slot, start) => PressIsBlind(a, b, now, slot, start);
  }

  // ------------------------------------------------------------------ the whole device

  function Over(s: System, st: D.Store): System {
    s.(store := st)
  }

  /** t is s except for text bytes in the store. */
  ghost predicate BlindTo(s: System, t: System) {
    t == Over(s, t.store) && Blind(s.store, t.store)
  }

  ghost predicate AlikeTo(mine: (System, Response), other: (System, Response)) {
    BlindTo(mine.0, other.0) && mine.1 == other.1
  }

  lemma ClearIsBlind(s: System, t: System, now: nat)
    requires BlindTo(s, t)
    ensures BlindTo(ClearDynamic(s, now), ClearDynamic(t, now)) && BlindTo(Discard(s, now), Discard(t, now))
  {
    ExpireIsBlind(s.store, t.store, now);
  }

  lemma NewAuthIsBlind(s: System, t: System, a: A.Auth, now: nat)
    requires BlindTo(s, t)
    ensures BlindTo(s.(auth := a), t.(auth := a)) && BlindTo(Discard(s.(auth := a), now), Discard(t.(auth := a), now))
  {
    ClearIsBlind(s.(auth := a), t.(auth := a), now);
  }

  lemma SyncIsBlind(s: System, t: System, now: nat)
    requires BlindTo(s, t)
    ensures BlindTo(Sync(s, now), Sync(t, now))
  {
    var a := A.Expire(s.auth, now);
    ClearIsBlind(ClearPassword(ClearSet(s.(auth := a))), ClearPassword(ClearSet(t.(auth := a))), now);
  }

  lemma AccessIsBlind(s: System, t: System, now: nat)
    requires BlindTo(s, t)
    ensures BlindTo(Access(s, now).0, Access(t, now).0) && Access(s, now).1 == Access(t, now).1
  {
    NewAuthIsBlind(s, t, A.Expire(s.auth, now), now);
  }

  lemma RefreshIsBlind(c: Config, s: System, t: System, now: nat, r: Response)
    requires BlindTo(s, t)
    ensures AlikeTo(RefreshProtected(c, s, now, r), RefreshProtected(c, t, now, r))
  {
    var a := A.Expire(s.auth, now);
    NewAuthIsBlind(s, t, a, now);
    NewAuthIsBlind(s, t, A.RefreshSession(c.t, a, now).0, now);
  }

  lemma ManageIsBlind(c: Config, s: System, t: System, f: Frame, env: Env)
    requires BlindTo(s, t) && SlotsOk(c, s) && SlotsOk(c, t) && f.plen <= 22
    ensures AlikeTo(Manage(c, s, f, env), Manage(c, t, f, env))
  {
  }

  lemma ManagedIsBlind(c: Config, s: System, t: System, f: Frame, env: Env)
    requires BlindTo(s, t) && SlotsOk(c, s) && SlotsOk(c, t) && f.plen <= 22
    ensures AlikeTo(Managed(c, s, f, env), Managed(c, t, f, env))
  {
    AccessIsBlind(s, t, env.access);
    var x, y := Access(s, env.access), Access(t, env.access);
    if x.1.None? {
      ManageIsBlind(c, x.0, y.0, f, env);
      RefreshIsBlind(c, Manage(c, x.0, f, env).0, Manage(c, y.0, f, env).0, env.refresh, Manage(c, x.0, f, env).1);
    }
  }

  lemma PasswordAdvanceIsBlind(c: Config, s: System, t: System, tx: PwTx, env: Env)
    requires BlindTo(s, t) && |tx.data| <= PASSWORD_LENGTH
    ensures AlikeTo(PasswordAdvance(c, s, tx, env), PasswordAdvance(c, t, tx, env))
  {
    if |tx.data| < PASSWORD_LENGTH {
      RefreshIsBlind(c, s.(ctx := s.ctx.(pw := Some(tx))), t.(ctx := t.ctx.(pw := Some(tx))), env.refresh, Ok(|tx.data|, PASSWORD_LENGTH, []));
    } else {
      NewAuthIsBlind(ClearPassword(s), ClearPassword(t), A.SetCredential(s.auth, env.op, ParseCredential(tx.data), env.credSave).0, env.op);
    }
  }

  lemma PasswordIsBlind(c: Config, s: System, t: System, f: Frame, env: Env)
    requires BlindTo(s, t) && f.plen <= 22
    ensures AlikeTo(ManagedPassword(c, s, f, env), ManagedPassword(c, t, f, env))
  {
    AccessIsBlind(s, t, env.access);
    var x, y := Access(s, env.access).0, Access(t, env.access).0;
    if Access(s, env.access).1.None? {
      if f.offset == 0 {
        PasswordAdvanceIsBlind(c, x, y, PwTx(f.rid, f.Data(), x.auth.epoch), env);
      } else if x.ctx.pw.Some? && |x.ctx.pw.value.data| + |f.Data()| <= PASSWORD_LENGTH {
        PasswordAdvanceIsBlind(c, x, y, x.ctx.pw.value.(data := x.ctx.pw.value.data + f.Data()), env);
      }
    }
  }

  lemma AuthIsBlind(c: Config, s: System, t: System, f: Frame, env: Env)
    requires BlindTo(s, t) && f.plen <= 22
    ensures AlikeTo(AuthProve(c, s, f, env), AuthProve(c, t, f, env))
    ensures AlikeTo(LockCommand(s, f, env.op), LockCommand(t, f, env.op))
  {
    ClearIsBlind(s, t, env.op);
    NewAuthIsBlind(s, t, A.Lock(s.auth), env.op);
    NewAuthIsBlind(s, t, A.VerifyProof(c.mac, c.t, s.auth, env.op, f.Data(), env.macOk).0, env.op);
  }

  lemma QueriesAreBlind(c: Config, s: System, t: System, f: Frame, env: Env)
    requires BlindTo(s, t)
    ensures AlikeTo(AuthInfo(s, f, env.op), AuthInfo(t, f, env.op))
    ensures AlikeTo(AuthChallenge(c, s, f, env), AuthChallenge(c, t, f, env))
  {
  }

  lemma BeginIsBlind(c: Config, s: System, t: System, f: Frame, env: Env)
    requires BlindTo(s, t)
    ensures AlikeTo(BeginUpload(c, s, f, env), BeginUpload(c, t, f, env))
  {
    ClearIsBlind(s, t, env.op);
    ExpireIsBlind(s.store, t.store, env.op);
    if BeginError(c, f).None? {
      var (x, e) := D.Begin(s.store, env.op, f.slot, f.total, BeginTtl(f), BeginFlags(f) == 0);
      var y := D.Begin(t.store, env.op, f.slot, f.total, BeginTtl(f), BeginFlags(f) == 0).0;
      var tx := DynTx(f.slot, f.rid, f.total, 0, 0, s.auth.epoch);
      assert Blind(x, y);
      ClearIsBlind(Over(s, x), Over(t, y), env.op);
      ClearIsBlind(ArmTimer(Over(s, x), tx, env.op, env.sched), ArmTimer(Over(t, y), tx, env.op, env.sched), env.op);
    }
  }

  lemma AfterChunkIsBlind(s: System, t: System, f: Frame, env: Env)
    requires BlindTo(s, t) && s.ctx.dyn.Some? && f.offset + f.plen <= f.total
    ensures AlikeTo(AfterChunk(s, f, env), AfterChunk(t, f, env))
  {
    var tx := s.ctx.dyn.value.(received := f.offset + f.plen);
    if f.offset + f.plen < f.total {
      ClearIsBlind(ArmTimer(s, tx, env.op, env.sched), ArmTimer(t, tx, env.op, env.sched), env.op);
    }
  }

  lemma DataIsBlind(c: Config, s: System, t: System, f: Frame, env: Env)
    requires BlindTo(s, t) && f.plen <= 22
    ensures AlikeTo(UploadData(c, s, f, env), UploadData(c, t, f, env))
  {
    ClearIsBlind(s, t, env.op);
    if DataError(c, s, f).None? {
      AppendIsBlind(s.store, t.store, env.op, f.slot, f.offset, f.Data());
      var x := Over(s, D.Append(s.store, env.op, f.slot, f.offset, f.Data()).0);
      var y := Over(t, D.Append(t.store, env.op, f.slot, f.offset, f.Data()).0);
      ClearIsBlind(x, y, env.op);
      AfterChunkIsBlind(x, y, f, env);
    }
  }

  lemma ClearUploadIsBlind(c: Config, s: System, t: System, f: Frame, env: Env)
    requires BlindTo(s, t)
    ensures AlikeTo(ClearUpload(c, s, f, env), ClearUpload(c, t, f, env))
  {
    ClearSlotIsBlind(s.store, t.store, env.op, f.slot);
  }

  lemma DispatchIsBlind(c: Config, s: System, t: System, f: Frame, env: Env)
    requires BlindTo(s, t) && f.plen <= 22 && KnownOpcode(f.op) && c.dynSlots <= 8 && SlotsOk(c, s) && SlotsOk(c, t)
    ensures AlikeTo(Dispatch(c, s, f, env), Dispatch(c, t, f, env))
  {
    if f.op == DYNAMIC_BEGIN { BeginIsBlind(c, s, t, f, env); }
    else if f.op == DYNAMIC_DATA { DataIsBlind(c, s, t, f, env); }
    else if f.op == DYNAMIC_CLEAR { ClearUploadIsBlind(c, s, t, f, env); }
    else if f.op == AUTH_INFO || f.op == AUTH_CHALLENGE { QueriesAreBlind(c, s, t, f, env); }
    else if f.op == AUTH_PROVE || f.op == LOCK { AuthIsBlind(c, s, t, f, env); }
    else if f.op == PASSWORD_SET { PasswordIsBlind(c, s, t, f, env); }
    else if f.op != CAPABILITIES { ManagedIsBlind(c, s, t, f, env); }
  }

  lemma ProcessIsBlind(c: Config, s: System, t: System, f: Frame, env: Env)
    requires ConfigOk(c) && BlindTo(s, t) && SlotsOk(c, s) && SlotsOk(c, t)
    ensures AlikeTo(Process(c, s, f, env), Process(c, t, f, env))
  {
    SyncIsBlind(s, t, env.sync);
    var x, y := Sync(s, env.sync), Sync(t, env.sync);
    if BaseError(f).None? {
      DispatchIsBlind(c, x, y, f, env);
    } else {
      ClearIsBlind(x, y, env.op);
    }
  }

  lemma StepIsBlind(c: Config, s: System, t: System, step: PI.Step)
    requires ConfigOk(c) && BlindTo(s, t) && SlotsOk(c, s) && SlotsOk(c, t)
    ensures BlindTo(PI.Apply(c, s, step), PI.Apply(c, t, step))
    ensures step.Request? ==> Process(c, s, step.f, step.env).1 == Process(c, t, step.f, step.env).1
  {
    match step
    case Request(f, env) => ProcessIsBlind(c, s, t, f, env);
    case UploadTimer(now, resched) => ClearIsBlind(s, t, now);
    case Behind(op) => if PI.Background(op) { BackgroundIsBlind(s.store, t.store, op); }
    case UsbNotification(now, disconnected) =>
      NewAuthIsBlind(s, t, A.TransportReset(s.auth), now);
      ClearAllIsBlind(Discard(s.(auth := A.TransportReset(s.auth)), now).store, Discard(t.(auth := A.TransportReset(t.auth)), now).store, now);
  }

  /** In every authentication state, over any run, no answer depends on the bytes of a dynamic text. */
  lemma {:induction false} DynamicTextIsNeverReadBack(c: Config, s: System, t: System, steps: seq<PI.Step>)
    requires ConfigOk(c) && PI.Inv(c, s) && PI.Inv(c, t) && BlindTo(s, t)
    ensures NI.Talk(c, s, steps).1 == NI.Talk(c, t, steps).1
    decreases |steps|
  {
    if steps != [] {
      PI.ApplyKeepsInv(c, s, steps[0]);
      PI.ApplyKeepsInv(c, t, steps[0]);
      StepIsBlind(c, s, t, steps[0]);
      DynamicTextIsNeverReadBack(c, PI.Apply(c, s, steps[0]), PI.Apply(c, t, steps[0]), steps[1..]);
    }
  }
}
