/** The dynamic store of a running device: always the outcome of exactly the store operations that its steps perform. */
module StoreHistory {
  import opened Bytes
  import opened Wire
  import opened ProtocolSpec
  import A = AuthSpec
  import D = DynamicSpec
  import DT = DynamicTheorems
  import PI = ProtocolInvariants

  function ApplyAll(s: D.Store, ops: seq<DT.Op>): D.Store {
    if ops == [] then s else DT.Apply(ApplyAll(s, ops[..|ops| - 1]), ops[|ops| - 1])
  }

  lemma {:induction false} ApplyInTwo(s: D.Store, a: seq<DT.Op>, b: seq<DT.Op>)
    ensures ApplyAll(s, a + b) == ApplyAll(ApplyAll(s, a), b)
  {
    if b == [] {
      assert a + b == a;
    } else {
      ApplyInTwo(s, a, b[..|b| - 1]);
      assert (a + b)[..|a + b| - 1] == a + b[..|b| - 1];
    }
  }

  lemma ApplyOne(s: D.Store, op: DT.Op)
    ensures ApplyAll(s, [op]) == DT.Apply(s, op) && ApplyAll(s, []) == s
  {
    assert [op][..0] == [];
  }

  /** From s the operations lead through the states of ts. */
  ghost predicate Through(s: D.Store, ops: seq<DT.Op>, ts: seq<D.Store>) {
    && |ts| == |ops| + 1 && ts[0] == s
    && forall k {:trigger DT.Apply(ts[k], ops[k])} | 0 <= k < |ops| :: ts[k + 1] == DT.Apply(ts[k], ops[k])
  }

  lemma {:induction false} StatesOf(s: D.Store, ops: seq<DT.Op>) returns (ts: seq<D.Store>)
    ensures Through(s, ops, ts) && ts[|ops|] == ApplyAll(s, ops)
  {
    if ops == [] {
      ts := [s];
    } else {
      var n := |ops| - 1;
      var front := StatesOf(s, ops[..n]);
      ts := front + [ApplyAll(s, ops)];
      forall k | 0 <= k < |ops| ensures ts[k + 1] == DT.Apply(ts[k], ops[k]) {
        if k < n {
          assert front[k + 1] == DT.Apply(front[k], ops[..n][k]);
        }
      }
    }
  }

  lemma {:induction false} ThroughIsRun(d: DT.Host, h: seq<DT.Op>, ts: seq<D.Store>, k: nat)
    requires Through(D.Boot(d.n, d.kernel), h, ts) && k <= |h|
    ensures DT.Run(d, h, k) == ts[k]
  {
    if k > 0 {
      ThroughIsRun(d, h, ts, k - 1);
      assert ts[k] == DT.Apply(ts[k - 1], h[k - 1]);
    }
  }

  lemma ThroughInTwo(s: D.Store, a: seq<DT.Op>, ts: seq<D.Store>, b: seq<DT.Op>, us: seq<D.Store>)
    requires Through(s, a, ts) && Through(ts[|a|], b, us)
    ensures Through(s, a + b, ts + us[1..]) && (ts + us[1..])[|a + b|] == us[|b|]
  {
    var h, vs := a + b, ts + us[1..];
    forall k | 0 <= k < |h| ensures vs[k + 1] == DT.Apply(vs[k], h[k]) {
      if k < |a| {
        assert ts[k + 1] == DT.Apply(ts[k], a[k]);
      } else {
        assert us[k - |a| + 1] == DT.Apply(us[k - |a|], b[k - |a|]);
      }
    }
  }

  // ------------------------------------------------------------------ the operations of one step

  function Drops(dropped: bool, now: nat): seq<DT.Op> {
    if dropped then [DT.Cancel(now)] else []
  }

  /** The authentication state is not the one that the previous request saw. */
  predicate Moved(s: System, now: nat) {
    var a := A.Expire(s.auth, now);
    s.ctx.seen.Some? && s.ctx.seen.value != Seen(a.state, a.Authenticated())
  }

  predicate Ended(c: Config, s: System, now: nat) {
    RefreshProtected(c, s, now, Ok(0, 0, [])).1.Err?
  }

  function ManagedOps(c: Config, s: System, f: Frame, env: Env): seq<DT.Op>
    requires f.plen <= 22 && SlotsOk(c, s)
  {
    var (t, denied) := Access(s, env.access);
    if denied.Some? then [DT.Cancel(env.access)]
    else
      var (u, r) := Manage(c, t, f, env);
      Drops(r.Ok? && Ended(c, u, env.refresh), env.refresh)
  }

  /** A saved credential ends the upload, and so does a session that has ended. */
  function PasswordOps(c: Config, s: System, f: Frame, env: Env): seq<DT.Op>
    requires f.plen <= 22
  {
    var (t, denied) := Access(s, env.access);
    if denied.Some? then [DT.Cancel(env.access)]
    else
      var complete := f.offset + f.plen == PASSWORD_LENGTH;
      var r := PasswordSet(c, t, f, env).1;
      Drops(r == Err(AUTH_REQUIRED) || (r.Ok? && complete), if complete then env.op else env.refresh)
  }

  /** The one operation on uploads and slots that a request asks for, once it has passed the protocol's checks. */
  function Asked(c: Config, s: System, f: Frame, env: Env): seq<DT.Op>
    requires f.plen <= 22
  {
    if f.op == DYNAMIC_BEGIN && BeginError(c, f).None? then
      [DT.Begin(env.op, f.slot, f.total, BeginTtl(f), BeginFlags(f) == 0)]
    else if f.op == DYNAMIC_DATA && DataError(c, s, f).None? then [DT.Append(env.op, f.slot, f.offset, f.Data())]
    else if f.op == DYNAMIC_CLEAR && f.slot < c.dynSlots && f.EmptyObject() then [DT.ClearSlot(env.op, f.slot)]
    else []
  }

  /** What the request drops besides. */
  function Dropped(c: Config, s: System, f: Frame, env: Env): seq<DT.Op>
    requires f.plen <= 22 && SlotsOk(c, s)
  {
    if f.op == DYNAMIC_BEGIN then Drops(BeginUpload(c, s, f, env).1.Err?, env.op)
    else if f.op == DYNAMIC_DATA then Drops(UploadData(c, s, f, env).1.Err?, env.op)
    else if f.op == AUTH_PROVE then [DT.Cancel(env.op)]
    else if f.op == LOCK then Drops(LockCommand(s, f, env.op).1.Ok?, env.op)
    else if f.op == PASSWORD_SET then PasswordOps(c, s, f, env)
    else if f.op == LIST || f.op == GET || f.op == SET || f.op == CLEAR then ManagedOps(c, s, f, env)
    else []
  }

  function RequestOps(c: Config, s: System, f: Frame, env: Env): seq<DT.Op>
    requires SlotsOk(c, s)
  {
    var t := Sync(s, env.sync);
    Drops(Moved(s, env.sync), env.sync) +
    match BaseError(f)
    case Some(e) => Drops(e != BAD_OPCODE && (f.op == DYNAMIC_BEGIN || f.op == DYNAMIC_DATA), env.op)
    case None => Asked(c, t, f, env) + Dropped(c, t, f, env)
  }

  /** Every operation that the step performs on the dynamic store, in order. */
  function OpsOf(c: Config, s: System, step: PI.Step): seq<DT.Op>
    requires SlotsOk(c, s)
  {
    match step
    case Request(f, env) => RequestOps(c, s, f, env)
    case UploadTimer(now, resched) => Drops(s.owner && s.ctx.dyn.Some? && s.ctx.dyn.value.deadline <= now, now)
    case Behind(op) => if PI.Background(op) then [op] else []
    case UsbNotification(now, disconnected) =>
      [DT.Cancel(now)] + if disconnected && c.clearOnUsb then [DT.ClearAll(now)] else []
  }

  // ------------------------------------------------------------------ they are what the step does to the store

  lemma DropsApply(s: D.Store, dropped: bool, now: nat)
    ensures ApplyAll(s, Drops(dropped, now)) == if dropped then D.CancelStaging(s, now) else s
  {
    ApplyOne(s, DT.Cancel(now));
  }

  lemma SyncApplies(s: System, now: nat)
    ensures Sync(s, now).store == ApplyAll(s.store, Drops(Moved(s, now), now))
  {
    DropsApply(s.store, Moved(s, now), now);
  }

  lemma AccessApplies(s: System, now: nat)
    ensures Access(s, now).1.Some? ==> Access(s, now).0.store == ApplyAll(s.store, [DT.Cancel(now)])
    ensures Access(s, now).1.None? ==> Access(s, now).0.store == s.store
  {
    ApplyOne(s.store, DT.Cancel(now));
  }

  lemma RefreshApplies(c: Config, s: System, now: nat, r: Response)
    ensures RefreshProtected(c, s, now, r).0.store == ApplyAll(s.store, Drops(Ended(c, s, now), now))
    ensures RefreshProtected(c, s, now, r).1 == if Ended(c, s, now) then Err(AUTH_REQUIRED) else r
  {
    DropsApply(s.store, Ended(c, s, now), now);
  }

  lemma ManageKeepsStore(c: Config, s: System, f: Frame, env: Env)
    requires f.plen <= 22 && SlotsOk(c, s)
    ensures Manage(c, s, f, env).0.store == s.store
  {
  }

  lemma ManagedApplies(c: Config, s: System, f: Frame, env: Env)
    requires f.plen <= 22 && SlotsOk(c, s)
    ensures Managed(c, s, f, env).0.store == ApplyAll(s.store, ManagedOps(c, s, f, env))
  {
    AccessApplies(s, env.access);
    var (t, denied) := Access(s, env.access);
    if denied.None? {
      ManageKeepsStore(c, t, f, env);
      var (u, r) := Manage(c, t, f, env);
      RefreshApplies(c, u, env.refresh, r);
    }
  }

  lemma AdvanceApplies(c: Config, s: System, w: PwTx, env: Env)
    requires |w.data| <= PASSWORD_LENGTH
    ensures var (t, r) := PasswordAdvance(c, s, w, env);
            var complete := |w.data| == PASSWORD_LENGTH;
            t.store == ApplyAll(s.store, Drops(r == Err(AUTH_REQUIRED) || (r.Ok? && complete), if complete then env.op else env.refresh))
  {
    var u := s.(ctx := s.ctx.(pw := Some(w)));
    if |w.data| < PASSWORD_LENGTH {
      RefreshApplies(c, u, env.refresh, Ok(|w.data|, PASSWORD_LENGTH, []));
    } else {
      var r := PasswordAdvance(c, s, w, env).1;
      DropsApply(s.store, r == Err(AUTH_REQUIRED) || r.Ok?, env.op);
    }
  }

  lemma PasswordSetApplies(c: Config, s: System, f: Frame, env: Env)
    requires f.plen <= 22
    ensures var (t, r) := PasswordSet(c, s, f, env);
            var complete := f.offset + f.plen == PASSWORD_LENGTH;
            t.store == ApplyAll(s.store, Drops(r == Err(AUTH_REQUIRED) || (r.Ok? && complete), if complete then env.op else env.refresh))
  {
    var (t, r) := PasswordSet(c, s, f, env);
    if t == ClearPassword(s) && r.Err? && r.status != AUTH_REQUIRED {
    } else if f.offset == 0 {
      AdvanceApplies(c, s, PwTx(f.rid, f.Data(), s.auth.epoch), env);
    } else {
      var w := s.ctx.pw.value;
      AdvanceApplies(c, s, w.(data := w.data + f.Data()), env);
    }
  }

  lemma PasswordApplies(c: Config, s: System, f: Frame, env: Env)
    requires f.plen <= 22
    ensures ManagedPassword(c, s, f, env).0.store == ApplyAll(s.store, PasswordOps(c, s, f, env))
  {
    AccessApplies(s, env.access);
    var (t, denied) := Access(s, env.access);
    if denied.None? {
      PasswordSetApplies(c, t, f, env);
    }
  }

  lemma AuthApplies(c: Config, s: System, f: Frame, env: Env)
    requires f.plen <= 22
    ensures AuthInfo(s, f, env.op).0.store == s.store && AuthChallenge(c, s, f, env).0.store == s.store
    ensures AuthProve(c, s, f, env).0.store == ApplyAll(s.store, [DT.Cancel(env.op)])
    ensures LockCommand(s, f, env.op).0.store == ApplyAll(s.store, Drops(LockCommand(s, f, env.op).1.Ok?, env.op))
  {
    ApplyOne(s.store, DT.Cancel(env.op));
  }

  lemma AskedThenDrops(s: D.Store, op: DT.Op, dropped: bool, now: nat)
    ensures ApplyAll(s, [op] + Drops(dropped, now)) == if dropped then D.CancelStaging(DT.Apply(s, op), now) else DT.Apply(s, op)
  {
    ApplyInTwo(s, [op], Drops(dropped, now));
    ApplyOne(s, op);
    DropsApply(DT.Apply(s, op), dropped, now);
  }

  lemma BeginApplies(c: Config, s: System, f: Frame, env: Env)
    requires f.plen <= 22 && SlotsOk(c, s) && f.op == DYNAMIC_BEGIN
    ensures BeginUpload(c, s, f, env).0.store == ApplyAll(s.store, Asked(c, s, f, env) + Dropped(c, s, f, env))
  {
    var refused := BeginUpload(c, s, f, env).1.Err?;
    DropsApply(s.store, refused, env.op);
    if BeginError(c, f).None? {
      AskedThenDrops(s.store, Asked(c, s, f, env)[0], refused, env.op);
    }
  }

  lemma DataApplies(c: Config, s: System, f: Frame, env: Env)
    requires f.plen <= 22 && SlotsOk(c, s) && f.op == DYNAMIC_DATA
    ensures UploadData(c, s, f, env).0.store == ApplyAll(s.store, Asked(c, s, f, env) + Dropped(c, s, f, env))
  {
    var refused := UploadData(c, s, f, env).1.Err?;
    DropsApply(s.store, refused, env.op);
    if DataError(c, s, f).None? {
      AskedThenDrops(s.store, Asked(c, s, f, env)[0], refused, env.op);
    }
  }

  lemma DispatchApplies(c: Config, s: System, f: Frame, env: Env)
    requires f.plen <= 22 && KnownOpcode(f.op) && SlotsOk(c, s) && c.dynSlots <= 8
    ensures Dispatch(c, s, f, env).0.store == ApplyAll(s.store, Asked(c, s, f, env) + Dropped(c, s, f, env))
  {
    if f.op == DYNAMIC_BEGIN { BeginApplies(c, s, f, env); }
    else if f.op == DYNAMIC_DATA { DataApplies(c, s, f, env); }
    else if f.op == DYNAMIC_CLEAR {
      ApplyOne(s.store, DT.ClearSlot(env.op, f.slot));
      assert Asked(c, s, f, env) + [] == Asked(c, s, f, env);
    } else {
      assert [] + Dropped(c, s, f, env) == Dropped(c, s, f, env);
      if f.op == PASSWORD_SET { PasswordApplies(c, s, f, env); }
      else if f.op == LIST || f.op == GET || f.op == SET || f.op == CLEAR { ManagedApplies(c, s, f, env); }
      else { AuthApplies(c, s, f, env); }
    }
  }

  lemma RequestApplies(c: Config, s: System, f: Frame, env: Env)
    requires ConfigOk(c) && SlotsOk(c, s)
    ensures Process(c, s, f, env).0.store == ApplyAll(s.store, RequestOps(c, s, f, env))
  {
    var t, first := Sync(s, env.sync), Drops(Moved(s, env.sync), env.sync);
    SyncApplies(s, env.sync);
    match BaseError(f)
    case Some(e) =>
      var dropped := e != BAD_OPCODE && (f.op == DYNAMIC_BEGIN || f.op == DYNAMIC_DATA);
      DropsApply(t.store, dropped, env.op);
      ApplyInTwo(s.store, first, Drops(dropped, env.op));
    case None =>
      DispatchApplies(c, t, f, env);
      ApplyInTwo(s.store, first, Asked(c, t, f, env) + Dropped(c, t, f, env));
  }

  lemma UsbApplies(c: Config, s: System, now: nat, disconnected: bool)
    requires SlotsOk(c, s)
    ensures UsbReset(c, s, now, disconnected).store == ApplyAll(s.store, OpsOf(c, s, PI.UsbNotification(now, disconnected)))
  {
    var all := if disconnected && c.clearOnUsb then [DT.ClearAll(now)] else [];
    ApplyOne(s.store, DT.Cancel(now));
    ApplyOne(D.CancelStaging(s.store, now), DT.ClearAll(now));
    ApplyInTwo(s.store, [DT.Cancel(now)], all);
  }

  lemma StepApplies(c: Config, s: System, step: PI.Step)
    requires ConfigOk(c) && SlotsOk(c, s)
    ensures PI.Apply(c, s, step).store == ApplyAll(s.store, OpsOf(c, s, step))
  {
    match step
    case Request(f, env) => RequestApplies(c, s, f, env);
    case UploadTimer(now, resched) => DropsApply(s.store, s.owner && s.ctx.dyn.Some? && s.ctx.dyn.value.deadline <= now, now);
    case UsbNotification(now, disconnected) => UsbApplies(c, s, now, disconnected);
    case Behind(op) => ApplyOne(s.store, op);
  }

  // ------------------------------------------------------------------ and no others

  /** The operation is one that this step asks for, with the step's own content, at one of the step's own times. */
  predicate Explains(c: Config, step: PI.Step, op: DT.Op) {
    match step
    case Request(f, env) =>
      (match op
       case Begin(now, slot, total, ttl, consume) =>
         f.op == DYNAMIC_BEGIN && op == DT.Begin(env.op, f.slot, f.total, BeginTtl(f), BeginFlags(f) == 0)
       case Append(now, slot, offset, data) =>
         f.op == DYNAMIC_DATA && f.plen <= 22 && op == DT.Append(env.op, f.slot, f.offset, f.Data())
       case ClearSlot(now, slot) => f.op == DYNAMIC_CLEAR && op == DT.ClearSlot(env.op, f.slot)
       case Cancel(now) => now == env.sync || now == env.access || now == env.op || now == env.refresh
       case _ => false)
    case UploadTimer(now, resched) => op == DT.Cancel(now)
    case Behind(own) => op == own && PI.Background(op)
    case UsbNotification(now, disconnected) => op == DT.Cancel(now) || (op == DT.ClearAll(now) && disconnected && c.clearOnUsb)
  }

  lemma RequestOpsExplained(c: Config, s: System, f: Frame, env: Env)
    requires SlotsOk(c, s)
    ensures forall m | 0 <= m < |RequestOps(c, s, f, env)| :: Explains(c, PI.Request(f, env), RequestOps(c, s, f, env)[m])
    ensures forall m, m' | 0 <= m < m' < |RequestOps(c, s, f, env)| ::
              RequestOps(c, s, f, env)[m].Cancel? || RequestOps(c, s, f, env)[m'].Cancel?
  {
  }

  /** A step performs at most one operation that is not the dropping of an upload, and only what it asks for at its own times. */
  lemma OpsAreTheSteps(c: Config, s: System, step: PI.Step)
    requires ConfigOk(c) && SlotsOk(c, s)
    ensures var ops := OpsOf(c, s, step);
            && (forall m | 0 <= m < |ops| :: Explains(c, step, ops[m]))
            && (forall m, m' | 0 <= m < m' < |ops| :: ops[m].Cancel? || ops[m'].Cancel?)
  {
    match step
    case Request(f, env) => RequestOpsExplained(c, s, f, env);
    case _ =>
  }

  /**
   * A BEGIN, DATA or CLEAR request that is answered OK performs its own operation, which is then its last, and a BEGIN or
   * DATA request that is not leaves no upload.
   */
  lemma AnsweredIsPerformed(c: Config, s: System, f: Frame, env: Env)
    requires ConfigOk(c) && SlotsOk(c, s) && (f.op == DYNAMIC_BEGIN || f.op == DYNAMIC_DATA || f.op == DYNAMIC_CLEAR)
    ensures var (t, r) := Process(c, s, f, env);
            var ops := RequestOps(c, s, f, env);
            && (r.Ok? ==> ops != [] && !ops[|ops| - 1].Cancel?)
            && (r.Err? && f.op != DYNAMIC_CLEAR ==> t.store.staged.None?)
  {
  }

  // ------------------------------------------------------------------ runs

  /** Every operation that the first k steps of a run perform on the dynamic store, in order. */
  ghost function AllOps(c: Config, ss: seq<System>, steps: seq<PI.Step>, k: nat): seq<DT.Op>
    requires PI.Runs(c, ss, steps) && k <= |steps|
  {
    if k == 0 then [] else AllOps(c, ss, steps, k - 1) + OpsOf(c, ss[k - 1], steps[k - 1])
  }

  lemma {:induction false} StatesOfARun(c: Config, ss: seq<System>, steps: seq<PI.Step>, k: nat) returns (ts: seq<D.Store>)
    requires PI.Runs(c, ss, steps) && k <= |steps|
    ensures Through(ss[0].store, AllOps(c, ss, steps, k), ts) && ts[|AllOps(c, ss, steps, k)|] == ss[k].store
  {
    if k == 0 {
      ts := [ss[0].store];
    } else {
      ts := StatesOfARun(c, ss, steps, k - 1);
      assert ss[k] == PI.Apply(c, ss[k - 1], steps[k - 1]);
      StepApplies(c, ss[k - 1], steps[k - 1]);
      var ops := OpsOf(c, ss[k - 1], steps[k - 1]);
      var us := StatesOf(ss[k - 1].store, ops);
      ThroughInTwo(ss[0].store, AllOps(c, ss, steps, k - 1), ts, ops, us);
      ts := ts + us[1..];
    }
  }

  /** The store of a running device is the outcome of exactly the operations of its steps, in order, from boot. */
  lemma StoreIsARun(c: Config, ss: seq<System>, steps: seq<PI.Step>, k: nat)
    requires PI.Runs(c, ss, steps) && k <= |steps|
    ensures var h := AllOps(c, ss, steps, k); DT.Run(DT.Host(c.dynSlots, ss[0].store.kernel), h, |h|) == ss[k].store
  {
    var h := AllOps(c, ss, steps, k);
    var ts := StatesOfARun(c, ss, steps, k);
    ThroughIsRun(DT.Host(c.dynSlots, ss[0].store.kernel), h, ts, |h|);
  }

  /** Conservation and timer coverage, on a running device: the ledger is over all the operations of its steps. */
  lemma DeviceTextsAreConserved(c: Config, ss: seq<System>, steps: seq<PI.Step>, k: nat, i: nat)
    requires PI.Runs(c, ss, steps) && k <= |steps| && i < c.dynSlots
    ensures var h, d := AllOps(c, ss, steps, k), DT.Host(c.dynSlots, ss[0].store.kernel);
            && DT.Run(d, h, |h|) == ss[k].store
            && var l := DT.Account(d, h, |h|, i);
               l.commits == l.consumed + l.expired + l.cleared + l.replaced + DT.Bit(DT.Holds(ss[k].store, i))
    ensures ss[k].store.armed ==> DT.TimerOk(ss[k].store)
  {
    StoreIsARun(c, ss, steps, k);
    var h := AllOps(c, ss, steps, k);
    DT.TextsAreConserved(DT.Host(c.dynSlots, ss[0].store.kernel), h, |h|, i);
    PI.RunKeepsInv(c, ss, steps, k);
  }
}
