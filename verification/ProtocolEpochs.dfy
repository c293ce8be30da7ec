/** No transaction straddles an authentication change. */
module ProtocolEpochs {
  import opened Bytes
  import opened Wire
  import opened ProtocolSpec
  import A = AuthSpec
  import AT = AuthTheorems
  import PI = ProtocolInvariants

  datatype Kind = SetUpload | PasswordUpload | DynamicUpload

  /** The epoch in which the kind's transaction began, if one is open. */
  function Began(k: Kind, x: Ctx): Option<nat> {
    match k
    case SetUpload => if x.put.Some? then Some(x.put.value.epoch) else None
    case PasswordUpload => if x.pw.Some? then Some(x.pw.value.epoch) else None
    case DynamicUpload => if x.dyn.Some? then Some(x.dyn.value.epoch) else None
  }

  /** The request is the first chunk, or the BEGIN, of such a transaction. */
  predicate Opens(k: Kind, f: Frame) {
    match k
    case SetUpload => f.op == SET && f.offset == 0
    case PasswordUpload => f.op == PASSWORD_SET && f.offset == 0
    case DynamicUpload => f.op == DYNAMIC_BEGIN
  }

  predicate CurrentOne(k: Kind, s: System) {
    Began(k, s.ctx).Some? ==> Began(k, s.ctx).value == s.auth.epoch
  }

  /** Whatever is open began in this very epoch. */
  predicate Current(s: System) {
    CurrentOne(SetUpload, s) && CurrentOne(PasswordUpload, s) && CurrentOne(DynamicUpload, s)
  }

  predicate NothingOpen(s: System) {
    s.ctx.put.None? && s.ctx.pw.None? && s.ctx.dyn.None?
  }

  function Now(a: A.Auth): Seen {
    Seen(a.state, a.Authenticated())
  }

  /** Between requests: what is open began in this epoch, or else the next request will notice the lapsed session. */
  predicate InStep(s: System) {
    AT.Sound(s.auth)
    && (NothingOpen(s)
        || (s.ctx.seen == Some(Now(s.auth)) && Current(s))
        || (s.ctx.seen == Some(Seen(s.auth.state, true)) && !s.auth.Authenticated()))
  }

  /** While a request is handled. */
  predicate Noticed(s: System) {
    AT.Sound(s.auth) && Current(s) && s.ctx.seen == Some(Now(s.auth))
  }

  predicate CarriedOne(k: Kind, f: Frame, s: System, s': System) {
    Began(k, s'.ctx).Some? ==>
      Began(k, s'.ctx) == Began(k, s.ctx) || (Opens(k, f) && Began(k, s'.ctx).value == s'.auth.epoch)
  }

  /** From s to s' the epoch only grows, and each open transaction is an old one or was opened by this very frame. */
  predicate Carried(f: Frame, s: System, s': System) {
    s'.auth.epoch >= s.auth.epoch
    && CarriedOne(SetUpload, f, s, s') && CarriedOne(PasswordUpload, f, s, s') && CarriedOne(DynamicUpload, f, s, s')
  }

  predicate Good(f: Frame, s: System, s': System) {
    InStep(s') && Carried(f, s, s')
  }

  predicate KeptOne(k: Kind, s: System, s': System) {
    Began(k, s'.ctx).Some? ==> Began(k, s'.ctx) == Began(k, s.ctx)
  }

  /** Nothing is opened, though the epoch may grow. */
  predicate Kept(s: System, s': System) {
    s'.auth.epoch >= s.auth.epoch && KeptOne(SetUpload, s, s') && KeptOne(PasswordUpload, s, s') && KeptOne(DynamicUpload, s, s')
  }

  lemma SyncNotices(s: System, now: nat)
    requires InStep(s)
    ensures Noticed(Sync(s, now)) && Kept(s, Sync(s, now))
  {
  }

  lemma AccessStaysCurrent(s: System, now: nat)
    requires Noticed(s)
    ensures InStep(Access(s, now).0) && Current(Access(s, now).0) && Kept(s, Access(s, now).0)
    ensures Access(s, now).1.None? ==> Access(s, now).0 == s
  {
  }

  lemma RefreshInStep(c: Config, s: System, now: nat, r: Response)
    requires Noticed(s)
    ensures var s' := RefreshProtected(c, s, now, r).0;
            InStep(s') && (s'.ctx == s.ctx || s'.ctx == IDLE) && s'.auth.epoch >= s.auth.epoch
            && (s'.ctx != IDLE ==> s'.auth.epoch == s.auth.epoch)
  {
  }

  lemma ManageInStep(c: Config, s: System, f: Frame, env: Env)
    requires Noticed(s) && f.plen <= 22 && SlotsOk(c, s)
    requires f.op == LIST || f.op == GET || f.op == SET || f.op == CLEAR
    ensures Noticed(Manage(c, s, f, env).0) && Carried(f, s, Manage(c, s, f, env).0)
  {
  }

  lemma ManagedInStep(c: Config, s: System, f: Frame, env: Env)
    requires Noticed(s) && f.plen <= 22 && SlotsOk(c, s)
    requires f.op == LIST || f.op == GET || f.op == SET || f.op == CLEAR
    ensures Good(f, s, Managed(c, s, f, env).0)
  {
    AccessStaysCurrent(s, env.access);
    if Access(s, env.access).1.None? {
      ManageInStep(c, s, f, env);
      var (u, r) := Manage(c, s, f, env);
      RefreshInStep(c, u, env.refresh, r);
    }
  }

  lemma IdleIsGood(f: Frame, s: System, s': System)
    requires s'.ctx == IDLE && AT.Sound(s'.auth) && s'.auth.epoch >= s.auth.epoch
    ensures Good(f, s, s')
  {
  }

  /** A session that lapses while a query is handled leaves the cleaning up to the next request. */
  lemma LapseIsGood(f: Frame, s: System, a: A.Auth)
    requires Noticed(s) && AT.Sound(a) && a.state == s.auth.state && a.epoch >= s.auth.epoch
    requires (a.epoch == s.auth.epoch && a.session == s.auth.session) || (s.auth.session.Some? && a.session.None?)
    ensures Good(f, s, s.(auth := a))
  {
  }

  lemma PasswordCommitInStep(c: Config, s: System, f: Frame, t: PwTx, env: Env)
    requires Noticed(s) && |t.data| == PASSWORD_LENGTH
    ensures Good(f, s, PasswordAdvance(c, s, t, env).0)
  {
    var cred := ParseCredential(t.data);
    AT.StepKeepsSound(PI.U(c, s), s.auth, AT.Change(env.op, cred, env.credSave));
    var (a, e) := A.SetCredential(s.auth, env.op, cred, env.credSave);
    var u := ClearPassword(s).(auth := a);
    IdleIsGood(f, s, Discard(u, env.op));
    if e != Success {
      LapseIsGood(f, ClearPassword(s), a);
    }
  }

  lemma PasswordAdvanceInStep(c: Config, s: System, f: Frame, t: PwTx, env: Env)
    requires Noticed(s) && |t.data| <= PASSWORD_LENGTH && f.op == PASSWORD_SET
    requires t.epoch == s.auth.epoch && (s.ctx.pw.None? || f.offset == 0 ==> Opens(PasswordUpload, f))
    ensures Good(f, s, PasswordAdvance(c, s, t, env).0)
  {
    if |t.data| < PASSWORD_LENGTH {
      var u := s.(ctx := s.ctx.(pw := Some(t)));
      RefreshInStep(c, u, env.refresh, Ok(|t.data|, PASSWORD_LENGTH, []));
    } else {
      PasswordCommitInStep(c, s, f, t, env);
    }
  }

  lemma PasswordSetInStep(c: Config, s: System, f: Frame, env: Env)
    requires Noticed(s) && f.plen <= 22 && f.op == PASSWORD_SET
    ensures Good(f, s, PasswordSet(c, s, f, env).0)
  {
    if PasswordSet(c, s, f, env).0 != ClearPassword(s) {
      if f.offset == 0 {
        PasswordAdvanceInStep(c, s, f, PwTx(f.rid, f.Data(), s.auth.epoch), env);
      } else {
        var t := s.ctx.pw.value;
        PasswordAdvanceInStep(c, s, f, t.(data := t.data + f.Data()), env);
      }
    }
  }

  lemma PasswordInStep(c: Config, s: System, f: Frame, env: Env)
    requires Noticed(s) && f.plen <= 22 && f.op == PASSWORD_SET
    ensures Good(f, s, ManagedPassword(c, s, f, env).0)
  {
    AccessStaysCurrent(s, env.access);
    PasswordSetInStep(c, s, f, env);
  }

  lemma QueriesInStep(c: Config, s: System, f: Frame, env: Env)
    requires Noticed(s)
    ensures Good(f, s, AuthInfo(s, f, env.op).0)
    ensures Good(f, s, AuthChallenge(c, s, f, env).0)
  {
    var u := PI.U(c, s);
    AT.StepKeepsSound(u, s.auth, AT.Ask(env.op, env.random));
    LapseIsGood(f, s, s.auth);
    LapseIsGood(f, s, A.Expire(s.auth, env.op));
    LapseIsGood(f, s, A.GenerateChallenge(c.t, s.auth, env.op, env.random).0);
  }

  lemma ProveInStep(c: Config, s: System, f: Frame, env: Env)
    requires Noticed(s) && f.plen <= 22
    ensures Good(f, s, AuthProve(c, s, f, env).0)
    ensures Good(f, s, LockCommand(s, f, env.op).0)
  {
    AT.StepKeepsSound(PI.U(c, s), s.auth, AT.Prove(env.op, f.Data(), env.macOk));
    IdleIsGood(f, s, AuthProve(c, s, f, env).0);
    LapseIsGood(f, s, s.auth);
  }

  /** The dynamic commands leave authentication and the other transactions alone. */
  predicate OnlyUpload(s: System, t: System) {
    t.auth == s.auth && t.ctx.put == s.ctx.put && t.ctx.pw == s.ctx.pw && t.ctx.seen == s.ctx.seen
  }

  lemma OnlyUploadIsGood(f: Frame, s: System, t: System)
    requires Noticed(s) && OnlyUpload(s, t) && CarriedOne(DynamicUpload, f, s, t)
    ensures Good(f, s, t)
  {
  }

  lemma DataInStep(c: Config, s: System, f: Frame, env: Env)
    requires Noticed(s) && f.plen <= 22
    ensures Good(f, s, UploadData(c, s, f, env).0)
  {
    var t := UploadData(c, s, f, env).0;
    assert OnlyUpload(s, t) && KeptOne(DynamicUpload, s, t);
    OnlyUploadIsGood(f, s, t);
  }

  lemma BeginInStep(c: Config, s: System, f: Frame, env: Env)
    requires Noticed(s) && f.op == DYNAMIC_BEGIN
    ensures Good(f, s, BeginUpload(c, s, f, env).0)
  {
    var t := BeginUpload(c, s, f, env).0;
    assert OnlyUpload(s, t) && CarriedOne(DynamicUpload, f, s, t);
    OnlyUploadIsGood(f, s, t);
  }

  lemma ClearUploadInStep(c: Config, s: System, f: Frame, env: Env)
    requires Noticed(s)
    ensures Good(f, s, ClearUpload(c, s, f, env).0)
  {
    var t := ClearUpload(c, s, f, env).0;
    assert OnlyUpload(s, t) && KeptOne(DynamicUpload, s, t);
    OnlyUploadIsGood(f, s, t);
  }

  lemma DispatchInStep(c: Config, s: System, f: Frame, env: Env)
    requires Noticed(s) && f.plen <= 22 && KnownOpcode(f.op) && SlotsOk(c, s) && c.dynSlots <= 8
    ensures Good(f, s, Dispatch(c, s, f, env).0)
  {
    if f.op == DYNAMIC_BEGIN { BeginInStep(c, s, f, env); }
    else if f.op == DYNAMIC_DATA { DataInStep(c, s, f, env); }
    else if f.op == DYNAMIC_CLEAR { ClearUploadInStep(c, s, f, env); }
    else if f.op == PASSWORD_SET { PasswordInStep(c, s, f, env); }
    else if f.op == AUTH_PROVE || f.op == LOCK { ProveInStep(c, s, f, env); }
    else if f.op == AUTH_INFO || f.op == AUTH_CHALLENGE { QueriesInStep(c, s, f, env); }
    else if f.op == CAPABILITIES { LapseIsGood(f, s, s.auth); }
    else { ManagedInStep(c, s, f, env); }
  }

  lemma GoodAfter(f: Frame, s: System, t: System, s': System)
    requires Kept(s, t) && Good(f, t, s')
    ensures Good(f, s, s')
  {
  }

  lemma RejectInStep(s: System, f: Frame, now: nat)
    requires Noticed(s)
    ensures Good(f, s, DiscardForOpcode(s, f.op, now)) && Good(f, s, s)
  {
    OnlyUploadIsGood(f, s, s);
    if f.op == DYNAMIC_BEGIN || f.op == DYNAMIC_DATA {
      OnlyUploadIsGood(f, s, ClearDynamic(s, now));
    }
  }

  lemma ProcessInStep(c: Config, s: System, f: Frame, env: Env)
    requires ConfigOk(c) && SlotsOk(c, s) && InStep(s)
    ensures Good(f, s, Process(c, s, f, env).0)
  {
    SyncNotices(s, env.sync);
    var t := Sync(s, env.sync);
    if BaseError(f).None? {
      DispatchInStep(c, t, f, env);
      GoodAfter(f, s, t, Dispatch(c, t, f, env).0);
    } else {
      RejectInStep(t, f, env.op);
      GoodAfter(f, s, t, DiscardForOpcode(t, f.op, env.op));
      GoodAfter(f, s, t, t);
    }
  }

  // ------------------------------------------------------------------ every run of the device

  lemma StepCarries(c: Config, s: System, step: PI.Step)
    requires ConfigOk(c) && SlotsOk(c, s) && InStep(s)
    ensures InStep(PI.Apply(c, s, step))
    ensures if step.Request? then Carried(step.f, s, PI.Apply(c, s, step)) else Kept(s, PI.Apply(c, s, step))
  {
    if step.Request? {
      ProcessInStep(c, s, step.f, step.env);
    }
  }

  lemma {:induction false} RunStaysInStep(c: Config, ss: seq<System>, steps: seq<PI.Step>, k: nat)
    requires PI.Runs(c, ss, steps) && k <= |steps|
    ensures InStep(ss[k])
    ensures forall m | 0 <= m <= k :: ss[m].auth.epoch <= ss[k].auth.epoch
  {
    if k > 0 {
      RunStaysInStep(c, ss, steps, k - 1);
      assert ss[k] == PI.Apply(c, ss[k - 1], steps[k - 1]);
      StepCarries(c, ss[k - 1], steps[k - 1]);
    }
  }

  /** Step j opened the transaction that is open in all the states from ss[j+1] to ss[k], with the same epoch. */
  ghost predicate OpenSince(k: Kind, ss: seq<System>, steps: seq<PI.Step>, j: nat, n: nat, e: nat) {
    && j < n < |ss| == |steps| + 1 && steps[j].Request? && Opens(k, steps[j].f) && ss[j + 1].auth.epoch == e
    && forall m | j < m <= n :: Began(k, ss[m].ctx) == Some(e)
  }

  lemma StepOpens(c: Config, s: System, step: PI.Step, k: Kind)
    requires ConfigOk(c) && SlotsOk(c, s) && InStep(s)
    ensures var t := PI.Apply(c, s, step);
            Began(k, t.ctx).Some? && Began(k, t.ctx) != Began(k, s.ctx) ==>
              step.Request? && Opens(k, step.f) && Began(k, t.ctx).value == t.auth.epoch
  {
    StepCarries(c, s, step);
  }

  lemma {:induction false} OpenedOnce(c: Config, ss: seq<System>, steps: seq<PI.Step>, n: nat, k: Kind) returns (j: nat)
    requires PI.Runs(c, ss, steps) && n <= |steps| && Began(k, ss[n].ctx).Some?
    ensures OpenSince(k, ss, steps, j, n, Began(k, ss[n].ctx).value)
  {
    var p := n - 1;
    RunStaysInStep(c, ss, steps, p);
    assert ss[n] == PI.Apply(c, ss[p], steps[p]);
    StepOpens(c, ss[p], steps[p], k);
    if Began(k, ss[n].ctx) == Began(k, ss[p].ctx) {
      j := OpenedOnce(c, ss, steps, p, k);
    } else {
      j := p;
    }
  }

  /**
   * When a request is handled, every transaction it could extend or commit began in the current authentication epoch:
   * one request opened it, and from then on up to the handler there was no login, lock, lapse or credential change.
   */
  lemma NoTransactionStraddles(c: Config, ss: seq<System>, steps: seq<PI.Step>, n: nat, k: Kind)
    requires PI.Runs(c, ss, steps) && n < |steps| && steps[n].Request?
    requires Began(k, Sync(ss[n], steps[n].env.sync).ctx).Some?
    ensures var h := Sync(ss[n], steps[n].env.sync);
            var e := Began(k, h.ctx).value;
            && h.auth.epoch == e
            && (Access(h, steps[n].env.access).1.None? ==> Access(h, steps[n].env.access).0 == h)
            && exists j: nat :: OpenSince(k, ss, steps, j, n, e) && forall m | j < m <= n :: ss[m].auth.epoch == e
  {
    var env := steps[n].env;
    RunStaysInStep(c, ss, steps, n);
    SyncNotices(ss[n], env.sync);
    AccessStaysCurrent(Sync(ss[n], env.sync), env.access);
    var j := OpenedOnce(c, ss, steps, n, k);
    forall m | j < m <= n ensures ss[m].auth.epoch == ss[j + 1].auth.epoch {
      RunStaysInStep(c, ss, steps, m);
    }
  }
}
