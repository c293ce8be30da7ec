/** The authentication core of a running device: always the outcome of exactly the events that its steps perform. */
module AuthHistory {
  import opened Bytes
  import opened Wire
  import opened ProtocolSpec
  import A = AuthSpec
  import AT = AuthTheorems
  import D = DynamicSpec
  import PI = ProtocolInvariants

  function ApplyAll(u: AT.Setup, a: A.Auth, h: seq<AT.Event>): A.Auth {
    if h == [] then a else AT.Step(u, ApplyAll(u, a, h[..|h| - 1]), h[|h| - 1]).0
  }

  lemma {:induction false} ApplyInTwo(u: AT.Setup, a: A.Auth, g: seq<AT.Event>, h: seq<AT.Event>)
    ensures ApplyAll(u, a, g + h) == ApplyAll(u, ApplyAll(u, a, g), h)
  {
    if h == [] {
      assert g + h == g;
    } else {
      ApplyInTwo(u, a, g, h[..|h| - 1]);
      assert (g + h)[..|g + h| - 1] == g + h[..|h| - 1];
    }
  }

  lemma ApplyOne(u: AT.Setup, a: A.Auth, ev: AT.Event)
    ensures ApplyAll(u, a, [ev]) == AT.Step(u, a, ev).0 && ApplyAll(u, a, []) == a
  {
    assert [ev][..0] == [];
  }

  lemma ApplyTwo(u: AT.Setup, a: A.Auth, ev: AT.Event, ev': AT.Event)
    ensures ApplyAll(u, a, [ev, ev']) == AT.Step(u, AT.Step(u, a, ev).0, ev').0
  {
    assert [ev, ev'][..1] == [ev];
    ApplyOne(u, a, ev);
  }

  // ------------------------------------------------------------------ the events of one step

  function RefreshEvents(s: System, now: nat): seq<AT.Event> {
    [AT.Observe(now)] + if s.auth.state == A.Protected then [AT.Refresh(now)] else []
  }

  function ManagedEvents(c: Config, s: System, f: Frame, env: Env): seq<AT.Event>
    requires f.plen <= 22 && SlotsOk(c, s)
  {
    var (t, denied) := Access(s, env.access);
    [AT.Observe(env.access)] +
    if denied.None? && Manage(c, t, f, env).1.Ok? then RefreshEvents(t, env.refresh) else []
  }

  /** The credential that is complete with this part, if it is. */
  function Completed(s: System, f: Frame): Option<A.Credential>
    requires f.plen <= 22
  {
    var data := if f.offset == 0 then f.Data() else if s.ctx.pw.Some? then s.ctx.pw.value.data + f.Data() else [];
    if |data| == PASSWORD_LENGTH then Some(ParseCredential(data)) else None
  }

  /** The part is the next one of the transfer in progress, or the first one of a new transfer. */
  predicate PartFits(s: System, f: Frame) {
    && f.slot == LIST_SLOT && f.total == PASSWORD_LENGTH && f.offset <= f.total && 1 <= f.plen <= f.total - f.offset
    && (f.offset > 0 ==> s.ctx.pw.Some? && s.ctx.pw.value.rid == f.rid && f.offset == |s.ctx.pw.value.data|)
  }

  function PasswordEvents(s: System, f: Frame, env: Env): seq<AT.Event>
    requires f.plen <= 22
  {
    var (t, denied) := Access(s, env.access);
    [AT.Observe(env.access)] +
    if denied.Some? || !PartFits(t, f) then []
    else match Completed(t, f)
      case Some(cred) => [AT.Change(env.op, cred, env.credSave)]
      case None => RefreshEvents(t, env.refresh)
  }

  function DispatchEvents(c: Config, s: System, f: Frame, env: Env): seq<AT.Event>
    requires f.plen <= 22 && SlotsOk(c, s)
  {
    var plain := f.slot == LIST_SLOT && f.EmptyObject();
    if f.op == AUTH_INFO && plain then [AT.Observe(env.op)]
    else if f.op == AUTH_CHALLENGE && plain then [AT.Ask(env.op, env.random)]
    else if f.op == AUTH_PROVE && f.slot == LIST_SLOT && f.offset == 0 && f.total == f.plen == PROOF_SIZE then
      [AT.Prove(env.op, f.Data(), env.macOk)]
    else if f.op == LOCK && plain then [AT.LockNow(env.op)]
    else if f.op == PASSWORD_SET then PasswordEvents(s, f, env)
    else if f.op == LIST || f.op == GET || f.op == SET || f.op == CLEAR then ManagedEvents(c, s, f, env)
    else []
  }

  /** Every event of the authentication core that the step performs, in order. */
  function EventsOf(c: Config, s: System, step: PI.Step): seq<AT.Event>
    requires SlotsOk(c, s)
  {
    match step
    case Request(f, env) =>
      [AT.Observe(env.sync)] + if BaseError(f).None? then DispatchEvents(c, Sync(s, env.sync), f, env) else []
    case UsbNotification(now, disconnected) => [AT.Reset(now)]
    case _ => []
  }

  // ------------------------------------------------------------------ they are what the step does to the core

  function Setup(c: Config, boot: A.Auth): AT.Setup {
    AT.Setup(c.mac, c.t, boot)
  }

  lemma RefreshApplies(c: Config, u: AT.Setup, s: System, now: nat, r: Response)
    requires u.t == c.t && u.mac == c.mac
    ensures RefreshProtected(c, s, now, r).0.auth == ApplyAll(u, s.auth, RefreshEvents(s, now))
  {
    ApplyOne(u, s.auth, AT.Observe(now));
    ApplyTwo(u, s.auth, AT.Observe(now), AT.Refresh(now));
  }

  lemma AccessApplies(u: AT.Setup, s: System, now: nat)
    ensures Access(s, now).0.auth == ApplyAll(u, s.auth, [AT.Observe(now)])
  {
    ApplyOne(u, s.auth, AT.Observe(now));
  }

  lemma ManageKeepsAuth(c: Config, s: System, f: Frame, env: Env)
    requires f.plen <= 22 && SlotsOk(c, s)
    ensures Manage(c, s, f, env).0.auth == s.auth
  {
  }

  lemma ManagedApplies(c: Config, u: AT.Setup, s: System, f: Frame, env: Env)
    requires f.plen <= 22 && SlotsOk(c, s) && u.t == c.t && u.mac == c.mac
    ensures Managed(c, s, f, env).0.auth == ApplyAll(u, s.auth, ManagedEvents(c, s, f, env))
  {
    AccessApplies(u, s, env.access);
    var (t, denied) := Access(s, env.access);
    if denied.None? {
      ManageKeepsAuth(c, t, f, env);
      var (v, r) := Manage(c, t, f, env);
      if r.Ok? {
        RefreshApplies(c, u, v, env.refresh, r);
        ApplyInTwo(u, s.auth, [AT.Observe(env.access)], RefreshEvents(t, env.refresh));
      }
    }
  }

  lemma AdvanceApplies(c: Config, u: AT.Setup, s: System, w: PwTx, env: Env)
    requires |w.data| <= PASSWORD_LENGTH && u.t == c.t && u.mac == c.mac
    ensures PasswordAdvance(c, s, w, env).0.auth ==
            ApplyAll(u, s.auth, if |w.data| == PASSWORD_LENGTH then [AT.Change(env.op, ParseCredential(w.data), env.credSave)]
                                else RefreshEvents(s, env.refresh))
  {
    if |w.data| == PASSWORD_LENGTH {
      ApplyOne(u, s.auth, AT.Change(env.op, ParseCredential(w.data), env.credSave));
    } else {
      RefreshApplies(c, u, s.(ctx := s.ctx.(pw := Some(w))), env.refresh, Ok(|w.data|, PASSWORD_LENGTH, []));
    }
  }

  lemma PasswordSetApplies(c: Config, u: AT.Setup, s: System, f: Frame, env: Env)
    requires f.plen <= 22 && u.t == c.t && u.mac == c.mac
    ensures !PartFits(s, f) ==> PasswordSet(c, s, f, env).0.auth == s.auth
    ensures PartFits(s, f) ==>
              PasswordSet(c, s, f, env).0.auth ==
              ApplyAll(u, s.auth, match Completed(s, f)
                                  case Some(cred) => [AT.Change(env.op, cred, env.credSave)]
                                  case None => RefreshEvents(s, env.refresh))
  {
    if PartFits(s, f) {
      var w := if f.offset == 0 then PwTx(f.rid, f.Data(), s.auth.epoch)
               else s.ctx.pw.value.(data := s.ctx.pw.value.data + f.Data());
      AdvanceApplies(c, u, s, w, env);
    }
  }

  lemma PasswordApplies(c: Config, u: AT.Setup, s: System, f: Frame, env: Env)
    requires f.plen <= 22 && u.t == c.t && u.mac == c.mac
    ensures ManagedPassword(c, s, f, env).0.auth == ApplyAll(u, s.auth, PasswordEvents(s, f, env))
  {
    AccessApplies(u, s, env.access);
    var (t, denied) := Access(s, env.access);
    if denied.None? {
      PasswordSetApplies(c, u, t, f, env);
      if PartFits(t, f) {
        ApplyInTwo(u, s.auth, [AT.Observe(env.access)], PasswordEvents(s, f, env)[1..]);
      }
    }
  }

  lemma AuthCommandsApply(c: Config, u: AT.Setup, s: System, f: Frame, env: Env)
    requires f.plen <= 22 && SlotsOk(c, s) && u.t == c.t && u.mac == c.mac && c.dynSlots <= 8
    requires f.op == AUTH_INFO || f.op == AUTH_CHALLENGE || f.op == AUTH_PROVE || f.op == LOCK
    ensures Dispatch(c, s, f, env).0.auth == ApplyAll(u, s.auth, DispatchEvents(c, s, f, env))
  {
    ApplyOne(u, s.auth, AT.Observe(env.op));
    ApplyOne(u, s.auth, AT.Ask(env.op, env.random));
    ApplyOne(u, s.auth, AT.Prove(env.op, f.Data(), env.macOk));
    ApplyOne(u, s.auth, AT.LockNow(env.op));
  }

  lemma UploadsKeepAuth(c: Config, s: System, f: Frame, env: Env)
    requires f.plen <= 22
    ensures BeginUpload(c, s, f, env).0.auth == UploadData(c, s, f, env).0.auth == ClearUpload(c, s, f, env).0.auth == s.auth
  {
  }

  lemma DispatchApplies(c: Config, u: AT.Setup, s: System, f: Frame, env: Env)
    requires f.plen <= 22 && KnownOpcode(f.op) && SlotsOk(c, s) && c.dynSlots <= 8 && u.t == c.t && u.mac == c.mac
    ensures Dispatch(c, s, f, env).0.auth == ApplyAll(u, s.auth, DispatchEvents(c, s, f, env))
  {
    if f.op == AUTH_INFO || f.op == AUTH_CHALLENGE || f.op == AUTH_PROVE || f.op == LOCK { AuthCommandsApply(c, u, s, f, env); }
    else if f.op == PASSWORD_SET { PasswordApplies(c, u, s, f, env); }
    else if f.op == LIST || f.op == GET || f.op == SET || f.op == CLEAR { ManagedApplies(c, u, s, f, env); }
    else { UploadsKeepAuth(c, s, f, env); }
  }

  lemma RequestApplies(c: Config, u: AT.Setup, s: System, f: Frame, env: Env)
    requires ConfigOk(c) && SlotsOk(c, s) && u.t == c.t && u.mac == c.mac
    ensures Process(c, s, f, env).0.auth == ApplyAll(u, s.auth, EventsOf(c, s, PI.Request(f, env)))
  {
    var t := Sync(s, env.sync);
    ApplyOne(u, s.auth, AT.Observe(env.sync));
    if BaseError(f).None? {
      DispatchApplies(c, u, t, f, env);
      ApplyInTwo(u, s.auth, [AT.Observe(env.sync)], DispatchEvents(c, t, f, env));
    }
  }

  lemma StepApplies(c: Config, u: AT.Setup, s: System, step: PI.Step)
    requires ConfigOk(c) && SlotsOk(c, s) && u.t == c.t && u.mac == c.mac
    ensures PI.Apply(c, s, step).auth == ApplyAll(u, s.auth, EventsOf(c, s, step))
  {
    match step
    case Request(f, env) => RequestApplies(c, u, s, f, env);
    case UsbNotification(now, disconnected) => ApplyOne(u, s.auth, AT.Reset(now));
    case _ =>
  }

  // ------------------------------------------------------------------ what the requests do to the session

  /** Nothing is open: no transaction, no staging, no timer of this context. */
  predicate Idle(s: System) {
    s.ctx.put.None? && s.ctx.pw.None? && s.ctx.dyn.None? && s.store.staged.None? && !s.owner
  }

  /** LOCK is answered OK exactly when it is empty and for the whole device; then session and challenge are gone. */
  lemma LockEndsTheSession(c: Config, s: System, f: Frame, env: Env)
    requires ConfigOk(c) && SlotsOk(c, s) && f.op == LOCK && BaseError(f).None?
    ensures var (t, r) := Process(c, s, f, env);
            && (r == Ok(0, 0, []) <==> f.slot == LIST_SLOT && f.EmptyObject()) && (r.Ok? || r == Err(BAD_REQUEST))
            && (r.Ok? ==> t.auth.session.None? && t.auth.challenge.None? && Idle(t) && t.auth.state == s.auth.state
                          && t.auth.cred == s.auth.cred && t.auth.failures == s.auth.failures && t.auth.cooldown == s.auth.cooldown)
  {
  }

  /** A USB notification ends session and challenge, forgets the failures, and leaves nothing open. */
  lemma UsbEndsTheSession(c: Config, s: System, now: nat, disconnected: bool)
    ensures var t := UsbReset(c, s, now, disconnected);
            && t.auth.session.None? && t.auth.challenge.None? && t.auth.failures == 0 && t.auth.cooldown == 0 && Idle(t)
            && t.auth.state == s.auth.state && t.auth.cred == s.auth.cred && t.macros == s.macros
            && |t.store.slots| == |s.store.slots|
            && (forall i | 0 <= i < |t.store.slots| ::
                  t.store.slots[i] == if (disconnected && c.clearOnUsb) || D.DueAt(s.store, i, now) then None else s.store.slots[i])
  {
  }

  // ------------------------------------------------------------------ the steps ask for these events and no others

  /** The event is one that the step asks for, with the request's own content, at one of the step's own times. */
  predicate Explains(step: PI.Step, ev: AT.Event) {
    match step
    case Request(f, env) =>
      (match ev
       case Observe(now) => now == env.sync || now == env.access || now == env.op || now == env.refresh
       case Ask(now, random) => f.op == AUTH_CHALLENGE && now == env.op && random == env.random
       case Prove(now, proof, macOk) =>
         f.op == AUTH_PROVE && f.plen == PROOF_SIZE && now == env.op && proof == f.Data() && macOk == env.macOk
       case Refresh(now) => (f.op == LIST || f.op == GET || f.op == SET || f.op == CLEAR || f.op == PASSWORD_SET) && now == env.refresh
       case Change(now, cred, save) => f.op == PASSWORD_SET && now == env.op && save == env.credSave
       case LockNow(now) => f.op == LOCK && now == env.op
       case Reset(now) => false)
    case UsbNotification(now, disconnected) => ev == AT.Reset(now)
    case _ => false
  }

  /** All but one at most only look at the clock. */
  predicate OneOwn(h: seq<AT.Event>) {
    forall m, m' | 0 <= m < m' < |h| :: h[m].Observe? || h[m'].Observe?
  }

  lemma DispatchEventsExplained(c: Config, s: System, f: Frame, env: Env)
    requires f.plen <= 22 && SlotsOk(c, s)
    ensures var h := DispatchEvents(c, s, f, env);
            OneOwn(h) && forall m | 0 <= m < |h| :: Explains(PI.Request(f, env), h[m])
  {
  }

  lemma EventsAreTheSteps(c: Config, s: System, step: PI.Step)
    requires ConfigOk(c) && SlotsOk(c, s)
    ensures var h := EventsOf(c, s, step);
            && (forall m | 0 <= m < |h| :: Explains(step, h[m]))
            && (forall m, m' | 0 <= m < m' < |h| :: h[m].Observe? || h[m'].Observe?)
  {
    if step.Request? && BaseError(step.f).None? {
      DispatchEventsExplained(c, Sync(s, step.env.sync), step.f, step.env);
    }
  }

  /** The one event of a request that does more than look at the clock, if there is one, is its last. */
  function Own(h: seq<AT.Event>): Option<AT.Event> {
    if h == [] || h[|h| - 1].Observe? then None else Some(h[|h| - 1])
  }

  predicate Managing(op: byte) {
    op == LIST || op == GET || op == SET || op == CLEAR
  }

  /** An OK answer means that the request's own event was performed, with its own content; LOCK performs it only then. */
  lemma AnsweredMeansPerformed(c: Config, s: System, f: Frame, env: Env)
    requires ConfigOk(c) && SlotsOk(c, s)
    ensures var r, own := Process(c, s, f, env).1, Own(EventsOf(c, s, PI.Request(f, env)));
            && (f.op == LOCK ==> (r.Ok? <==> own == Some(AT.LockNow(env.op))))
            && (f.op == AUTH_CHALLENGE && r.Ok? ==> own == Some(AT.Ask(env.op, env.random)))
            && (f.op == AUTH_PROVE && r.Ok? ==> f.plen == PROOF_SIZE && own == Some(AT.Prove(env.op, f.Data(), env.macOk)))
            && (Managing(f.op) && r.Ok? && s.auth.state == A.Protected ==> own == Some(AT.Refresh(env.refresh)))
  {
  }

  /** An OK to the last part of a credential means that the change to exactly that credential was performed. */
  lemma AcknowledgedMeansChanged(c: Config, s: System, f: Frame, env: Env)
    requires ConfigOk(c) && SlotsOk(c, s) && f.op == PASSWORD_SET
    requires Process(c, s, f, env).1.Ok? && Process(c, s, f, env).1.offset == PASSWORD_LENGTH
    ensures f.plen <= 22 && s.ctx.pw.Some?
    ensures var data, own := s.ctx.pw.value.data + f.Data(), Own(EventsOf(c, s, PI.Request(f, env)));
            |data| == PASSWORD_LENGTH && own == Some(AT.Change(env.op, ParseCredential(data), env.credSave))
  {
  }

  /** A proof is answered OK exactly when it has the right form and the core accepts it; either way nothing stays open. */
  lemma ProofIsVerified(c: Config, u: AT.Setup, s: System, f: Frame, env: Env)
    requires ConfigOk(c) && SlotsOk(c, s) && f.op == AUTH_PROVE && BaseError(f).None? && u.t == c.t && u.mac == c.mac
    ensures var (t, r) := Process(c, s, f, env);
            var formed := f.slot == LIST_SLOT && f.offset == 0 && f.total == f.plen == PROOF_SIZE;
            && (r.Ok? <==> formed && AT.Step(u, A.Expire(s.auth, env.sync), AT.Prove(env.op, f.Data(), env.macOk)).1 == Success)
            && (formed ==> EventsOf(c, s, PI.Request(f, env)) == [AT.Observe(env.sync), AT.Prove(env.op, f.Data(), env.macOk)])
            && Idle(t)
  {
  }

  // ------------------------------------------------------------------ runs

  /** Every event that the first k steps of a run perform, in order. */
  ghost function AllEvents(c: Config, ss: seq<System>, steps: seq<PI.Step>, k: nat): seq<AT.Event>
    requires PI.Runs(c, ss, steps) && k <= |steps|
  {
    if k == 0 then [] else AllEvents(c, ss, steps, k - 1) + EventsOf(c, ss[k - 1], steps[k - 1])
  }

  lemma {:induction false} AuthIsARun(c: Config, ss: seq<System>, steps: seq<PI.Step>, k: nat)
    requires PI.Runs(c, ss, steps) && k <= |steps|
    ensures ss[k].auth == ApplyAll(Setup(c, ss[0].auth), ss[0].auth, AllEvents(c, ss, steps, k))
  {
    if k > 0 {
      var u := Setup(c, ss[0].auth);
      AuthIsARun(c, ss, steps, k - 1);
      assert ss[k] == PI.Apply(c, ss[k - 1], steps[k - 1]);
      StepApplies(c, u, ss[k - 1], steps[k - 1]);
      ApplyInTwo(u, ss[0].auth, AllEvents(c, ss, steps, k - 1), EventsOf(c, ss[k - 1], steps[k - 1]));
    }
  }

  /** The execution of these events from u.boot. */
  function TraceOf(u: AT.Setup, h: seq<AT.Event>): (r: AT.Trace)
    ensures |r.e| == |h| == |r.a| - 1 && r.h == h
  {
    AT.Trace(h, seq(|h|, k requires 0 <= k < |h| => AT.Step(u, ApplyAll(u, u.boot, h[..k]), h[k]).1),
             seq(|h| + 1, k requires 0 <= k <= |h| => ApplyAll(u, u.boot, h[..k])))
  }

  ghost predicate Monotone(h: seq<AT.Event>) {
    forall i, j | 0 <= i <= j < |h| :: h[i].now <= h[j].now
  }

  lemma TraceRan(u: AT.Setup, h: seq<AT.Event>)
    requires AT.Fresh(u.boot) && Monotone(h)
    ensures AT.Ran(u, TraceOf(u, h)) && TraceOf(u, h).a[|h|] == ApplyAll(u, u.boot, h)
  {
    var r := TraceOf(u, h);
    assert h[..|h|] == h;
    forall k | 0 <= k < |h| ensures AT.Step(u, r.a[k], h[k]) == (r.a[k + 1], r.e[k]) {
      assert h[..k + 1][..k] == h[..k];
    }
  }

  /** The clock of a step, at its start and at its end. */
  function First(step: PI.Step): nat {
    match step
    case Request(f, env) => env.sync
    case UploadTimer(now, resched) => now
    case Behind(op) => op.now
    case UsbNotification(now, disconnected) => now
  }

  function Last(step: PI.Step): nat {
    if step.Request? then step.env.refresh else First(step)
  }

  /** The clock never goes back, neither within a step nor from one to the next. */
  ghost predicate Clocked(steps: seq<PI.Step>) {
    && (forall k | 0 <= k < |steps| && steps[k].Request? ::
          steps[k].env.sync <= steps[k].env.access <= steps[k].env.op <= steps[k].env.refresh)
    && forall j, k | 0 <= j < k < |steps| :: Last(steps[j]) <= First(steps[k])
  }

  lemma DispatchInOrder(c: Config, s: System, f: Frame, env: Env)
    requires f.plen <= 22 && SlotsOk(c, s) && env.access <= env.op <= env.refresh
    ensures var h := DispatchEvents(c, s, f, env);
            Monotone(h) && forall m | 0 <= m < |h| :: env.access <= h[m].now <= env.refresh
  {
  }

  lemma EventsInOrder(c: Config, s: System, step: PI.Step)
    requires ConfigOk(c) && SlotsOk(c, s)
    requires step.Request? ==> step.env.sync <= step.env.access <= step.env.op <= step.env.refresh
    ensures Monotone(EventsOf(c, s, step))
    ensures forall m | 0 <= m < |EventsOf(c, s, step)| :: First(step) <= EventsOf(c, s, step)[m].now <= Last(step)
  {
    if step.Request? && BaseError(step.f).None? {
      DispatchInOrder(c, Sync(s, step.env.sync), step.f, step.env);
    }
  }

  lemma {:induction false} AllInOrder(c: Config, ss: seq<System>, steps: seq<PI.Step>, k: nat)
    requires PI.Runs(c, ss, steps) && k <= |steps| && Clocked(steps)
    ensures var h := AllEvents(c, ss, steps, k);
            Monotone(h) && forall m, j | 0 <= m < |h| && k <= j < |steps| :: h[m].now <= First(steps[j])
  {
    if k > 0 {
      AllInOrder(c, ss, steps, k - 1);
      EventsInOrder(c, ss[k - 1], steps[k - 1]);
    }
  }

  lemma {:induction false} AllEventsGrow(c: Config, ss: seq<System>, steps: seq<PI.Step>, j: nat, k: nat)
    requires PI.Runs(c, ss, steps) && j <= k <= |steps|
    ensures var g, h := AllEvents(c, ss, steps, j), AllEvents(c, ss, steps, k); |g| <= |h| && h[..|g|] == g
  {
    if j < k {
      AllEventsGrow(c, ss, steps, j, k - 1);
    }
  }

  /**
   * The authentication core of a running device executes exactly the events of its steps, in order, from boot, and is what
   * the device has after every step; so every theorem about such executions holds of the device.
   */
  lemma DeviceRan(c: Config, ss: seq<System>, steps: seq<PI.Step>, k: nat) returns (r: AT.Trace)
    requires PI.Runs(c, ss, steps) && k <= |steps| && Clocked(steps) && AT.Fresh(ss[0].auth)
    ensures AT.Ran(Setup(c, ss[0].auth), r) && AT.Sound(ss[0].auth) && r.h == AllEvents(c, ss, steps, k)
    ensures forall j | 0 <= j <= k :: |AllEvents(c, ss, steps, j)| < |r.a| && r.a[|AllEvents(c, ss, steps, j)|] == ss[j].auth
  {
    var u, h := Setup(c, ss[0].auth), AllEvents(c, ss, steps, k);
    AllInOrder(c, ss, steps, k);
    TraceRan(u, h);
    r := TraceOf(u, h);
    forall j | 0 <= j <= k ensures |AllEvents(c, ss, steps, j)| < |r.a| && r.a[|AllEvents(c, ss, steps, j)|] == ss[j].auth {
      AllEventsGrow(c, ss, steps, j, k);
      AuthIsARun(c, ss, steps, j);
    }
  }

  lemma {:induction false} EventsBefore(c: Config, ss: seq<System>, steps: seq<PI.Step>, k: nat, now: nat)
    requires PI.Runs(c, ss, steps) && k <= |steps| && Clocked(steps) && (k > 0 ==> Last(steps[k - 1]) <= now)
    ensures forall m | 0 <= m < |AllEvents(c, ss, steps, k)| :: AllEvents(c, ss, steps, k)[m].now <= now
  {
    if k > 0 {
      EventsBefore(c, ss, steps, k - 1, First(steps[k - 1]));
      EventsInOrder(c, ss[k - 1], steps[k - 1]);
    }
  }

  /** When a session of a running device is live; r is the execution of exactly the events of its steps. */
  lemma DeviceSessionLiveIff(c: Config, ss: seq<System>, steps: seq<PI.Step>, k: nat, now: nat) returns (r: AT.Trace)
    requires PI.Runs(c, ss, steps) && k <= |steps| && Clocked(steps) && AT.Fresh(ss[0].auth)
    requires k > 0 ==> Last(steps[k - 1]) <= now
    ensures AT.Ran(Setup(c, ss[0].auth), r) && r.h == AllEvents(c, ss, steps, k)
    ensures (ss[k].auth.session.Some? && now < ss[k].auth.session.value)
            <==> exists i :: AT.LoggedIn(Setup(c, ss[0].auth), r, i, |r.h|) && AT.Recent(Setup(c, ss[0].auth), r, i, |r.h|, now)
  {
    r := DeviceRan(c, ss, steps, k);
    EventsBefore(c, ss, steps, k, now);
    AT.SessionLiveIff(Setup(c, ss[0].auth), r, now);
  }

  /** The proof that is the last event of the execution answers a nonce that may still be answered. */
  ghost predicate Answers(u: AT.Setup, r: AT.Trace)
    requires |r.e| == |r.h| == |r.a| - 1 && |r.h| > 0
  {
    var n := |r.h| - 1;
    r.h[n].Prove? &&
    exists j, ch :: AT.Standing(u, r, j, n, ch) && r.h[n].now < ch.deadline && r.h[n].macOk && !AT.Lapses(r.a[n], r.h[n])
                    && r.h[n].proof == AT.ClientProof(u.mac, r.a[n].cred.key, ch.nonce)
  }

  /** An execution that ends with a look at the clock and a proof. */
  lemma LastProof(u: AT.Setup, r: AT.Trace, n: nat)
    requires AT.Ran(u, r) && AT.Sound(u.boot) && 1 <= n == |r.h| - 1 && r.h[n - 1].Observe? && r.h[n].Prove?
    ensures AT.Step(u, A.Expire(r.a[n - 1], r.h[n - 1].now), r.h[n]).1 == Success <==> Answers(u, r)
    ensures Answers(u, r) ==> r.a[n + 1].session == Some(r.h[n].now + u.t.session * 1000)
  {
    assert AT.Step(u, r.a[n - 1], r.h[n - 1]) == (r.a[n], r.e[n - 1]);
    assert AT.Step(u, r.a[n], r.h[n]) == (r.a[n + 1], r.e[n]);
    AT.ProofAcceptedIff(u, r, n);
  }

  lemma LoginInTrace(u: AT.Setup, r: AT.Trace, before: A.Auth, now: nat, last: AT.Event)
    requires AT.Ran(u, r) && AT.Sound(u.boot) && EndsWith(r, before, now, last) && last.Prove?
    ensures AT.Step(u, A.Expire(before, now), last).1 == Success <==> Answers(u, r)
    ensures Answers(u, r) ==> r.a[|r.h|].session == Some(last.now + u.t.session * 1000)
  {
    LastProof(u, r, |r.h| - 1);
  }

  /** The execution ends with a look at the clock and one more event, and this was the state before. */
  predicate EndsWith(r: AT.Trace, before: A.Auth, now: nat, last: AT.Event) {
    var n := |r.h|;
    n >= 2 && |r.a| == n + 1 && r.h[n - 2] == AT.Observe(now) && r.h[n - 1] == last && r.a[n - 2] == before
  }

  lemma OneMoreStep(c: Config, ss: seq<System>, steps: seq<PI.Step>, k: nat, g: seq<AT.Event>)
    requires PI.Runs(c, ss, steps) && k < |steps| && EventsOf(c, ss[k], steps[k]) == g
    ensures AllEvents(c, ss, steps, k + 1) == AllEvents(c, ss, steps, k) + g
  {
  }

  lemma LastTwo(r: AT.Trace, h: seq<AT.Event>, before: A.Auth, now: nat, last: AT.Event)
    requires |r.a| == |r.h| + 1 && r.h == h + [AT.Observe(now), last] && r.a[|h|] == before
    ensures EndsWith(r, before, now, last)
  {
  }

  lemma RunEndsWith(c: Config, ss: seq<System>, steps: seq<PI.Step>, k: nat, now: nat, last: AT.Event) returns (r: AT.Trace)
    requires PI.Runs(c, ss, steps) && k < |steps| && Clocked(steps) && AT.Fresh(ss[0].auth)
    requires AllEvents(c, ss, steps, k + 1) == AllEvents(c, ss, steps, k) + [AT.Observe(now), last]
    ensures AT.Ran(Setup(c, ss[0].auth), r) && AT.Sound(ss[0].auth) && r.h == AllEvents(c, ss, steps, k + 1)
    ensures EndsWith(r, ss[k].auth, now, last) && r.a[|r.h|] == ss[k + 1].auth
  {
    r := DeviceRan(c, ss, steps, k + 1);
    LastTwo(r, AllEvents(c, ss, steps, k), ss[k].auth, now, last);
  }

  /**
   * Login, in a running device: a well-formed AUTH_PROVE is answered OK if and only if it carries the client's proof of a
   * nonce that a challenge of this run issued, that nothing has withdrawn since and that is in time, the MAC can be computed
   * and no older session lapses at that moment. Then the session runs from that moment.
   */
  lemma DeviceLoginIff(c: Config, ss: seq<System>, steps: seq<PI.Step>, k: nat) returns (r: AT.Trace)
    requires PI.Runs(c, ss, steps) && k < |steps| && Clocked(steps) && AT.Fresh(ss[0].auth)
    requires steps[k].Request? && steps[k].f.op == AUTH_PROVE && BaseError(steps[k].f).None?
    requires var f := steps[k].f; f.slot == LIST_SLOT && f.offset == 0 && f.total == f.plen == PROOF_SIZE
    ensures var f, env := steps[k].f, steps[k].env;
            && AT.Ran(Setup(c, ss[0].auth), r) && r.h == AllEvents(c, ss, steps, k + 1)
            && |r.h| > 0 && r.h[|r.h| - 1] == AT.Prove(env.op, f.Data(), env.macOk)
            && (Process(c, ss[k], f, env).1.Ok? <==> Answers(Setup(c, ss[0].auth), r))
            && (Process(c, ss[k], f, env).1.Ok? ==> ss[k + 1].auth.session == Some(env.op + c.t.session * 1000))
  {
    var f, env := steps[k].f, steps[k].env;
    ProofIsVerified(c, Setup(c, ss[0].auth), ss[k], f, env);
    var last := AT.Prove(env.op, f.Data(), env.macOk);
    OneMoreStep(c, ss, steps, k, [AT.Observe(env.sync), last]);
    r := RunEndsWith(c, ss, steps, k, env.sync, last);
    LoginInTrace(Setup(c, ss[0].auth), r, ss[k].auth, env.sync, last);
  }
}
