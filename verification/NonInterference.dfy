/** What a host can learn: nothing about static slots without a login, and never anything about dynamic texts. */
module NonInterference {
  import opened Bytes
  import opened Wire
  import opened ProtocolSpec
  import A = AuthSpec
  import AT = AuthTheorems
  import S = StaticSpec
  import PI = ProtocolInvariants

  /** Run the device and collect the answers to the requests. */
  function Talk(c: Config, s: System, steps: seq<PI.Step>): (System, seq<Response>)
    requires ConfigOk(c) && PI.Inv(c, s)
    decreases |steps|
  {
    if steps == [] then (s, [])
    else
      PI.ApplyKeepsInv(c, s, steps[0]);
      var (t, rest) := Talk(c, PI.Apply(c, s, steps[0]), steps[1..]);
      (t, (if steps[0].Request? then [Process(c, s, steps[0].f, steps[0].env).1] else []) + rest)
  }

  // ------------------------------------------------------------------ static slots without a login

  predicate LockedOut(s: System) {
    s.auth.state == A.ErrorLocked || (s.auth.state == A.Protected && s.auth.session.None?)
  }

  predicate LoginSucceeds(c: Config, s: System, step: PI.Step)
    requires ConfigOk(c) && SlotsOk(c, s)
  {
    step.Request? && step.f.op == AUTH_PROVE && Process(c, s, step.f, step.env).1.Ok?
  }

  /** No proof is accepted during the run. */
  predicate NoLogin(c: Config, s: System, steps: seq<PI.Step>)
    requires ConfigOk(c) && PI.Inv(c, s)
    decreases |steps|
  {
    steps != [] ==>
      && !LoginSucceeds(c, s, steps[0])
      && (PI.ApplyKeepsInv(c, s, steps[0]); NoLogin(c, PI.Apply(c, s, steps[0]), steps[1..]))
  }

  function With(s: System, m: S.Static): System {
    s.(macros := m)
  }

  /** Nothing that needs a login was changed. */
  predicate Untouched(s: System, t: System) {
    t.macros == s.macros && t.auth.state == s.auth.state && t.auth.cred == s.auth.cred && t.auth.stored == s.auth.stored
  }

  lemma SyncLockedOut(s: System, m: S.Static, now: nat)
    requires LockedOut(s) && AT.Sound(s.auth)
    ensures Sync(With(s, m), now) == With(Sync(s, now), m)
    ensures Untouched(s, Sync(s, now)) && LockedOut(Sync(s, now))
  {
  }

  lemma GateDenies(s: System, m: S.Static, now: nat)
    requires LockedOut(s) && AT.Sound(s.auth)
    ensures Access(s, now).1.Some? && Access(With(s, m), now) == (With(Access(s, now).0, m), Access(s, now).1)
    ensures Untouched(s, Access(s, now).0) && LockedOut(Access(s, now).0)
  {
  }

  /** The two devices answer alike, stay apart only in their slots, and nothing is unlocked. */
  ghost predicate Alike(s: System, m: S.Static, mine: (System, Response), other: (System, Response)) {
    other == (With(mine.0, m), mine.1) && Untouched(s, mine.0) && LockedOut(mine.0)
  }

  lemma BeginIgnoresSlots(c: Config, s: System, m: S.Static, f: Frame, env: Env)
    requires LockedOut(s)
    ensures Alike(s, m, BeginUpload(c, s, f, env), BeginUpload(c, With(s, m), f, env))
  {
  }

  lemma DataIgnoresSlots(c: Config, s: System, m: S.Static, f: Frame, env: Env)
    requires LockedOut(s) && f.plen <= 22
    ensures Alike(s, m, UploadData(c, s, f, env), UploadData(c, With(s, m), f, env))
  {
  }

  lemma ClearIgnoresSlots(c: Config, s: System, m: S.Static, f: Frame, env: Env)
    requires LockedOut(s)
    ensures Alike(s, m, ClearUpload(c, s, f, env), ClearUpload(c, With(s, m), f, env))
  {
  }

  lemma QueriesIgnoreSlots(c: Config, s: System, m: S.Static, f: Frame, env: Env)
    requires LockedOut(s) && AT.Sound(s.auth)
    ensures Alike(s, m, AuthInfo(s, f, env.op), AuthInfo(With(s, m), f, env.op))
    ensures Alike(s, m, AuthChallenge(c, s, f, env), AuthChallenge(c, With(s, m), f, env))
  {
  }

  lemma LockIgnoresSlots(s: System, m: S.Static, f: Frame, now: nat)
    requires LockedOut(s)
    ensures Alike(s, m, LockCommand(s, f, now), LockCommand(With(s, m), f, now))
  {
  }

  lemma FailedProofIgnoresSlots(c: Config, s: System, m: S.Static, f: Frame, env: Env)
    requires LockedOut(s) && AT.Sound(s.auth) && f.plen <= 22 && AuthProve(c, s, f, env).1.Err?
    ensures Alike(s, m, AuthProve(c, s, f, env), AuthProve(c, With(s, m), f, env))
  {
  }

  lemma DispatchLockedOut(c: Config, s: System, m: S.Static, f: Frame, env: Env)
    requires f.plen <= 22 && KnownOpcode(f.op) && c.dynSlots <= 8 && SlotsOk(c, s) && SlotsOk(c, With(s, m))
    requires LockedOut(s) && AT.Sound(s.auth) && (f.op == AUTH_PROVE ==> Dispatch(c, s, f, env).1.Err?)
    ensures Alike(s, m, Dispatch(c, s, f, env), Dispatch(c, With(s, m), f, env))
  {
    if f.op == DYNAMIC_BEGIN { BeginIgnoresSlots(c, s, m, f, env); }
    else if f.op == DYNAMIC_DATA { DataIgnoresSlots(c, s, m, f, env); }
    else if f.op == DYNAMIC_CLEAR { ClearIgnoresSlots(c, s, m, f, env); }
    else if f.op == AUTH_INFO || f.op == AUTH_CHALLENGE { QueriesIgnoreSlots(c, s, m, f, env); }
    else if f.op == AUTH_PROVE { FailedProofIgnoresSlots(c, s, m, f, env); }
    else if f.op == LOCK { LockIgnoresSlots(s, m, f, env.op); }
    else if f.op != CAPABILITIES { GateDenies(s, m, env.access); }
  }

  lemma RejectIgnoresSlots(s: System, m: S.Static, op: byte, now: nat, e: ErrorStatus)
    requires LockedOut(s)
    ensures Alike(s, m, (DiscardForOpcode(s, op, now), Err(e)), (DiscardForOpcode(With(s, m), op, now), Err(e)))
  {
  }

  lemma ProcessLockedOut(c: Config, s: System, m: S.Static, f: Frame, env: Env)
    requires ConfigOk(c) && PI.Inv(c, s) && SlotsOk(c, With(s, m)) && LockedOut(s)
    requires f.op == AUTH_PROVE ==> Process(c, s, f, env).1.Err?
    ensures Alike(s, m, Process(c, s, f, env), Process(c, With(s, m), f, env))
  {
    SyncLockedOut(s, m, env.sync);
    var t := Sync(s, env.sync);
    PI.SyncKeepsInv(c, s, env.sync);
    if BaseError(f).None? {
      DispatchLockedOut(c, t, m, f, env);
    } else {
      RejectIgnoresSlots(t, m, f.op, env.op, BaseError(f).value);
    }
  }

  lemma UsbIgnoresSlots(c: Config, s: System, m: S.Static, now: nat, disconnected: bool)
    requires LockedOut(s)
    ensures UsbReset(c, With(s, m), now, disconnected) == With(UsbReset(c, s, now, disconnected), m)
    ensures Untouched(s, UsbReset(c, s, now, disconnected)) && LockedOut(UsbReset(c, s, now, disconnected))
  {
  }

  lemma StepLockedOut(c: Config, s: System, m: S.Static, step: PI.Step)
    requires ConfigOk(c) && PI.Inv(c, s) && SlotsOk(c, With(s, m)) && LockedOut(s) && !LoginSucceeds(c, s, step)
    ensures PI.Apply(c, With(s, m), step) == With(PI.Apply(c, s, step), m)
    ensures Untouched(s, PI.Apply(c, s, step)) && LockedOut(PI.Apply(c, s, step))
    ensures step.Request? ==> Process(c, With(s, m), step.f, step.env).1 == Process(c, s, step.f, step.env).1
  {
    match step
    case Request(f, env) => ProcessLockedOut(c, s, m, f, env);
    case UsbNotification(now, disconnected) => UsbIgnoresSlots(c, s, m, now, disconnected);
    case _ =>
  }

  /**
   * While the device is protected and no proof succeeds, or while it is locked for good, the static slots, the
   * settings and the credential never change, and every answer is the same as that of a device with any other slots.
   */
  lemma {:induction false} LockedOutRevealsNothing(c: Config, s: System, m: S.Static, steps: seq<PI.Step>)
    requires ConfigOk(c) && PI.Inv(c, s) && PI.Inv(c, With(s, m)) && LockedOut(s) && NoLogin(c, s, steps)
    ensures Talk(c, With(s, m), steps).1 == Talk(c, s, steps).1
    ensures Untouched(s, Talk(c, s, steps).0) && LockedOut(Talk(c, s, steps).0)
    decreases |steps|
  {
    if steps != [] {
      PI.ApplyKeepsInv(c, s, steps[0]);
      PI.ApplyKeepsInv(c, With(s, m), steps[0]);
      StepLockedOut(c, s, m, steps[0]);
      LockedOutRevealsNothing(c, PI.Apply(c, s, steps[0]), m, steps[1..]);
    }
  }
}
