/** What each request is answered with, and what it leaves, told without the handlers. */
module Answers {
  import opened Bytes
  import opened Wire
  import opened ProtocolSpec
  import A = AuthSpec
  import AT = AuthTheorems
  import AH = AuthHistory
  import PI = ProtocolInvariants
  import S = StaticSpec
  import ST = StaticTheorems

  // ------------------------------------------------------------------ the gate

  /** No password is set, or a session is live. */
  predicate LiveAt(a: A.Auth, now: nat) {
    a.state == A.Open || (a.state == A.Protected && a.session.Some? && now < a.session.value)
  }

  /** The gate is open for the request, and the session, if there is one, lasts until the answer. */
  predicate Granted(a: A.Auth, env: Env) {
    LiveAt(a, env.sync) && LiveAt(a, env.access)
  }

  predicate Lasts(a: A.Auth, env: Env) {
    Granted(a, env) && LiveAt(a, env.refresh)
  }

  predicate Managed(op: byte) {
    op == LIST || op == GET || op == SET || op == CLEAR
  }

  lemma GateIff(s: System, now: nat)
    ensures Access(s, now).1 == if s.auth.state == A.ErrorLocked then Some(CREDENTIAL_INVALID)
                                else if LiveAt(s.auth, now) then None else Some(AUTH_REQUIRED)
  {
  }

  /** What the gate sees of a device that has just looked at the clock. */
  lemma GateAfterSync(s: System, env: Env)
    requires AT.Sound(s.auth)
    ensures var t := Sync(s, env.sync);
            && Access(t, env.access).1 == (if s.auth.state == A.ErrorLocked then Some(CREDENTIAL_INVALID)
                                           else if Granted(s.auth, env) then None else Some(AUTH_REQUIRED))
            && t.macros == s.macros && t.auth.state == s.auth.state
            && (Granted(s.auth, env) ==> t.auth == s.auth && Access(t, env.access).0 == t)
  {
  }

  lemma RefreshIff(c: Config, s: System, now: nat, r: Response)
    requires s.auth.state != A.ErrorLocked && AT.Sound(s.auth)
    ensures var (t, answer) := RefreshProtected(c, s, now, r);
            && answer == (if LiveAt(s.auth, now) then r else Err(AUTH_REQUIRED)) && t.macros == s.macros
            && (LiveAt(s.auth, now) && s.auth.state == A.Protected ==> t.auth == s.auth.(session := Some(now + c.t.session * 1000)))
            && (LiveAt(s.auth, now) && s.auth.state == A.Open ==> t.auth == s.auth)
  {
  }

  lemma DeniedSees(c: Config, s: System, f: Frame, env: Env)
    requires ConfigOk(c) && PI.Inv(c, s) && BaseError(f).None? && (Managed(f.op) || f.op == PASSWORD_SET) && !Granted(s.auth, env)
    ensures Process(c, s, f, env) == (Access(Sync(s, env.sync), env.access).0,
                                      Err(if s.auth.state == A.ErrorLocked then CREDENTIAL_INVALID else AUTH_REQUIRED))
  {
    GateAfterSync(s, env);
  }

  lemma DeniedLeaves(s: System, now: nat)
    requires Access(s, now).1.Some? && AT.Sound(s.auth)
    ensures var t := Access(s, now).0;
            && t.macros == s.macros && t.auth.state == s.auth.state && t.auth.cred == s.auth.cred && t.auth.stored == s.auth.stored
            && t.auth.session.None? && AH.Idle(t)
  {
  }

  /**
   * A device that is locked out, or whose session is not live, answers every managed request and every part of a credential
   * with exactly that, changes no slot and no credential, and drops whatever was open.
   */
  lemma DeniedRequests(c: Config, s: System, f: Frame, env: Env)
    requires ConfigOk(c) && PI.Inv(c, s) && BaseError(f).None? && (Managed(f.op) || f.op == PASSWORD_SET) && !Granted(s.auth, env)
    ensures var (t, r) := Process(c, s, f, env);
            && r == Err(if s.auth.state == A.ErrorLocked then CREDENTIAL_INVALID else AUTH_REQUIRED)
            && t.macros == s.macros && t.auth.state == s.auth.state && t.auth.cred == s.auth.cred && t.auth.stored == s.auth.stored
            && t.auth.session.None? && AH.Idle(t)
  {
    DeniedSees(c, s, f, env);
    GateAfterSync(s, env);
    DeniedLeaves(Sync(s, env.sync), env.access);
  }

  lemma GrantedIsManaged(c: Config, s: System, f: Frame, env: Env)
    requires ConfigOk(c) && PI.Inv(c, s) && BaseError(f).None? && Managed(f.op) && Granted(s.auth, env)
    ensures var u := Sync(s, env.sync);
            && PI.Inv(c, u) && u.auth == s.auth && u.macros == s.macros
            && Process(c, s, f, env) == var (v, r) := Manage(c, u, f, env); if r.Ok? then RefreshProtected(c, v, env.refresh, r) else (v, r)
  {
    GateAfterSync(s, env);
    PI.SyncKeepsInv(c, s, env.sync);
  }

  // ------------------------------------------------------------------ reads

  /** What LIST and GET read. */
  function Object(c: Config, s: System, f: Frame): (data: seq<byte>)
    requires SlotsOk(c, s) && (f.op == LIST || f.slot < c.limits.count)
    ensures |data| < 0x1_0000
  {
    if f.op == LIST then [c.limits.count] + Lengths(s.macros.slots) else s.macros.slots[f.slot]
  }

  /** A request for a page of something that exists. */
  predicate AsksForPage(c: Config, f: Frame) {
    && BaseError(f).None? && f.plen == 0 && f.total == 0
    && ((f.op == LIST && f.slot == LIST_SLOT) || (f.op == GET && f.slot < c.limits.count))
  }

  /**
   * The exact answer to a request for a page: the 22 bytes at the offset, or fewer at the end, if and only if no password is
   * set or a session is live from the beginning of the request to its answer.
   */
  lemma ReadsAreAnswered(c: Config, s: System, f: Frame, env: Env)
    requires ConfigOk(c) && PI.Inv(c, s) && AsksForPage(c, f)
    ensures var data, r := Object(c, s, f), Process(c, s, f, env).1;
            var n := if f.offset + 22 < |data| then 22 else |data| - f.offset;
            r == if s.auth.state == A.ErrorLocked then Err(CREDENTIAL_INVALID)
                 else if !Granted(s.auth, env) then Err(AUTH_REQUIRED)
                 else if f.offset > |data| then Err(BAD_OFFSET)
                 else if !LiveAt(s.auth, env.refresh) then Err(AUTH_REQUIRED)
                 else Ok(f.offset, |data|, data[f.offset..f.offset + n])
  {
    if Granted(s.auth, env) {
      GrantedIsManaged(c, s, f, env);
      var u := Sync(s, env.sync);
      RefreshIff(c, u, env.refresh, Manage(c, u, f, env).1);
    } else {
      DeniedRequests(c, s, f, env);
    }
  }

  // ------------------------------------------------------------------ keeping a session alive

  lemma ManageKeepsAuth(c: Config, s: System, f: Frame, env: Env)
    requires f.plen <= 22 && SlotsOk(c, s)
    ensures Manage(c, s, f, env).0.auth == s.auth
  {
  }

  /**
   * A managed request that is answered OK on a protected device moves the deadline to one session timeout after the answer,
   * and does nothing else to the session; one that is refused never moves it.
   */
  lemma AnsweredKeepsAlive(c: Config, s: System, f: Frame, env: Env)
    requires ConfigOk(c) && PI.Inv(c, s) && BaseError(f).None? && Managed(f.op) && s.auth.state == A.Protected
    ensures var (t, r) := Process(c, s, f, env);
            && (r.Ok? ==> Lasts(s.auth, env) && t.auth == s.auth.(session := Some(env.refresh + c.t.session * 1000)))
            && (r.Err? ==> t.auth.session == s.auth.session || t.auth.session == None)
  {
    if Granted(s.auth, env) {
      GrantedIsManaged(c, s, f, env);
      var u := Sync(s, env.sync);
      ManageKeepsAuth(c, u, f, env);
      var (v, r) := Manage(c, u, f, env);
      RefreshIff(c, v, env.refresh, r);
    } else {
      DeniedRequests(c, s, f, env);
    }
  }

  // ------------------------------------------------------------------ CLEAR

  /** A well-formed request to clear a slot that exists. */
  predicate AsksForClear(c: Config, f: Frame) {
    BaseError(f).None? && f.op == CLEAR && f.slot < c.limits.count && f.EmptyObject() && f.TailZero(0)
  }

  /** The key is gone, and every other one is as it was. */
  ghost predicate OneKeyLess(before: map<string, seq<byte>>, after: map<string, seq<byte>>, key: string) {
    && key !in after
    && forall name | name != key :: (name in after <==> name in before) && (name in before ==> after[name] == before[name])
  }

  /**
   * CLEAR. An OK means that the slot is empty, its own settings key is gone, and every other slot and key is as it was; and
   * a granted, well-formed CLEAR is answered OK exactly when the settings backend deletes the key and the session lasts.
   */
  lemma ClearIsAnswered(c: Config, s: System, f: Frame, env: Env)
    requires ConfigOk(c) && PI.Inv(c, s) && f.op == CLEAR && BaseError(f).None?
    ensures var (t, r) := Process(c, s, f, env);
            && (r.Ok? ==> f.slot < c.limits.count && t.macros.slots == s.macros.slots[f.slot := []]
                          && OneKeyLess(s.macros.nvs, t.macros.nvs, S.SlotName(f.slot)))
            && (Granted(s.auth, env) && AsksForClear(c, f) ==>
                  && t.macros.slots == s.macros.slots[f.slot := []]
                  && r == (if env.slotSave != Success then Err(STORAGE_ERROR)
                           else if Lasts(s.auth, env) then Ok(0, 0, []) else Err(AUTH_REQUIRED)))
  {
    if Granted(s.auth, env) {
      GrantedIsManaged(c, s, f, env);
      var u := Sync(s, env.sync);
      ManageKeepsAuth(c, u, f, env);
      var (v, r) := Manage(c, u, f, env);
      RefreshIff(c, v, env.refresh, r);
    } else {
      DeniedRequests(c, s, f, env);
    }
  }

  // ------------------------------------------------------------------ malformed frames

  /** Only the transaction that the opcode would go on with is dropped, and nothing is written. */
  predicate DropsOwn(s: System, t: System, op: byte) {
    && t.macros == s.macros && t.auth == s.auth
    && t.ctx.put == (if op == SET then None else s.ctx.put)
    && t.ctx.pw == (if op == PASSWORD_SET then None else s.ctx.pw)
    && t.ctx.dyn == (if op == DYNAMIC_BEGIN || op == DYNAMIC_DATA then None else s.ctx.dyn)
    && ((op == DYNAMIC_BEGIN || op == DYNAMIC_DATA) ==> t.store.staged.None?)
  }

  /**
   * The checks on every frame, in order: version, opcode, status, length, zero padding. The answer depends on the frame
   * alone, so it tells nothing about the device. An unknown opcode leaves every transaction as the change detector left it.
   */
  lemma MalformedIsRefused(c: Config, s: System, f: Frame, env: Env)
    requires ConfigOk(c) && SlotsOk(c, s)
    requires f.version != 2 || !KnownOpcode(f.op) || f.status != 0 || f.plen > 22 || !f.TailZero(f.plen)
    ensures var (t, r) := Process(c, s, f, env);
            && (f.version != 2 ==> r == Err(1))
            && (f.version == 2 && !KnownOpcode(f.op) ==> r == Err(2) && t == Sync(s, env.sync))
            && (f.version == 2 && KnownOpcode(f.op) && f.status != 0 ==> r == Err(3))
            && (f.version == 2 && KnownOpcode(f.op) && f.status == 0 && f.plen > 22 ==> r == Err(6))
            && (f.version == 2 && KnownOpcode(f.op) && f.status == 0 && f.plen <= 22 ==> r == Err(3))
            && (r != Err(2) ==> DropsOwn(Sync(s, env.sync), t, f.op))
  {
  }

  // ------------------------------------------------------------------ the authentication commands

  /** A request for the whole device that carries nothing. */
  predicate Plain(f: Frame) {
    BaseError(f).None? && f.slot == LIST_SLOT && f.EmptyObject()
  }

  /** A session that was live at the beginning of the request still is when it is handled. */
  predicate SessionAt(a: A.Auth, env: Env) {
    a.session.Some? && env.sync < a.session.value && env.op < a.session.value
  }

  /** What an authentication command gets to see of the core. */
  lemma AuthCommandSees(c: Config, s: System, f: Frame, env: Env)
    requires ConfigOk(c) && SlotsOk(c, s) && BaseError(f).None?
    ensures var u := Sync(s, env.sync);
            && u.auth == A.Expire(s.auth, env.sync)
            && (f.op == AUTH_INFO ==> Process(c, s, f, env) == AuthInfo(u, f, env.op))
            && (f.op == AUTH_CHALLENGE ==> Process(c, s, f, env) == AuthChallenge(c, u, f, env))
            && (f.op == AUTH_PROVE ==> Process(c, s, f, env) == AuthProve(c, u, f, env))
  {
  }

  lemma InfoPayload(r: Response, flags: byte, n: u32, salt: A.Salt)
    requires r == Ok(0, 22, [flags, 1] + PutU32(n) + salt)
    ensures |r.payload| == 22 && r.payload[0] == flags && r.payload[1] == 1 && GetU32(r.payload[2..6]) == n && r.payload[6..22] == salt
  {
    assert r.payload[2..6] == PutU32(n);
    U32RoundTrip(n, PutU32(n));
  }

  lemma InfoOf(s: System, f: Frame, now: nat)
    requires f.slot == LIST_SLOT && f.EmptyObject() && AT.Sound(s.auth) && s.auth.state != A.ErrorLocked
    ensures var (t, r) := AuthInfo(s, f, now);
            var configured := s.auth.state == A.Protected;
            var live := s.auth.session.Some? && now < s.auth.session.value;
            && r == Ok(0, 22, [if live then 3 else if configured then 1 else 0, 1]
                              + PutU32(if configured then s.auth.cred.iterations else 600_000)
                              + if configured then s.auth.cred.salt else Zeros(16))
            && t.auth.cred == s.auth.cred && t.auth.state == s.auth.state
            && t.auth.session == (if live then s.auth.session else None)
            && t.auth.failures == s.auth.failures && t.auth.cooldown == s.auth.cooldown
  {
  }

  /** AUTH_INFO carries whether a password is set and a session live, and salt and iterations of the credential in force. */
  lemma InfoIsAnswered(c: Config, s: System, f: Frame, env: Env)
    requires ConfigOk(c) && PI.Inv(c, s) && f.op == AUTH_INFO && Plain(f)
    ensures var (t, r) := Process(c, s, f, env);
            if s.auth.state == A.ErrorLocked then r == Err(CREDENTIAL_INVALID)
            else
              && r.Ok? && r.offset == 0 && r.total == 22 == |r.payload| && r.payload[1] == 1
              && r.payload[0] == (if s.auth.state == A.Open then 0 else if SessionAt(s.auth, env) then 3 else 1)
              && GetU32(r.payload[2..6]) == (if s.auth.state == A.Open then 600_000 else s.auth.cred.iterations)
              && r.payload[6..22] == (if s.auth.state == A.Open then Zeros(16) else s.auth.cred.salt)
              && t.auth.cred == s.auth.cred && t.auth.state == s.auth.state
              && t.auth.session == (if SessionAt(s.auth, env) then s.auth.session else None)
              && t.auth.failures == s.auth.failures && t.auth.cooldown == s.auth.cooldown
  {
    AuthCommandSees(c, s, f, env);
    var u := Sync(s, env.sync);
    if s.auth.state != A.ErrorLocked {
      InfoOf(u, f, env.op);
      var configured := s.auth.state == A.Protected;
      InfoPayload(Process(c, s, f, env).1, if !configured then 0 else if SessionAt(s.auth, env) then 3 else 1,
                  if configured then s.auth.cred.iterations else 600_000, if configured then s.auth.cred.salt else Zeros(16));
    }
  }

  lemma ChallengeOf(c: Config, s: System, f: Frame, env: Env)
    requires f.slot == LIST_SLOT && f.EmptyObject() && AT.Sound(s.auth)
    ensures var (t, r) := AuthChallenge(c, s, f, env);
            && r == (if s.auth.state == A.Open then Err(AUTH_NOT_CONFIGURED)
                     else if s.auth.state == A.ErrorLocked then Err(CREDENTIAL_INVALID)
                     else if s.auth.failures > 0 && env.op < s.auth.cooldown then Err(RATE_LIMITED)
                     else if env.random.None? then Err(INTERNAL)
                     else Ok(0, 16, env.random.value))
            && (r.Ok? ==> t.auth.challenge == Some(A.Challenge(r.payload, env.op + c.t.challenge * 1000)))
            && t.auth.cred == s.auth.cred && t.auth.state == s.auth.state
            && (r.Ok? ==> t.auth.session == if s.auth.session.Some? && env.op < s.auth.session.value then s.auth.session else None)
  {
  }

  /** Which failure of AUTH_CHALLENGE has which status; an OK carries the very nonce that is stored, with its deadline. */
  lemma ChallengeIsAnswered(c: Config, s: System, f: Frame, env: Env)
    requires ConfigOk(c) && PI.Inv(c, s) && f.op == AUTH_CHALLENGE && Plain(f)
    ensures var (t, r) := Process(c, s, f, env);
            && r == (if s.auth.state == A.Open then Err(AUTH_NOT_CONFIGURED)
                     else if s.auth.state == A.ErrorLocked then Err(CREDENTIAL_INVALID)
                     else if s.auth.failures > 0 && env.op < s.auth.cooldown then Err(RATE_LIMITED)
                     else if env.random.None? then Err(INTERNAL)
                     else Ok(0, 16, env.random.value))
            && (r.Ok? ==> t.auth.challenge == Some(A.Challenge(r.payload, env.op + c.t.challenge * 1000)))
            && t.auth.cred == s.auth.cred && t.auth.state == s.auth.state
            && (r.Ok? ==> t.auth.session == if SessionAt(s.auth, env) then s.auth.session else None)
  {
    AuthCommandSees(c, s, f, env);
    ChallengeOf(c, Sync(s, env.sync), f, env);
  }

  /** A proof in the right form. */
  predicate Proves(f: Frame) {
    BaseError(f).None? && f.slot == LIST_SLOT && f.offset == 0 && f.total == f.plen == 16
  }

  /** A nonce is waiting for its proof, in time, and no lapse of a session withdraws it first. */
  predicate Awaits(a: A.Auth, env: Env) {
    && a.challenge.Some? && env.op < a.challenge.value.deadline
    && (a.session.Some? ==> env.sync < a.session.value && env.op < a.session.value)
  }

  lemma ProofOf(c: Config, s: System, f: Frame, env: Env)
    requires AT.Sound(s.auth) && Proves(f)
    ensures var (t, r) := AuthProve(c, s, f, env);
            var awaits := s.auth.challenge.Some? && env.op < s.auth.challenge.value.deadline
                          && (s.auth.session.Some? ==> env.op < s.auth.session.value);
            && r == (if s.auth.state == A.Open then Err(AUTH_NOT_CONFIGURED)
                     else if s.auth.state == A.ErrorLocked then Err(CREDENTIAL_INVALID)
                     else if !awaits then Err(AUTH_NO_CHALLENGE)
                     else if !env.macOk then Err(INTERNAL)
                     else if f.Data() != A.Proof(c.mac, s.auth.cred.key, s.auth.challenge.value.nonce) then Err(AUTH_FAILED)
                     else Ok(0, 0, []))
            && (r.Ok? ==> t.auth.session == Some(env.op + c.t.session * 1000) && t.auth.failures == 0 && t.auth.cooldown == 0)
            && t.auth.challenge.None? && AH.Idle(t) && t.auth.cred == s.auth.cred && t.auth.state == s.auth.state
  {
  }

  /** Which failure of AUTH_PROVE has which status. The client's proof opens the session; any other starts a cooldown. */
  lemma ProofIsAnswered(c: Config, s: System, f: Frame, env: Env)
    requires ConfigOk(c) && PI.Inv(c, s) && f.op == AUTH_PROVE && Proves(f)
    ensures var (t, r) := Process(c, s, f, env);
            && r == (if s.auth.state == A.Open then Err(AUTH_NOT_CONFIGURED)
                     else if s.auth.state == A.ErrorLocked then Err(CREDENTIAL_INVALID)
                     else if !Awaits(s.auth, env) then Err(AUTH_NO_CHALLENGE)
                     else if !env.macOk then Err(INTERNAL)
                     else if f.Data() != AT.ClientProof(c.mac, s.auth.cred.key, s.auth.challenge.value.nonce) then Err(AUTH_FAILED)
                     else Ok(0, 0, []))
            && (r.Ok? ==> t.auth.session == Some(env.op + c.t.session * 1000) && t.auth.failures == 0 && t.auth.cooldown == 0)
            && t.auth.challenge.None? && AH.Idle(t) && t.auth.cred == s.auth.cred && t.auth.state == s.auth.state
  {
    AuthCommandSees(c, s, f, env);
    if s.auth.challenge.Some? {
      AT.ClientAndDeviceAgree(c.mac, s.auth.cred.key, s.auth.challenge.value.nonce);
    }
    ProofOf(c, Sync(s, env.sync), f, env);
  }

  // ------------------------------------------------------------------ parts of a credential

  lemma GrantedPart(c: Config, s: System, f: Frame, env: Env)
    requires ConfigOk(c) && PI.Inv(c, s) && f.op == PASSWORD_SET && BaseError(f).None? && Granted(s.auth, env)
    ensures var u := Sync(s, env.sync); PI.Inv(c, u) && u.auth == s.auth && Process(c, s, f, env) == PasswordSet(c, u, f, env)
  {
    GateAfterSync(s, env);
    PI.SyncKeepsInv(c, s, env.sync);
  }

  /** The part after which the credential is not complete yet. */
  lemma PartIsAnswered(c: Config, s: System, f: Frame, env: Env)
    requires ConfigOk(c) && PI.Inv(c, s) && f.op == PASSWORD_SET && BaseError(f).None? && Granted(s.auth, env)
    requires var u := Sync(s, env.sync); AH.PartFits(u, f) && AH.Completed(u, f).None?
    ensures var (t, r) := Process(c, s, f, env);
            && r == (if Lasts(s.auth, env) then Ok(f.offset + f.plen, PASSWORD_LENGTH, []) else Err(AUTH_REQUIRED))
            && (r.Ok? && s.auth.state == A.Protected ==> t.auth == s.auth.(session := Some(env.refresh + c.t.session * 1000)))
            && t.auth.cred == s.auth.cred && t.auth.stored == s.auth.stored
  {
    GrantedPart(c, s, f, env);
    var u := Sync(s, env.sync);
    var w := if f.offset == 0 then PwTx(f.rid, f.Data(), u.auth.epoch) else u.ctx.pw.value.(data := u.ctx.pw.value.data + f.Data());
    RefreshIff(c, u.(ctx := u.ctx.(pw := Some(w))), env.refresh, Ok(|w.data|, PASSWORD_LENGTH, []));
  }

  /** What became of a credential that was complete. */
  function ChangeStatus(a: A.Auth, cred: A.Credential, now: nat, save: Errno): Response {
    if !A.Valid(cred) then Err(CREDENTIAL_INVALID)
    else if !LiveAt(a, now) then Err(AUTH_REQUIRED)
    else match save
      case Success => Ok(PASSWORD_LENGTH, PASSWORD_LENGTH, [])
      case Einval => Err(CREDENTIAL_INVALID)
      case Eperm => Err(CREDENTIAL_INVALID)
      case Eacces => Err(AUTH_REQUIRED)
      case _ => Err(STORAGE_ERROR)
  }

  lemma ChangeOf(c: Config, s: System, w: PwTx, env: Env)
    requires AT.Sound(s.auth) && |w.data| == PASSWORD_LENGTH && s.auth.state != A.ErrorLocked
    ensures var (t, r) := PasswordAdvance(c, s, w, env);
            var cred := ParseCredential(w.data);
            && r == ChangeStatus(s.auth, cred, env.op, env.credSave) && t.ctx.pw.None?
            && (if r.Ok? then t.auth.state == A.Protected && t.auth.cred == cred && t.auth.stored == Some(A.Serialize(cred))
                              && t.auth.session.None? && t.auth.challenge.None? && t.auth.failures == 0 && AH.Idle(t)
                else t.auth.state == s.auth.state && t.auth.cred == s.auth.cred && t.auth.stored == s.auth.stored)
  {
  }

  lemma LastPartOf(c: Config, s: System, f: Frame, env: Env)
    requires PI.Inv(c, s) && f.plen <= 22 && AH.PartFits(s, f) && AH.Completed(s, f).Some? && s.auth.state != A.ErrorLocked
    ensures var (t, r) := PasswordSet(c, s, f, env);
            var cred := AH.Completed(s, f).value;
            && r == ChangeStatus(s.auth, cred, env.op, env.credSave) && t.ctx.pw.None?
            && (if r.Ok? then t.auth.state == A.Protected && t.auth.cred == cred && t.auth.stored == Some(A.Serialize(cred))
                              && t.auth.session.None? && t.auth.challenge.None? && t.auth.failures == 0 && AH.Idle(t)
                else t.auth.state == s.auth.state && t.auth.cred == s.auth.cred && t.auth.stored == s.auth.stored)
  {
    var w := if f.offset == 0 then PwTx(f.rid, f.Data(), s.auth.epoch) else s.ctx.pw.value.(data := s.ctx.pw.value.data + f.Data());
    ChangeOf(c, s, w, env);
  }

  /** The part that completes the credential: on OK it is in force and stored, and nobody is logged in any more. */
  lemma LastPartIsAnswered(c: Config, s: System, f: Frame, env: Env)
    requires ConfigOk(c) && PI.Inv(c, s) && f.op == PASSWORD_SET && BaseError(f).None? && Granted(s.auth, env)
    requires var u := Sync(s, env.sync); AH.PartFits(u, f) && AH.Completed(u, f).Some?
    ensures var (t, r) := Process(c, s, f, env);
            var cred := AH.Completed(Sync(s, env.sync), f).value;
            && r == ChangeStatus(s.auth, cred, env.op, env.credSave) && t.ctx.pw.None?
            && (if r.Ok? then t.auth.state == A.Protected && t.auth.cred == cred && t.auth.stored == Some(A.Serialize(cred))
                              && t.auth.session.None? && t.auth.challenge.None? && t.auth.failures == 0 && AH.Idle(t)
                else t.auth.state == s.auth.state && t.auth.cred == s.auth.cred && t.auth.stored == s.auth.stored)
  {
    GrantedPart(c, s, f, env);
    LastPartOf(c, Sync(s, env.sync), f, env);
  }

  // ------------------------------------------------------------------ clearing a dynamic slot

  /** DYNAMIC_CLEAR is answered OK exactly when it names a slot and is empty; then nothing of that slot is left, staged or held. */
  lemma DynamicClearIsAnswered(c: Config, s: System, f: Frame, env: Env)
    requires ConfigOk(c) && PI.Inv(c, s) && f.op == DYNAMIC_CLEAR && BaseError(f).None?
    ensures var (t, r) := Process(c, s, f, env);
            var u := Sync(s, env.sync);
            && r == (if f.slot >= c.dynSlots then Err(BAD_SLOT) else if !f.EmptyObject() then Err(BAD_REQUEST) else Ok(0, 0, []))
            && |t.store.slots| == |u.store.slots| == c.dynSlots && t.auth == u.auth && t.macros == s.macros
            && (forall i | 0 <= i < c.dynSlots :: t.store.slots[i] == if r.Ok? && i == f.slot then None else u.store.slots[i])
            && (r.Ok? ==>
                  && (t.store.staged == if u.store.staged.Some? && u.store.staged.value.slot == f.slot then None else u.store.staged)
                  && (if u.ctx.dyn.Some? && u.ctx.dyn.value.slot == f.slot then t.ctx.dyn.None? && !t.owner && t.timeout.None?
                      else t.ctx.dyn == u.ctx.dyn && t.owner == u.owner && t.timeout == u.timeout))
  {
    PI.SyncKeepsInv(c, s, env.sync);
  }
}
