/**
 * The management protocol as a function from a device state and one request frame to the next state and the answer.
 * One protocol context, the authentication core, the dynamic store and the static slots make up the device.
 */
module ProtocolSpec {
  import opened Bytes
  import opened Wire
  import A = AuthSpec
  import D = DynamicSpec
  import S = StaticSpec

  datatype Config = Config(limits: S.Limits, dynSlots: nat, t: A.Timeouts, mac: A.Mac,
                           clearOnUsb: bool, clearOnProfile: bool, clearOnEndpoint: bool)

  predicate ConfigOk(c: Config) {
    S.LimitsOk(c.limits) && 1 <= c.dynSlots <= 8 && 1 <= c.t.challenge <= 300 && 1 <= c.t.session <= 86400
  }

  const PASSWORD_LENGTH: nat := 52
  const PROOF_SIZE: nat := 16
  const DEFAULT_TTL: nat := 300
  const TRANSACTION_TIMEOUT_MS: nat := 30_000

  /** Transactions carry the authentication epoch in which they began (a history variable). */
  datatype SetTx = SetTx(rid: byte, slot: byte, total: u16, data: seq<byte>, epoch: nat)
  datatype PwTx = PwTx(rid: byte, data: seq<byte>, epoch: nat)
  datatype DynTx = DynTx(slot: byte, rid: byte, total: u16, received: u16, deadline: nat, epoch: nat)
  datatype Seen = Seen(state: A.State, authenticated: bool)

  datatype Ctx = Ctx(put: Option<SetTx>, pw: Option<PwTx>, dyn: Option<DynTx>, seen: Option<Seen>)

  const IDLE := Ctx(None, None, None, None)

  /** owner: the inactivity timer belongs to this context; timeout: when it is pending for. */
  datatype System = System(ctx: Ctx, auth: A.Auth, store: D.Store, macros: S.Static, owner: bool, timeout: Option<nat>)

  /**
   * What the surroundings answer while one request is handled: the clock at each phase, the random nonce, whether the
   * HMAC could be computed, and the results of saving the credential, saving or deleting a slot, and arming the timer.
   */
  datatype Env = Env(sync: nat, access: nat, op: nat, refresh: nat, random: Option<A.Nonce>, macOk: bool,
                     credSave: Errno, slotSave: Errno, sched: Errno)

  // ------------------------------------------------------------------ discarding

  function ClearSet(s: System): System {
    s.(ctx := s.ctx.(put := None))
  }

  function ClearPassword(s: System): System {
    s.(ctx := s.ctx.(pw := None))
  }

  function ReleaseTimer(s: System): System {
    s.(owner := false, timeout := if s.owner then None else s.timeout)
  }

  function ClearDynamic(s: System, now: nat): System {
    ReleaseTimer(s).(store := D.CancelStaging(s.store, now), ctx := s.ctx.(dyn := None))
  }

  function Discard(s: System, now: nat): System {
    ClearDynamic(s, now).(ctx := IDLE)
  }

  function DiscardForOpcode(s: System, op: byte, now: nat): System {
    if op == SET then ClearSet(s)
    else if op == PASSWORD_SET then ClearPassword(s)
    else if op == DYNAMIC_BEGIN || op == DYNAMIC_DATA then ClearDynamic(s, now)
    else s
  }

  // ------------------------------------------------------------------ authentication gate

  /** Drop every transaction when the authentication state differs from the one seen by the previous request. */
  function Sync(s: System, now: nat): System {
    var a := A.Expire(s.auth, now);
    var seen := Seen(a.state, a.Authenticated());
    var t := s.(auth := a);
    var u := if t.ctx.seen.Some? && t.ctx.seen.value != seen then ClearDynamic(ClearPassword(ClearSet(t)), now) else t;
    u.(ctx := u.ctx.(seen := Some(seen)))
  }

  function Access(s: System, now: nat): (System, Option<ErrorStatus>) {
    var t := s.(auth := A.Expire(s.auth, now));
    if t.auth.state == A.ErrorLocked then (Discard(t, now), Some(CREDENTIAL_INVALID))
    else if t.auth.state == A.Protected && t.auth.session.None? then (Discard(t, now), Some(AUTH_REQUIRED))
    else (t, None)
  }

  function RefreshProtected(c: Config, s: System, now: nat, r: Response): (System, Response) {
    var t := s.(auth := A.Expire(s.auth, now));
    if t.auth.state != A.Protected then (t, r)
    else
      var (a, e) := A.RefreshSession(c.t, t.auth, now);
      var u := t.(auth := a);
      if e != Success then (Discard(u, now), Err(AUTH_REQUIRED)) else (u, r)
  }

  // ------------------------------------------------------------------ static slots

  function Page(data: seq<byte>, offset: u16): Response
    requires |data| < 0x1_0000
  {
    if offset > |data| then Err(BAD_OFFSET)
    else Ok(offset, |data|, data[offset..if |data| - offset > 22 then offset + 22 else |data|])
  }

  function Lengths(slots: seq<S.Text>): (d: seq<byte>)
    requires forall i | 0 <= i < |slots| :: |slots[i]| <= 256
    ensures |d| == 2 * |slots|
    ensures forall i | 0 <= i < |slots| :: d[2 * i] == Lo(|slots[i]|) && d[2 * i + 1] == Hi(|slots[i]|)
  {
    if slots == [] then []
    else
      var n := |slots| - 1;
      Lengths(slots[..n]) + [Lo(|slots[n]|), Hi(|slots[n]|)]
  }

  predicate SlotsOk(c: Config, s: System) {
    |s.macros.slots| == c.limits.count <= 16 && c.limits.maxText <= 256
    && forall i | 0 <= i < |s.macros.slots| :: S.TextFits(c.limits, s.macros.slots[i])
  }

  function List(c: Config, s: System, f: Frame): Response
    requires SlotsOk(c, s)
  {
    if f.slot != LIST_SLOT then Err(BAD_REQUEST)
    else if f.plen != 0 || f.total != 0 then Err(BAD_LENGTH)
    else if !f.TailZero(0) then Err(BAD_REQUEST)
    else Page([c.limits.count] + Lengths(s.macros.slots), f.offset)
  }

  function Get(c: Config, s: System, f: Frame): Response
    requires SlotsOk(c, s)
  {
    if f.slot >= c.limits.count then Err(BAD_SLOT)
    else if f.plen != 0 || f.total != 0 then Err(BAD_LENGTH)
    else if !f.TailZero(0) then Err(BAD_REQUEST)
    else Page(s.macros.slots[f.slot], f.offset)
  }

  /** Keep the transaction, or commit it when it is complete. */
  function SetAdvance(c: Config, s: System, t: SetTx, save: Errno): (System, Response)
    requires |t.data| <= t.total
  {
    if |t.data| < t.total then (s.(ctx := s.ctx.(put := Some(t))), Ok(|t.data|, t.total, []))
    else
      var (st, e) := S.SlotSet(c.limits, s.macros, t.slot, t.data, save);
      (ClearSet(s).(macros := st),
       if e == Success then Ok(t.total, t.total, []) else if e == Einval then Err(INVALID_TEXT) else Err(STORAGE_ERROR))
  }

  predicate SetContinues(t: SetTx, f: Frame) {
    t.rid == f.rid && t.slot == f.slot && t.total == f.total
  }

  function Set(c: Config, s: System, f: Frame, env: Env): (System, Response)
    requires f.plen <= 22
  {
    if f.slot >= c.limits.count then (ClearSet(s), Err(BAD_SLOT))
    else if f.total > c.limits.maxText then (ClearSet(s), Err(BAD_LENGTH))
    else if f.offset > f.total then (ClearSet(s), Err(BAD_OFFSET))
    else if f.plen > f.total - f.offset then (ClearSet(s), Err(BAD_LENGTH))
    else if f.total != 0 && f.plen == 0 then (ClearSet(s), Err(BAD_LENGTH))
    else if !TextOk(f.Data()) then (ClearSet(s), Err(INVALID_TEXT))
    else if f.offset == 0 then
      SetAdvance(c, s, SetTx(f.rid, f.slot, f.total, f.Data(), s.auth.epoch), env.slotSave)
    else if s.ctx.put.None? || !SetContinues(s.ctx.put.value, f) then (ClearSet(s), Err(BAD_REQUEST))
    else if f.offset != |s.ctx.put.value.data| then (ClearSet(s), Err(BAD_OFFSET))
    else
      var t := s.ctx.put.value;
      SetAdvance(c, s, t.(data := t.data + f.Data()), env.slotSave)
  }

  function Clear(c: Config, s: System, f: Frame, env: Env): (System, Response) {
    if f.slot >= c.limits.count then (s, Err(BAD_SLOT))
    else if !f.EmptyObject() || !f.TailZero(0) then (s, Err(BAD_REQUEST))
    else
      var (st, e) := S.SlotClear(c.limits, s.macros, f.slot, env.slotSave);
      (s.(macros := st), if e == Success then Ok(0, 0, []) else Err(STORAGE_ERROR))
  }

  function Manage(c: Config, s: System, f: Frame, env: Env): (System, Response)
    requires f.plen <= 22 && SlotsOk(c, s)
  {
    if f.op == LIST then (s, List(c, s, f))
    else if f.op == GET then (s, Get(c, s, f))
    else if f.op == SET then Set(c, s, f, env)
    else Clear(c, s, f, env)
  }

  /** LIST, GET, SET and CLEAR: gate first, then the handler, then keep the session alive. */
  function Managed(c: Config, s: System, f: Frame, env: Env): (System, Response)
    requires f.plen <= 22 && SlotsOk(c, s)
  {
    var (t, denied) := Access(s, env.access);
    if denied.Some? then (t, Err(denied.value))
    else
      var (u, r) := Manage(c, t, f, env);
      if r.Ok? then RefreshProtected(c, u, env.refresh, r) else (u, r)
  }

  // ------------------------------------------------------------------ authentication commands

  function AuthInfo(s: System, f: Frame, now: nat): (System, Response) {
    if f.slot != LIST_SLOT || !f.EmptyObject() then (s, Err(BAD_REQUEST))
    else
      var a := A.Expire(s.auth, now);
      var t := s.(auth := a);
      if a.state == A.ErrorLocked then (t, Err(CREDENTIAL_INVALID))
      else
        var configured := a.state == A.Protected;
        var flags := (if configured then 1 else 0) + (if a.session.Some? then 2 else 0);
        var iterations := if configured then a.cred.iterations else A.ITERATIONS_DEFAULT;
        var salt := if configured then a.cred.salt else Zeros(16);
        (t, Ok(0, 22, [flags, 1] + PutU32(iterations) + salt))
  }

  function ChallengeError(e: Errno): ErrorStatus {
    match e
    case Enodata => AUTH_NOT_CONFIGURED
    case Eagain => RATE_LIMITED
    case Eperm => CREDENTIAL_INVALID
    case _ => INTERNAL
  }

  function AuthChallenge(c: Config, s: System, f: Frame, env: Env): (System, Response) {
    if f.slot != LIST_SLOT || !f.EmptyObject() then (s, Err(BAD_REQUEST))
    else
      var (a, e) := A.GenerateChallenge(c.t, s.auth, env.op, env.random);
      var t := s.(auth := a);
      if e != Success then (t, Err(ChallengeError(e))) else (t, Ok(0, 16, a.challenge.value.nonce))
  }

  function ProofError(e: Errno): ErrorStatus {
    match e
    case Enodata => AUTH_NOT_CONFIGURED
    case Enoent => AUTH_NO_CHALLENGE
    case Eagain => RATE_LIMITED
    case Eacces => AUTH_FAILED
    case Eperm => CREDENTIAL_INVALID
    case _ => INTERNAL
  }

  /** Every attempt to prove discards the transactions begun before it. */
  function AuthProve(c: Config, s: System, f: Frame, env: Env): (System, Response)
    requires f.plen <= 22
  {
    if f.slot != LIST_SLOT then (Discard(s, env.op), Err(BAD_REQUEST))
    else if f.offset != 0 || f.total != PROOF_SIZE || f.plen != PROOF_SIZE then (Discard(s, env.op), Err(BAD_LENGTH))
    else
      var (a, e) := A.VerifyProof(c.mac, c.t, s.auth, env.op, f.Data(), env.macOk);
      (Discard(s.(auth := a), env.op), if e == Success then Ok(0, 0, []) else Err(ProofError(e)))
  }

  function ParseCredential(data: seq<byte>): A.Credential
    requires |data| == PASSWORD_LENGTH
  {
    A.Credential(GetU32(data[..4]), data[4..20], data[20..52])
  }

  function PasswordAdvance(c: Config, s: System, t: PwTx, env: Env): (System, Response)
    requires |t.data| <= PASSWORD_LENGTH
  {
    if |t.data| < PASSWORD_LENGTH then
      RefreshProtected(c, s.(ctx := s.ctx.(pw := Some(t))), env.refresh, Ok(|t.data|, PASSWORD_LENGTH, []))
    else
      var (a, e) := A.SetCredential(s.auth, env.op, ParseCredential(t.data), env.credSave);
      var u := ClearPassword(s).(auth := a);
      if e == Success then (Discard(u, env.op), Ok(PASSWORD_LENGTH, PASSWORD_LENGTH, []))
      else if e == Einval || e == Eperm then (u, Err(CREDENTIAL_INVALID))
      else if e == Eacces then (Discard(u, env.op), Err(AUTH_REQUIRED))
      else (u, Err(STORAGE_ERROR))
  }

  function PasswordSet(c: Config, s: System, f: Frame, env: Env): (System, Response)
    requires f.plen <= 22
  {
    if f.slot != LIST_SLOT then (ClearPassword(s), Err(BAD_REQUEST))
    else if f.total != PASSWORD_LENGTH then (ClearPassword(s), Err(BAD_LENGTH))
    else if f.offset > f.total then (ClearPassword(s), Err(BAD_OFFSET))
    else if f.plen == 0 || f.plen > f.total - f.offset then (ClearPassword(s), Err(BAD_LENGTH))
    else if f.offset == 0 then PasswordAdvance(c, s, PwTx(f.rid, f.Data(), s.auth.epoch), env)
    else if s.ctx.pw.None? || s.ctx.pw.value.rid != f.rid then (ClearPassword(s), Err(BAD_REQUEST))
    else if f.offset != |s.ctx.pw.value.data| then (ClearPassword(s), Err(BAD_OFFSET))
    else
      var t := s.ctx.pw.value;
      PasswordAdvance(c, s, t.(data := t.data + f.Data()), env)
  }

  function ManagedPassword(c: Config, s: System, f: Frame, env: Env): (System, Response)
    requires f.plen <= 22
  {
    var (t, denied) := Access(s, env.access);
    if denied.Some? then (t, Err(denied.value)) else PasswordSet(c, t, f, env)
  }

  function LockCommand(s: System, f: Frame, now: nat): (System, Response) {
    if f.slot != LIST_SLOT || !f.EmptyObject() then (s, Err(BAD_REQUEST))
    else (Discard(s.(auth := A.Lock(s.auth)), now), Ok(0, 0, []))
  }

  // ------------------------------------------------------------------ dynamic commands

  function LifecycleFlags(c: Config): byte {
    0x47 + (if c.clearOnUsb then 0x08 else 0) + (if c.clearOnProfile then 0x10 else 0) + (if c.clearOnEndpoint then 0x20 else 0)
  }

  function Capabilities(c: Config, f: Frame): Response
    requires c.dynSlots <= 8
  {
    if f.slot >= c.dynSlots then Err(BAD_SLOT)
    else if !f.EmptyObject() then Err(BAD_REQUEST)
    else Ok(0, 22, [2, c.dynSlots, LifecycleFlags(c), 0, Lo(D.MAX_LENGTH), Hi(D.MAX_LENGTH)]
                   + PutU32(DEFAULT_TTL) + PutU32(D.MIN_TTL) + PutU32(D.MAX_TTL) + PutU32(30))
  }

  /** (Re)start the inactivity timer for this context's upload. */
  function ArmTimer(s: System, t: DynTx, now: nat, sched: Errno): System {
    s.(ctx := s.ctx.(dyn := Some(t.(deadline := now + TRANSACTION_TIMEOUT_MS))), owner := true,
       timeout := if sched == Success then Some(now + TRANSACTION_TIMEOUT_MS) else s.timeout)
  }

  function BeginTtl(f: Frame): nat {
    if f.plen == 4 || f.plen == 5 then GetU32(f.body[..4]) else DEFAULT_TTL
  }

  function BeginFlags(f: Frame): byte {
    if f.plen == 1 then f.body[0] else if f.plen == 5 then f.body[4] else 0
  }

  /** The checks a BEGIN passes before the store is asked. */
  function BeginError(c: Config, f: Frame): Option<ErrorStatus> {
    if f.slot >= c.dynSlots then Some(BAD_SLOT)
    else if f.offset != 0 then Some(BAD_OFFSET)
    else if f.total == 0 || f.total > D.MAX_LENGTH then Some(BAD_LENGTH)
    else if f.plen != 0 && f.plen != 1 && f.plen != 4 && f.plen != 5 then Some(BAD_LENGTH)
    else if BeginFlags(f) >= 2 then Some(BAD_REQUEST)
    else if BeginTtl(f) < D.MIN_TTL || BeginTtl(f) > D.MAX_TTL then Some(BAD_LENGTH)
    else None
  }

  function BeginUpload(c: Config, s: System, f: Frame, env: Env): (System, Response) {
    if BeginError(c, f).Some? then (ClearDynamic(s, env.op), Err(BeginError(c, f).value))
    else
      var (st, e) := D.Begin(s.store, env.op, f.slot, f.total, BeginTtl(f), BeginFlags(f) == 0);
      var t := s.(store := st);
      var err := if e == Success then env.sched else e;
      var u := if e == Success then ArmTimer(t, DynTx(f.slot, f.rid, f.total, 0, 0, s.auth.epoch), env.op, env.sched) else t;
      if err == Success then (u, Ok(0, f.total, []))
      else (ClearDynamic(u, env.op), Err(if err == Einval then BAD_LENGTH else INTERNAL))
  }

  /** The checks a DATA chunk passes before the store is asked. */
  function DataError(c: Config, s: System, f: Frame): Option<ErrorStatus>
    requires f.plen <= 22
  {
    var d := s.ctx.dyn;
    if f.slot >= c.dynSlots || (d.Some? && f.slot != d.value.slot) then Some(BAD_SLOT)
    else if f.total == 0 || f.total > D.MAX_LENGTH then Some(BAD_LENGTH)
    else if f.offset > f.total then Some(BAD_OFFSET)
    else if f.plen == 0 || f.plen > f.total - f.offset then Some(BAD_LENGTH)
    else if d.None? || d.value.rid != f.rid || d.value.total != f.total then Some(BAD_REQUEST)
    else if f.offset != d.value.received then Some(BAD_OFFSET)
    else if !TextOk(f.Data()) then Some(INVALID_TEXT)
    else None
  }

  /** The store has taken the chunk: finish the upload or wait for the next one. */
  function AfterChunk(s: System, f: Frame, env: Env): (System, Response)
    requires s.ctx.dyn.Some? && f.offset + f.plen <= f.total
  {
    var next := f.offset + f.plen;
    if next == f.total then (ReleaseTimer(s).(ctx := s.ctx.(dyn := None)), Ok(next, f.total, []))
    else
      var u := ArmTimer(s, s.ctx.dyn.value.(received := next), env.op, env.sched);
      if env.sched == Success then (u, Ok(next, f.total, [])) else (ClearDynamic(u, env.op), Err(INTERNAL))
  }

  function UploadData(c: Config, s: System, f: Frame, env: Env): (System, Response)
    requires f.plen <= 22
  {
    if DataError(c, s, f).Some? then (ClearDynamic(s, env.op), Err(DataError(c, s, f).value))
    else
      var (st, e) := D.Append(s.store, env.op, f.slot, f.offset, f.Data());
      var t := s.(store := st);
      if e != Success then (ClearDynamic(t, env.op), Err(if e == Enoent then BAD_REQUEST else INTERNAL))
      else AfterChunk(t, f, env)
  }

  function ClearUpload(c: Config, s: System, f: Frame, env: Env): (System, Response) {
    if f.slot >= c.dynSlots then (s, Err(BAD_SLOT))
    else if !f.EmptyObject() then (s, Err(BAD_REQUEST))
    else
      var t := s.(store := D.ClearSlot(s.store, env.op, f.slot));
      (if t.ctx.dyn.Some? && t.ctx.dyn.value.slot == f.slot then ReleaseTimer(t).(ctx := t.ctx.(dyn := None)) else t, Ok(0, 0, []))
  }

  /** The inactivity timer's handler; the timer is no longer pending while it runs. */
  function UploadTimeout(s: System, now: nat, resched: Errno): System {
    if !s.owner || s.ctx.dyn.None? then s.(owner := false, timeout := None)
    else if now < s.ctx.dyn.value.deadline then
      s.(timeout := if resched == Success then Some(s.ctx.dyn.value.deadline) else None)
    else ClearDynamic(s, now)
  }

  // ------------------------------------------------------------------ the dispatcher

  /** Checks on every frame, in the order that is part of the information-leak boundary. */
  function BaseError(f: Frame): Option<ErrorStatus> {
    if f.version != VERSION then Some(BAD_VERSION)
    else if !KnownOpcode(f.op) then Some(BAD_OPCODE)
    else if f.status != 0 then Some(BAD_REQUEST)
    else if f.plen > 22 then Some(BAD_LENGTH)
    else if !f.TailZero(f.plen) then Some(BAD_REQUEST)
    else None
  }

  function Dispatch(c: Config, s: System, f: Frame, env: Env): (System, Response)
    requires f.plen <= 22 && KnownOpcode(f.op) && SlotsOk(c, s) && c.dynSlots <= 8
  {
    if f.op == CAPABILITIES then (s, Capabilities(c, f))
    else if f.op == DYNAMIC_BEGIN then BeginUpload(c, s, f, env)
    else if f.op == DYNAMIC_DATA then UploadData(c, s, f, env)
    else if f.op == DYNAMIC_CLEAR then ClearUpload(c, s, f, env)
    else if f.op == AUTH_INFO then AuthInfo(s, f, env.op)
    else if f.op == AUTH_CHALLENGE then AuthChallenge(c, s, f, env)
    else if f.op == AUTH_PROVE then AuthProve(c, s, f, env)
    else if f.op == LOCK then LockCommand(s, f, env.op)
    else if f.op == PASSWORD_SET then ManagedPassword(c, s, f, env)
    else Managed(c, s, f, env)
  }

  function Process(c: Config, s: System, f: Frame, env: Env): (System, Response)
    requires SlotsOk(c, s) && c.dynSlots <= 8
  {
    var t := Sync(s, env.sync);
    match BaseError(f)
    case Some(e) =>
      // An unknown opcode discards nothing; the other failures drop the opcode's own transaction.
      (if e == BAD_OPCODE then t else DiscardForOpcode(t, f.op, env.op), Err(e))
    case None => Dispatch(c, t, f, env)
  }

  /** A USB connection-state notification: authentication and protocol state go, dynamic texts by policy. */
  function UsbReset(c: Config, s: System, now: nat, disconnected: bool): System {
    var t := Discard(s.(auth := A.TransportReset(s.auth)), now);
    if disconnected && c.clearOnUsb then t.(store := D.ClearAll(t.store, now)) else t
  }
}
