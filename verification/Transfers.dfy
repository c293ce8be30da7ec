/** The client's chunked writes as frame sequences, and what the device makes of each frame. */
module Transfers {
  import opened Bytes
  import opened Wire
  import opened ProtocolSpec
  import PI = ProtocolInvariants
  import A = AuthSpec
  import AN = Answers
  import AT = AuthTheorems
  import D = DynamicSpec
  import DT = DynamicTheorems

  /** What one call wants: to write a static slot, a dynamic slot or the credential, or to read one page. */
  datatype Job =
    | Put(slot: byte, data: seq<byte>)
    | Upload(slot: byte, data: seq<byte>, ttl: Option<u32>, keep: bool)
    | Secret(cred: A.Credential)
    | Page(op: byte, slot: byte, offset: u16)

  /** LE32 iterations, salt, key. */
  function Packed(cred: A.Credential): (d: seq<byte>)
    ensures |d| == PASSWORD_LENGTH
  {
    PutU32(cred.iterations) + cred.salt + cred.key
  }

  lemma PackedIsParsed(cred: A.Credential)
    ensures ParseCredential(Packed(cred)) == cred
  {
    var d := Packed(cred);
    assert d[..4] == PutU32(cred.iterations) && d[4..20] == cred.salt && d[20..52] == cred.key;
    U32RoundTrip(cred.iterations, d[..4]);
  }

  /** The bytes to be written. */
  function Data(j: Job): seq<byte> {
    match j
    case Put(_, data) => data
    case Upload(_, data, _, _) => data
    case Secret(cred) => Packed(cred)
    case Page(_, _, _) => []
  }

  /** What the client checks before it sends anything. */
  predicate JobOk(j: Job) {
    && |Data(j)| < 0x1_0000
    && match j
       case Put(_, data) => TextOk(data)
       case Upload(_, data, ttl, _) =>
         1 <= |data| <= D.MAX_LENGTH && TextOk(data) && (ttl.Some? ==> D.MIN_TTL <= ttl.value <= D.MAX_TTL)
       case Secret(_) => true
       case Page(op, slot, _) => (op == GET && slot != LIST_SLOT) || (op == LIST && slot == LIST_SLOT)
  }

  function Ttl(j: Job): nat
    requires j.Upload?
  {
    if j.ttl.Some? then j.ttl.value else DEFAULT_TTL
  }

  function BeginPayload(ttl: Option<u32>, keep: bool): (p: Payload)
    ensures |p| <= 5
  {
    (if ttl.Some? then PutU32(ttl.value) else []) + (if keep then [1] else [])
  }

  /** Number of frames of one attempt; an upload has a BEGIN before its chunks, and nothing is still one chunk. */
  function Steps(j: Job): (n: nat)
    ensures n >= 1
  {
    if j.Upload? then 1 + (|j.data| + 21) / 22 else if |Data(j)| == 0 then 1 else (|Data(j)| + 21) / 22
  }

  /** How many bytes of the data precede the frame of step k. */
  function From(j: Job, k: nat): (n: nat)
    requires k < Steps(j)
    ensures n <= |Data(j)|
  {
    if !j.Upload? then 22 * k else if k == 0 then 0 else 22 * (k - 1)
  }

  /** How many bytes of the data have been sent with step k: the acknowledged offset. */
  function Upto(j: Job, k: nat): (n: nat)
    requires k < Steps(j)
    ensures From(j, k) <= n <= |Data(j)| && n - From(j, k) <= 22
    ensures k + 1 < Steps(j) ==> n == From(j, k + 1) < |Data(j)|
    ensures k + 1 == Steps(j) ==> n == |Data(j)|
  {
    if j.Upload? && k == 0 then 0
    else if |Data(j)| - From(j, k) > 22 then From(j, k) + 22 else |Data(j)|
  }

  function Chunk(j: Job, k: nat): (p: Payload)
    requires k < Steps(j)
  {
    Data(j)[From(j, k)..Upto(j, k)]
  }

  function FrameOf(j: Job, rid: byte, k: nat): Frame
    requires JobOk(j) && k < Steps(j)
  {
    match j
    case Put(slot, data) => BuildFrame(SET, rid, slot, Chunk(j, k), From(j, k), |data|)
    case Upload(slot, data, ttl, keep) =>
      if k == 0 then BuildFrame(DYNAMIC_BEGIN, rid, slot, BeginPayload(ttl, keep), 0, |data|)
      else BuildFrame(DYNAMIC_DATA, rid, slot, Chunk(j, k), From(j, k), |data|)
    case Secret(_) => BuildFrame(PASSWORD_SET, rid, LIST_SLOT, Chunk(j, k), From(j, k), PASSWORD_LENGTH)
    case Page(op, slot, offset) => BuildFrame(op, rid, slot, [], offset, 0)
  }

  /** A credential takes three frames, of 22, 22 and 8 bytes. */
  lemma SecretTakesThree(cred: A.Credential)
    ensures var j := Secret(cred);
            Steps(j) == 3 && |Chunk(j, 0)| == |Chunk(j, 1)| == 22 && |Chunk(j, 2)| == 8
            && Chunk(j, 0) + Chunk(j, 1) + Chunk(j, 2) == Packed(cred)
  {
  }

  /** The device reads the requested policy and lifetime out of a BEGIN. */
  lemma BeginIsUnderstood(c: Config, j: Job, rid: byte)
    requires JobOk(j) && j.Upload?
    ensures var f := FrameOf(j, rid, 0);
            && BeginTtl(f) == Ttl(j) && BeginFlags(f) == (if j.keep then 1 else 0) && D.MIN_TTL <= Ttl(j) <= D.MAX_TTL
            && BeginError(c, f) == if j.slot >= c.dynSlots then Some(BAD_SLOT) else None
  {
    var f, p := FrameOf(j, rid, 0), BeginPayload(j.ttl, j.keep);
    assert f.body[..|p|] == p;
    if j.ttl.Some? {
      assert f.body[..4] == PutU32(j.ttl.value);
      U32RoundTrip(j.ttl.value, PutU32(0));
      if j.keep {
        assert f.body[4] == p[4] == 1;
      }
    } else if j.keep {
      assert f.body[0] == p[0] == 1;
    }
  }

  // ------------------------------------------------------------------ the device's share

  /** The device has no transfer of this kind open, or exactly steps 0..k of this attempt. */
  predicate Progress(j: Job, rid: byte, k: nat, s: System)
    requires k < Steps(j)
  {
    match j
    case Put(slot, data) =>
      s.ctx.put.Some? ==>
        var t := s.ctx.put.value;
        t.rid == rid && t.slot == slot && t.total == |data| && t.data == data[..From(j, k)]
    case Upload(slot, data, ttl, keep) =>
      s.ctx.dyn.Some? ==>
        var d := s.ctx.dyn.value;
        d.rid == rid && d.slot == slot && d.total == |data| && d.received == From(j, k)
        && (s.store.staged.Some? ==> s.store.staged.value == D.Staged(slot, |data|, Ttl(j), !keep, data[..From(j, k)]))
    case Secret(cred) =>
      s.ctx.pw.Some? ==> s.ctx.pw.value.rid == rid && s.ctx.pw.value.data == Packed(cred)[..From(j, k)]
    case Page(_, _, _) => true
  }

  /** What a finished upload leaves in its slot. */
  function Text(j: Job, at: nat): D.Committed
    requires j.Upload?
  {
    D.Committed(j.data, at + Ttl(j) * 1000, !j.keep)
  }

  /** The credential is in force and stored. */
  predicate InForce(cred: A.Credential, a: A.Auth) {
    A.Valid(cred) && a.state == A.Protected && a.cred == cred && a.stored == Some(A.Serialize(cred))
  }

  /** The target holds exactly the data; a dynamic slot with the requested policy and a lifetime from `at` on. */
  predicate Landed(j: Job, s: System, at: nat) {
    match j
    case Put(slot, data) => slot < |s.macros.slots| && s.macros.slots[slot] == data
    case Upload(slot, _, _, _) => slot < |s.store.slots| && s.store.slots[slot] == Some(Text(j, at))
    case Secret(cred) => InForce(cred, s.auth)
    case Page(_, _, _) => true
  }

  /** The object that a page is read from. */
  function Object(c: Config, s: System, op: byte, slot: byte): (data: seq<byte>)
    requires SlotsOk(c, s)
    ensures |data| < 0x1_0000
  {
    if op == LIST then [c.limits.count] + Lengths(s.macros.slots)
    else if slot < c.limits.count then s.macros.slots[slot] else []
  }

  /** The answer that accepts step k on a device that is now in state s. */
  function Ack(c: Config, j: Job, k: nat, s: System): Response
    requires SlotsOk(c, s) && JobOk(j) && k < Steps(j)
  {
    if j.Page? then ProtocolSpec.Page(Object(c, s, j.op, j.slot), j.offset) else Ok(Upto(j, k), |Data(j)|, [])
  }

  function Latest(env: Env): (t: nat)
    ensures t >= env.sync && t >= env.access && t >= env.op && t >= env.refresh
  {
    var a := if env.sync > env.access then env.sync else env.access;
    var b := if env.op > env.refresh then env.op else env.refresh;
    if a > b then a else b
  }

  /** Slots were emptied only of texts whose deadline had come. */
  predicate Lapsed(s: D.Store, t: D.Store, latest: nat) {
    |t.slots| == |s.slots|
    && forall i | 0 <= i < |s.slots| ::
         t.slots[i] == s.slots[i] || (t.slots[i] == None && s.slots[i].Some? && s.slots[i].value.deadline <= latest)
  }

  predicate SameCredential(a: A.Auth, b: A.Auth) {
    b.state == a.state && b.cred == a.cred && b.stored == a.stored
  }

  /**
   * From s to t nothing was written but, at the final step, the target, and that with all of the data; dynamic slots were
   * emptied only of texts whose deadline had come.
   */
  predicate Wrote(j: Job, final: bool, s: System, t: System, latest: nat, at: nat) {
    && (t.macros.slots == s.macros.slots
        || (final && j.Put? && j.slot < |s.macros.slots| && t.macros.slots == s.macros.slots[j.slot := j.data]))
    && (SameCredential(s.auth, t.auth) || (final && j.Secret? && InForce(j.cred, t.auth)))
    && |t.store.slots| == |s.store.slots|
    && forall i | 0 <= i < |s.store.slots| ::
         t.store.slots[i] == s.store.slots[i]
         || (t.store.slots[i] == None && s.store.slots[i].Some? && s.store.slots[i].value.deadline <= latest)
         || (final && j.Upload? && i == j.slot && t.store.slots[i] == Some(Text(j, at)))
  }

  /** Something may have been dropped, and nothing was added. */
  predicate Fades(s: System, t: System) {
    && t.macros == s.macros && DT.Shrunk(s.store, t.store) && SameCredential(s.auth, t.auth)
    && (t.ctx.put == None || t.ctx.put == s.ctx.put) && (t.ctx.dyn == None || t.ctx.dyn == s.ctx.dyn)
    && (t.ctx.pw == None || t.ctx.pw == s.ctx.pw)
    && (t.store.staged == None || t.store.staged == s.store.staged)
  }

  /** What is more, texts were dropped only at their deadline. */
  predicate FadesBy(s: System, t: System, latest: nat) {
    Fades(s, t) && Lapsed(s.store, t.store, latest)
  }

  lemma FadesMeans(j: Job, rid: byte, k: nat, s: System, t: System)
    requires Fades(s, t)
    ensures k < Steps(j) && Progress(j, rid, k, s) ==> Progress(j, rid, k, t)
  {
  }

  lemma FadesTwice(s: System, t: System, u: System, latest: nat)
    requires FadesBy(s, t, latest) && FadesBy(t, u, latest)
    ensures FadesBy(s, u, latest)
  {
  }

  /** Writing, with fading before or after it, is still writing. */
  lemma WroteBetween(j: Job, final: bool, s: System, t: System, u: System, v: System, latest: nat, at: nat)
    requires FadesBy(s, t, latest) && Wrote(j, final, t, u, latest, at) && FadesBy(u, v, latest)
    requires forall i | 0 <= i < |v.store.slots| && v.store.slots[i] != u.store.slots[i] :: u.store.slots[i] == t.store.slots[i]
    ensures Wrote(j, final, s, v, latest, at)
  {
  }

  lemma ClearDynamicFades(s: System, now: nat, latest: nat)
    requires now <= latest
    ensures FadesBy(s, ClearDynamic(s, now), latest)
  {
  }

  lemma DiscardFades(s: System, a: A.Auth, now: nat, latest: nat)
    requires now <= latest && SameCredential(s.auth, a)
    ensures FadesBy(s, s.(auth := a), latest) && FadesBy(s, ClearDynamic(s.(auth := a), now), latest)
    ensures FadesBy(s, Discard(s.(auth := a), now), latest)
    ensures FadesBy(s, ClearDynamic(ClearPassword(ClearSet(s.(auth := a))), now), latest)
  {
    ClearDynamicFades(s.(auth := a), now, latest);
    ClearDynamicFades(ClearPassword(ClearSet(s.(auth := a))), now, latest);
  }

  lemma SyncFades(s: System, now: nat, latest: nat)
    requires now <= latest
    ensures FadesBy(s, Sync(s, now), latest)
  {
    DiscardFades(s, A.Expire(s.auth, now), now, latest);
  }

  lemma AccessFades(s: System, now: nat, latest: nat)
    requires now <= latest
    ensures FadesBy(s, Access(s, now).0, latest)
  {
    DiscardFades(s, A.Expire(s.auth, now), now, latest);
  }

  lemma RefreshFades(c: Config, s: System, now: nat, r: Response, latest: nat)
    requires now <= latest
    ensures var (t, answer) := RefreshProtected(c, s, now, r); FadesBy(s, t, latest) && (answer.Ok? ==> answer == r)
  {
    var a := A.Expire(s.auth, now);
    DiscardFades(s, a, now, latest);
    DiscardFades(s, A.RefreshSession(c.t, a, now).0, now, latest);
  }

  /** Timers, key presses, lifecycle events and USB notifications never add anything. */
  lemma OthersFade(c: Config, s: System, step: PI.Step)
    requires ConfigOk(c) && SlotsOk(c, s) && !step.Request?
    ensures Fades(s, PI.Apply(c, s, step))
  {
    match step
    case UploadTimer(now, resched) => ClearDynamicFades(s, now, now);
    case UsbNotification(now, disconnected) => DiscardFades(s, A.TransportReset(s.auth), now, now);
    case Behind(op) =>
    case Request(f, env) => assert false;
  }

  // ------------------------------------------------------------------ requests that write nothing

  /** Requests other than these neither write nor open a transfer. */
  predicate Bystander(f: Frame) {
    f.op != SET && f.op != CLEAR && f.op != PASSWORD_SET && f.op != DYNAMIC_BEGIN && f.op != DYNAMIC_DATA && f.op != DYNAMIC_CLEAR
  }

  lemma ReadsFade(c: Config, s: System, f: Frame, env: Env)
    requires f.plen <= 22 && SlotsOk(c, s) && (f.op == LIST || f.op == GET)
    ensures FadesBy(s, Managed(c, s, f, env).0, Latest(env))
  {
    AccessFades(s, env.access, Latest(env));
    var (t, denied) := Access(s, env.access);
    if denied.None? {
      var (u, r) := Manage(c, t, f, env);
      RefreshFades(c, u, env.refresh, r, Latest(env));
      FadesTwice(s, t, RefreshProtected(c, u, env.refresh, r).0, Latest(env));
    }
  }

  lemma QueriesFade(c: Config, s: System, f: Frame, env: Env)
    ensures FadesBy(s, AuthInfo(s, f, env.op).0, Latest(env)) && FadesBy(s, AuthChallenge(c, s, f, env).0, Latest(env))
    ensures FadesBy(s, LockCommand(s, f, env.op).0, Latest(env))
  {
    DiscardFades(s, A.Expire(s.auth, env.op), env.op, Latest(env));
    DiscardFades(s, A.GenerateChallenge(c.t, s.auth, env.op, env.random).0, env.op, Latest(env));
    DiscardFades(s, A.Lock(s.auth), env.op, Latest(env));
  }

  lemma ProveFades(c: Config, s: System, f: Frame, env: Env)
    requires f.plen <= 22
    ensures FadesBy(s, AuthProve(c, s, f, env).0, Latest(env))
  {
    DiscardFades(s, A.VerifyProof(c.mac, c.t, s.auth, env.op, f.Data(), env.macOk).0, env.op, Latest(env));
    DiscardFades(s, s.auth, env.op, Latest(env));
  }

  /** Whatever a request that does not write does, it adds nothing and drops texts only at their deadline. */
  lemma BystandersFade(c: Config, s: System, f: Frame, env: Env)
    requires ConfigOk(c) && SlotsOk(c, s) && Bystander(f)
    ensures FadesBy(s, Process(c, s, f, env).0, Latest(env))
  {
    var t := Sync(s, env.sync);
    SyncFades(s, env.sync, Latest(env));
    if BaseError(f).None? {
      if f.op == LIST || f.op == GET {
        ReadsFade(c, t, f, env);
      } else if f.op == AUTH_PROVE {
        ProveFades(c, t, f, env);
      } else {
        QueriesFade(c, t, f, env);
      }
    }
    FadesTwice(s, t, Process(c, s, f, env).0, Latest(env));
  }

  // ------------------------------------------------------------------ one step of a job

  /** What the frame of step k does when it reaches a device that is at most k steps into this attempt. */
  predicate StepDone(c: Config, j: Job, rid: byte, k: nat, s: System, t: System, r: Response, env: Env)
    requires JobOk(j) && k < Steps(j)
  {
    && SlotsOk(c, t)
    && (r.Ok? ==> r == Ack(c, j, k, t) && if k + 1 < Steps(j) then Progress(j, rid, k + 1, t) else Landed(j, t, env.op))
    && Wrote(j, k + 1 == Steps(j), s, t, Latest(env), env.op)
    && (j.Secret? && r.Err? ==> SameCredential(s.auth, t.auth))
    && (j.Page? && r.Err? ==> t.auth.state != A.Open || (j.op == GET && j.slot >= c.limits.count)
                              || j.offset > |Object(c, t, j.op, j.slot)|)
  }

  lemma ChunkText(j: Job, k: nat)
    requires JobOk(j) && k < Steps(j)
    ensures !j.Secret? ==> TextOk(Chunk(j, k))
    ensures Data(j)[..From(j, k)] + Chunk(j, k) == Data(j)[..Upto(j, k)]
    ensures k + 1 == Steps(j) ==> Data(j)[..Upto(j, k)] == Data(j)
    ensures Chunk(j, k) == [] <==> (Data(j) == [] || (j.Upload? && k == 0))
    ensures From(j, k) == 0 <==> k == 0 || (j.Upload? && k == 1)
  {
  }

  lemma AdvanceStep(c: Config, j: Job, rid: byte, k: nat, s: System, t: SetTx, env: Env)
    requires JobOk(j) && j.Put? && k < Steps(j) && SlotsOk(c, s) && j.slot < c.limits.count && |j.data| <= c.limits.maxText
    requires t.rid == rid && t.slot == j.slot && t.total == |j.data| && t.data == j.data[..Upto(j, k)]
    ensures var (u, r) := SetAdvance(c, s, t, env.slotSave); StepDone(c, j, rid, k, s, u, r, env) && u.store == s.store
  {
    ChunkText(j, k);
  }

  lemma SetStep(c: Config, j: Job, rid: byte, k: nat, s: System, env: Env)
    requires JobOk(j) && j.Put? && k < Steps(j) && PI.Inv(c, s) && (k > 0 ==> Progress(j, rid, k, s))
    ensures var (u, r) := Set(c, s, FrameOf(j, rid, k), env); StepDone(c, j, rid, k, s, u, r, env) && u.store == s.store
  {
    var f := FrameOf(j, rid, k);
    ChunkText(j, k);
    if j.slot < c.limits.count && |j.data| <= c.limits.maxText {
      if k == 0 {
        AdvanceStep(c, j, rid, k, s, SetTx(rid, j.slot, |j.data|, f.Data(), s.auth.epoch), env);
      } else if s.ctx.put.Some? {
        var t := s.ctx.put.value;
        AdvanceStep(c, j, rid, k, s, t.(data := t.data + f.Data()), env);
      }
    }
  }

  /** A step of a SET, with fading before and after it, is still that step. */
  lemma PutBetween(c: Config, j: Job, rid: byte, k: nat, s: System, t: System, u: System, v: System, r: Response, q: Response, env: Env)
    requires JobOk(j) && j.Put? && k < Steps(j) && FadesBy(s, t, Latest(env)) && StepDone(c, j, rid, k, t, u, r, env)
    requires FadesBy(u, v, Latest(env)) && (q.Ok? ==> q == r) && u.store.slots == t.store.slots
    ensures StepDone(c, j, rid, k, s, v, q, env)
  {
    WroteBetween(j, k + 1 == Steps(j), s, t, u, v, Latest(env), env.op);
    FadesMeans(j, rid, k + 1, u, v);
  }

  lemma PutStep(c: Config, j: Job, rid: byte, k: nat, s: System, env: Env)
    requires ConfigOk(c) && JobOk(j) && j.Put? && k < Steps(j) && PI.Inv(c, s) && (k > 0 ==> Progress(j, rid, k, s))
    ensures var (u, r) := Managed(c, s, FrameOf(j, rid, k), env); StepDone(c, j, rid, k, s, u, r, env)
  {
    var f := FrameOf(j, rid, k);
    AccessFades(s, env.access, Latest(env));
    PI.AccessKeepsInv(c, s, env.access);
    var (t, denied) := Access(s, env.access);
    FadesMeans(j, rid, k, s, t);
    if denied.None? {
      SetStep(c, j, rid, k, t, env);
      var (u, r) := Set(c, t, f, env);
      RefreshFades(c, u, env.refresh, r, Latest(env));
      var (v, q) := if r.Ok? then RefreshProtected(c, u, env.refresh, r) else (u, r);
      PutBetween(c, j, rid, k, s, t, u, v, r, q, env);
    }
  }

  lemma ArmedStep(c: Config, j: Job, rid: byte, s: System, u: System, env: Env)
    requires JobOk(j) && j.Upload? && SlotsOk(c, s) && u.macros == s.macros && u.auth == s.auth
    requires Lapsed(s.store, u.store, Latest(env)) && Progress(j, rid, 1, u)
    ensures StepDone(c, j, rid, 0, s, u, Ok(0, |j.data|, []), env)
    ensures forall status: ErrorStatus :: StepDone(c, j, rid, 0, s, ClearDynamic(u, env.op), Err(status), env)
  {
    ClearDynamicFades(u, env.op, Latest(env));
  }

  lemma BeginStep(c: Config, j: Job, rid: byte, s: System, env: Env)
    requires ConfigOk(c) && JobOk(j) && j.Upload? && PI.Inv(c, s)
    ensures var (u, r) := BeginUpload(c, s, FrameOf(j, rid, 0), env); StepDone(c, j, rid, 0, s, u, r, env)
  {
    var f := FrameOf(j, rid, 0);
    BeginIsUnderstood(c, j, rid);
    ClearDynamicFades(s, env.op, Latest(env));
    if BeginError(c, f).None? {
      PI.BeginNeverRefused(c, s, f, env.op);
      var st := D.Begin(s.store, env.op, f.slot, f.total, BeginTtl(f), BeginFlags(f) == 0).0;
      var u := ArmTimer(s.(store := st), DynTx(f.slot, f.rid, f.total, 0, 0, s.auth.epoch), env.op, env.sched);
      assert Lapsed(s.store, u.store, Latest(env));
      ArmedStep(c, j, rid, s, u, env);
    }
  }

  /** Appending the chunk of step k to the staged prefix. */
  lemma AppendStep(c: Config, j: Job, k: nat, s: D.Store, now: nat)
    requires JobOk(j) && j.Upload? && 0 < k < Steps(j) && DT.Inv(c.dynSlots, s)
    requires s.staged.Some? ==> s.staged.value == D.Staged(j.slot, |j.data|, Ttl(j), !j.keep, j.data[..From(j, k)])
    ensures var (t, e) := D.Append(s, now, j.slot, From(j, k), Chunk(j, k));
            && |t.slots| == |s.slots|
            && (e == Success && k + 1 < Steps(j) ==>
                  t.staged == Some(D.Staged(j.slot, |j.data|, Ttl(j), !j.keep, j.data[..Upto(j, k)])))
            && (e == Success && k + 1 == Steps(j) ==> j.slot < |s.slots| && t.slots[j.slot] == Some(Text(j, now)))
            && forall i | 0 <= i < |t.slots| ::
                 t.slots[i] == s.slots[i] || (t.slots[i] == None && s.slots[i].Some? && s.slots[i].value.deadline <= now)
                 || (e == Success && k + 1 == Steps(j) && i == j.slot && t.slots[i] == Some(Text(j, now)))
  {
    ChunkText(j, k);
  }

  lemma AfterChunkStep(c: Config, j: Job, rid: byte, k: nat, s: System, t: System, f: Frame, env: Env)
    requires JobOk(j) && j.Upload? && 0 < k < Steps(j) && f == FrameOf(j, rid, k) && SlotsOk(c, t)
    requires Wrote(j, k + 1 == Steps(j), s, t, Latest(env), env.op)
    requires t.ctx.dyn.Some? && t.ctx.dyn.value.rid == rid && t.ctx.dyn.value.slot == j.slot && t.ctx.dyn.value.total == |j.data|
    requires k + 1 < Steps(j) ==> t.store.staged == Some(D.Staged(j.slot, |j.data|, Ttl(j), !j.keep, j.data[..Upto(j, k)]))
    requires k + 1 == Steps(j) ==> Landed(j, t, env.op)
    ensures var (u, r) := AfterChunk(t, f, env); StepDone(c, j, rid, k, s, u, r, env)
  {
    if k + 1 < Steps(j) {
      var u := ArmTimer(t, t.ctx.dyn.value.(received := Upto(j, k)), env.op, env.sched);
      ClearDynamicFades(u, env.op, Latest(env));
      assert Wrote(j, false, s, u, Latest(env), env.op);
    }
  }

  lemma DataStep(c: Config, j: Job, rid: byte, k: nat, s: System, env: Env)
    requires ConfigOk(c) && JobOk(j) && j.Upload? && 0 < k < Steps(j) && PI.Inv(c, s) && Progress(j, rid, k, s)
    ensures var (u, r) := UploadData(c, s, FrameOf(j, rid, k), env); StepDone(c, j, rid, k, s, u, r, env)
  {
    var f := FrameOf(j, rid, k);
    ClearDynamicFades(s, env.op, Latest(env));
    if DataError(c, s, f).None? {
      AppendStep(c, j, k, s.store, env.op);
      var (st, e) := D.Append(s.store, env.op, f.slot, f.offset, f.Data());
      var t := s.(store := st);
      if e == Success {
        AfterChunkStep(c, j, rid, k, s, t, f, env);
      } else {
        ClearDynamicFades(t, env.op, Latest(env));
      }
    }
  }

  lemma SecretCommit(c: Config, j: Job, rid: byte, s: System, w: PwTx, env: Env)
    requires j.Secret? && SlotsOk(c, s) && w.data == Packed(j.cred)
    ensures var (u, r) := PasswordAdvance(c, s, w, env); StepDone(c, j, rid, 2, s, u, r, env)
  {
    PackedIsParsed(j.cred);
    var (a, e) := A.SetCredential(s.auth, env.op, ParseCredential(w.data), env.credSave);
    ClearDynamicFades(ClearPassword(s).(auth := a), env.op, Latest(env));
  }

  lemma SecretAdvance(c: Config, j: Job, rid: byte, k: nat, s: System, w: PwTx, env: Env)
    requires j.Secret? && k < Steps(j) && SlotsOk(c, s) && w.rid == rid && w.data == Packed(j.cred)[..Upto(j, k)]
    ensures var (u, r) := PasswordAdvance(c, s, w, env); StepDone(c, j, rid, k, s, u, r, env)
  {
    ChunkText(j, k);
    if k + 1 < Steps(j) {
      var t := s.(ctx := s.ctx.(pw := Some(w)));
      RefreshFades(c, t, env.refresh, Ok(|w.data|, PASSWORD_LENGTH, []), Latest(env));
    } else {
      SecretCommit(c, j, rid, s, w, env);
    }
  }

  lemma SecretSet(c: Config, j: Job, rid: byte, k: nat, s: System, env: Env)
    requires j.Secret? && JobOk(j) && k < Steps(j) && SlotsOk(c, s) && (k > 0 ==> Progress(j, rid, k, s))
    ensures var (u, r) := PasswordSet(c, s, FrameOf(j, rid, k), env); StepDone(c, j, rid, k, s, u, r, env)
  {
    var f := FrameOf(j, rid, k);
    ChunkText(j, k);
    if k == 0 {
      SecretAdvance(c, j, rid, k, s, PwTx(rid, f.Data(), s.auth.epoch), env);
    } else if s.ctx.pw.Some? {
      var w := s.ctx.pw.value;
      SecretAdvance(c, j, rid, k, s, w.(data := w.data + f.Data()), env);
    }
  }

  /** Fading before any step. */
  lemma StepAfter(c: Config, j: Job, rid: byte, k: nat, s: System, t: System, u: System, r: Response, env: Env)
    requires JobOk(j) && k < Steps(j) && FadesBy(s, t, Latest(env)) && StepDone(c, j, rid, k, t, u, r, env)
    ensures StepDone(c, j, rid, k, s, u, r, env)
  {
  }

  lemma SecretStep(c: Config, j: Job, rid: byte, k: nat, s: System, env: Env)
    requires ConfigOk(c) && j.Secret? && JobOk(j) && k < Steps(j) && PI.Inv(c, s) && (k > 0 ==> Progress(j, rid, k, s))
    ensures var (u, r) := ManagedPassword(c, s, FrameOf(j, rid, k), env); StepDone(c, j, rid, k, s, u, r, env)
  {
    AccessFades(s, env.access, Latest(env));
    PI.AccessKeepsInv(c, s, env.access);
    var (t, denied) := Access(s, env.access);
    FadesMeans(j, rid, k, s, t);
    if denied.None? {
      SecretSet(c, j, rid, k, t, env);
      var (u, r) := PasswordSet(c, t, FrameOf(j, rid, k), env);
      StepAfter(c, j, rid, k, s, t, u, r, env);
    }
  }

  lemma PageStep(c: Config, j: Job, rid: byte, s: System, env: Env)
    requires ConfigOk(c) && j.Page? && JobOk(j) && PI.Inv(c, s)
    ensures var (u, r) := Managed(c, s, FrameOf(j, rid, 0), env); StepDone(c, j, rid, 0, s, u, r, env)
  {
    var f := FrameOf(j, rid, 0);
    ReadsFade(c, s, f, env);
    var (t, denied) := Access(s, env.access);
    AccessFades(s, env.access, Latest(env));
    if denied.None? {
      var r := Manage(c, t, f, env).1;
      RefreshFades(c, t, env.refresh, r, Latest(env));
    }
  }

  lemma FramePassesChecks(j: Job, rid: byte, k: nat)
    requires JobOk(j) && k < Steps(j)
    ensures var f := FrameOf(j, rid, k);
            && BaseError(f).None? && f.plen <= 22
            && match j
               case Put(_, _) => f.op == SET
               case Upload(_, _, _, _) => f.op == if k == 0 then DYNAMIC_BEGIN else DYNAMIC_DATA
               case Secret(_) => f.op == PASSWORD_SET
               case Page(op, _, _) => f.op == op && (op == GET || op == LIST)
  {
  }

  lemma FramesAreWellFormed(c: Config, j: Job, rid: byte, k: nat, s: System, env: Env)
    requires ConfigOk(c) && SlotsOk(c, s) && JobOk(j) && k < Steps(j)
    ensures var f, t := FrameOf(j, rid, k), Sync(s, env.sync);
            SlotsOk(c, t) && Process(c, s, f, env) ==
            match j
            case Put(_, _) => Managed(c, t, f, env)
            case Upload(_, _, _, _) => if k == 0 then BeginUpload(c, t, f, env) else UploadData(c, t, f, env)
            case Secret(_) => ManagedPassword(c, t, f, env)
            case Page(_, _, _) => Managed(c, t, f, env)
  {
    FramePassesChecks(j, rid, k);
  }

  /** The frame of any step, on a device that is at most that far into this attempt. */
  lemma DeviceStep(c: Config, j: Job, rid: byte, k: nat, s: System, env: Env)
    requires ConfigOk(c) && JobOk(j) && k < Steps(j) && PI.Inv(c, s) && (k > 0 ==> Progress(j, rid, k, s))
    ensures var (t, r) := Process(c, s, FrameOf(j, rid, k), env); StepDone(c, j, rid, k, s, t, r, env)
  {
    var t := Sync(s, env.sync);
    SyncFades(s, env.sync, Latest(env));
    PI.SyncKeepsInv(c, s, env.sync);
    FadesMeans(j, rid, k, s, t);
    FramesAreWellFormed(c, j, rid, k, s, env);
    match j {
      case Put(_, _) => PutStep(c, j, rid, k, t, env);
      case Upload(_, _, _, _) => if k == 0 { BeginStep(c, j, rid, t, env); } else { DataStep(c, j, rid, k, t, env); }
      case Secret(_) => SecretStep(c, j, rid, k, t, env);
      case Page(_, _, _) => PageStep(c, j, rid, t, env);
    }
    var (u, r) := Process(c, s, FrameOf(j, rid, k), env);
    StepAfter(c, j, rid, k, s, t, u, r, env);
  }

  // ------------------------------------------------------------------ a device that has no reason to refuse

  /** The gate is open for the job, which it always is for an upload, and the device has room for it. */
  predicate Willing(c: Config, j: Job, s: System) {
    && SlotsOk(c, s) && (j.Upload? || s.auth.state == A.Open || (s.auth.state == A.Protected && s.auth.session.Some?))
    && match j
       case Put(slot, data) => slot < c.limits.count && |data| <= c.limits.maxText
       case Upload(slot, _, _, _) => slot < c.dynSlots && slot < |s.store.slots| && s.store.slots[slot] == None
       case Secret(cred) => A.Valid(cred)
       case Page(op, slot, offset) => (op == GET ==> slot < c.limits.count) && offset <= |Object(c, s, op, slot)|
  }

  predicate Obliging(j: Job, env: Env) {
    match j
    case Put(_, _) => env.slotSave == Success
    case Upload(_, _, _, _) => env.sched == Success
    case Secret(_) => env.credSave == Success
    case Page(_, _, _) => true
  }

  /** A session that is live stays so while the request is handled. */
  predicate InTime(a: A.Auth, env: Env) {
    a.session.Some? ==>
      env.sync < a.session.value && env.access < a.session.value && env.op < a.session.value && env.refresh < a.session.value
  }

  /** The deadline of the session after an answer that does not complete a credential; uploads do not keep a session alive. */
  function Deadline(c: Config, j: Job, a: A.Auth, env: Env): Option<nat> {
    if j.Upload? || a.session.None? then a.session else Some(env.refresh + c.t.session * 1000)
  }

  predicate SeenNow(s: System) {
    s.ctx.seen == Some(Seen(s.auth.state, s.auth.Authenticated()))
  }

  /** The device has accepted exactly steps 0..k of this attempt and dropped nothing. */
  predicate Exact(j: Job, rid: byte, k: nat, s: System)
    requires k < Steps(j)
  {
    Progress(j, rid, k, s) && SeenNow(s)
    && match j
       case Put(_, _) => s.ctx.put.Some?
       case Upload(_, _, _, _) => s.ctx.dyn.Some? && s.store.staged.Some?
       case Secret(_) => s.ctx.pw.Some?
       case Page(_, _, _) => true
  }

  lemma InTimeLasts(c: Config, j: Job, s: System, env: Env)
    requires Willing(c, j, s) && !j.Upload? && InTime(s.auth, env)
    ensures AN.Lasts(s.auth, env) && AN.LiveAt(s.auth, env.op) && s.auth.state != A.ErrorLocked
  {
  }

  lemma SyncStaysWilling(c: Config, j: Job, rid: byte, k: nat, s: System, env: Env)
    requires k < Steps(j) && Willing(c, j, s) && InTime(s.auth, env) && (k > 0 ==> Exact(j, rid, k, s))
    ensures var t := Sync(s, env.sync); Willing(c, j, t) && t.auth == s.auth && SeenNow(t) && (k > 0 ==> Exact(j, rid, k, t))
  {
  }

  lemma WillingSet(c: Config, j: Job, rid: byte, k: nat, s: System, env: Env)
    requires JobOk(j) && j.Put? && k < Steps(j) && PI.Inv(c, s) && Willing(c, j, s) && Obliging(j, env)
    requires SeenNow(s) && (k > 0 ==> Exact(j, rid, k, s))
    ensures var (t, r) := Set(c, s, FrameOf(j, rid, k), env);
            r.Ok? && t.auth == s.auth && Willing(c, j, t) && (k + 1 < Steps(j) ==> Exact(j, rid, k + 1, t))
  {
    ChunkText(j, k);
  }

  /** The session is kept alive, and nothing else changes. */
  lemma KeepsAlive(c: Config, j: Job, rid: byte, k: nat, s: System, t: System, env: Env)
    requires k < Steps(j) && Willing(c, j, s) && !j.Upload? && AT.Sound(s.auth)
    requires t == s.(auth := t.auth) && t.auth == s.auth.(session := Deadline(c, j, s.auth, env))
    ensures Willing(c, j, t) && (Exact(j, rid, k, s) ==> Exact(j, rid, k, t))
  {
  }

  lemma Refreshed(c: Config, j: Job, s: System, env: Env, r: Response)
    requires Willing(c, j, s) && !j.Upload? && AT.Sound(s.auth) && InTime(s.auth, env)
    ensures var (t, answer) := RefreshProtected(c, s, env.refresh, r);
            answer == r && t == s.(auth := t.auth) && t.auth == s.auth.(session := Deadline(c, j, s.auth, env))
  {
  }

  lemma WillingPut(c: Config, j: Job, rid: byte, k: nat, s: System, env: Env)
    requires ConfigOk(c) && JobOk(j) && j.Put? && k < Steps(j) && PI.Inv(c, s) && Willing(c, j, s) && Obliging(j, env)
    requires InTime(s.auth, env) && (k > 0 ==> Exact(j, rid, k, s))
    ensures var (t, r) := Process(c, s, FrameOf(j, rid, k), env);
            r.Ok? && Willing(c, j, t) && t.auth.session == Deadline(c, j, s.auth, env)
            && (k + 1 < Steps(j) ==> Exact(j, rid, k + 1, t))
  {
    var f, u := FrameOf(j, rid, k), Sync(s, env.sync);
    InTimeLasts(c, j, s, env);
    FramePassesChecks(j, rid, k);
    AN.GrantedIsManaged(c, s, f, env);
    SyncStaysWilling(c, j, rid, k, s, env);
    WillingSet(c, j, rid, k, u, env);
    var (v, r) := Set(c, u, f, env);
    Refreshed(c, j, v, env, r);
    KeepsAlive(c, j, rid, if k + 1 < Steps(j) then k + 1 else k, v, RefreshProtected(c, v, env.refresh, r).0, env);
  }

  lemma WillingBegin(c: Config, j: Job, rid: byte, s: System, env: Env)
    requires ConfigOk(c) && JobOk(j) && j.Upload? && PI.Inv(c, s) && Willing(c, j, s) && Obliging(j, env) && SeenNow(s)
    ensures var (t, r) := BeginUpload(c, s, FrameOf(j, rid, 0), env);
            r.Ok? && t.auth == s.auth && Willing(c, j, t) && Exact(j, rid, 1, t)
  {
    BeginIsUnderstood(c, j, rid);
    PI.BeginNeverRefused(c, s, FrameOf(j, rid, 0), env.op);
  }

  lemma WillingAppend(c: Config, j: Job, k: nat, s: D.Store, now: nat)
    requires JobOk(j) && j.Upload? && 0 < k < Steps(j) && j.slot < |s.slots| && s.slots[j.slot] == None
    requires s.staged == Some(D.Staged(j.slot, |j.data|, Ttl(j), !j.keep, j.data[..From(j, k)]))
    ensures var (t, e) := D.Append(s, now, j.slot, From(j, k), Chunk(j, k));
            e == Success && (k + 1 < Steps(j) ==> j.slot < |t.slots| && t.slots[j.slot] == None)
  {
    ChunkText(j, k);
  }

  lemma WillingData(c: Config, j: Job, rid: byte, k: nat, s: System, env: Env)
    requires ConfigOk(c) && JobOk(j) && j.Upload? && 0 < k < Steps(j) && PI.Inv(c, s) && Willing(c, j, s) && Obliging(j, env)
    requires Exact(j, rid, k, s)
    ensures var (t, r) := UploadData(c, s, FrameOf(j, rid, k), env);
            r.Ok? && t.auth == s.auth && (k + 1 < Steps(j) ==> Willing(c, j, t) && Exact(j, rid, k + 1, t))
  {
    ChunkText(j, k);
    WillingAppend(c, j, k, s.store, env.op);
    AppendStep(c, j, k, s.store, env.op);
  }

  lemma WillingUpload(c: Config, j: Job, rid: byte, k: nat, s: System, env: Env)
    requires ConfigOk(c) && JobOk(j) && j.Upload? && k < Steps(j) && PI.Inv(c, s) && Willing(c, j, s) && Obliging(j, env)
    requires InTime(s.auth, env) && (k > 0 ==> Exact(j, rid, k, s))
    ensures var (t, r) := Process(c, s, FrameOf(j, rid, k), env);
            r.Ok? && t.auth.session == Deadline(c, j, s.auth, env)
            && (k + 1 < Steps(j) ==> Willing(c, j, t) && Exact(j, rid, k + 1, t))
  {
    var t := Sync(s, env.sync);
    PI.SyncKeepsInv(c, s, env.sync);
    SyncStaysWilling(c, j, rid, k, s, env);
    FramesAreWellFormed(c, j, rid, k, s, env);
    if k == 0 {
      WillingBegin(c, j, rid, t, env);
    } else {
      WillingData(c, j, rid, k, t, env);
    }
  }

  lemma WillingPart(c: Config, j: Job, rid: byte, k: nat, s: System, w: PwTx, env: Env)
    requires j.Secret? && k + 1 < Steps(j) && Willing(c, j, s) && AT.Sound(s.auth) && InTime(s.auth, env) && SeenNow(s)
    requires w.rid == rid && w.data == Packed(j.cred)[..Upto(j, k)]
    ensures var (t, r) := PasswordAdvance(c, s, w, env);
            r.Ok? && Willing(c, j, t) && t.auth.session == Deadline(c, j, s.auth, env) && Exact(j, rid, k + 1, t)
  {
    var v := s.(ctx := s.ctx.(pw := Some(w)));
    var r := Ok(|w.data|, PASSWORD_LENGTH, []);
    Refreshed(c, j, v, env, r);
    KeepsAlive(c, j, rid, k + 1, v, RefreshProtected(c, v, env.refresh, r).0, env);
  }

  lemma WillingLastPart(c: Config, j: Job, s: System, w: PwTx, env: Env)
    requires j.Secret? && Willing(c, j, s) && Obliging(j, env) && InTime(s.auth, env) && w.data == Packed(j.cred)
    ensures PasswordAdvance(c, s, w, env).1.Ok?
  {
    PackedIsParsed(j.cred);
  }

  lemma WillingSecret(c: Config, j: Job, rid: byte, k: nat, s: System, env: Env)
    requires ConfigOk(c) && j.Secret? && JobOk(j) && k < Steps(j) && PI.Inv(c, s) && Willing(c, j, s) && Obliging(j, env)
    requires InTime(s.auth, env) && (k > 0 ==> Exact(j, rid, k, s))
    ensures var (t, r) := Process(c, s, FrameOf(j, rid, k), env);
            r.Ok? && (k + 1 < Steps(j) ==> Willing(c, j, t) && t.auth.session == Deadline(c, j, s.auth, env) && Exact(j, rid, k + 1, t))
  {
    var f, u := FrameOf(j, rid, k), Sync(s, env.sync);
    InTimeLasts(c, j, s, env);
    FramePassesChecks(j, rid, k);
    AN.GrantedPart(c, s, f, env);
    SyncStaysWilling(c, j, rid, k, s, env);
    ChunkText(j, k);
    var w := if k == 0 then PwTx(rid, f.Data(), u.auth.epoch) else u.ctx.pw.value.(data := u.ctx.pw.value.data + f.Data());
    if k + 1 < Steps(j) {
      WillingPart(c, j, rid, k, u, w, env);
    } else {
      WillingLastPart(c, j, u, w, env);
    }
  }

  lemma WillingPage(c: Config, j: Job, rid: byte, s: System, env: Env)
    requires ConfigOk(c) && JobOk(j) && j.Page? && PI.Inv(c, s) && Willing(c, j, s) && InTime(s.auth, env)
    ensures var (t, r) := Process(c, s, FrameOf(j, rid, 0), env);
            r.Ok? && t.auth.session == Deadline(c, j, s.auth, env) && t.auth.state == s.auth.state
  {
    var f, u := FrameOf(j, rid, 0), Sync(s, env.sync);
    InTimeLasts(c, j, s, env);
    FramePassesChecks(j, rid, 0);
    AN.GrantedIsManaged(c, s, f, env);
    SyncStaysWilling(c, j, rid, 0, s, env);
    Refreshed(c, j, u, env, Manage(c, u, f, env).1);
  }

  /**
   * A device whose gate is open, without a password or with a session that lasts, asked in order for a transfer it has room
   * for, accepts every step; and every answer but an upload's keeps the session alive from then on.
   */
  lemma WillingDeviceAccepts(c: Config, j: Job, rid: byte, k: nat, s: System, env: Env)
    requires ConfigOk(c) && JobOk(j) && k < Steps(j) && PI.Inv(c, s) && Willing(c, j, s) && Obliging(j, env) && InTime(s.auth, env)
    requires k > 0 ==> Exact(j, rid, k, s)
    ensures var (t, r) := Process(c, s, FrameOf(j, rid, k), env);
            && r.Ok? && (k + 1 < Steps(j) ==> Willing(c, j, t) && Exact(j, rid, k + 1, t))
            && (k + 1 < Steps(j) || !j.Secret? ==> t.auth.session == Deadline(c, j, s.auth, env))
  {
    match j {
      case Put(_, _) => WillingPut(c, j, rid, k, s, env);
      case Upload(_, _, _, _) => WillingUpload(c, j, rid, k, s, env);
      case Secret(_) => WillingSecret(c, j, rid, k, s, env);
      case Page(_, _, _) => WillingPage(c, j, rid, s, env);
    }
  }
}
