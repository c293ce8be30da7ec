/** The request handlers as they run: they change the context, the stores and the response buffer in place. */
module Protocol {
  import opened Bytes
  import opened Wire
  import Spec = ProtocolSpec
  import A = AuthSpec
  import D = DynamicSpec
  import S = StaticSpec
  import FrameBuffer
  import Context
  import AuthCore
  import DynamicStore
  import StaticStore
  import UsbStatus

  /** What a complete or growing transaction leads to depends on its data, not on what was staged before. */
  lemma AdvanceReplacesStaging(c: Spec.Config, s: Spec.System, put: Option<Spec.SetTx>, pw: Option<Spec.PwTx>,
                               t: Spec.SetTx, w: Spec.PwTx, env: Spec.Env)
    requires |t.data| <= t.total && |w.data| <= Spec.PASSWORD_LENGTH
    ensures Spec.SetAdvance(c, s.(ctx := s.ctx.(put := put)), t, env.slotSave) == Spec.SetAdvance(c, s, t, env.slotSave)
    ensures Spec.PasswordAdvance(c, s.(ctx := s.ctx.(pw := pw)), w, env) == Spec.PasswordAdvance(c, s, w, env)
  {
  }

  class Protocol {
    const cfg: Spec.Config
    const ctx: Context.Context
    const auth: AuthCore.AuthCore
    const store: DynamicStore.DynamicStore
    const slots: StaticStore.StaticStore

    /** The inactivity timer belongs to this context, and when it is pending for. */
    var owner: bool
    var timeout: Option<nat>

    /** The memory of each component, and of all of them. */
    ghost const ctxObjects: set<object>
    ghost const authObjects: set<object>
    ghost const slotObjects: set<object>
    ghost const storeObjects: set<object>
    ghost const repr: set<object>

    /** The components share no memory, and were built for this configuration. */
    ghost predicate Apart() {
      && ctx in ctxObjects && ctx.setStaging in ctxObjects && ctx.pwStaging in ctxObjects
      && auth in authObjects && auth.challenge in authObjects
      && slots in slotObjects && slots.text in slotObjects && slots.lengths in slotObjects && slots.persisted in slotObjects
      && store.Repr() <= storeObjects
      && this !in ctxObjects && this !in authObjects && this !in slotObjects && this !in storeObjects
      && ctxObjects !! authObjects !! slotObjects !! storeObjects
      && repr == {this} + ctxObjects + authObjects + slotObjects + storeObjects
      && ctx.setStaging.Length == cfg.limits.maxText && cfg.dynSlots <= 8
      && auth.mac == cfg.mac && auth.t == cfg.t && slots.limits == cfg.limits && |store.slots| == cfg.dynSlots
    }

    ghost predicate Valid()
      reads repr
    {
      this in repr && Apart() && ctx.Valid() && auth.Valid() && store.Valid() && slots.Valid()
    }

    ghost function Abs(): Spec.System
      reads repr
      requires Valid()
    {
      Spec.System(ctx.Abs(), auth.Abs(), store.Abs(), slots.Abs(), owner, timeout)
    }

    constructor (cfg: Spec.Config, auth: AuthCore.AuthCore, store: DynamicStore.DynamicStore, slots: StaticStore.StaticStore)
      requires Spec.ConfigOk(cfg) && auth.Valid() && store.Valid() && slots.Valid()
      requires {auth, auth.challenge} !! {slots, slots.text, slots.lengths, slots.persisted} !! store.Repr()
      requires auth.mac == cfg.mac && auth.t == cfg.t && slots.limits == cfg.limits && |store.slots| == cfg.dynSlots
      ensures Valid() && fresh(ctxObjects)
      ensures repr == {this} + ctxObjects + {auth, auth.challenge} + {slots, slots.text, slots.lengths, slots.persisted} + store.Repr()
      ensures this.cfg == cfg && this.auth == auth && this.store == store && this.slots == slots
      ensures Abs() == Spec.System(Spec.IDLE, auth.Abs(), store.Abs(), slots.Abs(), false, None)
    {
      this.cfg, this.auth, this.store, this.slots := cfg, auth, store, slots;
      var c := new Context.Context(cfg.limits.maxText);
      ctx := c;
      owner, timeout := false, None;
      ctxObjects := {c, c.setStaging, c.pwStaging};
      authObjects := {auth, auth.challenge};
      slotObjects := {slots, slots.text, slots.lengths, slots.persisted};
      storeObjects := store.Repr();
      repr := {this, c, c.setStaging, c.pwStaging} + {auth, auth.challenge} + {slots, slots.text, slots.lengths, slots.persisted} + store.Repr();
    }

    // ---------------------------------------------------------------- discarding

    method ClearSet()
      requires Valid()
      modifies ctxObjects
      ensures Valid() && Abs() == Spec.ClearSet(old(Abs()))
    {
      ctx.ClearSet();
    }

    method ClearPassword()
      requires Valid()
      modifies ctxObjects
      ensures Valid() && Abs() == Spec.ClearPassword(old(Abs()))
    {
      ctx.ClearPassword();
    }

    method ForgetUpload()
      requires Valid()
      modifies ctxObjects
      ensures Valid() && Abs() == old(Abs()).(ctx := old(Abs()).ctx.(dyn := None))
    {
      ctx.ForgetUpload();
    }

    method ResetContext()
      requires Valid()
      modifies ctxObjects
      ensures Valid() && Abs() == old(Abs()).(ctx := Spec.IDLE)
    {
      ctx.Reset();
    }

    method SetTimer(newOwner: bool, newTimeout: Option<nat>)
      requires Valid()
      modifies this
      ensures Valid() && Abs() == old(Abs()).(owner := newOwner, timeout := newTimeout)
    {
      owner, timeout := newOwner, newTimeout;
    }

    method ReleaseTimer()
      requires Valid()
      modifies this
      ensures Valid() && Abs() == Spec.ReleaseTimer(old(Abs()))
    {
      if owner {
        SetTimer(false, None);
      }
    }

    method CancelStaging(now: nat)
      requires Valid()
      modifies storeObjects
      ensures Valid() && Abs() == old(Abs()).(store := D.CancelStaging(old(Abs()).store, now))
    {
      store.CancelStaging(now);
    }

    method ClearDynamic(now: nat)
      requires Valid()
      modifies repr
      ensures Valid() && Abs() == Spec.ClearDynamic(old(Abs()), now)
    {
      ReleaseTimer();
      CancelStaging(now);
      ForgetUpload();
    }

    method Discard(now: nat)
      requires Valid()
      modifies repr
      ensures Valid() && Abs() == Spec.Discard(old(Abs()), now)
    {
      ClearDynamic(now);
      ResetContext();
    }

    method DiscardForOpcode(op: byte, now: nat)
      requires Valid()
      modifies repr
      ensures Valid() && Abs() == Spec.DiscardForOpcode(old(Abs()), op, now)
    {
      if op == SET {
        ClearSet();
      } else if op == PASSWORD_SET {
        ClearPassword();
      } else if op == DYNAMIC_BEGIN || op == DYNAMIC_DATA {
        ClearDynamic(now);
      }
    }

    // ---------------------------------------------------------------- the components, seen from the whole

    method GetState(now: nat) returns (state: A.State)
      requires Valid()
      modifies authObjects
      ensures Valid() && Abs() == old(Abs()).(auth := A.Expire(old(Abs()).auth, now)) && state == Abs().auth.state
    {
      state := auth.GetState(now);
    }

    method IsAuthenticated(now: nat) returns (live: bool)
      requires Valid()
      modifies authObjects
      ensures Valid() && Abs() == old(Abs()).(auth := A.Expire(old(Abs()).auth, now)) && live == Abs().auth.Authenticated()
    {
      live := auth.IsAuthenticated(now);
    }

    method RefreshSession(now: nat) returns (err: Errno)
      requires Valid()
      modifies authObjects
      ensures Valid()
      ensures var (a, e) := A.RefreshSession(cfg.t, old(Abs()).auth, now); Abs() == old(Abs()).(auth := a) && err == e
    {
      err := auth.Refresh(now);
    }

    method Remember(state: A.State, live: bool)
      requires Valid()
      modifies ctxObjects
      ensures Valid() && Abs() == old(Abs()).(ctx := old(Abs()).ctx.(seen := Some(Spec.Seen(state, live))))
    {
      ctx.Remember(state, live);
    }

    // ---------------------------------------------------------------- the authentication gate

    method Observe(now: nat) returns (state: A.State, live: bool)
      requires Valid()
      modifies authObjects
      ensures Valid() && Abs() == old(Abs()).(auth := A.Expire(old(Abs()).auth, now))
      ensures state == Abs().auth.state && live == Abs().auth.Authenticated()
    {
      state := GetState(now);
      live := false;
      if state == A.Protected {
        live := IsAuthenticated(now);
      }
    }

    method SeenDiffers(state: A.State, live: bool) returns (differs: bool)
      requires Valid()
      ensures var seen := Abs().ctx.seen; differs == (seen.Some? && seen.value != Spec.Seen(state, live))
    {
      differs := ctx.stateKnown && (ctx.seenState != state || ctx.seenAuthenticated != live);
    }

    method DropTransactions(now: nat)
      requires Valid()
      modifies repr
      ensures Valid() && Abs() == Spec.ClearDynamic(Spec.ClearPassword(Spec.ClearSet(old(Abs()))), now)
    {
      ClearSet();
      ClearPassword();
      ClearDynamic(now);
    }

    /** Drop every transaction when the authentication state is not the one the previous request saw. */
    method Sync(now: nat)
      requires Valid()
      modifies repr
      ensures Valid() && Abs() == Spec.Sync(old(Abs()), now)
    {
      var state, live := Observe(now);
      var differs := SeenDiffers(state, live);
      if differs {
        DropTransactions(now);
      }
      Remember(state, live);
    }

    method Access(now: nat) returns (denied: Option<ErrorStatus>)
      requires Valid()
      modifies repr
      ensures Valid() && (Abs(), denied) == Spec.Access(old(Abs()), now)
    {
      var state := GetState(now);
      if state == A.ErrorLocked {
        Discard(now);
        return Some(CREDENTIAL_INVALID);
      }
      if state == A.Protected {
        var live := IsAuthenticated(now);
        if !live {
          Discard(now);
          return Some(AUTH_REQUIRED);
        }
      }
      return None;
    }

    /** Keep the session alive; false when it has ended, and then every transaction is gone. */
    method KeepAlive(now: nat, ghost r: Response) returns (alive: bool)
      requires Valid()
      modifies repr
      ensures Valid()
      ensures (Abs(), if alive then r else Err(AUTH_REQUIRED)) == Spec.RefreshProtected(cfg, old(Abs()), now, r)
    {
      var state := GetState(now);
      if state != A.Protected {
        return true;
      }
      var err := RefreshSession(now);
      if err != Success {
        Discard(now);
        return false;
      }
      return true;
    }

    /** The response, still to be filled in, is no part of the device. */
    ghost predicate Blank(response: array<byte>, f: Frame)
      reads response
    {
      response !in repr && FrameBuffer.Holds(response, f, Ok(0, 0, []))
    }

    method WriteResponse(response: array<byte>, f: Frame, r: Response)
      requires Valid() && Blank(response, f)
      modifies response
      ensures Valid() && Abs() == old(Abs()) && FrameBuffer.Holds(response, f, r)
    {
      FrameBuffer.Write(response, f, r);
    }

    method RefuseUnless(alive: bool, response: array<byte>, f: Frame, ghost r: Response)
      requires Valid() && response !in repr && FrameBuffer.Holds(response, f, r)
      modifies response
      ensures Valid() && Abs() == old(Abs()) && FrameBuffer.Holds(response, f, if alive then r else Err(AUTH_REQUIRED))
    {
      if !alive {
        FrameBuffer.Refuse(response, f, r, AUTH_REQUIRED);
      }
    }

    /** After a success has been filled in: a session that has ended meanwhile overwrites it with an error. */
    method RefreshProtected(now: nat, response: array<byte>, f: Frame, ghost r: Response)
      requires Valid() && response !in repr && FrameBuffer.Holds(response, f, r)
      modifies repr, response
      ensures Valid()
      ensures var (s, a) := Spec.RefreshProtected(cfg, old(Abs()), now, r); Abs() == s && FrameBuffer.Holds(response, f, a)
    {
      var alive := KeepAlive(now, r);
      RefuseUnless(alive, response, f, r);
    }

    // ---------------------------------------------------------------- static slots

    /** Whether the first n payload bytes all have a keycode. */
    method PayloadIsValid(f: Frame) returns (ok: bool)
      requires f.plen <= 22
      ensures ok == TextOk(f.Data())
    {
      for i := 0 to f.plen
        invariant forall k | 0 <= k < i :: TextByte(f.body[k])
      {
        if !TextByte(f.body[i]) {
          assert f.Data()[i] == f.body[i];
          return false;
        }
      }
      return true;
    }

    method TailIsZero(f: Frame, from: byte) returns (ok: bool)
      ensures ok == f.TailZero(from)
    {
      var i: nat := from;
      while i < 22
        invariant from <= i && forall k | from <= k < i && k < 22 :: f.body[k] == 0
      {
        if f.body[i] != 0 {
          return false;
        }
        i := i + 1;
      }
      return true;
    }

    method SendPage(data: seq<byte>, offset: u16) returns (answer: Response)
      requires |data| < 0x1_0000
      ensures answer == Spec.Page(data, offset)
    {
      if offset > |data| {
        return Err(BAD_OFFSET);
      }
      var remaining := |data| - offset;
      var n := if remaining > 22 then 22 else remaining;
      return Ok(offset, |data|, data[offset..offset + n]);
    }

    method ListData() returns (d: seq<byte>)
      requires Valid() && Spec.SlotsOk(cfg, Abs())
      ensures d == [cfg.limits.count] + Spec.Lengths(slots.contents)
    {
      d := [];
      for i := 0 to cfg.limits.count
        invariant d == Spec.Lengths(slots.contents[..i])
      {
        assert slots.contents[..i + 1][..i] == slots.contents[..i];
        d := d + [Lo(slots.lengths[i]), Hi(slots.lengths[i])];
      }
      assert slots.contents[..cfg.limits.count] == slots.contents;
      d := [cfg.limits.count] + d;
    }

    method ProcessList(f: Frame) returns (answer: Response)
      requires Valid() && Spec.SlotsOk(cfg, Abs())
      ensures answer == Spec.List(cfg, Abs(), f)
    {
      if f.slot != LIST_SLOT {
        return Err(BAD_REQUEST);
      }
      if f.plen != 0 || f.total != 0 {
        return Err(BAD_LENGTH);
      }
      var zero := TailIsZero(f, 0);
      if !zero {
        return Err(BAD_REQUEST);
      }
      var data := ListData();
      answer := SendPage(data, f.offset);
    }

    method ProcessGet(f: Frame) returns (answer: Response)
      requires Valid() && Spec.SlotsOk(cfg, Abs())
      ensures answer == Spec.Get(cfg, Abs(), f)
    {
      if f.slot >= cfg.limits.count {
        return Err(BAD_SLOT);
      }
      if f.plen != 0 || f.total != 0 {
        return Err(BAD_LENGTH);
      }
      var zero := TailIsZero(f, 0);
      if !zero {
        return Err(BAD_REQUEST);
      }
      var err, data := slots.Copy(f.slot);
      answer := SendPage(data, f.offset);
    }

    method PutSlot(slot: byte, data: seq<byte>, save: Errno) returns (err: Errno)
      requires Valid()
      modifies slotObjects
      ensures Valid()
      ensures var (m, e) := S.SlotSet(cfg.limits, old(Abs()).macros, slot, data, save);
              Abs() == old(Abs()).(macros := m) && err == e
    {
      err := slots.Put(slot, data, save);
    }

    method EraseSlot(slot: byte, del: Errno) returns (err: Errno)
      requires Valid()
      modifies slotObjects
      ensures Valid()
      ensures var (m, e) := S.SlotClear(cfg.limits, old(Abs()).macros, slot, del);
              Abs() == old(Abs()).(macros := m) && err == e
    {
      err := slots.Erase(slot, del);
    }

    method CommitSet(save: Errno) returns (answer: Response)
      requires Valid() && ctx.setActive && ctx.setReceived == ctx.setTotal
      modifies repr
      ensures Valid()
      ensures (Abs(), answer) == Spec.SetAdvance(cfg, old(Abs()).(ctx := old(Abs()).ctx.(put := None)), old(Abs()).ctx.put.value, save)
    {
      var slot, total := ctx.setSlot, ctx.setTotal;
      var err := PutSlot(slot, ctx.setStaging[..total], save);
      ClearSet();
      if err == Success {
        return Ok(total, total, []);
      }
      return Err(if err == Einval then INVALID_TEXT else STORAGE_ERROR);
    }

    method StartSet(f: Frame)
      requires Valid() && f.plen <= 22 && f.plen <= f.total <= cfg.limits.maxText
      modifies ctxObjects
      ensures Valid() && ctx.setActive && ctx.setReceived == f.plen && ctx.setTotal == f.total
      ensures Abs() == old(Abs()).(ctx := old(Abs()).ctx.(put := Some(Spec.SetTx(f.rid, f.slot, f.total, f.Data(), old(Abs()).auth.epoch))))
    {
      ctx.StartSet(f.rid, f.slot, f.total, f.Data(), auth.epoch);
    }

    method ExtendSet(f: Frame)
      requires Valid() && ctx.setActive && f.plen <= 22 && ctx.setReceived + f.plen <= ctx.setTotal <= cfg.limits.maxText
      modifies ctxObjects
      ensures Valid() && ctx.setActive && ctx.setReceived == old(ctx.setReceived) + f.plen && ctx.setTotal == old(ctx.setTotal)
      ensures var t := old(Abs()).ctx.put.value;
              Abs() == old(Abs()).(ctx := old(Abs()).ctx.(put := Some(t.(data := t.data + f.Data()))))
    {
      ctx.ExtendSet(f.Data());
    }

    /** Commit the SET in progress when it is complete. */
    method AdvanceSet(save: Errno) returns (answer: Response)
      requires Valid() && ctx.setActive && ctx.setReceived <= ctx.setTotal
      modifies repr
      ensures Valid()
      ensures (Abs(), answer) == Spec.SetAdvance(cfg, old(Abs()), old(Abs()).ctx.put.value, save)
    {
      if ctx.setReceived == ctx.setTotal {
        answer := CommitSet(save);
      } else {
        answer := Ok(ctx.setReceived, ctx.setTotal, []);
      }
    }

    method RefuseSet(status: ErrorStatus) returns (answer: Response)
      requires Valid()
      modifies ctxObjects
      ensures Valid() && (Abs(), answer) == (Spec.ClearSet(old(Abs())), Err(status))
    {
      ClearSet();
      return Err(status);
    }

    ghost predicate SetFrameOk(f: Frame) {
      && f.plen <= 22 && f.slot < cfg.limits.count && f.total <= cfg.limits.maxText && f.offset <= f.total
      && f.plen <= f.total - f.offset && (f.total != 0 ==> f.plen != 0) && TextOk(f.Data())
    }

    /** The checks that need only the frame. */
    method CheckSet(f: Frame) returns (err: Option<ErrorStatus>)
      requires f.plen <= 22
      ensures forall s, env :: err.Some? ==> Spec.Set(cfg, s, f, env) == (Spec.ClearSet(s), Err(err.value))
      ensures err.None? <==> SetFrameOk(f)
    {
      if f.slot >= cfg.limits.count {
        return Some(BAD_SLOT);
      }
      if f.total > cfg.limits.maxText {
        return Some(BAD_LENGTH);
      }
      if f.offset > f.total {
        return Some(BAD_OFFSET);
      }
      if f.plen > f.total - f.offset {
        return Some(BAD_LENGTH);
      }
      if f.total != 0 && f.plen == 0 {
        return Some(BAD_LENGTH);
      }
      var ok := PayloadIsValid(f);
      if !ok {
        return Some(INVALID_TEXT);
      }
      return None;
    }

    method FirstChunk(f: Frame, env: Spec.Env) returns (answer: Response)
      requires Valid() && SetFrameOk(f) && f.offset == 0
      modifies repr
      ensures Valid() && (Abs(), answer) == Spec.Set(cfg, old(Abs()), f, env)
    {
      StartSet(f);
      answer := AdvanceSet(env.slotSave);
    }

    /** The checks against the SET in progress. */
    method CheckNext(f: Frame) returns (err: Option<ErrorStatus>)
      requires Valid()
      ensures var t := Abs().ctx.put;
              err == if t.None? || !Spec.SetContinues(t.value, f) then Some(BAD_REQUEST)
                     else if f.offset != |t.value.data| then Some(BAD_OFFSET) else None
    {
      if !ctx.setActive || ctx.setRid != f.rid || ctx.setSlot != f.slot || ctx.setTotal != f.total {
        err := Some(BAD_REQUEST);
      } else if f.offset != ctx.setReceived {
        err := Some(BAD_OFFSET);
      } else {
        err := None;
      }
    }

    method AcceptNext(f: Frame, env: Spec.Env) returns (answer: Response)
      requires Valid() && ctx.setActive && f.plen <= 22 && ctx.setReceived + f.plen <= ctx.setTotal <= cfg.limits.maxText
      modifies repr
      ensures Valid()
      ensures var t := old(Abs()).ctx.put.value;
              (Abs(), answer) == Spec.SetAdvance(cfg, old(Abs()), t.(data := t.data + f.Data()), env.slotSave)
    {
      ghost var s := Abs();
      ExtendSet(f);
      ghost var t := Abs().ctx.put.value;
      AdvanceReplacesStaging(cfg, s, Some(t), None, t, Spec.PwTx(0, [], 0), env);
      answer := AdvanceSet(env.slotSave);
    }

    method NextChunk(f: Frame, env: Spec.Env) returns (answer: Response)
      requires Valid() && SetFrameOk(f) && f.offset > 0
      modifies repr
      ensures Valid() && (Abs(), answer) == Spec.Set(cfg, old(Abs()), f, env)
    {
      var refused := CheckNext(f);
      if refused.Some? {
        answer := RefuseSet(refused.value);
      } else {
        answer := AcceptNext(f, env);
      }
    }

    method ProcessSet(f: Frame, env: Spec.Env) returns (answer: Response)
      requires Valid() && f.plen <= 22
      modifies repr
      ensures Valid() && (Abs(), answer) == Spec.Set(cfg, old(Abs()), f, env)
    {
      var err := CheckSet(f);
      if err.Some? {
        answer := RefuseSet(err.value);
      } else if f.offset == 0 {
        answer := FirstChunk(f, env);
      } else {
        answer := NextChunk(f, env);
      }
    }

    method ProcessClear(f: Frame, env: Spec.Env) returns (answer: Response)
      requires Valid()
      modifies repr
      ensures Valid() && (Abs(), answer) == Spec.Clear(cfg, old(Abs()), f, env)
    {
      if f.slot >= cfg.limits.count {
        return Err(BAD_SLOT);
      }
      var zero := TailIsZero(f, 0);
      if !f.EmptyObject() || !zero {
        return Err(BAD_REQUEST);
      }
      var err := EraseSlot(f.slot, env.slotSave);
      return if err == Success then Ok(0, 0, []) else Err(STORAGE_ERROR);
    }

    method Manage(f: Frame, env: Spec.Env) returns (answer: Response)
      requires Valid() && f.plen <= 22 && Spec.SlotsOk(cfg, Abs())
      modifies repr
      ensures Valid() && (Abs(), answer) == Spec.Manage(cfg, old(Abs()), f, env)
    {
      if f.op == LIST {
        answer := ProcessList(f);
      } else if f.op == GET {
        answer := ProcessGet(f);
      } else if f.op == SET {
        answer := ProcessSet(f, env);
      } else {
        answer := ProcessClear(f, env);
      }
    }

    method Managed(f: Frame, env: Spec.Env, response: array<byte>)
      requires Valid() && f.plen <= 22 && Spec.SlotsOk(cfg, Abs()) && Blank(response, f)
      modifies repr, response
      ensures Valid()
      ensures var (s, r) := Spec.Managed(cfg, old(Abs()), f, env); Abs() == s && FrameBuffer.Holds(response, f, r)
    {
      var denied := Access(env.access);
      if denied.Some? {
        WriteResponse(response, f, Err(denied.value));
        return;
      }
      var answer := Manage(f, env);
      WriteResponse(response, f, answer);
      if answer.Ok? {
        RefreshProtected(env.refresh, response, f, answer);
      }
    }

    // ---------------------------------------------------------------- authentication commands

    method Info(now: nat) returns (info: AuthCore.Info)
      requires Valid()
      modifies authObjects
      ensures Valid() && Abs() == old(Abs()).(auth := A.Expire(old(Abs()).auth, now))
      ensures info.state == Abs().auth.state && info.authenticated == Abs().auth.session.Some?
      ensures info.state == A.Open ==> info.kdf == 1 && info.iterations == A.ITERATIONS_DEFAULT && info.salt == Zeros(16)
      ensures info.state == A.Protected ==>
                info.kdf == 1 && info.iterations == Abs().auth.cred.iterations && info.salt == Abs().auth.cred.salt
    {
      info := auth.GetInfo(now);
    }

    method AuthInfo(f: Frame, now: nat) returns (answer: Response)
      requires Valid()
      modifies repr
      ensures Valid() && (Abs(), answer) == Spec.AuthInfo(old(Abs()), f, now)
    {
      if f.slot != LIST_SLOT || !f.EmptyObject() {
        return Err(BAD_REQUEST);
      }
      var info := Info(now);
      if info.state == A.ErrorLocked {
        return Err(CREDENTIAL_INVALID);
      }
      var flags := (if info.state == A.Protected then 1 else 0) + (if info.authenticated then 2 else 0);
      return Ok(0, 22, [flags, info.kdf] + PutU32(info.iterations) + info.salt);
    }

    method NewChallenge(now: nat, random: Option<A.Nonce>) returns (err: Errno, nonce: A.Nonce)
      requires Valid()
      modifies authObjects
      ensures Valid()
      ensures var (a, e) := A.GenerateChallenge(cfg.t, old(Abs()).auth, now, random);
              Abs() == old(Abs()).(auth := a) && err == e && (e == Success ==> nonce == a.challenge.value.nonce)
    {
      err, nonce := auth.NewChallenge(now, random);
    }

    method AuthChallenge(f: Frame, env: Spec.Env) returns (answer: Response)
      requires Valid()
      modifies repr
      ensures Valid() && (Abs(), answer) == Spec.AuthChallenge(cfg, old(Abs()), f, env)
    {
      if f.slot != LIST_SLOT || !f.EmptyObject() {
        return Err(BAD_REQUEST);
      }
      var err, nonce := NewChallenge(env.op, env.random);
      if err != Success {
        return Err(Spec.ChallengeError(err));
      }
      return Ok(0, 16, nonce);
    }

    method Verify(now: nat, proof: seq<byte>, macOk: bool) returns (err: Errno)
      requires Valid()
      modifies authObjects
      ensures Valid()
      ensures var (a, e) := A.VerifyProof(cfg.mac, cfg.t, old(Abs()).auth, now, proof, macOk);
              Abs() == old(Abs()).(auth := a) && err == e
    {
      err := auth.Verify(now, proof, macOk);
    }

    method AuthProve(f: Frame, env: Spec.Env) returns (answer: Response)
      requires Valid() && f.plen <= 22
      modifies repr
      ensures Valid() && (Abs(), answer) == Spec.AuthProve(cfg, old(Abs()), f, env)
    {
      if f.slot != LIST_SLOT {
        Discard(env.op);
        return Err(BAD_REQUEST);
      }
      if f.offset != 0 || f.total != Spec.PROOF_SIZE || f.plen != Spec.PROOF_SIZE {
        Discard(env.op);
        return Err(BAD_LENGTH);
      }
      var err := Verify(env.op, f.Data(), env.macOk);
      Discard(env.op);
      return if err == Success then Ok(0, 0, []) else Err(Spec.ProofError(err));
    }

    method LockNow()
      requires Valid()
      modifies authObjects
      ensures Valid() && Abs() == old(Abs()).(auth := A.Lock(old(Abs()).auth))
    {
      auth.LockNow();
    }

    method LockCommand(f: Frame, now: nat) returns (answer: Response)
      requires Valid()
      modifies repr
      ensures Valid() && (Abs(), answer) == Spec.LockCommand(old(Abs()), f, now)
    {
      if f.slot != LIST_SLOT || !f.EmptyObject() {
        return Err(BAD_REQUEST);
      }
      LockNow();
      Discard(now);
      return Ok(0, 0, []);
    }

    method Change(now: nat, requested: A.Credential, save: Errno) returns (err: Errno)
      requires Valid()
      modifies authObjects
      ensures Valid()
      ensures var (a, e) := A.SetCredential(old(Abs()).auth, now, requested, save);
              Abs() == old(Abs()).(auth := a) && err == e
    {
      err := auth.Change(now, requested, save);
    }

    // ---------------------------------------------------------------- PASSWORD_SET

    method StartPassword(f: Frame)
      requires Valid() && f.plen <= 22
      modifies ctxObjects
      ensures Valid() && ctx.pwActive
      ensures Abs() == old(Abs()).(ctx := old(Abs()).ctx.(pw := Some(Spec.PwTx(f.rid, f.Data(), old(Abs()).auth.epoch))))
    {
      ctx.StartPassword(f.rid, f.Data(), auth.epoch);
    }

    method ExtendPassword(f: Frame)
      requires Valid() && ctx.pwActive && f.plen <= 22 && ctx.pwReceived + f.plen <= Spec.PASSWORD_LENGTH
      modifies ctxObjects
      ensures Valid() && ctx.pwActive
      ensures var t := old(Abs()).ctx.pw.value;
              Abs() == old(Abs()).(ctx := old(Abs()).ctx.(pw := Some(t.(data := t.data + f.Data()))))
    {
      ctx.ExtendPassword(f.Data());
    }

    method RefusePassword(f: Frame, status: ErrorStatus, response: array<byte>)
      requires Valid() && Blank(response, f)
      modifies ctxObjects, response
      ensures Valid() && Abs() == Spec.ClearPassword(old(Abs())) && FrameBuffer.Holds(response, f, Err(status))
    {
      ClearPassword();
      WriteResponse(response, f, Err(status));
    }

    method InstallCredential(env: Spec.Env) returns (err: Errno)
      requires Valid() && ctx.pwActive && ctx.pwReceived == Spec.PASSWORD_LENGTH
      modifies repr
      ensures Valid()
      ensures var t := old(Abs()).ctx.pw.value;
              var (a, e) := A.SetCredential(old(Abs()).auth, env.op, Spec.ParseCredential(t.data), env.credSave);
              Abs() == Spec.ClearPassword(old(Abs())).(auth := a) && err == e
    {
      var data := ctx.pwStaging[..];
      assert data == ctx.pwStaging[..ctx.pwReceived];
      err := Change(env.op, Spec.ParseCredential(data), env.credSave);
      ClearPassword();
    }

    method CommitPassword(env: Spec.Env) returns (answer: Response)
      requires Valid() && ctx.pwActive && ctx.pwReceived == Spec.PASSWORD_LENGTH
      modifies repr
      ensures Valid()
      ensures (Abs(), answer) == Spec.PasswordAdvance(cfg, old(Abs()), old(Abs()).ctx.pw.value, env)
    {
      var err := InstallCredential(env);
      if err == Success {
        Discard(env.op);
        return Ok(Spec.PASSWORD_LENGTH, Spec.PASSWORD_LENGTH, []);
      } else if err == Einval || err == Eperm {
        return Err(CREDENTIAL_INVALID);
      } else if err == Eacces {
        Discard(env.op);
        return Err(AUTH_REQUIRED);
      } else {
        return Err(STORAGE_ERROR);
      }
    }

    /** Every accepted part keeps the session alive; the last one installs the credential and ends it. */
    method AdvancePassword(f: Frame, env: Spec.Env, response: array<byte>)
      requires Valid() && ctx.pwActive && Blank(response, f)
      modifies repr, response
      ensures Valid()
      ensures var (s, r) := Spec.PasswordAdvance(cfg, old(Abs()), old(Abs()).ctx.pw.value, env);
              Abs() == s && FrameBuffer.Holds(response, f, r)
    {
      if ctx.pwReceived != ctx.pwTotal {
        var answer := Ok(ctx.pwReceived, ctx.pwTotal, []);
        WriteResponse(response, f, answer);
        RefreshProtected(env.refresh, response, f, answer);
      } else {
        var answer := CommitPassword(env);
        WriteResponse(response, f, answer);
      }
    }

    method CheckNextPassword(f: Frame) returns (err: Option<ErrorStatus>)
      requires Valid() && f.total == Spec.PASSWORD_LENGTH
      ensures var t := Abs().ctx.pw;
              err == if t.None? || t.value.rid != f.rid then Some(BAD_REQUEST)
                     else if f.offset != |t.value.data| then Some(BAD_OFFSET) else None
    {
      if !ctx.pwActive || ctx.pwRid != f.rid || ctx.pwTotal != f.total {
        err := Some(BAD_REQUEST);
      } else if f.offset != ctx.pwReceived {
        err := Some(BAD_OFFSET);
      } else {
        err := None;
      }
    }

    method AcceptPassword(f: Frame, env: Spec.Env, response: array<byte>)
      requires Valid() && ctx.pwActive && f.plen <= 22 && ctx.pwReceived + f.plen <= Spec.PASSWORD_LENGTH && Blank(response, f)
      modifies repr, response
      ensures Valid()
      ensures var t := old(Abs()).ctx.pw.value;
              var (s, r) := Spec.PasswordAdvance(cfg, old(Abs()), t.(data := t.data + f.Data()), env);
              Abs() == s && FrameBuffer.Holds(response, f, r)
    {
      ghost var s := Abs();
      ExtendPassword(f);
      ghost var t := Abs().ctx.pw.value;
      AdvanceReplacesStaging(cfg, s, None, Some(t), Spec.SetTx(0, 0, 0, [], 0), t, env);
      AdvancePassword(f, env, response);
    }

    method ContinuePassword(f: Frame, env: Spec.Env, response: array<byte>)
      requires Valid() && f.slot == LIST_SLOT && f.total == Spec.PASSWORD_LENGTH && 0 < f.offset <= f.total
      requires 0 < f.plen <= 22 && f.plen <= f.total - f.offset && Blank(response, f)
      modifies repr, response
      ensures Valid()
      ensures var (s, r) := Spec.PasswordSet(cfg, old(Abs()), f, env); Abs() == s && FrameBuffer.Holds(response, f, r)
    {
      var refused := CheckNextPassword(f);
      if refused.Some? {
        RefusePassword(f, refused.value, response);
      } else {
        AcceptPassword(f, env, response);
      }
    }

    method PasswordSet(f: Frame, env: Spec.Env, response: array<byte>)
      requires Valid() && f.plen <= 22 && Blank(response, f)
      modifies repr, response
      ensures Valid()
      ensures var (s, r) := Spec.PasswordSet(cfg, old(Abs()), f, env); Abs() == s && FrameBuffer.Holds(response, f, r)
    {
      if f.slot != LIST_SLOT {
        RefusePassword(f, BAD_REQUEST, response);
      } else if f.total != Spec.PASSWORD_LENGTH {
        RefusePassword(f, BAD_LENGTH, response);
      } else if f.offset > f.total {
        RefusePassword(f, BAD_OFFSET, response);
      } else if f.plen == 0 || f.plen > f.total - f.offset {
        RefusePassword(f, BAD_LENGTH, response);
      } else if f.offset == 0 {
        StartPassword(f);
        AdvancePassword(f, env, response);
      } else {
        ContinuePassword(f, env, response);
      }
    }

    method ManagedPassword(f: Frame, env: Spec.Env, response: array<byte>)
      requires Valid() && f.plen <= 22 && Blank(response, f)
      modifies repr, response
      ensures Valid()
      ensures var (s, r) := Spec.ManagedPassword(cfg, old(Abs()), f, env); Abs() == s && FrameBuffer.Holds(response, f, r)
    {
      var denied := Access(env.access);
      if denied.Some? {
        WriteResponse(response, f, Err(denied.value));
      } else {
        PasswordSet(f, env, response);
      }
    }

    // ---------------------------------------------------------------- dynamic commands

    method Capabilities(f: Frame) returns (answer: Response)
      requires Valid()
      ensures answer == Spec.Capabilities(cfg, f)
    {
      if f.slot >= |store.slots| {
        return Err(BAD_SLOT);
      }
      if !f.EmptyObject() {
        return Err(BAD_REQUEST);
      }
      var flags := 0x47;
      if cfg.clearOnUsb {
        flags := flags + 0x08;
      }
      if cfg.clearOnProfile {
        flags := flags + 0x10;
      }
      if cfg.clearOnEndpoint {
        flags := flags + 0x20;
      }
      return Ok(0, 22, [2, |store.slots|, flags, 0, Lo(D.MAX_LENGTH), Hi(D.MAX_LENGTH)]
                       + PutU32(Spec.DEFAULT_TTL) + PutU32(D.MIN_TTL) + PutU32(D.MAX_TTL) + PutU32(30));
    }

    method SetDeadline(deadline: nat)
      requires Valid() && ctx.dynActive
      modifies ctxObjects
      ensures Valid() && ctx.dynActive
      ensures Abs() == old(Abs()).(ctx := old(Abs()).ctx.(dyn := Some(old(Abs()).ctx.dyn.value.(deadline := deadline))))
    {
      ctx.SetDeadline(deadline);
    }

    /** (Re)start the inactivity timer for this context's upload. */
    method ArmTimer(now: nat, sched: Errno) returns (err: Errno)
      requires Valid() && ctx.dynActive
      modifies this, ctxObjects
      ensures Valid() && Abs() == Spec.ArmTimer(old(Abs()), old(Abs()).ctx.dyn.value, now, sched) && err == sched
    {
      SetDeadline(now + Spec.TRANSACTION_TIMEOUT_MS);
      SetTimer(true, if sched == Success then Some(now + Spec.TRANSACTION_TIMEOUT_MS) else timeout);
      return sched;
    }

    method RefuseUpload(now: nat, status: ErrorStatus) returns (answer: Response)
      requires Valid()
      modifies repr
      ensures Valid() && (Abs(), answer) == (Spec.ClearDynamic(old(Abs()), now), Err(status))
    {
      ClearDynamic(now);
      return Err(status);
    }

    method CheckBegin(f: Frame) returns (err: Option<ErrorStatus>)
      requires Valid()
      ensures err == Spec.BeginError(cfg, f)
    {
      if f.slot >= |store.slots| {
        return Some(BAD_SLOT);
      }
      if f.offset != 0 {
        return Some(BAD_OFFSET);
      }
      if f.total == 0 || f.total > D.MAX_LENGTH {
        return Some(BAD_LENGTH);
      }
      if f.plen != 0 && f.plen != 1 && f.plen != 4 && f.plen != 5 {
        return Some(BAD_LENGTH);
      }
      if Spec.BeginFlags(f) >= 2 {
        return Some(BAD_REQUEST);
      }
      var ttl := Spec.BeginTtl(f);
      if ttl < D.MIN_TTL || ttl > D.MAX_TTL {
        return Some(BAD_LENGTH);
      }
      return None;
    }

    method BeginStaging(f: Frame, now: nat) returns (err: Errno)
      requires Valid()
      modifies storeObjects
      ensures Valid()
      ensures var (st, e) := D.Begin(old(Abs()).store, now, f.slot, f.total, Spec.BeginTtl(f), Spec.BeginFlags(f) == 0);
              Abs() == old(Abs()).(store := st) && err == e
    {
      err := store.BeginLocked(now, f.slot, f.total, Spec.BeginTtl(f), Spec.BeginFlags(f) == 0);
    }

    method StartUpload(f: Frame)
      requires Valid()
      modifies ctxObjects
      ensures Valid() && ctx.dynActive
      ensures var t := old(Abs()).ctx.dyn;
              var d := if t.Some? then t.value.deadline else 0;
              Abs() == old(Abs()).(ctx := old(Abs()).ctx.(dyn := Some(Spec.DynTx(f.slot, f.rid, f.total, 0, d, old(Abs()).auth.epoch))))
    {
      ctx.StartUpload(f.slot, f.rid, f.total, auth.epoch);
    }

    method StartTimedUpload(f: Frame, now: nat, sched: Errno) returns (err: Errno)
      requires Valid()
      modifies this, ctxObjects
      ensures Valid() && err == sched
      ensures Abs() == Spec.ArmTimer(old(Abs()), Spec.DynTx(f.slot, f.rid, f.total, 0, 0, old(Abs()).auth.epoch), now, sched)
    {
      StartUpload(f);
      err := ArmTimer(now, sched);
    }

    method BeginChecked(f: Frame, env: Spec.Env) returns (err: Errno)
      requires Valid()
      modifies repr
      ensures Valid()
      ensures var (st, e) := D.Begin(old(Abs()).store, env.op, f.slot, f.total, Spec.BeginTtl(f), Spec.BeginFlags(f) == 0);
              var t := old(Abs()).(store := st);
              && err == (if e == Success then env.sched else e)
              && Abs() == if e == Success
                          then Spec.ArmTimer(t, Spec.DynTx(f.slot, f.rid, f.total, 0, 0, t.auth.epoch), env.op, env.sched) else t
    {
      err := BeginStaging(f, env.op);
      if err == Success {
        err := StartTimedUpload(f, env.op, env.sched);
      }
    }

    method AcceptBegin(f: Frame, env: Spec.Env) returns (answer: Response)
      requires Valid() && Spec.BeginError(cfg, f).None?
      modifies repr
      ensures Valid() && (Abs(), answer) == Spec.BeginUpload(cfg, old(Abs()), f, env)
    {
      var err := BeginChecked(f, env);
      if err == Success {
        answer := Ok(0, f.total, []);
      } else {
        answer := RefuseUpload(env.op, if err == Einval then BAD_LENGTH else INTERNAL);
      }
    }

    method BeginUpload(f: Frame, env: Spec.Env) returns (answer: Response)
      requires Valid()
      modifies repr
      ensures Valid() && (Abs(), answer) == Spec.BeginUpload(cfg, old(Abs()), f, env)
    {
      var refused := CheckBegin(f);
      if refused.Some? {
        answer := RefuseUpload(env.op, refused.value);
      } else {
        answer := AcceptBegin(f, env);
      }
    }

    method CheckData(f: Frame) returns (err: Option<ErrorStatus>)
      requires Valid() && f.plen <= 22
      ensures err == Spec.DataError(cfg, Abs(), f)
    {
      if f.slot >= |store.slots| || (ctx.dynActive && f.slot != ctx.dynSlot) {
        return Some(BAD_SLOT);
      }
      if f.total == 0 || f.total > D.MAX_LENGTH {
        return Some(BAD_LENGTH);
      }
      if f.offset > f.total {
        return Some(BAD_OFFSET);
      }
      if f.plen == 0 || f.plen > f.total - f.offset {
        return Some(BAD_LENGTH);
      }
      if !ctx.dynActive || ctx.dynRid != f.rid || ctx.dynTotal != f.total {
        return Some(BAD_REQUEST);
      }
      if f.offset != ctx.dynReceived {
        return Some(BAD_OFFSET);
      }
      var ok := PayloadIsValid(f);
      return if ok then None else Some(INVALID_TEXT);
    }

    /** The payload goes to the store straight from the request buffer. */
    method AppendChunk(request: array<byte>, f: Frame, now: nat) returns (err: Errno)
      requires Valid() && request !in repr && request.Length == 32 && f == FromBytes(request[..]) && f.plen <= 22
      modifies storeObjects
      ensures Valid()
      ensures var (st, e) := D.Append(old(Abs()).store, now, f.slot, f.offset, f.Data());
              Abs() == old(Abs()).(store := st) && err == e
    {
      assert request[10..10 + f.plen] == f.Data();
      err := store.Append(now, f.slot, f.offset, request, 10, f.plen);
    }

    method AdvanceUpload(received: u16)
      requires Valid() && ctx.dynActive
      modifies ctxObjects
      ensures Valid() && ctx.dynActive
      ensures Abs() == old(Abs()).(ctx := old(Abs()).ctx.(dyn := Some(old(Abs()).ctx.dyn.value.(received := received))))
    {
      ctx.AdvanceUpload(received);
    }

    method FinishUpload()
      requires Valid()
      modifies this, ctxObjects
      ensures Valid() && Abs() == Spec.ReleaseTimer(old(Abs())).(ctx := old(Abs()).ctx.(dyn := None))
    {
      ReleaseTimer();
      ForgetUpload();
    }

    /** After a chunk went in: finish the upload or wait for the next chunk. */
    method KeepUpload(next: u16, now: nat, sched: Errno) returns (err: Errno)
      requires Valid() && ctx.dynActive && next != ctx.dynTotal
      modifies this, ctxObjects
      ensures Valid() && err == sched
      ensures Abs() == Spec.ArmTimer(old(Abs()), old(Abs()).ctx.dyn.value.(received := next), now, sched)
    {
      AdvanceUpload(next);
      err := ArmTimer(now, sched);
    }

    method AfterChunk(f: Frame, env: Spec.Env) returns (answer: Response)
      requires Valid() && ctx.dynActive && ctx.dynTotal == f.total && f.offset + f.plen <= f.total
      modifies repr
      ensures Valid()
      ensures (Abs(), answer) == Spec.AfterChunk(old(Abs()), f, env)
    {
      var next := f.offset + f.plen;
      if next == ctx.dynTotal {
        FinishUpload();
        return Ok(next, f.total, []);
      }
      var err := KeepUpload(next, env.op, env.sched);
      if err != Success {
        answer := RefuseUpload(env.op, INTERNAL);
        return;
      }
      return Ok(next, f.total, []);
    }

    method AcceptData(request: array<byte>, f: Frame, env: Spec.Env) returns (answer: Response)
      requires Valid() && request !in repr && request.Length == 32 && f == FromBytes(request[..]) && f.plen <= 22
      requires Spec.DataError(cfg, Abs(), f).None?
      modifies repr
      ensures Valid() && (Abs(), answer) == Spec.UploadData(cfg, old(Abs()), f, env)
    {
      var err := AppendChunk(request, f, env.op);
      if err != Success {
        answer := RefuseUpload(env.op, if err == Enoent then BAD_REQUEST else INTERNAL);
      } else {
        answer := AfterChunk(f, env);
      }
    }

    method UploadData(request: array<byte>, f: Frame, env: Spec.Env) returns (answer: Response)
      requires Valid() && request !in repr && request.Length == 32 && f == FromBytes(request[..]) && f.plen <= 22
      modifies repr
      ensures Valid() && (Abs(), answer) == Spec.UploadData(cfg, old(Abs()), f, env)
    {
      var refused := CheckData(f);
      if refused.Some? {
        answer := RefuseUpload(env.op, refused.value);
      } else {
        answer := AcceptData(request, f, env);
      }
    }

    method ClearStored(now: nat, slot: byte)
      requires Valid()
      modifies storeObjects
      ensures Valid() && Abs() == old(Abs()).(store := D.ClearSlot(old(Abs()).store, now, slot))
    {
      store.ClearSlot(now, slot);
    }

    method ClearUpload(f: Frame, env: Spec.Env) returns (answer: Response)
      requires Valid()
      modifies repr
      ensures Valid() && (Abs(), answer) == Spec.ClearUpload(cfg, old(Abs()), f, env)
    {
      if f.slot >= |store.slots| {
        return Err(BAD_SLOT);
      }
      if !f.EmptyObject() {
        return Err(BAD_REQUEST);
      }
      ClearStored(env.op, f.slot);
      if ctx.dynActive && ctx.dynSlot == f.slot {
        FinishUpload();
      }
      return Ok(0, 0, []);
    }

    /** The inactivity timer's handler. */
    method UploadTimeout(now: nat, resched: Errno)
      requires Valid()
      modifies repr
      ensures Valid() && Abs() == Spec.UploadTimeout(old(Abs()), now, resched)
    {
      if !owner || !ctx.dynActive {
        SetTimer(false, None);
      } else if now < ctx.dynDeadline {
        SetTimer(true, if resched == Success then Some(ctx.dynDeadline) else None);
      } else {
        ClearDynamic(now);
      }
    }

    // ---------------------------------------------------------------- the dispatcher

    /** Checks on every frame, in this order. */
    method CheckBase(f: Frame) returns (err: Option<ErrorStatus>)
      ensures err == Spec.BaseError(f)
    {
      if f.version != VERSION {
        return Some(BAD_VERSION);
      }
      if !KnownOpcode(f.op) {
        return Some(BAD_OPCODE);
      }
      if f.status != 0 {
        return Some(BAD_REQUEST);
      }
      if f.plen > 22 {
        return Some(BAD_LENGTH);
      }
      var zero := TailIsZero(f, f.plen);
      return if zero then None else Some(BAD_REQUEST);
    }

    /** The dynamic commands. */
    method DispatchDynamic(request: array<byte>, f: Frame, env: Spec.Env) returns (answer: Response)
      requires Valid() && Spec.SlotsOk(cfg, Abs()) && request !in repr && request.Length == 32 && f == FromBytes(request[..])
      requires f.plen <= 22
      requires f.op == CAPABILITIES || f.op == DYNAMIC_BEGIN || f.op == DYNAMIC_DATA || f.op == DYNAMIC_CLEAR
      modifies repr
      ensures Valid() && (Abs(), answer) == Spec.Dispatch(cfg, old(Abs()), f, env)
    {
      if f.op == CAPABILITIES {
        answer := Capabilities(f);
      } else if f.op == DYNAMIC_BEGIN {
        answer := BeginUpload(f, env);
      } else if f.op == DYNAMIC_DATA {
        answer := UploadData(request, f, env);
      } else {
        answer := ClearUpload(f, env);
      }
    }

    method DispatchAuth(f: Frame, env: Spec.Env) returns (answer: Response)
      requires Valid() && Spec.SlotsOk(cfg, Abs()) && f.plen <= 22
      requires f.op == AUTH_INFO || f.op == AUTH_CHALLENGE || f.op == AUTH_PROVE || f.op == LOCK
      modifies repr
      ensures Valid() && (Abs(), answer) == Spec.Dispatch(cfg, old(Abs()), f, env)
    {
      if f.op == AUTH_INFO {
        answer := AuthInfo(f, env.op);
      } else if f.op == AUTH_CHALLENGE {
        answer := AuthChallenge(f, env);
      } else if f.op == AUTH_PROVE {
        answer := AuthProve(f, env);
      } else {
        answer := LockCommand(f, env.op);
      }
    }

    method Dispatch(request: array<byte>, f: Frame, env: Spec.Env, response: array<byte>)
      requires Valid() && Spec.SlotsOk(cfg, Abs()) && request !in repr && request.Length == 32 && f == FromBytes(request[..])
      requires f.plen <= 22 && KnownOpcode(f.op) && Blank(response, f) && request != response
      modifies repr, response
      ensures Valid()
      ensures var (s, r) := Spec.Dispatch(cfg, old(Abs()), f, env); Abs() == s && FrameBuffer.Holds(response, f, r)
    {
      if f.op == CAPABILITIES || f.op == DYNAMIC_BEGIN || f.op == DYNAMIC_DATA || f.op == DYNAMIC_CLEAR {
        var answer := DispatchDynamic(request, f, env);
        WriteResponse(response, f, answer);
      } else if f.op == AUTH_INFO || f.op == AUTH_CHALLENGE || f.op == AUTH_PROVE || f.op == LOCK {
        var answer := DispatchAuth(f, env);
        WriteResponse(response, f, answer);
      } else if f.op == PASSWORD_SET {
        ManagedPassword(f, env, response);
      } else {
        Managed(f, env, response);
      }
    }

    method AnswerSynced(request: array<byte>, f: Frame, env: Spec.Env, response: array<byte>)
      requires Valid() && Spec.SlotsOk(cfg, Abs()) && request !in repr && request.Length == 32 && f == FromBytes(request[..])
      requires Blank(response, f) && request != response
      modifies repr, response
      ensures Valid()
      ensures var (s, r) := match Spec.BaseError(f)
                case Some(e) => (if e == BAD_OPCODE then old(Abs()) else Spec.DiscardForOpcode(old(Abs()), f.op, env.op), Err(e))
                case None => Spec.Dispatch(cfg, old(Abs()), f, env);
              Abs() == s && FrameBuffer.Holds(response, f, r)
    {
      var err := CheckBase(f);
      if err == Some(BAD_OPCODE) {
        WriteResponse(response, f, Err(BAD_OPCODE));
      } else if err.Some? {
        DiscardForOpcode(f.op, env.op);
        WriteResponse(response, f, Err(err.value));
      } else {
        Dispatch(request, f, env, response);
      }
    }

    method InitResponse(response: array<byte>, f: Frame)
      requires Valid() && response !in repr && response.Length == 32
      modifies response
      ensures Valid() && Abs() == old(Abs()) && Blank(response, f)
    {
      FrameBuffer.Init(response, f);
    }

    method Answer(request: array<byte>, f: Frame, env: Spec.Env, response: array<byte>)
      requires Valid() && Spec.SlotsOk(cfg, Abs()) && request !in repr && request.Length == 32 && f == FromBytes(request[..])
      requires Blank(response, f) && request != response
      modifies repr, response
      ensures Valid()
      ensures var (s, r) := Spec.Process(cfg, old(Abs()), f, env); Abs() == s && FrameBuffer.Holds(response, f, r)
    {
      Sync(env.sync);
      AnswerSynced(request, f, env, response);
    }

    /** Handle one 32-byte request and leave the answer in the response buffer. */
    method Process(request: array<byte>, response: array<byte>, env: Spec.Env)
      requires Valid() && Spec.SlotsOk(cfg, Abs())
      requires request !in repr && response !in repr && request != response
      requires request.Length == 32 && response.Length == 32
      modifies repr, response
      ensures Valid()
      ensures var f := FromBytes(request[..]);
              var (s, r) := Spec.Process(cfg, old(Abs()), f, env);
              Abs() == s && FrameBuffer.Holds(response, f, r)
    {
      var f := FrameBuffer.Decode(request);
      InitResponse(response, f);
      Answer(request, f, env, response);
    }

    // ---------------------------------------------------------------- USB notifications

    method ResetTransport()
      requires Valid()
      modifies authObjects
      ensures Valid() && Abs() == old(Abs()).(auth := A.TransportReset(old(Abs()).auth))
    {
      auth.ResetTransport();
    }

    method ClearAllStored(now: nat)
      requires Valid()
      modifies storeObjects
      ensures Valid() && Abs() == old(Abs()).(store := D.ClearAll(old(Abs()).store, now))
    {
      store.ClearAll(now);
    }

    /** What a connection-state notification, with the samples taken, does to everything but the USB queue and permit. */
    method UsbReset(now: nat, s: UsbStatus.Samples)
      requires Valid()
      modifies repr
      ensures Valid() && Abs() == Spec.UsbReset(cfg, old(Abs()), now, s.Disconnects())
    {
      ResetTransport();
      Discard(now);
      var stable := s.before == s.after;
      var matches := stable && UsbStatus.ConnStateFor(s.after) == s.event;
      if cfg.clearOnUsb && stable && s.after == UsbStatus.Disconnected && matches && s.event == UsbStatus.NotConnected {
        ClearAllStored(now);
      }
    }
  }
}
