/** What BEGIN and DATA are answered with, and what they leave, told from the bytes of the frame. */
module UploadAnswers {
  import opened Bytes
  import opened Wire
  import opened ProtocolSpec
  import D = DynamicSpec
  import DT = DynamicTheorems
  import PI = ProtocolInvariants

  /** The four payloads of a BEGIN: nothing, the flags, the lifetime, or both. */
  predicate HasPayload(f: Frame) {
    f.plen == 0 || f.plen == 1 || f.plen == 4 || f.plen == 5
  }

  /** The lifetime in seconds that it carries, or the default. */
  function Lifetime(f: Frame): nat {
    if f.plen < 4 then 300
    else
      var b0: int, b1: int, b2: int, b3: int := f.body[0], f.body[1], f.body[2], f.body[3];
      b0 + 256 * b1 + 65_536 * b2 + 16_777_216 * b3
  }

  function Flags(f: Frame): byte {
    if f.plen == 1 || f.plen == 5 then f.body[f.plen - 1] else 0
  }

  /** What the first thing wrong with a BEGIN is answered with. */
  function BeginStatus(c: Config, f: Frame): Option<ErrorStatus> {
    if f.slot >= c.dynSlots then Some(BAD_SLOT)
    else if f.offset != 0 then Some(BAD_OFFSET)
    else if !(1 <= f.total <= 512) || !HasPayload(f) then Some(BAD_LENGTH)
    else if Flags(f) > 1 then Some(BAD_REQUEST)
    else if !(1 <= Lifetime(f) <= 86_400) then Some(BAD_LENGTH)
    else None
  }

  predicate Asks(f: Frame, op: byte) {
    BaseError(f).None? && f.op == op
  }

  /** No upload is left, and the inactivity timer is not this context's. */
  predicate NoUpload(t: System) {
    t.ctx.dyn.None? && t.store.staged.None? && !t.owner
  }

  /** An upload to the slot, with nothing received yet, whose timer is pending for its deadline. */
  predicate Opened(t: System, f: Frame, at: nat) {
    && t.store.staged == Some(D.Staged(f.slot, f.total, Lifetime(f), Flags(f) == 0, []))
    && t.ctx.dyn.Some?
    && var d := t.ctx.dyn.value;
       d.slot == f.slot && d.rid == f.rid && d.total == f.total && d.received == 0 && d.deadline == at + 30_000
       && t.owner && t.timeout == Some(at + 30_000)
  }

  lemma PayloadIsRead(f: Frame)
    requires HasPayload(f)
    ensures BeginTtl(f) == Lifetime(f) && BeginFlags(f) == Flags(f)
  {
  }

  lemma BeginOf(c: Config, s: System, f: Frame, env: Env)
    requires PI.Inv(c, s) && BeginStatus(c, f).None?
    ensures var (t, r) := BeginUpload(c, s, f, env);
            match env.sched
            case Success => r == Ok(0, f.total, []) && Opened(t, f, env.op)
            case Einval => r == Err(BAD_LENGTH) && NoUpload(t)
            case _ => r == Err(INTERNAL) && NoUpload(t)
  {
    PayloadIsRead(f);
    PI.BeginNeverRefused(c, s, f, env.op);
  }

  lemma BeginRefused(c: Config, s: System, f: Frame, env: Env)
    requires BeginStatus(c, f).Some?
    ensures var (t, r) := BeginUpload(c, s, f, env); r == Err(BeginStatus(c, f).value) && NoUpload(t)
  {
    if HasPayload(f) {
      PayloadIsRead(f);
    }
  }

  lemma BeginSees(c: Config, s: System, f: Frame, env: Env)
    requires ConfigOk(c) && SlotsOk(c, s) && Asks(f, DYNAMIC_BEGIN)
    ensures Process(c, s, f, env) == BeginUpload(c, Sync(s, env.sync), f, env)
  {
  }

  /**
   * BEGIN is answered OK exactly when slot, offset, length, flags and lifetime are in range and the timer can be armed; then
   * a fresh upload with exactly those terms is open, whatever was open before. Any other answer names the first thing that
   * is wrong and leaves no upload.
   */
  lemma BeginIsAnswered(c: Config, s: System, f: Frame, env: Env)
    requires ConfigOk(c) && PI.Inv(c, s) && Asks(f, DYNAMIC_BEGIN)
    ensures var (t, r) := Process(c, s, f, env);
            if BeginStatus(c, f).Some? then r == Err(BeginStatus(c, f).value) && NoUpload(t)
            else match env.sched
              case Success => r == Ok(0, f.total, []) && Opened(t, f, env.op)
              case Einval => r == Err(BAD_LENGTH) && NoUpload(t)
              case _ => r == Err(INTERNAL) && NoUpload(t)
  {
    BeginSees(c, s, f, env);
    PI.SyncKeepsInv(c, s, env.sync);
    if BeginStatus(c, f).Some? {
      BeginRefused(c, Sync(s, env.sync), f, env);
    } else {
      BeginOf(c, Sync(s, env.sync), f, env);
    }
  }

  // ------------------------------------------------------------------ DATA

  /** The chunk goes on with the open upload. */
  predicate Continues(s: System, f: Frame) {
    s.ctx.dyn.Some? && var d := s.ctx.dyn.value; d.slot == f.slot && d.rid == f.rid && d.total == f.total && d.received == f.offset
  }

  predicate ChunkFits(f: Frame) {
    f.plen <= 22 && 1 <= f.total <= 512 && 1 <= f.plen && f.offset + f.plen <= f.total && TextOk(f.Data())
  }

  lemma DataOf(c: Config, s: System, f: Frame, env: Env)
    requires PI.Inv(c, s) && ChunkFits(f) && Continues(s, f)
    ensures var (t, r) := UploadData(c, s, f, env);
            var next := f.offset + f.plen;
            if D.ExpireDue(s.store, env.op).staged.None? then r == Err(BAD_REQUEST) && NoUpload(t)
            else if next < f.total && env.sched != Success then r == Err(INTERNAL) && NoUpload(t)
            else
              && r == Ok(next, f.total, []) && s.store.staged.Some? && f.slot < |t.store.slots|
              && var g := s.store.staged.value.(text := s.store.staged.value.text + f.Data());
                 if next < f.total then
                   t.store.staged == Some(g) && t.ctx.dyn == Some(s.ctx.dyn.value.(received := next, deadline := env.op + 30_000))
                   && t.owner && t.timeout == Some(env.op + 30_000)
                 else
                   NoUpload(t) && t.timeout == None
                   && t.store.slots[f.slot] == Some(D.Committed(g.text, env.op + g.ttl * 1000, g.consume))
  {
    PI.AppendRefusedOnlyWhenGone(c, s, f, env.op);
  }

  lemma DataRefused(c: Config, s: System, f: Frame, env: Env)
    requires PI.Inv(c, s) && f.plen <= 22 && !(ChunkFits(f) && Continues(s, f))
    ensures var (t, r) := UploadData(c, s, f, env);
            && NoUpload(t)
            && r == Err(if f.slot >= c.dynSlots || (s.ctx.dyn.Some? && s.ctx.dyn.value.slot != f.slot) then BAD_SLOT
                        else if !(1 <= f.total <= 512) then BAD_LENGTH
                        else if f.offset > f.total then BAD_OFFSET
                        else if f.plen == 0 || f.offset + f.plen > f.total then BAD_LENGTH
                        else if s.ctx.dyn.None? || s.ctx.dyn.value.rid != f.rid || s.ctx.dyn.value.total != f.total then BAD_REQUEST
                        else if s.ctx.dyn.value.received != f.offset then BAD_OFFSET
                        else INVALID_TEXT)
  {
  }

  /**
   * DATA is answered OK exactly when the chunk is text that fits and goes on with the open upload, its staging is still there
   * and, unless it completes the upload, the timer can be armed. Then the upload has grown by the chunk, or its text is in
   * the slot with a lifetime from now on and the timer is released. Any other answer names the first thing that is wrong and
   * leaves no upload.
   */
  lemma DataIsAnswered(c: Config, s: System, f: Frame, env: Env)
    requires ConfigOk(c) && PI.Inv(c, s) && Asks(f, DYNAMIC_DATA)
    ensures var (t, r) := Process(c, s, f, env);
            var u, next := Sync(s, env.sync), f.offset + f.plen;
            if !(ChunkFits(f) && Continues(u, f)) then
              && NoUpload(t)
              && r == Err(if f.slot >= c.dynSlots || (u.ctx.dyn.Some? && u.ctx.dyn.value.slot != f.slot) then BAD_SLOT
                          else if !(1 <= f.total <= 512) then BAD_LENGTH
                          else if f.offset > f.total then BAD_OFFSET
                          else if f.plen == 0 || next > f.total then BAD_LENGTH
                          else if u.ctx.dyn.None? || u.ctx.dyn.value.rid != f.rid || u.ctx.dyn.value.total != f.total then BAD_REQUEST
                          else if u.ctx.dyn.value.received != f.offset then BAD_OFFSET
                          else INVALID_TEXT)
            else if D.ExpireDue(u.store, env.op).staged.None? then r == Err(BAD_REQUEST) && NoUpload(t)
            else if next < f.total && env.sched != Success then r == Err(INTERNAL) && NoUpload(t)
            else
              && r == Ok(next, f.total, []) && u.store.staged.Some? && f.slot < |t.store.slots|
              && var g := u.store.staged.value.(text := u.store.staged.value.text + f.Data());
                 if next < f.total then
                   t.store.staged == Some(g) && t.ctx.dyn == Some(u.ctx.dyn.value.(received := next, deadline := env.op + 30_000))
                   && t.owner && t.timeout == Some(env.op + 30_000)
                 else
                   NoUpload(t) && t.timeout == None
                   && t.store.slots[f.slot] == Some(D.Committed(g.text, env.op + g.ttl * 1000, g.consume))
  {
    var u := Sync(s, env.sync);
    DataSees(c, s, f, env);
    PI.SyncKeepsInv(c, s, env.sync);
    if ChunkFits(f) && Continues(u, f) {
      DataOf(c, u, f, env);
    } else {
      DataRefused(c, u, f, env);
    }
  }

  lemma DataSees(c: Config, s: System, f: Frame, env: Env)
    requires ConfigOk(c) && SlotsOk(c, s) && Asks(f, DYNAMIC_DATA)
    ensures f.plen <= 22 && Process(c, s, f, env) == UploadData(c, Sync(s, env.sync), f, env)
  {
  }
}
