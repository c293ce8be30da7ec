/** The client's writes, set_slot, upload_dynamic and set_password: one frame at a time, a fresh attempt after a loss. */
module MacroClient {
  import opened Bytes
  import opened Wire
  import opened ProtocolSpec
  import opened Transfers
  import opened LossyLink
  import opened Exchanges
  import D = DynamicSpec
  import A = AuthSpec
  import CL = CredentialLoading

  datatype Failure = BadArgument | Lost | Refused(status: byte) | Malformed
  datatype Attempted = Finished | Again(why: Failure) | GiveUp(why: Failure)
  datatype Outcome = Returned | Raised(why: Failure)
  /** Unconfirmed: the answer to the final part was lost, so the part may or may not have been handled. */
  datatype SecretOutcome = Acknowledged | Unconfirmed | NotSet(why: Failure)

  /** A loss and a refusal for want of the right transaction are tried again, every other refusal is final. */
  predicate Retriable(why: Failure) {
    why == Lost || why == Refused(BAD_REQUEST) || why == Refused(BAD_OFFSET)
  }

  /** An answer after which a call sends nothing more. */
  predicate Final(reply: Option<Frame>) {
    reply.Some? && reply.value.status != 0 && !Retriable(Refused(reply.value.status))
  }

  function Bit(b: bool): nat { if b then 1 else 0 }

  /** Nothing final of a credential transfer is under way, and nothing was written since base. */
  predicate StillEarly(j: Job, base: World, w: World)
    requires JobOk(j)
  {
    Unwritten(base, w) && forall p | 0 <= p < |w.requests| :: Early(j, w, p)
  }

  /** While the final frame has not been sent, a live attempt has written nothing. */
  lemma LiveIsEarly(v: View, w: World)
    requires Live(v, w) && v.early && v.k + 1 < Steps(v.j)
    ensures StillEarly(v.j, v.base, w)
  {
    if Asked(v, w) {
      var n := |w.requests|;
      StepOfFrame(v.j, v.rid, v.k);
      assert Own(v.j, w, n - 1);
    }
  }

  /** A call begins clean unless a request that writes is under way. */
  lemma StartsClean(c: Config, j: Job, w: World, early: bool, rid: byte)
    requires WorldOk(c, w) && JobOk(j)
    ensures Clean(View(c, j, w, NoWrites(w), early, rid, 0), w) && (NoWrites(w) ==> StillEarly(j, w, w))
  {
    assert forall p | 0 <= p < |w.requests| && NoWrites(w) :: Bystander(w.requests[p]) && Harmless(j, w, p) && Early(j, w, p);
  }

  /** Neither identifier nor step matters to what has been written so far. */
  lemma CleanForAny(v: View, u: View, w: World)
    requires JobOk(v.j) && Clean(v, w) && u.j == v.j && u.base == v.base && u.clean == v.clean
    ensures Clean(u, w)
  {
  }

  /** The client's reading of an answer: none stands for an acknowledgement of the expected range. */
  function Judge(req: Frame, resp: Frame, offset: nat, total: nat): Option<Attempted> {
    match ValidateResponse(resp, req)
    case ProtocolError => Some(GiveUp(Malformed))
    case RemoteError(status) =>
      Some(if status == BAD_REQUEST || status == BAD_OFFSET then Again(Refused(status)) else GiveUp(Refused(status)))
    case Accepted(n) =>
      if n != 0 || resp.offset != offset || resp.total != total then Some(GiveUp(Malformed)) else None
  }

  /** Whoever answers: only the exact acknowledgement is taken for one, and only a well-formed refusal is tried again or raised. */
  lemma OnlyExactAcknowledges(req: Frame, resp: Frame, offset: nat, total: nat)
    ensures Judge(req, resp, offset, total).None?
            <==> Echoing(resp, req) && resp.status == 0 && resp.plen == 0 && resp.offset == offset && resp.total == total
    ensures Judge(req, resp, offset, total).Some? ==>
              var a := Judge(req, resp, offset, total).value;
              && !a.Finished?
              && (a.why == Malformed || (a.why == Refused(resp.status) && Echoing(resp, req) && 1 <= resp.status <= 15))
              && (a.Again? <==> Retriable(a.why))
  {
    VerdictIff(resp, req, resp.plen);
    VerdictIff(resp, req, resp.status);
  }

  /** The firmware's answers are never malformed, and one that passes as an acknowledgement is one. */
  lemma GenuineIsJudged(v: View, w: World, resp: Frame)
    requires JobOk(v.j) && !v.j.Page? && v.k < Steps(v.j) && SlotsOk(v.c, w.dev) && Genuine(v, w, resp)
    ensures var verdict := Judge(FrameOf(v.j, v.rid, v.k), resp, Upto(v.j, v.k), |Data(v.j)|);
            match verdict
            case None => resp.status == 0 && if v.k + 1 < Steps(v.j) then Progress(v.j, v.rid, v.k + 1, w.dev) else Arrived(v.j, w)
            case Some(a) => !a.Finished? && a.why.Refused? && (a.Again? <==> Retriable(a.why)) && a.why == Refused(resp.status)
                            && (v.early ==> Unwritten(v.base, w))
  {
    EncodeIsAccepted(FrameOf(v.j, v.rid, v.k), Ok(Upto(v.j, v.k), |Data(v.j)|, []));
  }

  /** The device has no reason to refuse, and the link loses nothing from the n-th exchange on. */
  ghost predicate Smooth(v: View, w: World, link: nat -> Trial, n: nat) {
    Eager(v, w) && PromptFrom(v.c, v.j, w.dev.auth, link, n)
  }

  /** What an exchange leaves. */
  ghost predicate Heard(v: View, reply: Option<Frame>, next: byte, m: nat, u: World) {
    && WorldOk(v.c, u) && JobOk(v.j) && v.k < Steps(v.j) && !v.j.Page? && (v.early ==> v.clean && v.j.Secret?)
    && Clean(v, u) && Recent(next, m, u)
    && (reply.Some? ==> u.requests == [] && u.responses == [] && Genuine(v, u, reply.value))
    && (v.early && v.k + 1 < Steps(v.j) ==> StillEarly(v.j, v.base, u))
  }

  /** In a smooth exchange the step is acknowledged, and the next one will be smooth. */
  ghost predicate Smoothly(v: View, w: World, u: World, reply: Option<Frame>, link: nat -> Trial, n: nat)
    requires JobOk(v.j) && v.k < Steps(v.j) && SlotsOk(v.c, u.dev)
  {
    Smooth(v, w, link, n) ==>
      && reply == Some(Encode(FrameOf(v.j, v.rid, v.k), Ack(v.c, v.j, v.k, u.dev))) && reply.value.status == 0
      && (v.k + 1 < Steps(v.j) ==> Smooth(At(v, v.k + 1), u, link, n + 1))
  }

  lemma AskedIsHeard(v: View, w: World, t: Trial, next: byte, m: nat)
    requires Ready(v, w) && !v.j.Page? && Recent(next, m, w) && Age(next, v.rid) < m
    ensures var (u, reply) := Exchanged(v.c, w, FrameOf(v.j, v.rid, v.k), t); Heard(v, reply, next, m, u)
  {
    ExchangeKeepsLive(v, w, t, next, m);
    if v.early && v.k + 1 < Steps(v.j) {
      LiveIsEarly(v, Exchanged(v.c, w, FrameOf(v.j, v.rid, v.k), t).0);
    }
  }

  lemma AskedSmoothly(v: View, w: World, link: nat -> Trial, n: nat)
    requires WorldOk(v.c, w) && JobOk(v.j) && v.k < Steps(v.j)
    ensures var (u, reply) := Exchanged(v.c, w, FrameOf(v.j, v.rid, v.k), link(n)); Smoothly(v, w, u, reply, link, n)
  {
    if Smooth(v, w, link, n) {
      assert Prompt(v.j, link(n));
      PromptExchange(v, w, link(n));
      if v.k + 1 < Steps(v.j) {
        var u := Exchanged(v.c, w, FrameOf(v.j, v.rid, v.k), link(n)).0;
        PromptGoesOn(v.c, v.j, w.dev.auth, u.dev.auth, link, n);
      }
    }
  }

  function At(v: View, k: nat): View {
    v.(k := k)
  }

  /** The attempt stands before step k, or, when there is none, has arrived. */
  ghost predicate Standing(v: View, k: nat, next: byte, m: nat, w: World) {
    && WorldOk(v.c, w) && JobOk(v.j) && k <= Steps(v.j) && !v.j.Page? && Clean(v, w) && Recent(next, m, w)
    && (if k < Steps(v.j) then Ready(At(v, k), w) else w.requests == [] && w.responses == [] && Arrived(v.j, w))
  }

  /** The attempt was given up. */
  ghost predicate Failing(v: View, a: Attempted, final: bool, next: byte, m: nat, w: World) {
    && WorldOk(v.c, w) && JobOk(v.j) && Clean(v, w) && Recent(next, m, w)
    && !a.Finished? && (a.why == Lost || a.why.Refused?) && (a.Again? <==> Retriable(a.why))
    && (v.early && !(final && a.why == Lost) ==> StillEarly(v.j, v.base, w))
  }

  ghost predicate SmoothAt(v: View, k: nat, w: World, link: nat -> Trial, n: nat) {
    k < Steps(v.j) ==> Smooth(At(v, k), w, link, n)
  }

  function Verdict(v: View, reply: Option<Frame>): Option<Attempted>
    requires JobOk(v.j) && v.k < Steps(v.j)
  {
    if reply.None? then Some(Again(Lost)) else Judge(FrameOf(v.j, v.rid, v.k), reply.value, Upto(v.j, v.k), |Data(v.j)|)
  }

  lemma Acknowledged(v: View, k: nat, reply: Option<Frame>, next: byte, m: nat, u: World)
    requires JobOk(v.j) && k < Steps(v.j) && Heard(At(v, k), reply, next, m, u) && Verdict(At(v, k), reply).None?
    ensures Standing(v, k + 1, next, m, u) && !Final(reply)
  {
    GenuineIsJudged(At(v, k), u, reply.value);
  }

  lemma NotAcknowledged(v: View, k: nat, reply: Option<Frame>, next: byte, m: nat, u: World)
    requires JobOk(v.j) && k < Steps(v.j) && Heard(At(v, k), reply, next, m, u) && Verdict(At(v, k), reply).Some?
    ensures var a := Verdict(At(v, k), reply).value;
            Failing(v, a, k + 1 == Steps(v.j), next, m, u) && (Final(reply) <==> a.GiveUp?)
  {
    if reply.Some? {
      GenuineIsJudged(At(v, k), u, reply.value);
    }
  }

  lemma SmoothIsAcknowledged(v: View, u: World, f: Frame)
    requires JobOk(v.j) && v.k < Steps(v.j) && SlotsOk(v.c, u.dev) && !v.j.Page? && f == FrameOf(v.j, v.rid, v.k)
    ensures Verdict(v, Some(Encode(f, Ack(v.c, v.j, v.k, u.dev)))).None?
  {
    EncodeIsAccepted(f, Ok(Upto(v.j, v.k), |Data(v.j)|, []));
  }

  /** What step k came to, from world w to world u. */
  ghost predicate Concluded(v: View, k: nat, w: World, u: World, link: nat -> Trial, n: nat, next: byte, m: nat, verdict: Option<Attempted>) {
    && (if verdict.None? then Standing(v, k + 1, next, m, u) else Failing(v, verdict.value, k + 1 == Steps(v.j), next, m, u))
    && (SmoothAt(v, k, w, link, n) ==> verdict.None? && SmoothAt(v, k + 1, u, link, n + 1))
  }

  lemma StepConcluded(v: View, k: nat, w: World, u: World, reply: Option<Frame>, link: nat -> Trial, n: nat, next: byte, m: nat)
    requires JobOk(v.j) && k < Steps(v.j) && Heard(At(v, k), reply, next, m, u) && Smoothly(At(v, k), w, u, reply, link, n)
    ensures var verdict := Verdict(At(v, k), reply);
            Concluded(v, k, w, u, link, n, next, m, verdict) && (Final(reply) <==> verdict.Some? && verdict.value.GiveUp?)
  {
    if Verdict(At(v, k), reply).None? {
      Acknowledged(v, k, reply, next, m, u);
    } else {
      NotAcknowledged(v, k, reply, next, m, u);
    }
    if Smooth(At(v, k), w, link, n) {
      SmoothIsAcknowledged(At(v, k), u, FrameOf(v.j, v.rid, k));
    }
  }

  class Client {
    const c: Config
    const retries: nat
    const link: nat -> Trial
    var nextRid: byte
    var exchanges: nat
    /** How many identifiers were issued. */
    ghost var issued: nat
    /** How many final refusals were heard, and how many exchanges there had been when the latest one was. */
    ghost var refusals: nat
    ghost var refusedAt: nat
    /** Everything outside the client. */
    var world: World

    constructor (c: Config, retries: nat, link: nat -> Trial, world: World)
      ensures this.c == c && this.retries == retries && this.link == link && this.world == world && nextRid == 0
    {
      this.c, this.retries, this.link, this.world := c, retries, link, world;
      nextRid, exchanges, issued, refusals, refusedAt := 0, 0, 0, 0, 0;
    }

    method RequestId() returns (rid: byte)
      modifies this`nextRid, this`issued
      ensures rid == old(nextRid) && nextRid == (rid + 1) % 256 && issued == old(issued) + 1
    {
      rid := nextRid;
      issued := issued + 1;
      nextRid := (nextRid + 1) % 256;
    }

    /** Time passes until the next read. */
    method Wait(es: seq<Event>)
      requires WorldOk(c, world)
      modifies this`world
      ensures world == HappenAll(c, old(world), es)
    {
      for i := 0 to |es|
        invariant WorldOk(c, world) && world == HappenAll(c, old(world), es[..i])
      {
        assert es[..i + 1][..i] == es[..i];
        world := Happen(c, world, es[i]);
      }
      assert es[..|es|] == es;
    }

    /** Read until an answer to f comes, nothing comes, or the deadline passes. */
    method Listen(f: Frame, rounds: seq<seq<Event>>) returns (reply: Option<Frame>)
      requires WorldOk(c, world)
      modifies this`world
      ensures (world, reply) == Listened(c, old(world), f, rounds)
    {
      for i := 0 to |rounds|
        invariant WorldOk(c, world) && Listened(c, world, f, rounds[i..]) == Listened(c, old(world), f, rounds)
      {
        assert rounds[i..][1..] == rounds[i + 1..];
        Wait(rounds[i]);
        if world.responses == [] {
          return None;
        }
        var resp := world.responses[0];
        world := Popped(world);
        if resp.rid == f.rid && resp.op == f.op && resp.slot == f.slot {
          return Some(resp);
        }
      }
      return None;
    }

    /** Since there had been n final refusals one more was heard, in the latest exchange, or none, as `refused` says. */
    ghost predicate Told(n: nat, refused: bool)
      reads this`refusals, this`refusedAt, this`exchanges
    {
      refusals == n + Bit(refused) && (refused ==> refusedAt == exchanges)
    }

    /** Send a frame and wait for the first response with its identifier, opcode and slot. */
    method Exchange(f: Frame) returns (reply: Option<Frame>)
      requires WorldOk(c, world)
      modifies this`exchanges, this`world, this`refusals, this`refusedAt
      ensures (world, reply) == Exchanged(c, old(world), f, link(old(exchanges))) && exchanges == old(exchanges) + 1
      ensures Told(old(refusals), Final(reply))
    {
      reply := Trade(f);
      if Final(reply) {
        refusals, refusedAt := refusals + 1, exchanges;
      }
    }

    method Trade(f: Frame) returns (reply: Option<Frame>)
      requires WorldOk(c, world)
      modifies this`exchanges, this`world
      ensures (world, reply) == Exchanged(c, old(world), f, link(old(exchanges))) && exchanges == old(exchanges) + 1
    {
      var t := link(exchanges);
      exchanges := exchanges + 1;
      if t.written {
        world := Sent(world, f);
      }
      if !t.reported {
        return None;
      }
      reply := Listen(f, t.rounds);
    }

    // ---------------------------------------------------------------- one attempt and its repetition

    /** Send the frame of step k; none stands for its acknowledgement. */
    method SendStep(ghost v: View, ghost m: nat, j: Job, rid: byte, k: nat) returns (verdict: Option<Attempted>)
      requires v.c == c && v.j == j && v.rid == rid && Standing(v, k, nextRid, m, world) && k < Steps(j) && Age(nextRid, rid) < m
      modifies this`exchanges, this`world, this`refusals, this`refusedAt
      ensures Concluded(v, k, old(world), world, link, old(exchanges), nextRid, m, verdict) && exchanges == old(exchanges) + 1
      ensures Told(old(refusals), verdict.Some? && verdict.value.GiveUp?)
    {
      AskedIsHeard(At(v, k), world, link(exchanges), nextRid, m);
      AskedSmoothly(At(v, k), world, link, exchanges);
      var f := FrameOf(j, rid, k);
      var reply := Exchange(f);
      StepConcluded(v, k, old(world), world, reply, link, old(exchanges), nextRid, m);
      verdict := if reply.None? then Some(Again(Lost)) else Judge(f, reply.value, Upto(j, k), |Data(j)|);
    }

    /** Send the frames of one attempt in order, each after the acknowledgement of the one before; final: the last was sent. */
    method Attempt(ghost v: View, ghost m: nat, j: Job, rid: byte) returns (a: Attempted, final: bool)
      requires v.c == c && v.j == j && v.rid == rid && Standing(v, 0, nextRid, m, world) && Age(nextRid, rid) < m
      modifies this`exchanges, this`world, this`refusals, this`refusedAt
      ensures if a.Finished? then Standing(v, Steps(j), nextRid, m, world) else Failing(v, a, final, nextRid, m, world)
      ensures SmoothAt(v, 0, old(world), link, old(exchanges)) ==> a.Finished?
      ensures Told(old(refusals), a.GiveUp?)
    {
      for k := 0 to Steps(j)
        invariant Standing(v, k, nextRid, m, world) && refusals == old(refusals)
        invariant SmoothAt(v, 0, old(world), link, old(exchanges)) ==> SmoothAt(v, k, world, link, exchanges)
      {
        var verdict := SendStep(v, m, j, rid, k);
        if verdict.Some? {
          return verdict.value, k + 1 == Steps(j);
        }
      }
      return Finished, true;
    }

    /** One attempt under a new identifier. */
    method TryOnce(ghost v: View, ghost m: nat, j: Job) returns (a: Attempted, final: bool)
      requires v.c == c && v.j == j && v.k == 0 && WorldOk(c, world) && JobOk(j) && !j.Page? && Clean(v, world)
      requires v.early ==> v.clean && j.Secret? && StillEarly(j, v.base, world)
      requires Recent(nextRid, m, world) && m < 256
      modifies this`nextRid, this`issued, this`exchanges, this`world, this`refusals, this`refusedAt
      ensures WorldOk(c, world) && Clean(v, world) && Recent(nextRid, m + 1, world) && issued == old(issued) + 1
      ensures a.Finished? ==> world.requests == [] && world.responses == [] && Arrived(j, world)
      ensures !a.Finished? ==> (a.why == Lost || a.why.Refused?) && (a.Again? <==> Retriable(a.why))
      ensures !a.Finished? && v.early && !(final && a.why == Lost) ==> StillEarly(j, v.base, world)
      ensures Told(old(refusals), a.GiveUp?)
      ensures Smooth(v, old(world), link, old(exchanges)) ==> a.Finished?
    {
      ghost var x := v.(rid := nextRid);
      CleanForAny(v, x, world);
      NewIdentifier(nextRid, m, world);
      var rid := RequestId();
      a, final := Attempt(x, m + 1, j, rid);
      CleanForAny(x, v, world);
    }

    /**
     * Repeat attempts, each under a new identifier, while frames get lost or the device has lost the transaction.
     * At most m identifiers may be outstanding when the call begins.
     */
    method Transfer(j: Job, ghost m: nat) returns (o: Outcome)
      requires WorldOk(c, world) && JobOk(j) && !j.Page? && Recent(nextRid, m, world) && m + retries < 256
      modifies this`nextRid, this`issued, this`exchanges, this`world, this`refusals, this`refusedAt
      ensures WorldOk(c, world) && Recent(nextRid, m + retries + 1, world)
      ensures o.Returned? ==> world.requests == [] && world.responses == [] && Arrived(j, world)
      ensures NoWrites(old(world)) ==> OnlyWrites(j, old(world), world)
      ensures o.Raised? ==> o.why == Lost || o.why.Refused?
      ensures o.Raised? && Retriable(o.why) ==> issued == old(issued) + retries + 1
      ensures Told(old(refusals), o.Raised? && !Retriable(o.why))
      ensures (&& old(world).requests == [] && old(world).responses == [] && Willing(c, j, old(world).dev)
               && PromptFrom(c, j, old(world).dev.auth, link, old(exchanges))) ==> o.Returned?
    {
      ghost var v := View(c, j, world, NoWrites(world), false, 0, 0);
      ghost var smooth := Smooth(v, world, link, exchanges);
      StartsClean(c, j, world, false, 0);
      var why := Lost;
      for i := 0 to retries + 1
        invariant WorldOk(c, world) && Clean(v, world) && Recent(nextRid, m + i, world)
        invariant Retriable(why) && issued == old(issued) + i && refusals == old(refusals)
        invariant smooth ==> i == 0 && world == old(world) && exchanges == old(exchanges)
      {
        var a, final := TryOnce(v, m + i, j);
        WeakerRecent(nextRid, m + i + 1, m + retries + 1, world);
        match a {
          case Finished => return Returned;
          case GiveUp(w) => return Raised(w);
          case Again(w) => why := w;
        }
      }
      return Raised(why);
    }

    /**
     * set_slot. Returning means that the slot holds the data and nothing is under way. Otherwise, if no request that writes
     * was under way before, the slot holds exactly what it held before or all of the data; no other slot changes, and a
     * dynamic slot is at most emptied, by its deadline or an event elsewhere.
     */
    method SetSlot(slot: byte, data: seq<byte>, ghost m: nat) returns (o: Outcome)
      requires WorldOk(c, world) && Recent(nextRid, m, world) && m + retries < 256
      modifies this`nextRid, this`issued, this`exchanges, this`world, this`refusals, this`refusedAt
      ensures WorldOk(c, world) && Recent(nextRid, m + retries + 1, world)
      ensures o.Returned? ==> slot < c.limits.count && world.dev.macros.slots[slot] == data
                              && world.requests == [] && world.responses == []
      ensures NoWrites(old(world)) ==>
                && (world.dev.macros.slots == old(world).dev.macros.slots
                    || (slot < c.limits.count && world.dev.macros.slots == old(world).dev.macros.slots[slot := data]))
                && SameCredential(old(world).dev.auth, world.dev.auth)
                && forall i | 0 <= i < c.dynSlots ::
                     world.dev.store.slots[i] == old(world).dev.store.slots[i]
                     || (world.dev.store.slots[i] == None && world.emptied[i])
      ensures o.Raised? && Retriable(o.why) ==> issued == old(issued) + retries + 1
      ensures o == Raised(BadArgument) <==> slot == 255 || |data| >= 0x1_0000 || !TextOk(data)
      ensures o == Raised(BadArgument) ==> world == old(world)
      ensures Told(old(refusals), o.Raised? && !Retriable(o.why) && o.why != BadArgument)
      ensures o != Raised(Malformed)
      ensures (&& old(world).requests == [] && old(world).responses == [] && slot < c.limits.count && |data| <= c.limits.maxText
               && TextOk(data) && (old(world).dev.auth.state == A.Open || old(world).dev.auth.session.Some?)
               && PromptFrom(c, Put(slot, data), old(world).dev.auth, link, old(exchanges))) ==> o.Returned?
    {
      if slot == 255 || |data| >= 0x1_0000 || !TextOk(data) {
        WeakerRecent(nextRid, m, m + retries + 1, world);
        return Raised(BadArgument);
      }
      o := Transfer(Put(slot, data), m);
    }

    /**
     * upload_dynamic after capability discovery. Returning means that the slot's latest text is the data, with the
     * requested policy and a lifetime that began when the device handled its latest request. Otherwise, if no request that
     * writes was under way before, each slot holds exactly what it held, the target possibly all of the data; a slot is
     * emptied only by its deadline or an event elsewhere.
     */
    method UploadDynamic(slot: byte, data: seq<byte>, ttl: Option<u32>, keep: bool, ghost m: nat) returns (o: Outcome)
      requires WorldOk(c, world) && Recent(nextRid, m, world) && m + retries < 256
      modifies this`nextRid, this`issued, this`exchanges, this`world, this`refusals, this`refusedAt
      ensures WorldOk(c, world) && Recent(nextRid, m + retries + 1, world)
      ensures o.Returned? ==>
                var text := Some(D.Committed(data, world.handledAt + (if ttl.Some? then ttl.value else DEFAULT_TTL) * 1000, !keep));
                && slot < c.dynSlots && world.last[slot] == text && world.requests == [] && world.responses == []
                && (world.dev.store.slots[slot] == text || (world.dev.store.slots[slot] == None && world.emptied[slot]))
      ensures NoWrites(old(world)) ==>
                && world.dev.macros.slots == old(world).dev.macros.slots && SameCredential(old(world).dev.auth, world.dev.auth)
                && forall i | 0 <= i < c.dynSlots ::
                     var now := world.dev.store.slots[i];
                     now == old(world).dev.store.slots[i] || (now == None && world.emptied[i])
                     || (i == slot && now.Some? && now.value.text == data && now.value.consume == !keep)
      ensures o == Raised(BadArgument) <==>
                slot >= 8 || !(1 <= |data| <= D.MAX_LENGTH) || !TextOk(data) || (ttl.Some? && !(D.MIN_TTL <= ttl.value <= D.MAX_TTL))
      ensures o == Raised(BadArgument) ==> world == old(world)
      ensures Told(old(refusals), o.Raised? && !Retriable(o.why) && o.why != BadArgument)
      ensures o != Raised(Malformed)
      ensures (&& old(world).requests == [] && old(world).responses == [] && slot < c.dynSlots && o != Raised(BadArgument)
               && old(world).dev.store.slots[slot] == None
               && PromptFrom(c, Upload(slot, data, ttl, keep), old(world).dev.auth, link, old(exchanges))) ==> o.Returned?
    {
      if slot >= 8 || !(1 <= |data| <= D.MAX_LENGTH) || !TextOk(data) || (ttl.Some? && !(D.MIN_TTL <= ttl.value <= D.MAX_TTL)) {
        WeakerRecent(nextRid, m, m + retries + 1, world);
        return Raised(BadArgument);
      }
      o := Transfer(Upload(slot, data, ttl, keep), m);
    }

    /**
     * set_password from the first part up to its confirmation. A loss before the final part is tried again, a loss of the
     * final part's answer is not: then the credential is the old or the new one. When every part was acknowledged the new
     * one is in force and stored and survives a reboot, and when the call fails the old one is.
     */
    method SetPassword(cred: A.Credential, ghost m: nat) returns (o: SecretOutcome)
      requires WorldOk(c, world) && Recent(nextRid, m, world) && m + retries < 256
      modifies this`nextRid, this`issued, this`exchanges, this`world, this`refusals, this`refusedAt
      ensures WorldOk(c, world) && Recent(nextRid, m + retries + 1, world)
      ensures o.Acknowledged? ==> world.requests == [] && world.responses == [] && InForce(cred, world.dev.auth)
      ensures o.Acknowledged? ==>
                var booted := CL.Reboot(world.dev.auth.stored); booted.state == A.Protected && booted.cred == cred
      ensures NoWrites(old(world)) && o.NotSet? ==> SameCredential(old(world).dev.auth, world.dev.auth)
      ensures NoWrites(old(world)) ==>
                && (SameCredential(old(world).dev.auth, world.dev.auth) || InForce(cred, world.dev.auth))
                && world.dev.macros.slots == old(world).dev.macros.slots
      ensures o.NotSet? ==> o.why == Lost || o.why.Refused?
      ensures Told(old(refusals), o.NotSet? && !Retriable(o.why))
      ensures (&& old(world).requests == [] && old(world).responses == [] && A.Valid(cred)
               && (old(world).dev.auth.state == A.Open || old(world).dev.auth.session.Some?)
               && PromptFrom(c, Secret(cred), old(world).dev.auth, link, old(exchanges))) ==> o.Acknowledged?
    {
      var j := Secret(cred);
      ghost var v := View(c, j, world, NoWrites(world), NoWrites(world), 0, 0);
      ghost var smooth := Smooth(v, world, link, exchanges);
      StartsClean(c, j, world, v.early, 0);
      var why := Lost;
      for i := 0 to retries + 1
        invariant WorldOk(c, world) && Clean(v, world) && Recent(nextRid, m + i, world)
        invariant v.early ==> StillEarly(j, v.base, world)
        invariant Retriable(why) && refusals == old(refusals)
        invariant smooth ==> i == 0 && world == old(world) && exchanges == old(exchanges)
      {
        var a, final := TryOnce(v, m + i, j);
        WeakerRecent(nextRid, m + i + 1, m + retries + 1, world);
        match a {
          case Finished =>
            CL.RecordRestores(cred);
            return Acknowledged;
          case GiveUp(w) => return NotSet(w);
          case Again(w) =>
            if w == Lost && final {
              return Unconfirmed;
            }
            why := w;
        }
      }
      return NotSet(why);
    }
  }
}
