/**
 * One client and one device over a first-in first-out link that may lose any request and any response, while timers,
 * key presses, lifecycle events and USB notifications go on at the device.
 */
module LossyLink {
  import opened Bytes
  import opened Wire
  import opened ProtocolSpec
  import opened Transfers
  import A = AuthSpec
  import PI = ProtocolInvariants
  import D = DynamicSpec

  /**
   * The device, what travels in either direction, and history: the latest text each dynamic slot held, whether a slot
   * lost that text to an event elsewhere or to its deadline, and when the device handled its latest request.
   */
  datatype World = World(dev: System, requests: seq<Frame>, responses: seq<Frame>,
                         last: seq<Option<D.Committed>>, emptied: seq<bool>, handledAt: nat)

  /** A frame lost further back in a queue is modelled as lost once it gets to the head. */
  datatype Event =
    | Deliver(env: Env)
    | LoseRequest
    | LoseResponse
    | Elsewhere(step: PI.Step)

  /** Handled(latest): a request was handled, and latest is its latest clock reading. */
  datatype Cause = Handled(latest: nat) | Outside

  predicate Excuses(cause: Cause, x: D.Committed) {
    cause.Outside? || x.deadline <= cause.latest
  }

  function NewLast(w: World, t: D.Store): seq<Option<D.Committed>>
    requires |w.last| == |t.slots|
  {
    seq(|w.last|, i requires 0 <= i < |w.last| => if t.slots[i].Some? then t.slots[i] else w.last[i])
  }

  function NewEmptied(w: World, t: D.Store, cause: Cause): seq<bool>
    requires |w.emptied| == |t.slots| == |w.dev.store.slots|
  {
    seq(|w.emptied|, i requires 0 <= i < |w.emptied| =>
      if t.slots[i].Some? then false
      else if w.dev.store.slots[i].Some? then Excuses(cause, w.dev.store.slots[i].value)
      else w.emptied[i])
  }

  predicate WorldOk(c: Config, w: World) {
    ConfigOk(c) && PI.Inv(c, w.dev) && |w.last| == |w.emptied| == c.dynSlots
  }

  function Handle(c: Config, w: World, env: Env): World
    requires WorldOk(c, w) && w.requests != []
  {
    PI.ProcessKeepsInv(c, w.dev, w.requests[0], env);
    var (dev, r) := Process(c, w.dev, w.requests[0], env);
    World(dev, w.requests[1..], w.responses + [Encode(w.requests[0], r)],
          NewLast(w, dev.store), NewEmptied(w, dev.store, Handled(Latest(env))), env.op)
  }

  function Happen(c: Config, w: World, e: Event): (w': World)
    requires WorldOk(c, w)
    ensures WorldOk(c, w')
  {
    match e
    case Deliver(env) =>
      if w.requests == [] then w
      else
        PI.ProcessKeepsInv(c, w.dev, w.requests[0], env);
        Handle(c, w, env)
    case LoseRequest => if w.requests == [] then w else w.(requests := w.requests[1..])
    case LoseResponse => if w.responses == [] then w else w.(responses := w.responses[1..])
    case Elsewhere(step) =>
      if step.Request? then w
      else
        PI.ApplyKeepsInv(c, w.dev, step);
        var dev := PI.Apply(c, w.dev, step);
        w.(dev := dev, last := NewLast(w, dev.store), emptied := NewEmptied(w, dev.store, Outside))
  }

  // ------------------------------------------------------------------ what a call may change

  /**
   * From base to w nothing was written but the target, and that with all of the data. A dynamic slot may also have been
   * emptied, by an event elsewhere or because its deadline had come.
   */
  predicate OnlyWrites(j: Job, base: World, w: World) {
    && (w.dev.macros.slots == base.dev.macros.slots
        || (j.Put? && j.slot < |base.dev.macros.slots| && w.dev.macros.slots == base.dev.macros.slots[j.slot := j.data]))
    && (SameCredential(base.dev.auth, w.dev.auth) || (j.Secret? && InForce(j.cred, w.dev.auth)))
    && |w.dev.store.slots| == |base.dev.store.slots| == |w.emptied|
    && forall i | 0 <= i < |w.emptied| ::
         var x := w.dev.store.slots[i];
         x == base.dev.store.slots[i] || (x == None && w.emptied[i])
         || (j.Upload? && i == j.slot && x.Some? && x.value.deadline >= Ttl(j) * 1000
             && x == Some(Text(j, x.value.deadline - Ttl(j) * 1000)))
  }

  /** Nothing was written at all. */
  predicate Unwritten(base: World, w: World) {
    && w.dev.macros.slots == base.dev.macros.slots && SameCredential(base.dev.auth, w.dev.auth)
    && |w.dev.store.slots| == |base.dev.store.slots| == |w.emptied|
    && forall i | 0 <= i < |w.emptied| ::
         w.dev.store.slots[i] == base.dev.store.slots[i] || (w.dev.store.slots[i] == None && w.emptied[i])
  }

  lemma FadedOnlyWrites(j: Job, base: World, w: World, u: World, cause: Cause)
    requires |w.emptied| == |w.dev.store.slots| == |u.dev.store.slots| && Fades(w.dev, u.dev)
    requires u.emptied == NewEmptied(w, u.dev.store, cause)
    requires cause.Handled? ==> Lapsed(w.dev.store, u.dev.store, cause.latest)
    ensures OnlyWrites(j, base, w) ==> OnlyWrites(j, base, u)
    ensures Unwritten(base, w) ==> Unwritten(base, u)
  {
  }

  lemma WrittenOnlyWrites(j: Job, final: bool, base: World, w: World, u: World, latest: nat, at: nat)
    requires |w.emptied| == |w.dev.store.slots| == |u.dev.store.slots| && Wrote(j, final, w.dev, u.dev, latest, at)
    requires u.emptied == NewEmptied(w, u.dev.store, Handled(latest))
    ensures OnlyWrites(j, base, w) ==> OnlyWrites(j, base, u)
    ensures Unwritten(base, w) && (!final || (j.Secret? && SameCredential(w.dev.auth, u.dev.auth))) ==> Unwritten(base, u)
  {
  }

  // ------------------------------------------------------------------ where an attempt stands

  /**
   * A call in progress: the world when it began; clean: no request that writes was under way then; early: the final frame
   * of a credential has not been sent in an earlier attempt; and the current step.
   */
  datatype View = View(c: Config, j: Job, base: World, clean: bool, early: bool, rid: byte, k: nat)

  /** The job is done, and whatever has happened since only emptied the slot. */
  predicate Arrived(j: Job, w: World) {
    if j.Upload? then
      j.slot < |w.last| == |w.dev.store.slots| == |w.emptied| && w.last[j.slot] == Some(Text(j, w.handledAt))
      && (w.dev.store.slots[j.slot] == w.last[j.slot] || (w.dev.store.slots[j.slot] == None && w.emptied[j.slot]))
    else Landed(j, w.dev, 0)
  }

  /** Why a page may be refused. */
  predicate NoPage(c: Config, j: Job, s: System)
    requires SlotsOk(c, s) && j.Page?
  {
    s.auth.state != A.Open || (j.op == GET && j.slot >= c.limits.count) || j.offset > |Object(c, s, j.op, j.slot)|
  }

  /** A genuine answer to step k, and what it says about the device. */
  predicate Genuine(v: View, w: World, resp: Frame)
    requires JobOk(v.j) && v.k < Steps(v.j) && SlotsOk(v.c, w.dev)
  {
    var f := FrameOf(v.j, v.rid, v.k);
    || (resp == Encode(f, Ack(v.c, v.j, v.k, w.dev)) && resp.status == 0
        && (if v.k + 1 < Steps(v.j) then Progress(v.j, v.rid, v.k + 1, w.dev) else Arrived(v.j, w))
        && (v.early && v.k + 1 < Steps(v.j) ==> Unwritten(v.base, w)))
    || (1 <= resp.status <= 15 && resp == Encode(f, Err(resp.status)) && (v.j.Page? ==> NoPage(v.c, v.j, w.dev))
        && (v.early ==> Unwritten(v.base, w)))
  }

  predicate NoneWith(rid: byte, frames: seq<Frame>) {
    forall p | 0 <= p < |frames| :: frames[p].rid != rid
  }

  /** Which step a frame of the job would belong to. */
  function StepOf(f: Frame): nat {
    if f.op == GET || f.op == LIST then 0 else if f.op == DYNAMIC_DATA then f.offset / 22 + 1 else f.offset / 22
  }

  lemma StepOfFrame(j: Job, rid: byte, k: nat)
    requires JobOk(j) && k < Steps(j)
    ensures StepOf(FrameOf(j, rid, k)) == k && FrameOf(j, rid, k).rid == rid
  {
  }

  /** The p-th request under way is a frame of this call; only the first can be in the middle of an attempt. */
  predicate Own(j: Job, w: World, p: nat)
    requires JobOk(j) && p < |w.requests|
  {
    var f := w.requests[p];
    var k := StepOf(f);
    k < Steps(j) && f == FrameOf(j, f.rid, k) && (k > 0 ==> p == 0 && Progress(j, f.rid, k, w.dev))
  }

  predicate Harmless(j: Job, w: World, p: nat)
    requires JobOk(j) && p < |w.requests|
  {
    Bystander(w.requests[p]) || Own(j, w, p)
  }

  /** Harmless, and no final frame either. */
  predicate Early(j: Job, w: World, p: nat)
    requires JobOk(j) && p < |w.requests|
  {
    Bystander(w.requests[p]) || (Own(j, w, p) && StepOf(w.requests[p]) + 1 < Steps(j))
  }

  /** The frame of step k is the last of the requests under way. */
  predicate Asked(v: View, w: World)
    requires JobOk(v.j) && v.k < Steps(v.j)
  {
    var n := |w.requests|;
    && n > 0 && w.requests[n - 1] == FrameOf(v.j, v.rid, v.k) && NoneWith(v.rid, w.requests[..n - 1]) && NoneWith(v.rid, w.responses)
    && (v.k > 0 ==> n == 1 && Progress(v.j, v.rid, v.k, w.dev))
    && (v.early ==> Unwritten(v.base, w) && forall p | 0 <= p < n - 1 :: Early(v.j, w, p))
  }

  /** Its answer is the last of the responses under way, and no request is. */
  predicate Answered(v: View, w: World)
    requires JobOk(v.j) && v.k < Steps(v.j) && SlotsOk(v.c, w.dev)
  {
    var n := |w.responses|;
    w.requests == [] && n > 0 && NoneWith(v.rid, w.responses[..n - 1]) && Genuine(v, w, w.responses[n - 1])
  }

  predicate Gone(v: View, w: World)
    requires JobOk(v.j) && v.k < Steps(v.j)
  {
    && NoneWith(v.rid, w.requests) && NoneWith(v.rid, w.responses)
    && (v.early && v.k + 1 < Steps(v.j) ==> Unwritten(v.base, w) && forall p | 0 <= p < |w.requests| :: Early(v.j, w, p))
  }

  predicate Clean(v: View, w: World)
    requires JobOk(v.j)
  {
    v.clean ==> OnlyWrites(v.j, v.base, w) && forall p | 0 <= p < |w.requests| :: Harmless(v.j, w, p)
  }

  predicate Phase(v: View, w: World)
    requires JobOk(v.j) && v.k < Steps(v.j) && SlotsOk(v.c, w.dev)
  {
    Asked(v, w) || Answered(v, w) || Gone(v, w)
  }

  predicate Live(v: View, w: World) {
    && WorldOk(v.c, w) && JobOk(v.j) && v.k < Steps(v.j) && (v.early ==> v.clean && v.j.Secret?)
    && Phase(v, w) && Clean(v, w)
  }

  /** No request that writes is under way. */
  predicate NoWrites(w: World) {
    forall p | 0 <= p < |w.requests| :: Bystander(w.requests[p])
  }

  /** How many identifiers were issued after rid, when `next` is the one to be issued next. */
  function Age(next: byte, rid: byte): (age: nat)
    ensures age < 256
  {
    if rid < next then next - 1 - rid else next + 255 - rid
  }

  /** Every frame under way carries one of the m identifiers issued last; `next` is the one to be issued next. */
  predicate Recent(next: byte, m: nat, w: World) {
    && (forall p | 0 <= p < |w.requests| :: Age(next, w.requests[p].rid) < m)
    && (forall p | 0 <= p < |w.responses| :: Age(next, w.responses[p].rid) < m)
  }

  /** Between w and u frames were lost at the head of either queue, or an answer to the first request was added. */
  predicate Moved(w: World, u: World) {
    || (u.requests == w.requests && u.responses == w.responses)
    || (w.requests != [] && u.requests == w.requests[1..] && u.responses == w.responses)
    || (w.responses != [] && u.requests == w.requests && u.responses == w.responses[1..])
    || (w.requests != [] && u.requests == w.requests[1..]
        && |u.responses| == |w.responses| + 1 && u.responses[..|w.responses|] == w.responses
        && u.responses[|w.responses|].rid == w.requests[0].rid)
  }

  lemma EveryEventMoves(c: Config, w: World, e: Event)
    requires WorldOk(c, w)
    ensures Moved(w, Happen(c, w, e))
  {
    if e.Deliver? && w.requests != [] {
      var r := Process(c, w.dev, w.requests[0], e.env).1;
      var u := Happen(c, w, e);
      assert u.responses == w.responses + [Encode(w.requests[0], r)];
    }
  }

  lemma MovedKeepsRecent(w: World, u: World, next: byte, m: nat)
    requires Moved(w, u) && Recent(next, m, w)
    ensures Recent(next, m, u)
  {
    forall p | 0 <= p < |u.responses| ensures Age(next, u.responses[p].rid) < m {
      if p < |w.responses| {
        assert u.responses[p] == w.responses[p] || (p + 1 < |w.responses| && u.responses[p] == w.responses[p + 1]);
      }
    }
  }

  lemma RecentStep(c: Config, w: World, e: Event, next: byte, m: nat)
    requires WorldOk(c, w) && Recent(next, m, w)
    ensures Recent(next, m, Happen(c, w, e))
  {
    EveryEventMoves(c, w, e);
    MovedKeepsRecent(w, Happen(c, w, e), next, m);
  }

  // ------------------------------------------------------------------ what every event keeps

  /** The requests behind the first move up by one. */
  lemma TailMovesUp(j: Job, w: World, u: World, n: nat)
    requires JobOk(j) && n <= |w.requests| && w.requests != [] && u.requests == w.requests[1..]
    ensures (forall p | 0 <= p < n :: Harmless(j, w, p)) ==> forall p | 0 <= p < n - 1 :: Harmless(j, u, p)
    ensures (forall p | 0 <= p < n :: Early(j, w, p)) ==> forall p | 0 <= p < n - 1 :: Early(j, u, p)
  {
    forall p | 0 <= p < n - 1 && Harmless(j, w, p + 1) ensures Harmless(j, u, p) {
      assert u.requests[p] == w.requests[p + 1];
    }
    forall p | 0 <= p < n - 1 && Early(j, w, p + 1) ensures Early(j, u, p) {
      assert u.requests[p] == w.requests[p + 1];
    }
  }

  /** Losing or handling an older request leaves the current one under way. */
  lemma OlderLeaves(v: View, w: World, u: World)
    requires JobOk(v.j) && v.k < Steps(v.j) && Asked(v, w) && |w.requests| > 1
    requires u.requests == w.requests[1..] && NoneWith(v.rid, u.responses) && (v.early ==> Unwritten(v.base, u))
    ensures Asked(v, u) && w.requests[0].rid != v.rid
  {
    assert w.requests[..|w.requests| - 1][0] == w.requests[0];
    assert u.requests[..|u.requests| - 1] == w.requests[..|w.requests| - 1][1..];
    TailMovesUp(v.j, w, u, |w.requests| - 1);
  }

  lemma LostRequestKeepsLive(v: View, w: World)
    requires Live(v, w) && w.requests != []
    ensures Live(v, w.(requests := w.requests[1..]))
  {
    var u := w.(requests := w.requests[1..]);
    TailMovesUp(v.j, w, u, |w.requests|);
    if Asked(v, w) && |w.requests| > 1 {
      OlderLeaves(v, w, u);
    } else {
      assert Gone(v, u);
    }
  }

  lemma SameRequests(j: Job, w: World, u: World, n: nat)
    requires JobOk(j) && n <= |w.requests| && u.requests == w.requests && Fades(w.dev, u.dev)
    ensures (forall p | 0 <= p < n :: Harmless(j, w, p)) ==> forall p | 0 <= p < n :: Harmless(j, u, p)
    ensures (forall p | 0 <= p < n :: Early(j, w, p)) ==> forall p | 0 <= p < n :: Early(j, u, p)
  {
    forall p | 0 <= p < n ensures (Harmless(j, w, p) ==> Harmless(j, u, p)) && (Early(j, w, p) ==> Early(j, u, p)) {
      FadesMeans(j, w.requests[p].rid, StepOf(w.requests[p]), w.dev, u.dev);
    }
  }

  lemma LostResponseOfAnswered(v: View, w: World, u: World)
    requires JobOk(v.j) && v.k < Steps(v.j) && SlotsOk(v.c, w.dev) && Answered(v, w)
    requires u == w.(responses := w.responses[1..])
    ensures Answered(v, u) || Gone(v, u)
  {
    if |w.responses| > 1 {
      assert u.responses[..|u.responses| - 1] == w.responses[..|w.responses| - 1][1..];
    }
  }

  lemma LostResponseKeepsPhase(v: View, w: World, u: World)
    requires JobOk(v.j) && v.k < Steps(v.j) && SlotsOk(v.c, w.dev) && Phase(v, w) && w.responses != []
    requires u == w.(responses := w.responses[1..])
    ensures Phase(v, u)
  {
    if Asked(v, w) {
      SameRequests(v.j, w, u, |w.requests| - 1);
      assert Asked(v, u);
    } else if Answered(v, w) {
      LostResponseOfAnswered(v, w, u);
    } else {
      SameRequests(v.j, w, u, |w.requests|);
      assert Gone(v, u);
    }
  }

  lemma LostResponseKeepsLive(v: View, w: World)
    requires Live(v, w) && w.responses != []
    ensures Live(v, w.(responses := w.responses[1..]))
  {
    var u := w.(responses := w.responses[1..]);
    SameRequests(v.j, w, u, |w.requests|);
    LostResponseKeepsPhase(v, w, u);
  }

  lemma ElsewhereKeepsGenuine(v: View, w: World, u: World, resp: Frame)
    requires JobOk(v.j) && v.k < Steps(v.j) && SlotsOk(v.c, w.dev) && SlotsOk(v.c, u.dev) && Genuine(v, w, resp)
    requires Fades(w.dev, u.dev) && |w.emptied| == |w.last| == |w.dev.store.slots| == |u.dev.store.slots|
    requires u.last == NewLast(w, u.dev.store) && u.emptied == NewEmptied(w, u.dev.store, Outside) && u.handledAt == w.handledAt
    ensures Genuine(v, u, resp)
  {
    FadesMeans(v.j, v.rid, v.k + 1, w.dev, u.dev);
    FadedOnlyWrites(v.j, v.base, w, u, Outside);
  }

  lemma ElsewhereKeepsAsked(v: View, w: World, u: World)
    requires JobOk(v.j) && v.k < Steps(v.j) && SlotsOk(v.c, w.dev) && SlotsOk(v.c, u.dev)
    requires Fades(w.dev, u.dev) && |w.emptied| == |w.last| == |w.dev.store.slots| == |u.dev.store.slots|
    requires u == World(u.dev, w.requests, w.responses, NewLast(w, u.dev.store), NewEmptied(w, u.dev.store, Outside), w.handledAt)
    requires Asked(v, w)
    ensures Asked(v, u)
  {
    FadedOnlyWrites(v.j, v.base, w, u, Outside);
    SameRequests(v.j, w, u, |w.requests| - 1);
    FadesMeans(v.j, v.rid, v.k, w.dev, u.dev);
  }

  lemma ElsewhereKeepsGone(v: View, w: World, u: World)
    requires JobOk(v.j) && v.k < Steps(v.j) && SlotsOk(v.c, w.dev) && SlotsOk(v.c, u.dev)
    requires Fades(w.dev, u.dev) && |w.emptied| == |w.last| == |w.dev.store.slots| == |u.dev.store.slots|
    requires u == World(u.dev, w.requests, w.responses, NewLast(w, u.dev.store), NewEmptied(w, u.dev.store, Outside), w.handledAt)
    requires Gone(v, w)
    ensures Gone(v, u)
  {
    FadedOnlyWrites(v.j, v.base, w, u, Outside);
    SameRequests(v.j, w, u, |w.requests|);
  }

  lemma ElsewhereKeepsPhase(v: View, w: World, u: World)
    requires JobOk(v.j) && v.k < Steps(v.j) && SlotsOk(v.c, w.dev) && SlotsOk(v.c, u.dev) && Phase(v, w)
    requires Fades(w.dev, u.dev) && |w.emptied| == |w.last| == |w.dev.store.slots| == |u.dev.store.slots|
    requires u == World(u.dev, w.requests, w.responses, NewLast(w, u.dev.store), NewEmptied(w, u.dev.store, Outside), w.handledAt)
    ensures Phase(v, u)
  {
    if Asked(v, w) {
      ElsewhereKeepsAsked(v, w, u);
    } else if Answered(v, w) {
      ElsewhereKeepsGenuine(v, w, u, w.responses[|w.responses| - 1]);
      assert Answered(v, u);
    } else {
      ElsewhereKeepsGone(v, w, u);
    }
  }

  lemma ElsewhereKeepsLive(v: View, w: World, step: PI.Step)
    requires Live(v, w) && !step.Request?
    ensures Live(v, Happen(v.c, w, Elsewhere(step)))
  {
    var u := Happen(v.c, w, Elsewhere(step));
    OthersFade(v.c, w.dev, step);
    FadedOnlyWrites(v.j, v.base, w, u, Outside);
    SameRequests(v.j, w, u, |w.requests|);
    ElsewhereKeepsPhase(v, w, u);
  }

  /**
   * Handling a request that was harmless writes nothing but the target, and that with all of the data; handling one that
   * was not even a final frame writes nothing.
   */
  lemma HandledOnlyWrites(c: Config, j: Job, base: World, w: World, env: Env)
    requires WorldOk(c, w) && JobOk(j) && w.requests != [] && Harmless(j, w, 0)
    ensures OnlyWrites(j, base, w) ==> OnlyWrites(j, base, Handle(c, w, env))
    ensures Unwritten(base, w) && Early(j, w, 0) ==> Unwritten(base, Handle(c, w, env))
  {
    var f, u := w.requests[0], Handle(c, w, env);
    PI.ProcessKeepsInv(c, w.dev, f, env);
    if Bystander(f) {
      BystandersFade(c, w.dev, f, env);
      FadedOnlyWrites(j, base, w, u, Handled(Latest(env)));
    } else {
      DeviceStep(c, j, f.rid, StepOf(f), w.dev, env);
      WrittenOnlyWrites(j, StepOf(f) + 1 == Steps(j), base, w, u, Latest(env), env.op);
    }
  }

  lemma DeliverKeepsClean(v: View, w: World, env: Env)
    requires Live(v, w) && w.requests != []
    ensures Clean(v, Handle(v.c, w, env))
  {
    if v.clean {
      assert Harmless(v.j, w, 0);
      HandledOnlyWrites(v.c, v.j, v.base, w, env);
      TailMovesUp(v.j, w, Handle(v.c, w, env), |w.requests|);
    }
  }

  /** The device answers the current frame. */
  lemma AnswerIsGenuine(v: View, w: World, u: World, r: Response, env: Env)
    requires JobOk(v.j) && v.k < Steps(v.j) && Asked(v, w) && |w.requests| == 1 && (v.early ==> v.j.Secret?)
    requires |w.last| == |w.emptied| == |w.dev.store.slots| == |u.dev.store.slots|
    requires u == World(u.dev, [], w.responses + [Encode(w.requests[0], r)], NewLast(w, u.dev.store),
                        NewEmptied(w, u.dev.store, Handled(Latest(env))), env.op)
    requires StepDone(v.c, v.j, v.rid, v.k, w.dev, u.dev, r, env)
    ensures Answered(v, u)
  {
    assert u.responses[..|u.responses| - 1] == w.responses;
    WrittenOnlyWrites(v.j, v.k + 1 == Steps(v.j), v.base, w, u, Latest(env), env.op);
  }

  lemma AnswerArrives(v: View, w: World, env: Env)
    requires Live(v, w) && Asked(v, w) && |w.requests| == 1
    ensures SlotsOk(v.c, Handle(v.c, w, env).dev) && Answered(v, Handle(v.c, w, env))
  {
    var (dev, r) := Process(v.c, w.dev, w.requests[0], env);
    DeviceStep(v.c, v.j, v.rid, v.k, w.dev, env);
    PI.ProcessKeepsInv(v.c, w.dev, w.requests[0], env);
    assert w.requests[1..] == [];
    AnswerIsGenuine(v, w, Handle(v.c, w, env), r, env);
  }

  /** The device handles some other request while the current one, if under way, is further back. */
  lemma OtherRequestKeepsPhase(v: View, w: World, u: World)
    requires JobOk(v.j) && v.k < Steps(v.j) && w.requests != [] && (Asked(v, w) || Gone(v, w)) && w.requests[0].rid != v.rid
    requires u.requests == w.requests[1..] && |u.responses| == |w.responses| + 1 && u.responses[..|w.responses|] == w.responses
    requires u.responses[|w.responses|].rid == w.requests[0].rid
    requires v.early && Early(v.j, w, 0) && Unwritten(v.base, w) ==> Unwritten(v.base, u)
    ensures Asked(v, u) || Gone(v, u)
  {
    assert NoneWith(v.rid, u.responses) by {
      assert forall p | 0 <= p < |w.responses| :: u.responses[p] == u.responses[..|w.responses|][p];
    }
    if Asked(v, w) && |w.requests| > 1 {
      OlderLeaves(v, w, u);
    } else {
      TailMovesUp(v.j, w, u, |w.requests|);
    }
  }

  lemma DeliverKeepsLive(v: View, w: World, env: Env)
    requires Live(v, w) && w.requests != []
    ensures Live(v, Handle(v.c, w, env))
  {
    var u := Handle(v.c, w, env);
    PI.ProcessKeepsInv(v.c, w.dev, w.requests[0], env);
    DeliverKeepsClean(v, w, env);
    if Asked(v, w) && |w.requests| == 1 {
      AnswerArrives(v, w, env);
    } else {
      var r := Process(v.c, w.dev, w.requests[0], env).1;
      assert u.responses == w.responses + [Encode(w.requests[0], r)];
      if Asked(v, w) {
        assert w.requests[..|w.requests| - 1][0] == w.requests[0];
      }
      if v.early {
        HandledOnlyWrites(v.c, v.j, v.base, w, env);
      }
      OtherRequestKeepsPhase(v, w, u);
    }
  }

  lemma EventKeepsLive(v: View, w: World, e: Event)
    requires Live(v, w)
    ensures Live(v, Happen(v.c, w, e))
  {
    match e
    case Deliver(env) => if w.requests != [] { DeliverKeepsLive(v, w, env); }
    case LoseRequest => if w.requests != [] { LostRequestKeepsLive(v, w); }
    case LoseResponse => if w.responses != [] { LostResponseKeepsLive(v, w); }
    case Elsewhere(step) => if !step.Request? { ElsewhereKeepsLive(v, w, step); }
  }

  // ------------------------------------------------------------------ requests left over from earlier calls

  /** What the other call writes is what this one may write, or already there. */
  predicate SameWrite(j: Job, other: Job, s: System, at: nat) {
    match other
    case Put(slot, data) =>
      (j.Put? && j.slot == slot && j.data == data) || (slot < |s.macros.slots| && s.macros.slots[slot] == data)
    case Upload(slot, data, _, keep) =>
      j.Upload? && j.slot == slot && j.data == data && j.keep == keep && at + Ttl(other) * 1000 >= Ttl(j) * 1000
    case Secret(cred) => j == other || InForce(cred, s.auth)
    case Page(_, _, _) => true
  }

  lemma PutDiffers(j: Job, other: Job, w: World, u: World)
    requires other.Put? && Landed(other, u.dev, 0) && OnlyWrites(j, w, u) && other.slot < |w.dev.macros.slots|
    ensures SameWrite(j, other, w.dev, 0)
  {
  }

  lemma UploadDiffers(j: Job, other: Job, w: World, u: World, at: nat)
    requires other.Upload? && Landed(other, u.dev, at) && OnlyWrites(j, w, u)
    requires other.slot < |w.dev.store.slots| && w.dev.store.slots[other.slot] == None
    ensures SameWrite(j, other, w.dev, at)
  {
    assert u.dev.store.slots[other.slot] != None;
  }

  lemma FinalLeftover(c: Config, w: World, u: World, j: Job, other: Job, env: Env)
    requires |w.dev.store.slots| == |u.dev.store.slots| == |w.emptied| && Willing(c, other, w.dev)
    requires u.emptied == NewEmptied(w, u.dev.store, Handled(Latest(env)))
    requires Wrote(other, true, w.dev, u.dev, Latest(env), env.op) && Landed(other, u.dev, env.op)
    ensures OnlyWrites(j, w, u) <==> SameWrite(j, other, w.dev, env.op)
  {
    if OnlyWrites(j, w, u) {
      match other
      case Put(_, _) => PutDiffers(j, other, w, u);
      case Upload(_, _, _, _) => UploadDiffers(j, other, w, u, env.op);
      case _ =>
    }
  }

  /** What handling the left-over frame does, and nothing about any call. */
  lemma LeftoverStep(c: Config, w: World, other: Job, rid: byte, k: nat, env: Env)
    requires WorldOk(c, w) && JobOk(other) && k < Steps(other)
    requires w.requests != [] && w.requests[0] == FrameOf(other, rid, k) && Willing(c, other, w.dev) && Obliging(other, env)
    requires InTime(w.dev.auth, env)
    requires k > 0 ==> Exact(other, rid, k, w.dev)
    ensures var u := Handle(c, w, env);
            && Wrote(other, k + 1 == Steps(other), w.dev, u.dev, Latest(env), env.op)
            && |w.dev.store.slots| == |u.dev.store.slots| == |w.emptied| == |w.last|
            && u.emptied == NewEmptied(w, u.dev.store, Handled(Latest(env)))
            && (k + 1 == Steps(other) ==> Landed(other, u.dev, env.op))
  {
    PI.ProcessKeepsInv(c, w.dev, w.requests[0], env);
    WillingDeviceAccepts(c, other, rid, k, w.dev, env);
    DeviceStep(c, other, rid, k, w.dev, env);
  }

  /**
   * A frame left over from any earlier call, first under way to a device that has no reason to refuse it: handling it keeps
   * to what a call of job j may write if and only if it is not the frame that completes its transfer, or that transfer is
   * the same write or changes nothing. The completing frame always takes effect.
   */
  lemma LeftoverIsHarmlessIff(c: Config, w: World, j: Job, other: Job, rid: byte, k: nat, env: Env)
    requires WorldOk(c, w) && JobOk(j) && JobOk(other) && k < Steps(other)
    requires w.requests != [] && w.requests[0] == FrameOf(other, rid, k) && Willing(c, other, w.dev) && Obliging(other, env)
    requires InTime(w.dev.auth, env)
    requires k > 0 ==> Exact(other, rid, k, w.dev)
    ensures k + 1 == Steps(other) ==> Landed(other, Handle(c, w, env).dev, env.op)
    ensures OnlyWrites(j, w, Handle(c, w, env)) <==> k + 1 < Steps(other) || SameWrite(j, other, w.dev, env.op)
  {
    var u := Handle(c, w, env);
    LeftoverStep(c, w, other, rid, k, env);
    if k + 1 < Steps(other) {
      WrittenOnlyWrites(j, false, w, w, u, Latest(env), env.op);
    } else {
      FinalLeftover(c, w, u, j, other, env);
    }
  }
}
