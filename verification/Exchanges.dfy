/** One exchange of the client over the lossy link: send a frame, then read until its answer comes or the deadline. */
module Exchanges {
  import opened Bytes
  import opened Wire
  import opened ProtocolSpec
  import opened Transfers
  import opened LossyLink
  import A = AuthSpec
  import PI = ProtocolInvariants

  /**
   * What the link does during one exchange: whether the request gets into the queue, whether the write is reported as
   * successful, and what happens before each read until the deadline.
   */
  datatype Trial = Trial(written: bool, reported: bool, rounds: seq<seq<Event>>)

  predicate Matches(resp: Frame, req: Frame) {
    resp.rid == req.rid && resp.op == req.op && resp.slot == req.slot
  }

  function HappenAll(c: Config, w: World, es: seq<Event>): (u: World)
    requires WorldOk(c, w)
    ensures WorldOk(c, u)
  {
    if es == [] then w else Happen(c, HappenAll(c, w, es[..|es| - 1]), es[|es| - 1])
  }

  function Sent(w: World, f: Frame): World {
    w.(requests := w.requests + [f])
  }

  function Popped(w: World): World
    requires w.responses != []
  {
    w.(responses := w.responses[1..])
  }

  /** Reads, one a round, until one brings an answer to f or nothing at all. */
  function Listened(c: Config, w: World, f: Frame, rounds: seq<seq<Event>>): (r: (World, Option<Frame>))
    requires WorldOk(c, w)
    ensures WorldOk(c, r.0)
    decreases |rounds|
  {
    if rounds == [] then (w, None)
    else
      var u := HappenAll(c, w, rounds[0]);
      if u.responses == [] then (u, None)
      else if Matches(u.responses[0], f) then (Popped(u), Some(u.responses[0]))
      else Listened(c, Popped(u), f, rounds[1..])
  }

  function Exchanged(c: Config, w: World, f: Frame, t: Trial): (r: (World, Option<Frame>))
    requires WorldOk(c, w)
    ensures WorldOk(c, r.0)
  {
    var u := if t.written then Sent(w, f) else w;
    if t.reported then Listened(c, u, f, t.rounds) else (u, None)
  }

  // ------------------------------------------------------------------ what an exchange keeps

  /** Ready to send the frame of step k: nothing of this attempt is under way and the earlier steps are acknowledged. */
  predicate Ready(v: View, w: World) {
    && WorldOk(v.c, w) && JobOk(v.j) && v.k < Steps(v.j) && (v.early ==> v.clean && v.j.Secret?) && Clean(v, w)
    && (v.early ==> Unwritten(v.base, w) && forall p | 0 <= p < |w.requests| :: Early(v.j, w, p))
    && if v.k == 0 then NoneWith(v.rid, w.requests) && NoneWith(v.rid, w.responses)
       else w.requests == [] && w.responses == [] && Progress(v.j, v.rid, v.k, w.dev)
  }

  lemma BehindStay(j: Job, w: World, f: Frame)
    requires JobOk(j)
    ensures (forall p | 0 <= p < |w.requests| :: Harmless(j, w, p)) ==> forall p | 0 <= p < |w.requests| :: Harmless(j, Sent(w, f), p)
    ensures (forall p | 0 <= p < |w.requests| :: Early(j, w, p)) ==> forall p | 0 <= p < |w.requests| :: Early(j, Sent(w, f), p)
  {
    var u := Sent(w, f);
    forall p | 0 <= p < |w.requests| ensures (Harmless(j, w, p) ==> Harmless(j, u, p)) && (Early(j, w, p) ==> Early(j, u, p)) {
      assert u.requests[p] == w.requests[p];
    }
  }

  lemma SendingKeepsLive(v: View, w: World)
    requires Ready(v, w)
    ensures Live(v, w) && Live(v, Sent(w, FrameOf(v.j, v.rid, v.k)))
  {
    var f := FrameOf(v.j, v.rid, v.k);
    var u := Sent(w, f);
    StepOfFrame(v.j, v.rid, v.k);
    BehindStay(v.j, w, f);
    assert u.requests[..|w.requests|] == w.requests;
    assert v.clean ==> Own(v.j, u, |w.requests|);
    assert Gone(v, w) && Asked(v, u);
  }

  lemma FirstIsInFront(rid: byte, frames: seq<Frame>)
    ensures |frames| > 1 && frames[0].rid == rid ==> !NoneWith(rid, frames[..|frames| - 1])
  {
    if |frames| > 1 {
      assert frames[..|frames| - 1][0] == frames[0];
    }
  }

  /** A response with the current identifier is the genuine answer, and nothing else is under way. */
  lemma OnlyGenuineMatches(v: View, w: World)
    requires Live(v, w) && w.responses != [] && w.responses[0].rid == v.rid
    ensures w.requests == [] && |w.responses| == 1 && Genuine(v, w, w.responses[0])
  {
    FirstIsInFront(v.rid, w.responses);
  }

  /** A new identifier is not under way while fewer than 256 are, and makes every other one older. */
  lemma NewIdentifier(next: byte, m: nat, w: World)
    requires Recent(next, m, w) && m < 256
    ensures Recent((next + 1) % 256, m + 1, w)
    ensures NoneWith(next, w.requests) && NoneWith(next, w.responses)
  {
    assert forall rid: byte :: Age((next + 1) % 256, rid) <= Age(next, rid) + 1;
  }

  lemma WeakerRecent(next: byte, m: nat, m': nat, w: World)
    requires Recent(next, m, w) && m <= m'
    ensures Recent(next, m', w)
  {
  }

  lemma {:induction false} TimeKeepsLive(v: View, w: World, es: seq<Event>, next: byte, m: nat)
    requires Live(v, w) && Recent(next, m, w)
    ensures var u := HappenAll(v.c, w, es); Live(v, u) && Recent(next, m, u)
  {
    if es != [] {
      var init := es[..|es| - 1];
      TimeKeepsLive(v, w, init, next, m);
      EventKeepsLive(v, HappenAll(v.c, w, init), es[|es| - 1]);
      RecentStep(v.c, HappenAll(v.c, w, init), es[|es| - 1], next, m);
    }
  }

  lemma PoppingKeepsLive(v: View, w: World, next: byte, m: nat)
    requires Live(v, w) && Recent(next, m, w) && w.responses != []
    ensures Live(v, Popped(w)) && Recent(next, m, Popped(w))
    ensures w.responses[0].rid == v.rid ==>
              Popped(w).requests == [] && Popped(w).responses == [] && Genuine(v, Popped(w), w.responses[0])
  {
    LostResponseKeepsLive(v, w);
    RecentStep(v.c, w, LoseResponse, next, m);
    if w.responses[0].rid == v.rid {
      OnlyGenuineMatches(v, w);
    }
  }

  /** What is read as the answer is the genuine answer, and then nothing else is under way. */
  lemma {:induction false} ListeningKeepsLive(v: View, w: World, rounds: seq<seq<Event>>, next: byte, m: nat)
    requires Live(v, w) && Recent(next, m, w)
    ensures var (u, reply) := Listened(v.c, w, FrameOf(v.j, v.rid, v.k), rounds);
            && Live(v, u) && Recent(next, m, u)
            && (reply.Some? ==> u.requests == [] && u.responses == [] && Genuine(v, u, reply.value))
    decreases |rounds|
  {
    if rounds != [] {
      var u := HappenAll(v.c, w, rounds[0]);
      TimeKeepsLive(v, w, rounds[0], next, m);
      if u.responses != [] {
        PoppingKeepsLive(v, u, next, m);
        ListeningKeepsLive(v, Popped(u), rounds[1..], next, m);
      }
    }
  }

  lemma ExchangeKeepsLive(v: View, w: World, t: Trial, next: byte, m: nat)
    requires Ready(v, w) && Recent(next, m, w) && Age(next, v.rid) < m
    ensures var (u, reply) := Exchanged(v.c, w, FrameOf(v.j, v.rid, v.k), t);
            && Live(v, u) && Recent(next, m, u)
            && (reply.Some? ==> u.requests == [] && u.responses == [] && Genuine(v, u, reply.value))
  {
    var f := FrameOf(v.j, v.rid, v.k);
    SendingKeepsLive(v, w);
    ListeningKeepsLive(v, w, t.rounds, next, m);
    ListeningKeepsLive(v, Sent(w, f), t.rounds, next, m);
  }

  // ------------------------------------------------------------------ a link that answers promptly

  /** The link delivers the request before the first read, and the device's surroundings make no trouble. */
  predicate Prompt(j: Job, t: Trial) {
    t.written && t.reported && PromptRounds(j, t.rounds)
  }

  predicate PromptRounds(j: Job, rounds: seq<seq<Event>>) {
    |rounds| > 0 && |rounds[0]| == 1 && rounds[0][0].Deliver? && Obliging(j, rounds[0][0].env)
  }

  /** What the device's surroundings answer to the request of a prompt exchange. */
  function EnvOf(j: Job, t: Trial): Env
    requires Prompt(j, t)
  {
    t.rounds[0][0].env
  }

  /** The later request comes less than one session timeout after the answer to the earlier one. */
  predicate Soon(c: Config, earlier: Env, later: Env) {
    var deadline := earlier.refresh + c.t.session * 1000;
    later.sync < deadline && later.access < deadline && later.op < deadline && later.refresh < deadline
  }

  /** The session lasts from one exchange to the next; uploads keep it alive no longer than it was. */
  predicate Lasts(c: Config, j: Job, a: A.Auth, before: Trial, after: Trial) {
    && Prompt(j, before) && Prompt(j, after)
    && if j.Upload? then InTime(a, EnvOf(j, after)) else Soon(c, EnvOf(j, before), EnvOf(j, after))
  }

  /**
   * From the n-th exchange on the link is prompt, and a session that is live lasts: the first request comes before its
   * deadline, and each later one soon after the one before; uploads keep no session alive and all come before the deadline.
   */
  ghost predicate PromptFrom(c: Config, j: Job, a: A.Auth, link: nat -> Trial, n: nat) {
    && (forall i: nat | n <= i :: Prompt(j, link(i)))
    && (a.session.Some? ==> InTime(a, EnvOf(j, link(n)))
                            && forall i: nat | n < i :: Lasts(c, j, a, link(i - 1), link(i)))
  }

  lemma PromptGoesOn(c: Config, j: Job, a: A.Auth, b: A.Auth, link: nat -> Trial, n: nat)
    requires PromptFrom(c, j, a, link, n) && b.session == Deadline(c, j, a, EnvOf(j, link(n)))
    ensures PromptFrom(c, j, b, link, n + 1)
  {
    if b.session.Some? {
      assert Lasts(c, j, a, link(n), link(n + 1));
      forall i: nat | n + 1 < i ensures Lasts(c, j, b, link(i - 1), link(i)) {
        assert Lasts(c, j, a, link(i - 1), link(i));
      }
    }
  }

  /** Nothing is under way, and the device has no reason to refuse step k. */
  predicate Eager(v: View, w: World) {
    && WorldOk(v.c, w) && JobOk(v.j) && v.k < Steps(v.j)
    && w.requests == [] && w.responses == [] && Willing(v.c, v.j, w.dev) && (v.k > 0 ==> Exact(v.j, v.rid, v.k, w.dev))
  }

  lemma PromptStep(v: View, w: World, env: Env)
    requires Eager(v, w) && Obliging(v.j, env) && InTime(w.dev.auth, env)
    ensures var (t, r) := Process(v.c, w.dev, FrameOf(v.j, v.rid, v.k), env);
            && PI.Inv(v.c, t) && r == Ack(v.c, v.j, v.k, t) && r.Ok?
            && (v.k + 1 < Steps(v.j) ==> Willing(v.c, v.j, t) && Exact(v.j, v.rid, v.k + 1, t))
            && (v.k + 1 < Steps(v.j) || !v.j.Secret? ==> t.auth.session == Deadline(v.c, v.j, w.dev.auth, env))
  {
    PI.ProcessKeepsInv(v.c, w.dev, FrameOf(v.j, v.rid, v.k), env);
    WillingDeviceAccepts(v.c, v.j, v.rid, v.k, w.dev, env);
    DeviceStep(v.c, v.j, v.rid, v.k, w.dev, env);
  }

  lemma PromptAnswer(v: View, w: World, env: Env)
    requires Eager(v, w) && Obliging(v.j, env) && InTime(w.dev.auth, env)
    ensures var f := FrameOf(v.j, v.rid, v.k);
            var u := Happen(v.c, Sent(w, f), Deliver(env));
            && u.requests == [] && u.responses == [Encode(f, Ack(v.c, v.j, v.k, u.dev))] && u.responses[0].status == 0
            && (v.k + 1 < Steps(v.j) ==> Eager(v.(k := v.k + 1), Popped(u)))
            && (v.k + 1 < Steps(v.j) || !v.j.Secret? ==> u.dev.auth.session == Deadline(v.c, v.j, w.dev.auth, env))
  {
    var f := FrameOf(v.j, v.rid, v.k);
    var s := Sent(w, f);
    PromptStep(v, w, env);
    assert s.requests == [f] && s.requests[1..] == [];
  }

  /** A willing device over a prompt link accepts the step at once. */
  lemma PromptExchange(v: View, w: World, t: Trial)
    requires Eager(v, w) && Prompt(v.j, t) && InTime(w.dev.auth, EnvOf(v.j, t))
    ensures var (u, reply) := Exchanged(v.c, w, FrameOf(v.j, v.rid, v.k), t);
            && reply == Some(Encode(FrameOf(v.j, v.rid, v.k), Ack(v.c, v.j, v.k, u.dev))) && reply.value.status == 0
            && (v.k + 1 < Steps(v.j) ==> Eager(v.(k := v.k + 1), u))
            && (v.k + 1 < Steps(v.j) || !v.j.Secret? ==> u.dev.auth.session == Deadline(v.c, v.j, w.dev.auth, EnvOf(v.j, t)))
  {
    var f := FrameOf(v.j, v.rid, v.k);
    var s := Sent(w, f);
    var es := t.rounds[0];
    PromptAnswer(v, w, es[0].env);
    assert HappenAll(v.c, s, es) == Happen(v.c, s, es[0]) by {
      assert es[..0] == [];
    }
  }

  /** The first response that answers the request is the one that is returned; any other is passed over, and none ends the wait. */
  lemma FirstAnswerIsTaken(c: Config, w: World, f: Frame, rounds: seq<seq<Event>>)
    requires WorldOk(c, w) && rounds != []
    ensures var u, r := HappenAll(c, w, rounds[0]), Listened(c, w, f, rounds);
            if u.responses == [] then r == (u, None)
            else
              var x := u.responses[0];
              if x.rid == f.rid && x.op == f.op && x.slot == f.slot then r == (Popped(u), Some(x))
              else r == Listened(c, Popped(u), f, rounds[1..])
  {
  }

  /** Whatever the device answers, an acknowledgement or a refusal, reaches the caller over a link that delivers both frames. */
  lemma PromptReply(c: Config, w: World, f: Frame, t: Trial, env: Env)
    requires WorldOk(c, w) && w.requests == [] && w.responses == [] && t.written && t.reported
    requires |t.rounds| > 0 && t.rounds[0] == [Deliver(env)]
    ensures SlotsOk(c, w.dev) && Exchanged(c, w, f, t).1 == Some(Encode(f, Process(c, w.dev, f, env).1))
  {
    var s, es := Sent(w, f), t.rounds[0];
    assert es[..0] == [];
    assert HappenAll(c, s, es) == Happen(c, s, Deliver(env));
    assert s.requests == [f];
    assert Happen(c, s, Deliver(env)).responses == [Encode(f, Process(c, w.dev, f, env).1)];
  }
}
