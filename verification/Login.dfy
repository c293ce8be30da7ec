/** Logging in, and what a login opens: told in requests, from what the client reads and computes. */
module Login {
  import opened Bytes
  import opened Wire
  import opened ProtocolSpec
  import A = AuthSpec
  import AT = AuthTheorems
  import AH = AuthHistory
  import AN = Answers
  import PI = ProtocolInvariants

  /** The client's key derivation, kept abstract (section 5.2 of RFC 8018). */
  type Derivation = (seq<byte>, u32) -> A.Key

  function InfoFrame(rid: byte): Frame {
    BuildFrame(AUTH_INFO, rid, LIST_SLOT, [], 0, 0)
  }

  function ChallengeFrame(rid: byte): Frame {
    BuildFrame(AUTH_CHALLENGE, rid, LIST_SLOT, [], 0, 0)
  }

  function ProofFrame(rid: byte, proof: seq<byte>): Frame
    requires |proof| == 16
  {
    BuildFrame(AUTH_PROVE, rid, LIST_SLOT, proof, 0, 16)
  }

  lemma FramesAreFormed(rid: byte, proof: seq<byte>)
    requires |proof| == 16
    ensures AN.Plain(InfoFrame(rid)) && AN.Plain(ChallengeFrame(rid))
    ensures AN.Proves(ProofFrame(rid, proof)) && ProofFrame(rid, proof).Data() == proof
  {
  }

  /** The proof that the client computes from the answers to AUTH_INFO and AUTH_CHALLENGE. */
  function ProofFrom(mac: A.Mac, derive: Derivation, info: Response, challenge: Response): (p: seq<byte>)
    requires info.Ok? && |info.payload| == 22 && challenge.Ok? && |challenge.payload| == 16
    ensures |p| == 16
  {
    AT.ClientProof(mac, derive(info.payload[6..22], GetU32(info.payload[2..6])), challenge.payload)
  }

  /** A request to a reachable device, which is reachable afterwards too. */
  function Served(c: Config, s: System, f: Frame, env: Env): (r: (System, Response))
    requires ConfigOk(c) && PI.Inv(c, s)
    ensures r == Process(c, s, f, env) && PI.Inv(c, r.0)
  {
    PI.ProcessKeepsInv(c, s, f, env);
    Process(c, s, f, env)
  }

  /** The clock does not go back, the cooldown is over, the nonce does not run out, and no older session lapses in between. */
  predicate Timely(c: Config, a: A.Auth, info: Env, challenge: Env, proof: Env) {
    && info.sync <= info.op <= challenge.sync <= challenge.op <= proof.sync <= proof.op
    && (a.failures == 0 || a.cooldown <= challenge.op) && proof.op < challenge.op + c.t.challenge * 1000
    && (a.session.Some? ==> a.session.value <= challenge.op || proof.op < a.session.value)
  }

  lemma InfoKeeps(c: Config, s: System, rid: byte, env: Env, derive: Derivation)
    requires ConfigOk(c) && PI.Inv(c, s) && s.auth.state == A.Protected
    ensures var (t, r) := Process(c, s, InfoFrame(rid), env);
            && PI.Inv(c, t) && r.Ok? && |r.payload| == 22
            && derive(r.payload[6..22], GetU32(r.payload[2..6])) == derive(s.auth.cred.salt, s.auth.cred.iterations)
            && t.auth.state == s.auth.state && t.auth.cred == s.auth.cred
            && t.auth.failures == s.auth.failures && t.auth.cooldown == s.auth.cooldown
            && t.auth.session == (if AN.SessionAt(s.auth, env) then s.auth.session else None)
  {
    FramesAreFormed(rid, Zeros(16));
    PI.ProcessKeepsInv(c, s, InfoFrame(rid), env);
    AN.InfoIsAnswered(c, s, InfoFrame(rid), env);
  }

  lemma ChallengeKeeps(c: Config, s: System, rid: byte, env: Env)
    requires ConfigOk(c) && PI.Inv(c, s) && s.auth.state == A.Protected && env.random.Some?
    requires s.auth.failures == 0 || s.auth.cooldown <= env.op
    ensures var (t, r) := Process(c, s, ChallengeFrame(rid), env);
            && PI.Inv(c, t) && r.Ok? && r.payload == env.random.value
            && t.auth.state == s.auth.state && t.auth.cred == s.auth.cred
            && t.auth.challenge == Some(A.Challenge(r.payload, env.op + c.t.challenge * 1000))
            && t.auth.session == (if AN.SessionAt(s.auth, env) then s.auth.session else None)
  {
    FramesAreFormed(rid, Zeros(16));
    PI.ProcessKeepsInv(c, s, ChallengeFrame(rid), env);
    AN.ChallengeIsAnswered(c, s, ChallengeFrame(rid), env);
  }

  /**
   * Whoever knows the password gets in. On a device with a password, if the client derives the key in force from the salt and
   * iterations that AUTH_INFO carries, then the proof it computes from the two answers is accepted in time, after however
   * many failed attempts, and the gate is open from then on until the session times out.
   */
  lemma LoginSucceeds(c: Config, s: System, derive: Derivation, info: Env, challenge: Env, proof: Env, r1: byte, r2: byte, r3: byte)
    requires ConfigOk(c) && PI.Inv(c, s) && s.auth.state == A.Protected
    requires derive(s.auth.cred.salt, s.auth.cred.iterations) == s.auth.cred.key
    requires Timely(c, s.auth, info, challenge, proof) && challenge.random.Some? && proof.macOk
    ensures var (t, infoAnswer) := Served(c, s, InfoFrame(r1), info);
            var (u, nonceAnswer) := Served(c, t, ChallengeFrame(r2), challenge);
            && infoAnswer.Ok? && |infoAnswer.payload| == 22 && nonceAnswer.Ok? && |nonceAnswer.payload| == 16
            && var (v, answer) := Served(c, u, ProofFrame(r3, ProofFrom(c.mac, derive, infoAnswer, nonceAnswer)), proof);
               answer == Ok(0, 0, []) && forall now: nat :: AN.LiveAt(v.auth, now) <==> now < proof.op + c.t.session * 1000
  {
    InfoKeeps(c, s, r1, info, derive);
    var (t, infoAnswer) := Served(c, s, InfoFrame(r1), info);
    ChallengeKeeps(c, t, r2, challenge);
    var (u, nonceAnswer) := Served(c, t, ChallengeFrame(r2), challenge);
    var p := ProofFrom(c.mac, derive, infoAnswer, nonceAnswer);
    FramesAreFormed(r3, p);
    AN.ProofIsAnswered(c, u, ProofFrame(r3, p), proof);
  }

  /**
   * The gate over every run. On a running device, a request for a page that exists is answered with the page if and only if
   * no password is set, or somebody logged in, nothing has ended that session since, and every event since then, up to the
   * answer, came less than one session timeout after the login or a later answer that kept the session alive.
   */
  lemma GateOverRuns(c: Config, ss: seq<System>, steps: seq<PI.Step>, k: nat, f: Frame, env: Env) returns (r: AT.Trace)
    requires PI.Runs(c, ss, steps) && k <= |steps| && AH.Clocked(steps) && AT.Fresh(ss[0].auth)
    requires env.sync <= env.access <= env.refresh && (k > 0 ==> AH.Last(steps[k - 1]) <= env.sync)
    requires SlotsOk(c, ss[k]) && AN.AsksForPage(c, f) && f.offset <= |AN.Object(c, ss[k], f)|
    ensures AT.Ran(AH.Setup(c, ss[0].auth), r) && r.h == AH.AllEvents(c, ss, steps, k)
    ensures var u, answer := AH.Setup(c, ss[0].auth), Process(c, ss[k], f, env).1;
            && (answer.Ok? <==> ss[k].auth.state == A.Open
                                || exists i :: AT.LoggedIn(u, r, i, |r.h|) && AT.Recent(u, r, i, |r.h|, env.refresh))
            && (!answer.Ok? ==> answer == Err(if ss[k].auth.state == A.ErrorLocked then CREDENTIAL_INVALID else AUTH_REQUIRED))
  {
    PI.RunKeepsInv(c, ss, steps, k);
    AN.ReadsAreAnswered(c, ss[k], f, env);
    r := AH.DeviceSessionLiveIff(c, ss, steps, k, env.refresh);
  }
}
