/** Which histories leave a session live, and how fast proofs can be guessed. */
module AuthTheorems {
  import opened Bytes
  import opened AuthSpec

  datatype Event =
    | Ask(now: nat, random: Option<Nonce>)
    | Prove(now: nat, proof: seq<byte>, macOk: bool)
    | Refresh(now: nat)
    | Observe(now: nat)
    | Change(now: nat, cred: Credential, save: Errno)
    | LockNow(now: nat)
    | Reset(now: nat)

  datatype Setup = Setup(mac: Mac, t: Timeouts, boot: Auth)

  /** Boot leaves no session, no challenge and no failure behind. */
  predicate Fresh(a: Auth) {
    a.session.None? && a.challenge.None? && a.failures == 0
  }

  function Step(u: Setup, a: Auth, ev: Event): (Auth, Errno) {
    match ev
    case Ask(now, random) => GenerateChallenge(u.t, a, now, random)
    case Prove(now, proof, macOk) => VerifyProof(u.mac, u.t, a, now, proof, macOk)
    case Refresh(now) => RefreshSession(u.t, a, now)
    case Observe(now) => (Expire(a, now), Success)
    case Change(now, cred, save) => SetCredential(a, now, cred, save)
    case LockNow(now) => (Lock(a), Success)
    case Reset(now) => (TransportReset(a), Success)
  }

  /** An execution: the events, their results, and the states before the first and after each event. */
  datatype Trace = Trace(h: seq<Event>, e: seq<Errno>, a: seq<Auth>)

  ghost predicate Ran(u: Setup, r: Trace) {
    && |r.e| == |r.h| && |r.a| == |r.h| + 1 && r.a[0] == u.boot && Fresh(u.boot)
    && (forall i, j | 0 <= i <= j < |r.h| :: r.h[i].now <= r.h[j].now)
    && forall k {:trigger Step(u, r.a[k], r.h[k])} | 0 <= k < |r.h| :: Step(u, r.a[k], r.h[k]) == (r.a[k + 1], r.e[k])
  }

  /** The event, with this result, closes whatever session was open: a lock, a reset, a credential change, or a
      proof that got as far as using up a nonce. */
  predicate Ends(ev: Event, e: Errno) {
    ev.LockNow? || ev.Reset? || (ev.Change? && e == Success)
    || (ev.Prove? && (e == Success || e == Eacces || e == Eio))
  }

  // ------------------------------------------------------------------ challenges

  /** Event j issued the nonce, and up to event k it is the latest one, unused and not withdrawn. */
  ghost predicate Issued(u: Setup, r: Trace, j: nat, k: nat, c: Challenge)
    requires |r.e| == |r.h|
  {
    && j < k <= |r.h| && r.h[j].Ask? && r.e[j] == Success && r.h[j].random == Some(c.nonce)
    && c.deadline == r.h[j].now + u.t.challenge * 1000
    && forall m | j < m < k :: !Ends(r.h[m], r.e[m]) && !(r.h[m].Ask? && r.e[m] == Success)
  }

  lemma ChallengeStep(u: Setup, a: Auth, ev: Event)
    requires Step(u, a, ev).0.challenge.Some?
    ensures var (b, e) := Step(u, a, ev);
            if ev.Ask? && e == Success
            then ev.random.Some? && b.challenge == Some(Challenge(ev.random.value, ev.now + u.t.challenge * 1000))
            else b.challenge == a.challenge && !Ends(ev, e)
  {
  }

  lemma {:induction false} ChallengeProvenance(u: Setup, r: Trace, k: nat)
    requires Ran(u, r) && k <= |r.h| && r.a[k].challenge.Some?
    ensures exists j :: Issued(u, r, j, k, r.a[k].challenge.value)
  {
    var k' := k - 1;
    assert Step(u, r.a[k'], r.h[k']) == (r.a[k], r.e[k']);
    ChallengeStep(u, r.a[k'], r.h[k']);
    if r.h[k'].Ask? && r.e[k'] == Success {
      assert Issued(u, r, k', k, r.a[k].challenge.value);
    } else {
      ChallengeProvenance(u, r, k');
      var j :| Issued(u, r, j, k', r.a[k'].challenge.value);
      assert Issued(u, r, j, k, r.a[k].challenge.value);
    }
  }

  /**
   * A proof that is accepted answers, in time, the latest nonce issued; that nonce was never compared before and was
   * not withdrawn by a lock, a reset or a credential change.
   */
  lemma ProofAnswersFreshNonce(u: Setup, r: Trace, i: nat)
    requires Ran(u, r) && i < |r.h| && r.h[i].Prove? && r.e[i] == Success
    ensures r.a[i].state == Protected
    ensures exists j, c :: Issued(u, r, j, i, c) && r.h[i].now < c.deadline
                           && r.h[i].proof == ClientProof(u.mac, r.a[i].cred.key, c.nonce)
  {
    assert Step(u, r.a[i], r.h[i]) == (r.a[i + 1], r.e[i]);
    ChallengeProvenance(u, r, i);
    ClientAndDeviceAgree(u.mac, r.a[i].cred.key, r.a[i].challenge.value.nonce);
    var j :| Issued(u, r, j, i, r.a[i].challenge.value);
  }

  // ------------------------------------------------------------------ sessions

  /** Event m is the login i or a successful refresh after it. */
  predicate Touch(r: Trace, i: nat, m: nat)
    requires |r.e| == |r.h| && m < |r.h|
  {
    m == i || (r.h[m].Refresh? && r.e[m] == Success)
  }

  /** Some touch since login i and before event k lies less than a session timeout before time x. */
  ghost predicate Recent(u: Setup, r: Trace, i: nat, k: nat, x: nat)
    requires |r.e| == |r.h| && k <= |r.h|
  {
    exists m | i <= m < k :: Touch(r, i, m) && x < r.h[m].now + u.t.session * 1000
  }

  /** Proof i succeeded, nothing closed the session before event k, and no gap since then reached the timeout. */
  ghost predicate LoggedIn(u: Setup, r: Trace, i: nat, k: nat)
    requires |r.e| == |r.h| && k <= |r.h|
  {
    && i < k && r.h[i].Prove? && r.e[i] == Success
    && (forall m | i < m < k :: !Ends(r.h[m], r.e[m]))
    && forall m {:trigger Recent(u, r, i, m, r.h[m].now)} | i < m < k :: Recent(u, r, i, m, r.h[m].now)
  }

  /** The deadline lies one session timeout after a touch, and no touch is later. */
  ghost predicate FromLastTouch(u: Setup, r: Trace, i: nat, k: nat, d: nat)
    requires |r.e| == |r.h| && k <= |r.h|
  {
    && (exists m | i <= m < k :: Touch(r, i, m) && d == r.h[m].now + u.t.session * 1000)
    && forall m | i <= m < k && Touch(r, i, m) :: r.h[m].now + u.t.session * 1000 <= d
  }

  lemma SessionStep(u: Setup, a: Auth, ev: Event)
    ensures var (b, e) := Step(u, a, ev);
            if ev.Prove? && e == Success then b.session == Some(ev.now + u.t.session * 1000)
            else if Ends(ev, e) then b.session.None?
            else if a.session.Some? && ev.now < a.session.value then
              b.session == if ev.Refresh? && e == Success then Some(ev.now + u.t.session * 1000) else a.session
            else b.session.None? || (b.session == a.session && ev.Change?)
  {
  }

  lemma SessionMoves(u: Setup, r: Trace, k: nat)
    requires Ran(u, r) && k < |r.h|
    ensures var a, b, ev, e := r.a[k], r.a[k + 1], r.h[k], r.e[k];
            if ev.Prove? && e == Success then b.session == Some(ev.now + u.t.session * 1000)
            else if Ends(ev, e) then b.session.None?
            else if a.session.Some? && ev.now < a.session.value then
              b.session == if ev.Refresh? && e == Success then Some(ev.now + u.t.session * 1000) else a.session
            else b.session.None? || (b.session == a.session && ev.Change?)
  {
    assert Step(u, r.a[k], r.h[k]) == (r.a[k + 1], r.e[k]);
    SessionStep(u, r.a[k], r.h[k]);
  }

  /** One more event that closes nothing and comes before the deadline. */
  lemma ExtendSession(u: Setup, r: Trace, i: nat, k: nat)
    requires Ran(u, r) && i < k < |r.h| && !Ends(r.h[k], r.e[k])
    requires r.a[k].session.Some? && r.h[k].now < r.a[k].session.value && FromLastTouch(u, r, i, k, r.a[k].session.value)
    ensures r.a[k + 1].session.Some? && FromLastTouch(u, r, i, k + 1, r.a[k + 1].session.value)
    ensures Recent(u, r, i, k, r.h[k].now)
  {
    SessionMoves(u, r, k);
    if r.h[k].Refresh? && r.e[k] == Success {
      assert Touch(r, i, k);
    }
  }

  lemma LoginOpens(u: Setup, r: Trace, i: nat)
    requires Ran(u, r) && i < |r.h| && r.h[i].Prove? && r.e[i] == Success
    ensures LoggedIn(u, r, i, i + 1)
    ensures r.a[i + 1].session.Some? && FromLastTouch(u, r, i, i + 1, r.a[i + 1].session.value)
  {
    SessionMoves(u, r, i);
    assert Touch(r, i, i);
  }

  lemma {:induction false} SessionProvenance(u: Setup, r: Trace, k: nat, t: nat) returns (i: nat)
    requires Ran(u, r) && k <= |r.h| && (k > 0 ==> r.h[k - 1].now <= t)
    requires r.a[k].session.Some? && t < r.a[k].session.value
    ensures LoggedIn(u, r, i, k) && FromLastTouch(u, r, i, k, r.a[k].session.value)
  {
    var k' := k - 1;
    SessionMoves(u, r, k');
    if r.h[k'].Prove? && r.e[k'] == Success {
      i := k';
      LoginOpens(u, r, i);
    } else {
      i := SessionProvenance(u, r, k', r.h[k'].now);
      ExtendSession(u, r, i, k');
      assert LoggedIn(u, r, i, k);
    }
  }

  lemma {:induction false} LoggedInIsLive(u: Setup, r: Trace, i: nat, k: nat)
    requires Ran(u, r) && k <= |r.h| && LoggedIn(u, r, i, k)
    ensures r.a[k].session.Some? && FromLastTouch(u, r, i, k, r.a[k].session.value)
  {
    var k' := k - 1;
    if k' == i {
      LoginOpens(u, r, i);
    } else {
      assert LoggedIn(u, r, i, k') && Recent(u, r, i, k', r.h[k'].now);
      LoggedInIsLive(u, r, i, k');
      ExtendSession(u, r, i, k');
    }
  }

  /**
   * A session is live at time t exactly when some proof succeeded, nothing has closed the session since, and every
   * event since then, and t itself, came less than one session timeout after the login or a successful refresh.
   */
  lemma SessionLiveIff(u: Setup, r: Trace, t: nat)
    requires Ran(u, r) && (r.h != [] ==> r.h[|r.h| - 1].now <= t)
    ensures (r.a[|r.h|].session.Some? && t < r.a[|r.h|].session.value)
            <==> exists i :: LoggedIn(u, r, i, |r.h|) && Recent(u, r, i, |r.h|, t)
  {
    var n := |r.h|;
    if r.a[n].session.Some? && t < r.a[n].session.value {
      var i := SessionProvenance(u, r, n, t);
      assert Recent(u, r, i, n, t);
    }
    if i :| LoggedIn(u, r, i, n) && Recent(u, r, i, n, t) {
      LoggedInIsLive(u, r, i, n);
    }
  }

  // ------------------------------------------------------------------ states

  /** Protection always comes with a usable credential, and sessions exist only under protection. */
  predicate Sound(a: Auth) {
    && (a.state == Protected ==> Valid(a.cred))
    && (a.state != Protected ==> a.cred == NO_CREDENTIAL && a.session.None? && a.challenge.None?)
  }

  lemma StepKeepsSound(u: Setup, a: Auth, ev: Event)
    requires Sound(a)
    ensures Sound(Step(u, a, ev).0)
    ensures a.state == Protected ==> Step(u, a, ev).0.state == Protected
    ensures a.state == ErrorLocked ==> Step(u, a, ev).0.state == ErrorLocked
  {
  }

  /** The epoch counts every login, failed comparison, lock, reset, credential change and lapse of a session. */
  lemma EpochCountsEveryChange(u: Setup, a: Auth, ev: Event)
    ensures var (b, e) := Step(u, a, ev);
            && b.epoch >= a.epoch
            && (Ends(ev, e) || b.state != a.state || b.cred != a.cred || (a.session.Some? && b.session.None?) ==> b.epoch > a.epoch)
  {
  }

  // ------------------------------------------------------------------ which proofs are accepted

  /** What the client puts in front of the nonce. */
  const CLIENT_DOMAIN: string := "ZMK-RUNTIME-MACRO-AUTH-V2"

  /** The client's proof of a nonce, from the key that it derived. */
  function ClientProof(mac: Mac, key: Key, nonce: Nonce): (p: seq<byte>)
    ensures |p| == 16
  {
    mac(key, seq(|CLIENT_DOMAIN|, i requires 0 <= i < |CLIENT_DOMAIN| => CLIENT_DOMAIN[i] as int % 0x100) + nonce)[..16]
  }

  lemma ClientAndDeviceAgree(mac: Mac, key: Key, nonce: Nonce)
    ensures ClientProof(mac, key, nonce) == Proof(mac, key, nonce)
  {
    assert seq(|CLIENT_DOMAIN|, i requires 0 <= i < |CLIENT_DOMAIN| => CLIENT_DOMAIN[i] as int % 0x100) == DOMAIN;
  }

  /** The event finds that the session has passed its deadline, and ends it together with the challenge. */
  predicate Lapses(a: Auth, ev: Event) {
    a.session.Some? && a.session.value <= ev.now && (ev.Change? ==> Valid(ev.cred))
  }

  /** The event, with this result, replaces or withdraws whatever challenge was outstanding. */
  predicate Withdraws(a: Auth, ev: Event, e: Errno) {
    || Ends(ev, e) || Lapses(a, ev)
    || (ev.Ask? && (e == Success || e == Eio)) || (ev.Prove? && e == Enoent)
  }

  /** Event j issued the nonce, and nothing up to event k has withdrawn it. */
  ghost predicate Standing(u: Setup, r: Trace, j: nat, k: nat, c: Challenge)
    requires |r.e| == |r.h| < |r.a|
  {
    && j < k <= |r.h| && r.h[j].Ask? && r.e[j] == Success && r.h[j].random == Some(c.nonce)
    && c.deadline == r.h[j].now + u.t.challenge * 1000
    && forall m | j < m < k :: !Withdraws(r.a[m], r.h[m], r.e[m])
  }

  lemma OutstandingStep(u: Setup, a: Auth, ev: Event)
    requires Sound(a)
    ensures var (b, e) := Step(u, a, ev);
            b.challenge ==
            if ev.Ask? && e == Success then
              if ev.random.Some? then Some(Challenge(ev.random.value, ev.now + u.t.challenge * 1000)) else None
            else if Withdraws(a, ev, e) then None else a.challenge
    ensures ev.Ask? && Step(u, a, ev).1 == Success ==> ev.random.Some?
  {
  }

  lemma {:induction false} RanIsSound(u: Setup, r: Trace, k: nat)
    requires Ran(u, r) && Sound(u.boot) && k <= |r.h|
    ensures Sound(r.a[k])
  {
    if k > 0 {
      RanIsSound(u, r, k - 1);
      assert Step(u, r.a[k - 1], r.h[k - 1]) == (r.a[k], r.e[k - 1]);
      StepKeepsSound(u, r.a[k - 1], r.h[k - 1]);
    }
  }

  /** A challenge is outstanding exactly when some event issued it and nothing has withdrawn it since. */
  lemma {:induction false} OutstandingIff(u: Setup, r: Trace, k: nat, c: Challenge)
    requires Ran(u, r) && Sound(u.boot) && k <= |r.h|
    ensures r.a[k].challenge == Some(c) <==> exists j :: Standing(u, r, j, k, c)
  {
    if k > 0 {
      var k' := k - 1;
      OutstandingIff(u, r, k', c);
      RanIsSound(u, r, k');
      assert Step(u, r.a[k'], r.h[k']) == (r.a[k], r.e[k']);
      OutstandingStep(u, r.a[k'], r.h[k']);
      if r.a[k].challenge == Some(c) {
        if r.h[k'].Ask? && r.e[k'] == Success {
          assert Standing(u, r, k', k, c);
        } else {
          var j :| Standing(u, r, j, k', c);
          assert Standing(u, r, j, k, c);
        }
      }
      if j: nat :| Standing(u, r, j, k, c) {
        if j < k' {
          assert Standing(u, r, j, k', c);
        }
      }
    }
  }

  lemma ProveStep(u: Setup, a: Auth, ev: Event)
    requires Sound(a) && ev.Prove?
    ensures var (b, e) := Step(u, a, ev);
            && (e == Success <==> a.challenge.Some? && ev.now < a.challenge.value.deadline && !Lapses(a, ev) && ev.macOk
                                  && ev.proof == ClientProof(u.mac, a.cred.key, a.challenge.value.nonce))
            && (e == Success ==> b.session == Some(ev.now + u.t.session * 1000) && b.failures == 0 && b.state == Protected)
  {
    if a.challenge.Some? {
      ClientAndDeviceAgree(u.mac, a.cred.key, a.challenge.value.nonce);
    }
  }

  /**
   * A proof is accepted if and only if it is the client's proof, under the key in force, of a nonce that was issued, has
   * not been withdrawn and is in time, the MAC can be computed, and no older session lapses at that very moment; however
   * many proofs have failed before. Then the session runs from that moment and no failure is remembered.
   */
  lemma ProofAcceptedIff(u: Setup, r: Trace, i: nat)
    requires Ran(u, r) && Sound(u.boot) && i < |r.h| && r.h[i].Prove?
    ensures r.e[i] == Success <==>
            exists j, c :: Standing(u, r, j, i, c) && r.h[i].now < c.deadline && r.h[i].macOk && !Lapses(r.a[i], r.h[i])
                           && r.h[i].proof == ClientProof(u.mac, r.a[i].cred.key, c.nonce)
    ensures r.e[i] == Success ==>
              r.a[i + 1].session == Some(r.h[i].now + u.t.session * 1000) && r.a[i + 1].failures == 0
  {
    var a, ev := r.a[i], r.h[i];
    assert Step(u, a, ev) == (r.a[i + 1], r.e[i]);
    RanIsSound(u, r, i);
    ProveStep(u, a, ev);
    if r.e[i] == Success {
      OutstandingIff(u, r, i, a.challenge.value);
      var j :| Standing(u, r, j, i, a.challenge.value);
    }
    if j, c :| Standing(u, r, j, i, c) && ev.now < c.deadline && ev.macOk && !Lapses(a, ev)
                && ev.proof == ClientProof(u.mac, a.cred.key, c.nonce) {
      OutstandingIff(u, r, i, c);
    }
  }

  /** A challenge is issued if and only if a password is set, no cooldown is running and there is randomness. */
  lemma ChallengeIssuedIff(u: Setup, a: Auth, ev: Event)
    requires ev.Ask?
    ensures Step(u, a, ev).1 == Success
            <==> a.state == Protected && ev.random.Some? && (a.failures == 0 || a.cooldown <= ev.now)
  {
  }

  /** A credential is changed if and only if it is valid, it is saved, and there is no password or a session is live. */
  lemma ChangeMadeIff(u: Setup, a: Auth, ev: Event)
    requires Sound(a) && ev.Change?
    ensures Step(u, a, ev).1 == Success
            <==> Valid(ev.cred) && ev.save == Success
                 && (a.state == Open || (a.state == Protected && a.session.Some? && ev.now < a.session.value))
  {
  }

  // ------------------------------------------------------------------ cooldown

  /** The wait after the n-th failure, in milliseconds. */
  function Cooldown(n: nat): nat
    requires n > 0
  {
    Min(Pow2(n - 1), COOLDOWN_MAX_SECONDS) * 1000
  }

  /** All the waits before the n-th failure. */
  function Waits(n: nat): nat
    requires n > 0
  {
    if n == 1 then 0 else Waits(n - 1) + Cooldown(n - 1)
  }

  predicate Fails(ev: Event, e: Errno) {
    ev.Prove? && e == Eacces
  }

  function Failures(r: Trace, k: nat): nat
    requires |r.e| == |r.h| && k <= |r.h|
  {
    if k == 0 then 0 else Failures(r, k - 1) + (if Fails(r.h[k - 1], r.e[k - 1]) then 1 else 0)
  }

  /** No success, transport reset or credential change; locks are allowed. */
  predicate NoRelief(ev: Event, e: Errno) {
    !ev.Reset? && !((ev.Prove? || ev.Change?) && e == Success)
  }

  lemma SaturatedCooldown(n: nat)
    requires n > 0
    ensures Min(Pow2(Min(n, FAILURES_MAX) - 1), COOLDOWN_MAX_SECONDS) * 1000 == Cooldown(n)
    ensures n >= 4 ==> Pow2(n - 1) >= 8
  {
    if n <= 4 {
      assert Pow2(0) == 1 && Pow2(1) == 2 && Pow2(2) == 4 && Pow2(3) == 8;
    } else {
      SaturatedCooldown(n - 1);
    }
  }

  lemma {:induction false} WaitsInClosedForm(n: nat)
    requires n >= 4
    ensures Waits(n) == (7 + 8 * (n - 4)) * 1000
  {
    assert Pow2(0) == 1 && Pow2(1) == 2 && Pow2(2) == 4 && Pow2(3) == 8;
    if n == 4 {
      assert Waits(2) == 1000 && Waits(3) == 3000;
    } else {
      WaitsInClosedForm(n - 1);
      SaturatedCooldown(n - 1);
    }
  }

  /** The counter and the deadline record the failures, and a usable nonce postdates the cooldown. */
  ghost predicate Guarded(r: Trace, k: nat, first: nat)
    requires |r.e| == |r.h| && k <= |r.h| < |r.a|
  {
    var a, n := r.a[k], Failures(r, k);
    && a.failures == Min(n, FAILURES_MAX)
    && (n > 0 ==> a.cooldown >= first + Waits(n) + Cooldown(n))
    && (n > 0 && a.challenge.Some? ==> k > 0 && r.h[k - 1].now >= a.cooldown)
  }

  lemma FailureStep(u: Setup, a: Auth, ev: Event)
    requires NoRelief(ev, Step(u, a, ev).1)
    ensures var (b, e) := Step(u, a, ev);
            if Fails(ev, e)
            then a.challenge.Some? && b.challenge.None? && b.failures == (if a.failures < FAILURES_MAX then a.failures + 1 else a.failures)
                 && b.cooldown == ev.now + Min(Pow2(b.failures - 1), COOLDOWN_MAX_SECONDS) * 1000
            else b.failures == a.failures && b.cooldown == a.cooldown
                 && (b.challenge.Some? ==> b.challenge == a.challenge || (ev.Ask? && (a.failures == 0 || ev.now >= a.cooldown)))
  {
  }

  /**
   * With no success, reset or credential change, the n-th failed proof starts a cooldown of min(2^(n-1), 8) seconds
   * although the counter stops at 4, and it comes no sooner after the first than all the earlier cooldowns together.
   * Locking the session shortens nothing.
   */
  lemma {:induction false} GuessingIsSlow(u: Setup, r: Trace, k: nat, first: nat)
    requires Ran(u, r) && k <= |r.h|
    requires forall j | 0 <= j < k :: NoRelief(r.h[j], r.e[j])
    requires forall j | 0 <= j < k && Failures(r, j) == 0 && Fails(r.h[j], r.e[j]) :: first == r.h[j].now
    ensures Guarded(r, k, first)
    ensures k > 0 && Fails(r.h[k - 1], r.e[k - 1]) ==>
              var n := Failures(r, k);
              n > 0 && r.h[k - 1].now >= first + Waits(n) && r.a[k].cooldown == r.h[k - 1].now + Cooldown(n)
  {
    if k > 0 {
      GuessingIsSlow(u, r, k - 1, first);
      assert Step(u, r.a[k - 1], r.h[k - 1]) == (r.a[k], r.e[k - 1]);
      FailureStep(u, r.a[k - 1], r.h[k - 1]);
      var n := Failures(r, k);
      if n > 0 {
        SaturatedCooldown(n);
      }
    }
  }
}
