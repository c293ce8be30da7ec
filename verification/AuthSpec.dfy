/**
 * The authentication core as a state machine on values. A flag together with its zeroized buffer and deadline
 * becomes an optional value. `stored` is the persisted "auth/credential" record; `epoch` is a history variable that
 * counts every login, failed comparison, lock, expiry, reset and credential change.
 */
module AuthSpec {
  import opened Bytes

  type Salt = s: seq<byte> | |s| == 16 witness Zeros(16)
  type Nonce = s: seq<byte> | |s| == 16 witness Zeros(16)
  type Key = s: seq<byte> | |s| == 32 witness Zeros(32)
  type Digest = s: seq<byte> | |s| == 32 witness Zeros(32)
  type Record = s: seq<byte> | |s| == 53 witness Zeros(53)
  /** HMAC-SHA256, kept abstract (section 2 of RFC 2104). */
  type Mac = (Key, seq<byte>) -> Digest

  const ITERATIONS_DEFAULT: u32 := 600_000
  const ITERATIONS_MIN: u32 := 100_000
  const ITERATIONS_MAX: u32 := 5_000_000
  const CREDENTIAL_VERSION: byte := 1
  const FAILURES_MAX: nat := 4
  const COOLDOWN_MAX_SECONDS: nat := 8
  /** "ZMK-RUNTIME-MACRO-AUTH-V2" */
  const DOMAIN: seq<byte> := [90, 77, 75, 45, 82, 85, 78, 84, 73, 77, 69, 45, 77, 65, 67, 82, 79, 45, 65, 85, 84, 72, 45, 86, 50]

  datatype State = Open | Protected | ErrorLocked
  datatype Credential = Credential(iterations: u32, salt: Salt, key: Key)
  datatype Challenge = Challenge(nonce: Nonce, deadline: nat)

  const NO_CREDENTIAL := Credential(0, Zeros(16), Zeros(32))

  datatype Auth = Auth(
    state: State, cred: Credential, session: Option<nat>, challenge: Option<Challenge>,
    failures: nat, cooldown: nat, seen: bool, invalid: bool, generation: u32,
    stored: Option<seq<byte>>, epoch: nat)
  {
    /** Meaningful after Expire at the current time. */
    predicate Authenticated() {
      state == Protected && session.Some?
    }
  }

  /** Timeouts in seconds. */
  datatype Timeouts = Timeouts(challenge: nat, session: nat)

  predicate Valid(c: Credential) {
    ITERATIONS_MIN <= c.iterations <= ITERATIONS_MAX && !AllZero(c.salt) && !AllZero(c.key)
  }

  function Serialize(c: Credential): Record {
    [CREDENTIAL_VERSION] + PutU32(c.iterations) + c.salt + c.key
  }

  function Deserialize(r: Record): Credential {
    Credential(GetU32(r[1..5]), r[5..21], r[21..53])
  }

  lemma StoreAndReload(c: Credential)
    ensures Serialize(c)[0] == CREDENTIAL_VERSION && Deserialize(Serialize(c)) == c
  {
    var r := Serialize(c);
    assert r[1..5] == PutU32(c.iterations) && r[5..21] == c.salt && r[21..53] == c.key;
    U32RoundTrip(c.iterations, r[1..5]);
  }

  /** The 16-byte proof of a nonce. */
  function Proof(mac: Mac, key: Key, nonce: Nonce): seq<byte> {
    mac(key, DOMAIN + nonce)[..16]
  }

  function ClearTransient(a: Auth, clearFailures: bool): Auth {
    var b := a.(session := None, challenge := None, epoch := a.epoch + 1);
    if clearFailures then b.(failures := 0, cooldown := 0) else b
  }

  function SetError(a: Auth): Auth {
    ClearTransient(a.(state := ErrorLocked, cred := NO_CREDENTIAL), true)
  }

  function Expire(a: Auth, now: nat): Auth {
    if a.session.Some? && now >= a.session.value then ClearTransient(a, false) else a
  }

  predicate CoolingDown(a: Auth, now: nat) {
    a.failures != 0 && now < a.cooldown
  }

  function Pow2(n: nat): nat {
    if n == 0 then 1 else 2 * Pow2(n - 1)
  }

  function Min(a: nat, b: nat): nat { if a < b then a else b }

  function RecordFailure(a: Auth, now: nat): Auth {
    var n := if a.failures < FAILURES_MAX then a.failures + 1 else a.failures;
    a.(failures := n, cooldown := now + Min(Pow2(n - 1), COOLDOWN_MAX_SECONDS) * 1000)
  }

  /** random is None when the CSPRNG fails. */
  function GenerateChallenge(t: Timeouts, a: Auth, now: nat, random: Option<Nonce>): (Auth, Errno) {
    var e := Expire(a, now);
    match e.state
    case Open => (e, Enodata)
    case ErrorLocked => (e, Eperm)
    case Protected =>
      if CoolingDown(e, now) then (e, Eagain)
      else if random.None? then (e.(challenge := None), Eio)
      else (e.(challenge := Some(Challenge(random.value, now + t.challenge * 1000))), Success)
  }

  /** macOk is false when the HMAC computation itself fails. */
  function VerifyProof(mac: Mac, t: Timeouts, a: Auth, now: nat, proof: seq<byte>, macOk: bool): (Auth, Errno) {
    var e := Expire(a, now);
    match e.state
    case Open => (e, Enodata)
    case ErrorLocked => (e, Eperm)
    case Protected =>
      if e.challenge.None? || now >= e.challenge.value.deadline then (e.(challenge := None), Enoent)
      else
        var c := ClearTransient(e, false);
        if !macOk then (c, Eio)
        else if proof != Proof(mac, e.cred.key, e.challenge.value.nonce) then (RecordFailure(c, now), Eacces)
        else (c.(session := Some(now + t.session * 1000), failures := 0, cooldown := 0), Success)
  }

  function RefreshSession(t: Timeouts, a: Auth, now: nat): (Auth, Errno) {
    var e := Expire(a, now);
    if !e.Authenticated() then (e, Eacces)
    else (e.(session := Some(now + t.session * 1000)), Success)
  }

  /** save is what the settings backend answers; a failed save leaves the stored record alone. */
  function SetCredential(a: Auth, now: nat, c: Credential, save: Errno): (Auth, Errno) {
    if !Valid(c) then (a, Einval)
    else
      var e := Expire(a, now);
      if e.state == ErrorLocked then (e, Eperm)
      else if e.state == Protected && e.session.None? then (e, Eacces)
      else if save != Success then (e, save)
      else
        (ClearTransient(e.(cred := c, state := Protected, seen := true, invalid := false, stored := Some(Serialize(c))), true),
         Success)
  }

  function Lock(a: Auth): Auth { ClearTransient(a, false) }

  function TransportReset(a: Auth): Auth { ClearTransient(a, true) }

  /** First critical section of a settings delivery: fail closed before the value is read. */
  function DeliveryStarts(a: Auth): Auth {
    SetError(a.(seen := true, invalid := true, generation := (a.generation + 1) % 0x1_0000_0000))
  }

  /** The value that a delivery may install: the first one, of the right size and version, and valid. */
  function Loadable(duplicate: bool, value: Option<seq<byte>>): Option<Credential> {
    if duplicate || value.None? || |value.value| != 53 || value.value[0] != CREDENTIAL_VERSION
       || !Valid(Deserialize(value.value))
    then None else Some(Deserialize(value.value))
  }

  /** Second critical section, reached only with a loadable value. */
  function DeliveryInstalls(a: Auth, generation: u32, c: Credential): (Auth, Errno) {
    if a.generation != generation || !a.invalid then (a, Einval)
    else (ClearTransient(a.(cred := c, state := Protected, invalid := false), true), Success)
  }

  function SettingsCommit(a: Auth): Auth {
    if !a.seen then ClearTransient(a.(state := Open, cred := NO_CREDENTIAL), true)
    else if a.invalid then SetError(a)
    else a
  }

  /** RAM at boot, over whatever the settings backend holds. */
  function Boot(stored: Option<seq<byte>>): Auth {
    Auth(Open, NO_CREDENTIAL, None, None, 0, 0, false, false, 0, stored, 0)
  }
}
