/** The authentication core as it stands in memory, refining AuthSpec: flags beside deadlines and a zeroized nonce. */
module AuthCore {
  import opened Bytes
  import opened AuthSpec

  const WRAP: nat := 0x1_0000_0000

  datatype Info = Info(state: State, authenticated: bool, kdf: byte, iterations: u32, salt: Salt)

  class AuthCore {
    const mac: Mac
    const t: Timeouts
    const challenge: array<byte>
    var state: State
    var credential: Credential
    var sessionActive: bool
    var sessionDeadline: nat
    var challengeActive: bool
    var challengeDeadline: nat
    var failureCount: nat
    var cooldownDeadline: nat
    var settingsSeen: bool
    var settingsInvalid: bool
    var settingsGeneration: u32
    /** The settings backend's record. */
    var stored: Option<seq<byte>>
    ghost var epoch: nat

    ghost predicate Valid()
      reads this, challenge
    {
      && challenge.Length == 16
      && (!sessionActive ==> sessionDeadline == 0)
      && (!challengeActive ==> challengeDeadline == 0 && AllZero(challenge[..]))
    }

    ghost function Abs(): Auth
      reads this, challenge
      requires Valid()
    {
      Auth(state, credential,
           if sessionActive then Some(sessionDeadline) else None,
           if challengeActive then Some(Challenge(challenge[..], challengeDeadline)) else None,
           failureCount, cooldownDeadline, settingsSeen, settingsInvalid, settingsGeneration, stored, epoch)
    }

    constructor (mac: Mac, t: Timeouts, stored: Option<seq<byte>>)
      ensures Valid() && fresh(challenge) && Abs() == Boot(stored) && this.mac == mac && this.t == t
    {
      this.mac, this.t, this.stored := mac, t, stored;
      challenge := new byte[16](_ => 0);
      state, credential := Open, NO_CREDENTIAL;
      sessionActive, sessionDeadline, challengeActive, challengeDeadline := false, 0, false, 0;
      failureCount, cooldownDeadline := 0, 0;
      settingsSeen, settingsInvalid, settingsGeneration, epoch := false, false, 0, 0;
    }

    method ClearChallenge()
      requires challenge.Length == 16
      modifies this`challengeActive, this`challengeDeadline, challenge
      ensures !challengeActive && challengeDeadline == 0 && AllZero(challenge[..])
    {
      challengeActive, challengeDeadline := false, 0;
      for i := 0 to challenge.Length
        invariant forall j | 0 <= j < i :: challenge[j] == 0
        modifies challenge
      {
        challenge[i] := 0;
      }
    }

    method ClearSession()
      modifies this`sessionActive, this`sessionDeadline
      ensures !sessionActive && sessionDeadline == 0
    {
      sessionActive, sessionDeadline := false, 0;
    }

    method ClearTransientLocked(clearFailures: bool)
      requires Valid()
      modifies this, challenge
      ensures Valid() && Abs() == ClearTransient(old(Abs()), clearFailures)
    {
      ClearSession();
      ClearChallenge();
      if clearFailures {
        failureCount, cooldownDeadline := 0, 0;
      }
      epoch := epoch + 1;
    }

    method SetErrorLocked()
      requires Valid()
      modifies this, challenge
      ensures Valid() && Abs() == SetError(old(Abs()))
    {
      state, credential := ErrorLocked, NO_CREDENTIAL;
      ClearTransientLocked(true);
    }

    method ExpireSession(now: nat)
      requires Valid()
      modifies this, challenge
      ensures Valid() && Abs() == Expire(old(Abs()), now)
    {
      if !sessionActive || now < sessionDeadline {
        return;
      }
      ClearTransientLocked(false);
    }

    method RecordFailureLocked(now: nat)
      requires Valid()
      modifies this`failureCount, this`cooldownDeadline
      ensures Valid() && Abs() == RecordFailure(old(Abs()), now)
    {
      if failureCount < FAILURES_MAX {
        failureCount := failureCount + 1;
      }
      var seconds := Pow2(failureCount - 1);
      if seconds > COOLDOWN_MAX_SECONDS {
        seconds := COOLDOWN_MAX_SECONDS;
      }
      cooldownDeadline := now + seconds * 1000;
    }

    method GetState(now: nat) returns (r: State)
      requires Valid()
      modifies this, challenge
      ensures Valid() && Abs() == Expire(old(Abs()), now) && r == state
    {
      ExpireSession(now);
      return state;
    }

    method IsAuthenticated(now: nat) returns (r: bool)
      requires Valid()
      modifies this, challenge
      ensures Valid() && Abs() == Expire(old(Abs()), now) && r == Abs().Authenticated()
    {
      ExpireSession(now);
      return state == Protected && sessionActive;
    }

    method GetInfo(now: nat) returns (info: Info)
      requires Valid()
      modifies this, challenge
      ensures Valid() && Abs() == Expire(old(Abs()), now)
      ensures info.state == state && info.authenticated == Abs().session.Some?
      ensures state == Open ==> info.kdf == 1 && info.iterations == ITERATIONS_DEFAULT && info.salt == Zeros(16)
      ensures state == Protected ==> info.kdf == 1 && info.iterations == credential.iterations && info.salt == credential.salt
      ensures state == ErrorLocked ==> info.kdf == 0 && info.iterations == 0 && info.salt == Zeros(16)
    {
      ExpireSession(now);
      info := Info(state, sessionActive, 0, 0, Zeros(16));
      if state == Open {
        info := info.(kdf := 1, iterations := ITERATIONS_DEFAULT);
      } else if state == Protected {
        info := info.(kdf := 1, iterations := credential.iterations, salt := credential.salt);
      }
    }

    /** random is None when the CSPRNG fails; the answer carries a nonce only on success. */
    method NewChallenge(now: nat, random: Option<Nonce>) returns (err: Errno, nonce: Nonce)
      requires Valid()
      modifies this, challenge
      ensures Valid() && (Abs(), err) == GenerateChallenge(t, old(Abs()), now, random)
      ensures nonce == if err == Success then Abs().challenge.value.nonce else Zeros(16)
    {
      nonce := Zeros(16);
      ExpireSession(now);
      if state == Open {
        return Enodata, nonce;
      }
      if state == ErrorLocked {
        return Eperm, nonce;
      }
      if failureCount != 0 && now < cooldownDeadline {
        return Eagain, nonce;
      }
      ClearChallenge();
      if random.None? {
        return Eio, nonce;
      }
      for i := 0 to 16
        invariant challenge[..i] == random.value[..i]
        modifies challenge
      {
        challenge[i] := random.value[i];
      }
      assert challenge[..] == random.value;
      challengeActive, challengeDeadline := true, now + t.challenge * 1000;
      return Success, challenge[..];
    }

    /** macOk is false when the HMAC cannot be computed. The nonce is used up before the comparison. */
    method Verify(now: nat, proof: seq<byte>, macOk: bool) returns (err: Errno)
      requires Valid()
      modifies this, challenge
      ensures Valid() && (Abs(), err) == VerifyProof(mac, t, old(Abs()), now, proof, macOk)
    {
      ExpireSession(now);
      if state == Open {
        return Enodata;
      }
      if state == ErrorLocked {
        return Eperm;
      }
      if !challengeActive || now >= challengeDeadline {
        ClearChallenge();
        return Enoent;
      }
      var key, nonce := credential.key, challenge[..];
      ClearTransientLocked(false);
      if !macOk {
        return Eio;
      }
      if proof != Proof(mac, key, nonce) {
        RecordFailureLocked(now);
        return Eacces;
      }
      sessionActive, sessionDeadline := true, now + t.session * 1000;
      failureCount, cooldownDeadline := 0, 0;
      return Success;
    }

    method Refresh(now: nat) returns (err: Errno)
      requires Valid()
      modifies this, challenge
      ensures Valid() && (Abs(), err) == RefreshSession(t, old(Abs()), now)
    {
      ExpireSession(now);
      if state != Protected || !sessionActive {
        return Eacces;
      }
      sessionDeadline := now + t.session * 1000;
      return Success;
    }

    /** Storage first: RAM changes only after the backend has accepted the record. */
    method Change(now: nat, requested: Credential, save: Errno) returns (err: Errno)
      requires Valid()
      modifies this, challenge
      ensures Valid() && (Abs(), err) == SetCredential(old(Abs()), now, requested, save)
    {
      if !AuthSpec.Valid(requested) {
        return Einval;
      }
      ExpireSession(now);
      if state == ErrorLocked {
        return Eperm;
      }
      if state == Protected && !sessionActive {
        return Eacces;
      }
      if save != Success {
        return save;
      }
      stored := Some(Serialize(requested));
      credential, state := requested, Protected;
      settingsSeen, settingsInvalid := true, false;
      ClearTransientLocked(true);
      return Success;
    }

    method LockNow()
      requires Valid()
      modifies this, challenge
      ensures Valid() && Abs() == Lock(old(Abs()))
    {
      ClearTransientLocked(false);
    }

    method ResetTransport()
      requires Valid()
      modifies this, challenge
      ensures Valid() && Abs() == TransportReset(old(Abs()))
    {
      ClearTransientLocked(true);
    }

    /** First critical section of a settings delivery; the rest needs its generation and duplicate flag. */
    method StartDelivery() returns (duplicate: bool, generation: u32)
      requires Valid()
      modifies this, challenge
      ensures Valid() && Abs() == DeliveryStarts(old(Abs()))
      ensures duplicate == old(settingsSeen) && generation == settingsGeneration
    {
      duplicate := settingsSeen;
      settingsSeen, settingsInvalid := true, true;
      settingsGeneration := (settingsGeneration + 1) % WRAP;
      generation := settingsGeneration;
      SetErrorLocked();
    }

    /** The rest of a settings delivery, possibly much later: check what was read, then install it. */
    method FinishDelivery(duplicate: bool, generation: u32, value: Option<seq<byte>>) returns (err: Errno)
      requires Valid()
      modifies this, challenge
      ensures Valid()
      ensures Loadable(duplicate, value).None? ==> err != Success && Abs() == old(Abs())
      ensures Loadable(duplicate, value).Some? ==>
                (Abs(), err) == DeliveryInstalls(old(Abs()), generation, Loadable(duplicate, value).value)
    {
      if duplicate {
        return Einval;
      }
      if value.None? {
        return Eio;
      }
      if |value.value| != 53 || value.value[0] != CREDENTIAL_VERSION {
        return Einval;
      }
      var loaded := Deserialize(value.value);
      if !AuthSpec.Valid(loaded) {
        return Einval;
      }
      if settingsGeneration != generation || !settingsInvalid {
        return Einval;
      }
      credential, state, settingsInvalid := loaded, Protected, false;
      ClearTransientLocked(true);
      return Success;
    }

    method CommitSettings()
      requires Valid()
      modifies this, challenge
      ensures Valid() && Abs() == SettingsCommit(old(Abs()))
    {
      if !settingsSeen {
        state, credential := Open, NO_CREDENTIAL;
        ClearTransientLocked(true);
      } else if settingsInvalid {
        SetErrorLocked();
      }
    }
  }
}
