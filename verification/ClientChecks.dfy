/** The client's strict checks on an accepted response, and the proof that no reachable device ever fails them. */
module ClientChecks {
  import opened Bytes
  import opened Wire
  import opened ProtocolSpec
  import A = AuthSpec
  import AT = AuthTheorems
  import PI = ProtocolInvariants

  predicate ChunkAck(e: Frame, offset: nat, total: nat) {
    e.plen == 0 && e.offset == offset && e.total == total
  }

  predicate AuthInfoOk(e: Frame) {
    e.plen == 22 && e.offset == 0 && e.total == 22
    && e.body[0] < 4 && e.body[1] == 1
    && var configured, authenticated := e.body[0] % 2 == 1, e.body[0] / 2 == 1;
       var iterations, salt := GetU32(e.body[2..6]), e.body[6..22];
       if configured then A.ITERATIONS_MIN <= iterations <= A.ITERATIONS_MAX && !AllZero(salt)
       else !authenticated && iterations == A.ITERATIONS_DEFAULT && AllZero(salt)
  }

  predicate CapabilitiesOk(e: Frame) {
    e.plen == 22 && e.offset == 0 && e.total == 22
    && e.body[0] == 2 && 1 <= e.body[1] <= 8
    // No reserved lifecycle flag, and the three fixed ones.
    && e.body[2] < 0x80 && e.body[3] == 0 && e.body[2] % 8 == 7
    && U16(e.body[4], e.body[5]) == 512 && GetU32(e.body[6..10]) == 300 && GetU32(e.body[10..14]) == 1
    && GetU32(e.body[14..18]) == 86400 && GetU32(e.body[18..22]) == 30
  }

  predicate ChallengeOk(e: Frame) {
    e.plen == 16 && e.offset == 0 && e.total == 16 && !AllZero(e.body[..16])
  }

  predicate PageOk(f: Frame, e: Frame) {
    e.plen <= 22 && e.offset == f.offset && e.offset + e.plen <= e.total && (e.offset < e.total ==> e.plen > 0)
  }

  /** What the client demands of an OK answer e to the request f, by opcode. */
  predicate StrictlyOk(f: Frame, e: Frame) {
    if f.op == LIST || f.op == GET then PageOk(f, e)
    else if f.op == SET || f.op == PASSWORD_SET || f.op == DYNAMIC_DATA then f.plen <= 22 && ChunkAck(e, f.offset + f.plen, f.total)
    else if f.op == DYNAMIC_BEGIN then ChunkAck(e, 0, f.total)
    else if f.op == AUTH_INFO then AuthInfoOk(e)
    else if f.op == AUTH_CHALLENGE then ChallengeOk(e)
    else if f.op == CAPABILITIES then CapabilitiesOk(e)
    else ChunkAck(e, 0, 0)
  }

  lemma ManagedAnswers(c: Config, s: System, f: Frame, env: Env)
    requires SlotsOk(c, s) && f.plen <= 22 && Managed(c, s, f, env).1.Ok?
    requires f.op == LIST || f.op == GET || f.op == SET || f.op == CLEAR
    ensures StrictlyOk(f, Encode(f, Managed(c, s, f, env).1))
  {
    var t := Access(s, env.access).0;
    assert Managed(c, s, f, env).1 == Manage(c, t, f, env).1;
  }

  lemma PasswordAnswers(c: Config, s: System, f: Frame, env: Env)
    requires f.plen <= 22 && f.op == PASSWORD_SET && ManagedPassword(c, s, f, env).1.Ok?
    ensures StrictlyOk(f, Encode(f, ManagedPassword(c, s, f, env).1))
  {
  }

  lemma UploadAnswers(c: Config, s: System, f: Frame, env: Env)
    requires f.plen <= 22
    ensures f.op == DYNAMIC_BEGIN && BeginUpload(c, s, f, env).1.Ok? ==> StrictlyOk(f, Encode(f, BeginUpload(c, s, f, env).1))
    ensures f.op == DYNAMIC_DATA && UploadData(c, s, f, env).1.Ok? ==> StrictlyOk(f, Encode(f, UploadData(c, s, f, env).1))
  {
  }

  lemma AuthInfoAnswers(s: System, f: Frame, now: nat)
    requires AT.Sound(s.auth) && f.op == AUTH_INFO && AuthInfo(s, f, now).1.Ok?
    ensures StrictlyOk(f, Encode(f, AuthInfo(s, f, now).1))
  {
    var a := A.Expire(s.auth, now);
    var configured := a.state == A.Protected;
    var iterations := if configured then a.cred.iterations else A.ITERATIONS_DEFAULT;
    var salt := if configured then a.cred.salt else Zeros(16);
    var e := Encode(f, AuthInfo(s, f, now).1);
    assert e.body[2..6] == PutU32(iterations) && e.body[6..22] == salt;
    U32RoundTrip(iterations, PutU32(iterations));
  }

  lemma CapabilitiesAnswers(c: Config, f: Frame)
    requires 1 <= c.dynSlots <= 8 && f.op == CAPABILITIES && Capabilities(c, f).Ok?
    ensures StrictlyOk(f, Encode(f, Capabilities(c, f)))
  {
    var e := Encode(f, Capabilities(c, f));
    assert e.body[6..10] == PutU32(300) && e.body[10..14] == PutU32(1) && e.body[14..18] == PutU32(86400) && e.body[18..22] == PutU32(30);
    U32RoundTrip(300, PutU32(300));
    U32RoundTrip(1, PutU32(1));
    U32RoundTrip(86400, PutU32(86400));
    U32RoundTrip(30, PutU32(30));
  }

  lemma FlagsTellPolicies(c: Config)
    ensures var b := LifecycleFlags(c);
            && (b / 0x08 % 2 == 1 <==> c.clearOnUsb) && (b / 0x10 % 2 == 1 <==> c.clearOnProfile)
            && (b / 0x20 % 2 == 1 <==> c.clearOnEndpoint)
  {
    var b := LifecycleFlags(c);
    assert b / 0x08 == 8 + (if c.clearOnUsb then 1 else 0) + (if c.clearOnProfile then 2 else 0) + (if c.clearOnEndpoint then 4 else 0);
    assert b / 0x10 == 4 + (if c.clearOnProfile then 1 else 0) + (if c.clearOnEndpoint then 2 else 0);
    assert b / 0x20 == 2 + (if c.clearOnEndpoint then 1 else 0);
  }

  /** The client reads back exactly the slot count and the three clearing policies of the build. */
  lemma CapabilitiesTellTheBuild(c: Config, f: Frame)
    requires 1 <= c.dynSlots <= 8 && f.op == CAPABILITIES
    ensures Capabilities(c, f).Ok? <==> f.slot < c.dynSlots && f.EmptyObject()
    ensures Capabilities(c, f).Ok? ==>
              var e := Encode(f, Capabilities(c, f));
              && StrictlyOk(f, e) && e.body[1] == c.dynSlots
              && (e.body[2] / 0x08 % 2 == 1 <==> c.clearOnUsb) && (e.body[2] / 0x10 % 2 == 1 <==> c.clearOnProfile)
              && (e.body[2] / 0x20 % 2 == 1 <==> c.clearOnEndpoint)
  {
    FlagsTellPolicies(c);
    if Capabilities(c, f).Ok? {
      CapabilitiesAnswers(c, f);
      CapabilitiesBytes(c, f);
    }
  }

  lemma CapabilitiesBytes(c: Config, f: Frame)
    requires 1 <= c.dynSlots <= 8 && Capabilities(c, f).Ok?
    ensures var e := Encode(f, Capabilities(c, f)); e.body[1] == c.dynSlots && e.body[2] == LifecycleFlags(c)
  {
  }

  lemma ChallengeAnswers(c: Config, s: System, f: Frame, env: Env)
    requires f.op == AUTH_CHALLENGE && AuthChallenge(c, s, f, env).1.Ok?
    ensures env.random.Some? && (StrictlyOk(f, Encode(f, AuthChallenge(c, s, f, env).1)) <==> !AllZero(env.random.value))
  {
    var e := Encode(f, AuthChallenge(c, s, f, env).1);
    assert e.body[..16] == env.random.value;
  }

  lemma DispatchAnswers(c: Config, s: System, f: Frame, env: Env)
    requires PI.Inv(c, s) && f.plen <= 22 && KnownOpcode(f.op) && 1 <= c.dynSlots <= 8 && Dispatch(c, s, f, env).1.Ok?
    ensures StrictlyOk(f, Encode(f, Dispatch(c, s, f, env).1))
            <==> !ZeroNonce(f, env)
  {
    if f.op == CAPABILITIES { CapabilitiesAnswers(c, f); }
    else if f.op == DYNAMIC_BEGIN || f.op == DYNAMIC_DATA { UploadAnswers(c, s, f, env); }
    else if f.op == AUTH_INFO { AuthInfoAnswers(s, f, env.op); }
    else if f.op == AUTH_CHALLENGE { ChallengeAnswers(c, s, f, env); }
    else if f.op == PASSWORD_SET { PasswordAnswers(c, s, f, env); }
    else if f.op == LIST || f.op == GET || f.op == SET || f.op == CLEAR { ManagedAnswers(c, s, f, env); }
  }

  lemma ProcessAnswers(c: Config, s: System, f: Frame, env: Env)
    requires ConfigOk(c) && PI.Inv(c, s) && Process(c, s, f, env).1.Ok?
    ensures StrictlyOk(f, Encode(f, Process(c, s, f, env).1))
            <==> !ZeroNonce(f, env)
  {
    PI.SyncKeepsInv(c, s, env.sync);
    DispatchAnswers(c, Sync(s, env.sync), f, env);
  }

  /** The one OK answer the client rejects: a challenge whose random nonce happens to be all zero. */
  predicate ZeroNonce(f: Frame, env: Env) {
    f.op == AUTH_CHALLENGE && env.random.Some? && AllZero(env.random.value)
  }

  /** The client's reading of the answer e to f agrees with what the device meant by r. */
  predicate Understood(f: Frame, r: Response, e: Frame, env: Env) {
    match ValidateResponse(e, f)
    case ProtocolError => false
    case RemoteError(st) => r == Err(st)
    case Accepted(n) => r.Ok? && n == |r.payload| && e.Data() == r.payload && (StrictlyOk(f, e) <==> !ZeroNonce(f, env))
  }

  lemma EncodedIsUnderstood(f: Frame, r: Response, env: Env)
    requires r.Ok? ==> (StrictlyOk(f, Encode(f, r)) <==> !ZeroNonce(f, env))
    ensures Understood(f, r, FromBytes(ToBytes(Encode(f, r))), env)
  {
    FrameCodingIsBijective(Encode(f, r), Zeros(32));
    EncodeIsAccepted(f, r);
  }

  /**
   * Whatever 32 bytes a host sends to whatever reachable device, the answer echoes the header and is a known error
   * with all ranges and payload zero, or an OK that passes the client's checks for its opcode.
   */
  lemma EveryAnswerIsWellFormed(c: Config, ss: seq<System>, steps: seq<PI.Step>, k: nat, request: Bytes32, env: Env)
    requires PI.Runs(c, ss, steps) && k <= |steps|
    ensures var f := FromBytes(request);
            var r := Process(c, ss[k], f, env).1;
            Understood(f, r, FromBytes(ToBytes(Encode(f, r))), env)
  {
    PI.RunKeepsInv(c, ss, steps, k);
    var f := FromBytes(request);
    var r := Process(c, ss[k], f, env).1;
    if r.Ok? {
      ProcessAnswers(c, ss[k], f, env);
    }
    EncodedIsUnderstood(f, r, env);
  }
}
