/** The 32-byte management frame: request fields, response coding, and the client's checks on a response. */
module Wire {
  import opened Bytes

  type Payload = p: seq<byte> | |p| <= 22
  type Body = b: seq<byte> | |b| == 22 witness Zeros(22)
  type Bytes32 = b: seq<byte> | |b| == 32 witness Zeros(32)

  /** One frame with its fields at byte offsets 0, 1, 2, 3, 4, 5, 6..7, 8..9 and 10..31. */
  datatype Frame = Frame(version: byte, op: byte, rid: byte, status: byte, slot: byte, plen: byte,
                         offset: u16, total: u16, body: Body)
  {
    predicate TailZero(from: nat) {
      forall i | from <= i < 22 :: body[i] == 0
    }

    predicate EmptyObject() {
      plen == 0 && offset == 0 && total == 0
    }

    function Data(): (p: Payload)
      requires plen <= 22
      ensures |p| == plen
    {
      body[..plen]
    }
  }

  function FromBytes(b: Bytes32): Frame {
    Frame(b[0], b[1], b[2], b[3], b[4], b[5], U16(b[6], b[7]), U16(b[8], b[9]), b[10..])
  }

  function ToBytes(f: Frame): Bytes32 {
    [f.version, f.op, f.rid, f.status, f.slot, f.plen, Lo(f.offset), Hi(f.offset), Lo(f.total), Hi(f.total)] + f.body
  }

  /** The field view and the 32 wire bytes determine each other. */
  lemma FrameCodingIsBijective(f: Frame, b: Bytes32)
    ensures FromBytes(ToBytes(f)) == f
    ensures ToBytes(FromBytes(b)) == b
  {
    U16RoundTrip(f.offset, b[6], b[7]);
    U16RoundTrip(f.total, b[8], b[9]);
    assert ToBytes(f)[10..] == f.body;
  }

  function Pad(p: Payload): (b: Body)
    ensures b[..|p|] == p && forall i | |p| <= i < 22 :: b[i] == 0
  {
    p + Zeros(22 - |p|)
  }

  const VERSION: byte := 2
  const LIST_SLOT: byte := 0xff

  const LIST: byte := 1
  const GET: byte := 2
  const SET: byte := 3
  const CLEAR: byte := 4
  const AUTH_INFO: byte := 0x10
  const AUTH_CHALLENGE: byte := 0x11
  const AUTH_PROVE: byte := 0x12
  const PASSWORD_SET: byte := 0x13
  const LOCK: byte := 0x14
  const DYNAMIC_BEGIN: byte := 0x20
  const DYNAMIC_DATA: byte := 0x21
  const DYNAMIC_CLEAR: byte := 0x22
  const CAPABILITIES: byte := 0x23

  /** Statuses other than OK. */
  type ErrorStatus = s: byte | 1 <= s <= 15 witness 1

  const BAD_VERSION: ErrorStatus := 1
  const BAD_OPCODE: ErrorStatus := 2
  const BAD_REQUEST: ErrorStatus := 3
  const BAD_SLOT: ErrorStatus := 4
  const BAD_OFFSET: ErrorStatus := 5
  const BAD_LENGTH: ErrorStatus := 6
  const INVALID_TEXT: ErrorStatus := 7
  const STORAGE_ERROR: ErrorStatus := 8
  const INTERNAL: ErrorStatus := 9
  const AUTH_REQUIRED: ErrorStatus := 10
  const AUTH_FAILED: ErrorStatus := 11
  const AUTH_NOT_CONFIGURED: ErrorStatus := 12
  const RATE_LIMITED: ErrorStatus := 13
  const AUTH_NO_CHALLENGE: ErrorStatus := 14
  const CREDENTIAL_INVALID: ErrorStatus := 15

  predicate KnownOpcode(op: byte) {
    op == LIST || op == GET || op == SET || op == CLEAR
    || op == AUTH_INFO || op == AUTH_CHALLENGE || op == AUTH_PROVE || op == PASSWORD_SET || op == LOCK
    || op == DYNAMIC_BEGIN || op == DYNAMIC_DATA || op == DYNAMIC_CLEAR || op == CAPABILITIES
  }

  /** What a handler answers; the header echo and the padding are added by Encode. */
  datatype Response =
    | Ok(offset: u16, total: u16, payload: Payload)
    | Err(status: ErrorStatus)

  function Encode(req: Frame, r: Response): Frame {
    match r
    case Ok(offset, total, payload) =>
      Frame(req.version, req.op, req.rid, 0, req.slot, |payload|, offset, total, Pad(payload))
    case Err(status) =>
      Frame(req.version, req.op, req.rid, status, req.slot, 0, 0, 0, Zeros(22))
  }

  /** The client's canonical request. */
  function BuildFrame(op: byte, rid: byte, slot: byte, payload: Payload, offset: u16, total: u16): (f: Frame)
    ensures f.plen == |payload| && f.Data() == payload && f.TailZero(f.plen)
  {
    Frame(VERSION, op, rid, 0, slot, |payload|, offset, total, Pad(payload))
  }

  /** How the client classifies a frame that answers its request. */
  datatype Verdict = Accepted(length: byte) | RemoteError(status: byte) | ProtocolError

  function ValidateResponse(resp: Frame, req: Frame): Verdict {
    if resp.version != req.version || resp.op != req.op || resp.rid != req.rid || resp.slot != req.slot then ProtocolError
    else if resp.status > 15 then ProtocolError
    else if resp.plen > 22 then ProtocolError
    else if !resp.TailZero(resp.plen) then ProtocolError
    else if resp.status != 0 then
      if !resp.EmptyObject() then ProtocolError else RemoteError(resp.status)
    else Accepted(resp.plen)
  }

  /** The response repeats the request's version, opcode, identifier and slot, and its unused bytes are zero. */
  predicate Echoing(resp: Frame, req: Frame) {
    resp.version == req.version && resp.op == req.op && resp.rid == req.rid && resp.slot == req.slot
    && resp.plen <= 22 && resp.TailZero(resp.plen)
  }

  /** What the client takes for a success, for a refusal, and for a violation of the protocol: any other frame. */
  lemma VerdictIff(resp: Frame, req: Frame, n: byte)
    ensures ValidateResponse(resp, req) == Accepted(n) <==> Echoing(resp, req) && resp.status == 0 && resp.plen == n
    ensures ValidateResponse(resp, req) == RemoteError(n)
            <==> Echoing(resp, req) && resp.status == n && 1 <= n <= 15 && resp.plen == 0 && resp.offset == 0 && resp.total == 0
    ensures ValidateResponse(resp, req) == ProtocolError
            <==> !Echoing(resp, req) || resp.status > 15 || (resp.status > 0 && !(resp.plen == 0 && resp.offset == 0 && resp.total == 0))
  {
  }

  /** Decoding a response recovers the handler's answer, and the client never finds it malformed. */
  lemma EncodeIsAccepted(req: Frame, r: Response)
    ensures var e := Encode(req, r);
            match r
            case Ok(offset, total, payload) =>
              ValidateResponse(e, req) == Accepted(|payload|) && e.offset == offset && e.total == total && e.Data() == payload
            case Err(status) => ValidateResponse(e, req) == RemoteError(status)
  {
  }
}
