/** Writing the 32-byte response buffer in place. */
module FrameBuffer {
  import opened Bytes
  import opened Wire

  /** The buffer holds the answer r to the request f. */
  ghost predicate Holds(response: array<byte>, f: Frame, r: Response)
    reads response
  {
    response.Length == 32 && response[..] == ToBytes(Encode(f, r))
  }

  /** The buffer echoes the header of f; the rest may be anything. */
  ghost predicate Echoes(response: array<byte>, f: Frame)
    reads response
  {
    response.Length == 32 && response[0] == f.version && response[1] == f.op && response[2] == f.rid && response[4] == f.slot
  }

  method Decode(request: array<byte>) returns (f: Frame)
    requires request.Length == 32
    ensures f == FromBytes(request[..])
  {
    f := Frame(request[0], request[1], request[2], request[3], request[4], request[5],
               U16(request[6], request[7]), U16(request[8], request[9]), request[10..]);
  }

  method Init(response: array<byte>, f: Frame)
    requires response.Length == 32
    modifies response
    ensures Holds(response, f, Ok(0, 0, []))
  {
    for i := 0 to 32
      invariant forall j | 0 <= j < i :: response[j] == 0
    {
      response[i] := 0;
    }
    response[0], response[1], response[2], response[4] := f.version, f.op, f.rid, f.slot;
    assert response[..] == ToBytes(Encode(f, Ok(0, 0, [])));
  }

  method PutU16(response: array<byte>, at: nat, value: u16)
    requires response.Length == 32 && at < 31
    modifies response
    ensures response[..] == old(response[..])[at := Lo(value)][at + 1 := Hi(value)]
  {
    response[at], response[at + 1] := Lo(value), Hi(value);
  }

  method SetError(response: array<byte>, f: Frame, status: ErrorStatus)
    requires Echoes(response, f)
    modifies response
    ensures Holds(response, f, Err(status))
  {
    response[3] := status;
    PutU16(response, 6, 0);
    PutU16(response, 8, 0);
    response[5] := 0;
    for i := 10 to 32
      invariant Echoes(response, f) && response[3] == status && response[5..10] == [0, 0, 0, 0, 0]
      invariant forall j | 10 <= j < i :: response[j] == 0
    {
      response[i] := 0;
    }
    assert response[5] == response[5..10][0] && response[6] == response[5..10][1] && response[7] == response[5..10][2]
           && response[8] == response[5..10][3] && response[9] == response[5..10][4];
    assert response[..] == ToBytes(Encode(f, Err(status)));
  }

  lemma OkBytes(f: Frame, offset: u16, total: u16, p: Payload)
    ensures var b := ToBytes(Encode(f, Ok(offset, total, p)));
            && b[..10] == [f.version, f.op, f.rid, 0, f.slot, |p|, Lo(offset), Hi(offset), Lo(total), Hi(total)]
            && (forall j | 10 <= j < 10 + |p| :: b[j] == p[j - 10])
            && forall j | 10 + |p| <= j < 32 :: b[j] == 0
  {
  }

  /** Copy a payload behind the header and record its length. */
  method PutPayload(response: array<byte>, f: Frame, p: Payload)
    requires Holds(response, f, Ok(0, 0, []))
    modifies response
    ensures Holds(response, f, Ok(0, 0, p))
  {
    OkBytes(f, 0, 0, []);
    ghost var before := response[..10];
    for i := 0 to |p|
      invariant response[..10] == before
      invariant forall j | 10 <= j < 10 + i :: response[j] == p[j - 10]
      invariant forall j | 10 + i <= j < 32 :: response[j] == 0
    {
      response[10 + i] := p[i];
    }
    response[5] := |p|;
    OkBytes(f, 0, 0, p);
    assert response[..10] == before[..5] + [|p|] + before[6..];
    assert response[..] == ToBytes(Encode(f, Ok(0, 0, p)));
  }

  method SetSuccess(response: array<byte>, ghost f: Frame, offset: u16, total: u16, ghost p: Payload)
    requires Holds(response, f, Ok(0, 0, p))
    modifies response
    ensures Holds(response, f, Ok(offset, total, p))
  {
    response[3] := 0;
    PutU16(response, 6, offset);
    PutU16(response, 8, total);
    assert response[..] == ToBytes(Encode(f, Ok(offset, total, p)));
  }

  lemma HoldsEchoes(response: array<byte>, f: Frame, r: Response)
    requires Holds(response, f, r)
    ensures Echoes(response, f)
  {
    assert response[0] == response[..][0] && response[1] == response[..][1] && response[2] == response[..][2] && response[4] == response[..][4];
  }

  /** Turn an answer that is already filled in into an error. */
  method Refuse(response: array<byte>, f: Frame, ghost r: Response, status: ErrorStatus)
    requires Holds(response, f, r)
    modifies response
    ensures Holds(response, f, Err(status))
  {
    HoldsEchoes(response, f, r);
    SetError(response, f, status);
  }

  /** Complete an initialized response. */
  method Write(response: array<byte>, f: Frame, r: Response)
    requires Holds(response, f, Ok(0, 0, []))
    modifies response
    ensures Holds(response, f, r)
  {
    match r {
      case Ok(offset, total, payload) =>
        PutPayload(response, f, payload);
        SetSuccess(response, f, offset, total, payload);
      case Err(status) =>
        HoldsEchoes(response, f, Ok(0, 0, []));
        SetError(response, f, status);
    }
  }
}
