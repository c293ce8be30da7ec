/** The protocol context as it stands in memory, refining ProtocolSpec.Ctx: flags beside fields that are zero when unused. */
module Context {
  import opened Bytes
  import Spec = ProtocolSpec
  import A = AuthSpec

  class Context {
    var setActive: bool
    var setRid: byte
    var setSlot: byte
    var setTotal: u16
    var setReceived: u16
    const setStaging: array<byte>

    var pwActive: bool
    var pwRid: byte
    var pwTotal: u16
    var pwReceived: u16
    const pwStaging: array<byte>

    var stateKnown: bool
    var seenState: A.State
    var seenAuthenticated: bool

    var dynActive: bool
    var dynSlot: byte
    var dynRid: byte
    var dynTotal: u16
    var dynReceived: u16
    var dynDeadline: nat

    ghost var setEpoch: nat
    ghost var pwEpoch: nat
    ghost var dynEpoch: nat

    /** Unused bytes are zero, and an inactive transaction is all zero. */
    ghost predicate SetValid()
      reads this`setActive, this`setRid, this`setSlot, this`setTotal, this`setReceived, setStaging
    {
      && setReceived <= setStaging.Length && AllZero(setStaging[setReceived..])
      && (!setActive ==> setRid == 0 && setSlot == 0 && setTotal == 0 && setReceived == 0)
    }

    ghost predicate PasswordValid()
      reads this`pwActive, this`pwRid, this`pwTotal, this`pwReceived, pwStaging
    {
      && pwReceived <= pwStaging.Length && AllZero(pwStaging[pwReceived..])
      && (pwActive ==> pwTotal == Spec.PASSWORD_LENGTH)
      && (!pwActive ==> pwRid == 0 && pwTotal == 0 && pwReceived == 0)
    }

    ghost predicate UploadValid()
      reads this`dynActive, this`dynSlot, this`dynRid, this`dynTotal, this`dynReceived, this`dynDeadline
    {
      !dynActive ==> dynSlot == 0 && dynRid == 0 && dynTotal == 0 && dynReceived == 0 && dynDeadline == 0
    }

    ghost predicate SeenValid()
      reads this`stateKnown, this`seenState, this`seenAuthenticated
    {
      !stateKnown ==> seenState == A.Open && !seenAuthenticated
    }

    ghost predicate Valid()
      reads this, setStaging, pwStaging
    {
      && setStaging != pwStaging && pwStaging.Length == Spec.PASSWORD_LENGTH
      && SetValid() && PasswordValid() && UploadValid() && SeenValid()
    }

    ghost function Put(): Option<Spec.SetTx>
      reads this`setActive, this`setRid, this`setSlot, this`setTotal, this`setReceived, this`setEpoch, setStaging
      requires SetValid()
    {
      if setActive then Some(Spec.SetTx(setRid, setSlot, setTotal, setStaging[..setReceived], setEpoch)) else None
    }

    ghost function Pw(): Option<Spec.PwTx>
      reads this`pwActive, this`pwRid, this`pwTotal, this`pwReceived, this`pwEpoch, pwStaging
      requires PasswordValid()
    {
      if pwActive then Some(Spec.PwTx(pwRid, pwStaging[..pwReceived], pwEpoch)) else None
    }

    ghost function Dyn(): Option<Spec.DynTx>
      reads this`dynActive, this`dynSlot, this`dynRid, this`dynTotal, this`dynReceived, this`dynDeadline, this`dynEpoch
    {
      if dynActive then Some(Spec.DynTx(dynSlot, dynRid, dynTotal, dynReceived, dynDeadline, dynEpoch)) else None
    }

    ghost function Seen(): Option<Spec.Seen>
      reads this`stateKnown, this`seenState, this`seenAuthenticated
    {
      if stateKnown then Some(Spec.Seen(seenState, seenAuthenticated)) else None
    }

    ghost function Abs(): Spec.Ctx
      reads this, setStaging, pwStaging
      requires Valid()
    {
      Spec.Ctx(Put(), Pw(), Dyn(), Seen())
    }

    constructor (maxText: nat)
      ensures Valid() && fresh(setStaging) && fresh(pwStaging) && setStaging.Length == maxText
      ensures Abs() == Spec.IDLE
    {
      setStaging := new byte[maxText](_ => 0);
      pwStaging := new byte[Spec.PASSWORD_LENGTH](_ => 0);
      setActive, setRid, setSlot, setTotal, setReceived := false, 0, 0, 0, 0;
      pwActive, pwRid, pwTotal, pwReceived := false, 0, 0, 0;
      stateKnown, seenState, seenAuthenticated := false, A.Open, false;
      dynActive, dynSlot, dynRid, dynTotal, dynReceived, dynDeadline := false, 0, 0, 0, 0, 0;
      setEpoch, pwEpoch, dynEpoch := 0, 0, 0;
    }

    method Zeroize(buffer: array<byte>)
      modifies buffer
      ensures AllZero(buffer[..])
    {
      for i := 0 to buffer.Length
        invariant forall j | 0 <= j < i :: buffer[j] == 0
      {
        buffer[i] := 0;
      }
    }

    /** Copy a chunk behind the first `at` bytes of a buffer whose rest is zero. */
    method Extend(buffer: array<byte>, at: nat, data: seq<byte>)
      requires at + |data| <= buffer.Length && AllZero(buffer[at..])
      modifies buffer
      ensures buffer[..at + |data|] == old(buffer[..at]) + data && AllZero(buffer[at + |data|..])
    {
      for i := 0 to |data|
        invariant buffer[..at] == old(buffer[..at]) && buffer[at..at + i] == data[..i] && AllZero(buffer[at + i..])
      {
        buffer[at + i] := data[i];
      }
      assert buffer[..at + |data|] == buffer[..at] + buffer[at..at + |data|];
    }

    method PutFields(active: bool, rid: byte, slot: byte, total: u16, received: u16, ghost epoch: nat)
      modifies this`setActive, this`setRid, this`setSlot, this`setTotal, this`setReceived, this`setEpoch
      ensures setActive == active && setRid == rid && setSlot == slot && setTotal == total && setReceived == received && setEpoch == epoch
    {
      setActive, setRid, setSlot, setTotal, setReceived := active, rid, slot, total, received;
      setEpoch := epoch;
    }

    method PasswordFields(active: bool, rid: byte, total: u16, received: u16, ghost epoch: nat)
      modifies this`pwActive, this`pwRid, this`pwTotal, this`pwReceived, this`pwEpoch
      ensures pwActive == active && pwRid == rid && pwTotal == total && pwReceived == received && pwEpoch == epoch
    {
      pwActive, pwRid, pwTotal, pwReceived := active, rid, total, received;
      pwEpoch := epoch;
    }

    method UploadFields(active: bool, slot: byte, rid: byte, total: u16, received: u16, deadline: nat,
                        ghost epoch: nat)
      modifies this`dynActive, this`dynSlot, this`dynRid, this`dynTotal, this`dynReceived, this`dynDeadline, this`dynEpoch
      ensures dynActive == active && dynSlot == slot && dynRid == rid && dynTotal == total
      ensures dynReceived == received && dynDeadline == deadline && dynEpoch == epoch
    {
      dynActive, dynSlot, dynRid, dynTotal, dynReceived, dynDeadline := active, slot, rid, total, received, deadline;
      dynEpoch := epoch;
    }

    method SeenFields(known: bool, state: A.State, authenticated: bool)
      modifies this`stateKnown, this`seenState, this`seenAuthenticated
      ensures stateKnown == known && seenState == state && seenAuthenticated == authenticated
    {
      stateKnown, seenState, seenAuthenticated := known, state, authenticated;
    }

    method ClearSet()
      requires Valid()
      modifies this`setActive, this`setRid, this`setSlot, this`setTotal, this`setReceived, setStaging, this`setEpoch
      ensures Valid() && Abs() == old(Abs()).(put := None)
    {
      PutFields(false, 0, 0, 0, 0, 0);
      Zeroize(setStaging);
    }

    method ClearPassword()
      requires Valid()
      modifies this`pwActive, this`pwRid, this`pwTotal, this`pwReceived, pwStaging, this`pwEpoch
      ensures Valid() && Abs() == old(Abs()).(pw := None)
    {
      PasswordFields(false, 0, 0, 0, 0);
      Zeroize(pwStaging);
    }

    method ForgetUpload()
      requires Valid()
      modifies this`dynActive, this`dynSlot, this`dynRid, this`dynTotal, this`dynReceived, this`dynDeadline, this`dynEpoch
      ensures Valid() && Abs() == old(Abs()).(dyn := None)
    {
      UploadFields(false, 0, 0, 0, 0, 0, 0);
    }

    method ClearTransactions()
      requires Valid()
      modifies this, setStaging, pwStaging
      ensures Valid() && Abs() == Spec.IDLE.(seen := old(Abs()).seen)
      ensures stateKnown == old(stateKnown) && seenState == old(seenState) && seenAuthenticated == old(seenAuthenticated)
    {
      ClearSet();
      ClearPassword();
      ForgetUpload();
    }

    /** The whole context as it was created. */
    method Reset()
      requires Valid()
      modifies this, setStaging, pwStaging
      ensures Valid() && Abs() == Spec.IDLE
    {
      ClearTransactions();
      SeenFields(false, A.Open, false);
    }

    method Remember(state: A.State, authenticated: bool)
      requires Valid()
      modifies this`stateKnown, this`seenState, this`seenAuthenticated
      ensures Valid() && Abs() == old(Abs()).(seen := Some(Spec.Seen(state, authenticated)))
    {
      SeenFields(true, state, authenticated);
    }

    /** The first chunk of a SET; `epoch` is history. */
    method StartSet(rid: byte, slot: byte, total: u16, data: seq<byte>, ghost epoch: nat)
      requires Valid() && |data| <= total <= setStaging.Length
      modifies this`setActive, this`setRid, this`setSlot, this`setTotal, this`setReceived, this`setEpoch, setStaging
      ensures Valid() && Abs() == old(Abs()).(put := Some(Spec.SetTx(rid, slot, total, data, epoch)))
    {
      ClearSet();
      Extend(setStaging, 0, data);
      assert setStaging[..|data|] == data;
      PutFields(true, rid, slot, total, |data|, epoch);
    }

    /** A later chunk of the SET in progress. */
    method ExtendSet(data: seq<byte>)
      requires Valid() && setActive && setReceived + |data| <= setTotal <= setStaging.Length
      modifies this`setReceived, setStaging
      ensures Valid() && setActive == old(setActive)
      ensures var t := old(Abs()).put.value; Abs() == old(Abs()).(put := Some(t.(data := t.data + data)))
    {
      Extend(setStaging, setReceived, data);
      setReceived := setReceived + |data|;
    }

    method StartPassword(rid: byte, data: seq<byte>, ghost epoch: nat)
      requires Valid() && |data| <= Spec.PASSWORD_LENGTH
      modifies this`pwActive, this`pwRid, this`pwTotal, this`pwReceived, this`pwEpoch, pwStaging
      ensures Valid() && Abs() == old(Abs()).(pw := Some(Spec.PwTx(rid, data, epoch)))
    {
      ClearPassword();
      Extend(pwStaging, 0, data);
      assert pwStaging[..|data|] == data;
      PasswordFields(true, rid, Spec.PASSWORD_LENGTH, |data|, epoch);
    }

    method ExtendPassword(data: seq<byte>)
      requires Valid() && pwActive && pwReceived + |data| <= Spec.PASSWORD_LENGTH
      modifies this`pwReceived, pwStaging
      ensures Valid() && pwActive
      ensures var t := old(Abs()).pw.value; Abs() == old(Abs()).(pw := Some(t.(data := t.data + data)))
    {
      Extend(pwStaging, pwReceived, data);
      pwReceived := pwReceived + |data|;
    }

    method StartUpload(slot: byte, rid: byte, total: u16, ghost epoch: nat)
      requires Valid()
      modifies this`dynActive, this`dynSlot, this`dynRid, this`dynTotal, this`dynReceived, this`dynDeadline, this`dynEpoch
      ensures Valid() && Abs() == old(Abs()).(dyn := Some(Spec.DynTx(slot, rid, total, 0, if old(dynActive) then old(dynDeadline) else 0, epoch)))
    {
      UploadFields(true, slot, rid, total, 0, dynDeadline, epoch);
    }

    method AdvanceUpload(received: u16)
      requires Valid() && dynActive
      modifies this`dynReceived
      ensures Valid() && Abs() == old(Abs()).(dyn := Some(old(Abs()).dyn.value.(received := received)))
    {
      dynReceived := received;
    }

    method SetDeadline(deadline: nat)
      requires Valid() && dynActive
      modifies this`dynDeadline
      ensures Valid() && Abs() == old(Abs()).(dyn := Some(old(Abs()).dyn.value.(deadline := deadline)))
    {
      dynDeadline := deadline;
    }
  }
}
