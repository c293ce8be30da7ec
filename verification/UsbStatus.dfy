/** The raw USB status and what a logical reset makes of the samples it takes. */
module UsbStatus {
  datatype Status =
    | BusError | Reset | Connected | Configured | Disconnected | Suspend | Resume
    | Interface | SetHalt | ClearHalt | StartOfFrame | Unknown

  datatype ConnState = NotConnected | Powered | Hid

  function ConnStateFor(st: Status): ConnState {
    match st
    case Suspend | Configured | Resume | ClearHalt | StartOfFrame => Hid
    case Disconnected | Unknown => NotConnected
    case _ => Powered
  }

  /** The statuses that are taken as proof that the IN endpoint no longer owns the response buffer. */
  predicate StatusReclaims(st: Status) {
    st == Reset || st == Disconnected || st == Configured
  }

  /** The event's connection state, and the raw status before the reset and after its purge. */
  datatype Samples = Samples(event: ConnState, before: Status, after: Status)
  {
    predicate Matches() {
      before == after && ConnStateFor(after) == event
    }

    predicate Reclaims() {
      before == after && StatusReclaims(after)
    }

    predicate Publishes() {
      Matches() && event == Hid
    }

    predicate Disconnects() {
      before == after == Disconnected && Matches() && event == NotConnected
    }
  }

  /** A real disconnect takes the buffer back and is never published; a reset without a stable status does nothing. */
  lemma WhatSamplesDecide(s: Samples)
    ensures s.Disconnects() <==> s == Samples(NotConnected, Disconnected, Disconnected)
    ensures s.Disconnects() ==> s.Reclaims() && !s.Publishes()
    ensures s.Publishes() && s.Reclaims() <==> s == Samples(Hid, Configured, Configured)
    ensures s.before != s.after ==> !s.Disconnects() && !s.Reclaims() && !s.Publishes()
  {
  }
}
