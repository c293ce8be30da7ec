/**
 * The USB transport as interleaved steps: the control callback's separate reads, the IN-completion callback, the USB
 * stack's endpoint and status changes, and one work thread that runs either the request handler or the connection
 * listener, one statement at a time.
 */
module UsbTransport {
  import opened UsbStatus

  const DEPTH: nat := 4

  /** A queued frame: its acceptance number and the epoch its callback sampled. */
  datatype Frame = Frame(id: nat, epoch: nat)

  /** The control callback between reading the epoch, checking online, and queueing. */
  datatype Callback = Quiet | Sampled(epoch: nat) | Admitted(epoch: nat)

  /** The next statement of the request handler. */
  datatype Handler =
    | Holding
    | Looking(epoch: nat)
    | Fetched(epoch: nat, frame: Frame)
    | Answered(epoch: nat)
    | Marked(epoch: nat)
    | Sent(epoch: nat)
    | Failed
    | Giving

  /** The next statement of the connection listener and its logical reset. */
  datatype Listener = Noticed | Entering | Offline | Bumped | Discarded | Purged | Decided | Unmarked | Drained | Settled

  datatype Worker = Resting | Handling(h: Handler) | Listening(l: Listener, s: Samples)

  /** A frame that reached the protocol, with the epoch it carried and the epoch at that moment. */
  datatype Handled = Handled(id: nat, sampled: nat, epoch: nat)

  /**
   * The semaphore and the in-flight flag. busy: the endpoint owns the response buffer. returning: the completion callback
   * has claimed a transfer and will give the permit.
   */
  datatype Buffer = Buffer(permits: nat, inFlight: bool, busy: bool, returning: bool)

  /** enabled: the IN endpoint takes writes. notified: the notifier that raises the connection event is pending. */
  datatype Bus = Bus(status: Status, enabled: bool, notified: bool)

  /** The message queue, the frames handled so far, and the next acceptance number. */
  datatype Inbox = Inbox(queue: seq<Frame>, log: seq<Handled>, nextId: nat)

  /** epoch counts the logical resets. */
  datatype Usb = Usb(buf: Buffer, bus: Bus, inbox: Inbox, epoch: nat, online: bool, worker: Worker, callback: Callback)

  datatype Step =
    | Sample                // the control callback reads the epoch
    | Check                 // ... reads online
    | Enqueue               // ... puts the frame, or drops it when the queue is full
    | DataIn                // a transfer completes and the completion callback claims it
    | GivePermit            // ... and gives the permit
    | Disable               // the stack disables the endpoint, without a completion
    | Enable                // ... enables it for a new configuration
    | Report(st: Status)    // ... calls back with a status
    | StartHandler          // the work thread tries to take the permit
    | StartListener         // ... or raises the pending connection event
    | Work(ok: bool)        // its next statement; ok: the device exists, the write is not refused

  const BOOT := Usb(Buffer(1, false, false, false), Bus(Unknown, false, false), Inbox([], [], 0), 0, true, Resting, Quiet)

  /** The endpoint is disabled before RESET and DISCONNECTED are reported, and enabled before CONFIGURED is. */
  predicate MayReport(u: Usb, st: Status) {
    (st == Reset || st == Disconnected ==> !u.bus.enabled) && (st == Configured ==> u.bus.enabled)
  }

  /** The semaphore's limit is one. */
  function Give(u: Usb): Usb {
    u.(buf := u.buf.(permits := 1))
  }

  function CallbackStep(u: Usb, s: Step): Usb
    requires s.Sample? || s.Check? || s.Enqueue?
  {
    match s
    case Sample => if u.callback.Quiet? then u.(callback := Sampled(u.epoch)) else u
    case Check =>
      if !u.callback.Sampled? then u
      else u.(callback := if u.online then Admitted(u.callback.epoch) else Quiet)
    case Enqueue =>
      if !u.callback.Admitted? then u
      else if |u.inbox.queue| >= DEPTH then u.(callback := Quiet)
      else
        var q := u.inbox.queue + [Frame(u.inbox.nextId, u.callback.epoch)];
        u.(inbox := u.inbox.(queue := q, nextId := u.inbox.nextId + 1), callback := Quiet)
  }

  function StackStep(u: Usb, s: Step): Usb
    requires s.DataIn? || s.GivePermit? || s.Disable? || s.Enable? || s.Report?
  {
    match s
    case DataIn =>
      if !u.buf.busy || u.buf.returning then u
      else u.(buf := u.buf.(busy := false, inFlight := false, returning := u.buf.inFlight))
    case GivePermit => if u.buf.returning then Give(u.(buf := u.buf.(returning := false))) else u
    case Disable => u.(buf := u.buf.(busy := false), bus := u.bus.(enabled := false))
    case Enable => u.(bus := u.bus.(enabled := true))
    case Report(st) => if MayReport(u, st) then u.(bus := u.bus.(status := st, notified := true)) else u
  }

  function Handle(u: Usb, h: Handler): Usb {
    u.(worker := Handling(h))
  }

  /** The request handler's next statement. */
  function HandlerStatement(u: Usb, h: Handler, ok: bool): Usb {
    match h
    case Holding => Handle(u, Looking(u.epoch))
    case Looking(e) =>
      if !u.online then Handle(u.(inbox := u.inbox.(queue := [])), Giving)
      else if u.inbox.queue == [] then Handle(u, Giving)
      else Handle(u.(inbox := u.inbox.(queue := u.inbox.queue[1..])), Fetched(e, u.inbox.queue[0]))
    case Fetched(e, f) =>
      if f.epoch != e || !ok then Handle(u, Giving)
      else Handle(u.(inbox := u.inbox.(log := u.inbox.log + [Handled(f.id, f.epoch, u.epoch)])), Answered(e))
    case Answered(e) => Handle(u.(buf := u.buf.(inFlight := true)), Marked(e))
    case Marked(e) => if ok && u.bus.enabled then Handle(u.(buf := u.buf.(busy := true)), Sent(e)) else Handle(u, Failed)
    case Sent(e) => if u.epoch != e then Handle(u, Failed) else u.(worker := Resting)
    case Failed => Handle(u.(buf := u.buf.(inFlight := false)), Giving)
    case Giving => Give(u.(worker := Resting))
  }

  function Listen(u: Usb, l: Listener, s: Samples): Usb {
    u.(worker := Listening(l, s))
  }

  /** The connection listener's next statement. */
  function ListenerStatement(u: Usb, l: Listener, s: Samples): Usb {
    match l
    case Noticed => Listen(u, Entering, s.(before := u.bus.status))
    case Entering => Listen(u.(online := false), Offline, s)
    case Offline => Listen(u.(epoch := u.epoch + 1), Bumped, s)
    case Bumped => Listen(u, Discarded, s)
    case Discarded => Listen(u.(inbox := u.inbox.(queue := [])), Purged, s)
    case Purged => Listen(u, Decided, s.(after := u.bus.status))
    case Decided => if s.Reclaims() then Listen(u.(buf := u.buf.(inFlight := false)), Unmarked, s) else Listen(u, Settled, s)
    case Unmarked => Listen(u.(buf := u.buf.(permits := 0)), Drained, s)
    case Drained => Listen(Give(u), Settled, s)
    case Settled => u.(online := u.online || s.Publishes(), worker := Resting)
  }

  /** The work thread's next statement. */
  function WorkStatement(u: Usb, ok: bool): Usb {
    match u.worker
    case Resting => u
    case Handling(h) => HandlerStatement(u, h, ok)
    case Listening(l, s) => ListenerStatement(u, l, s)
  }

  function Apply(u: Usb, s: Step): Usb {
    match s
    case Sample | Check | Enqueue => CallbackStep(u, s)
    case DataIn | GivePermit | Disable | Enable | Report(_) => StackStep(u, s)
    case StartHandler =>
      if u.worker.Resting? && u.buf.permits > 0 then Handle(u.(buf := u.buf.(permits := u.buf.permits - 1)), Holding) else u
    case StartListener =>
      if u.worker.Resting? && u.bus.notified
      then
        Listen(u.(bus := u.bus.(notified := false)), Noticed, Samples(ConnStateFor(u.bus.status), u.bus.status, u.bus.status))
      else u
    case Work(ok) => WorkStatement(u, ok)
  }

  /** An execution: us[0] is the booted transport and each step leads from us[k] to us[k+1]. */
  ghost predicate Runs(us: seq<Usb>, steps: seq<Step>) {
    && |us| == |steps| + 1 && us[0] == BOOT
    && forall k {:trigger Apply(us[k], steps[k])} | 0 <= k < |steps| :: us[k + 1] == Apply(us[k], steps[k])
  }

  // ------------------------------------------------------------------ the one permit

  /** The handler has the permit and may write the response buffer. */
  predicate Holds(w: Worker) {
    w.Handling? && !w.h.Sent?
  }

  /** The endpoint owns the buffer, or its completion callback has yet to give the permit. */
  predicate Owned(u: Usb) {
    u.buf.busy || u.buf.returning
  }

  function Bit(b: bool): nat { if b then 1 else 0 }

  /** At most one of: the permit is available, the endpoint side owns the buffer, the handler holds the permit. */
  predicate OneOwner(u: Usb) {
    u.buf.permits + Bit(Owned(u)) + Bit(Holds(u.worker)) <= 1
  }

  /** The reset has disowned the transfer and not yet given the permit. */
  predicate Reclaiming(w: Worker) {
    w.Listening? && (w.l.Unmarked? || w.l.Drained?)
  }

  predicate PermitInv(u: Usb) {
    && OneOwner(u)
    && (u.buf.permits == 1 || u.buf.returning || Reclaiming(u.worker) ==> !u.buf.inFlight)
    && (u.buf.busy ==> !u.buf.returning && u.bus.enabled && (u.buf.inFlight || Reclaiming(u.worker)))
    && (Holds(u.worker) ==> (u.buf.inFlight <==> u.worker.h.Marked? || u.worker.h.Failed?))
    && (u.worker.Handling? && (u.worker.h.Looking? || u.worker.h.Fetched? || u.worker.h.Answered? || u.worker.h.Marked?
                               || u.worker.h.Sent?)
        ==> u.worker.h.epoch == u.epoch)
  }

  /** The reclaiming reset gives the permit. */
  predicate GivesBack(u: Usb, s: Step) {
    u.worker.Listening? && u.worker.l.Drained? && s.Work?
  }

  lemma HandlerKeepsPermitInv(u: Usb, h: Handler, ok: bool)
    requires PermitInv(u) && u.worker == Handling(h)
    ensures PermitInv(HandlerStatement(u, h, ok))
  {
  }

  lemma ListenerKeepsPermitInv(u: Usb, l: Listener, s: Samples)
    requires PermitInv(u) && u.worker == Listening(l, s)
    ensures PermitInv(ListenerStatement(u, l, s)) <==> !(l.Drained? && Owned(u))
    ensures OneOwner(ListenerStatement(u, l, s)) <==> !(l.Drained? && Owned(u))
  {
  }

  lemma StackKeepsPermitInv(u: Usb, s: Step)
    requires PermitInv(u) && (s.DataIn? || s.GivePermit? || s.Disable? || s.Enable? || s.Report?)
    ensures PermitInv(StackStep(u, s))
  {
  }

  /** No step but the reset's own giving can break the invariant, and that one only while the endpoint side owns the buffer. */
  lemma StepKeepsPermitInv(u: Usb, s: Step)
    requires PermitInv(u)
    ensures PermitInv(Apply(u, s)) <==> !(GivesBack(u, s) && Owned(u))
    ensures OneOwner(Apply(u, s)) <==> !(GivesBack(u, s) && Owned(u))
  {
    if s.Work? {
      match u.worker
      case Handling(h) => HandlerKeepsPermitInv(u, h, s.ok);
      case Listening(l, t) => ListenerKeepsPermitInv(u, l, t);
      case Resting =>
    } else if s.DataIn? || s.GivePermit? || s.Disable? || s.Enable? || s.Report? {
      StackKeepsPermitInv(u, s);
    }
  }

  /** The handler's write is accepted. */
  predicate Writes(u: Usb, s: Step) {
    u.worker.Handling? && u.worker.h.Marked? && s.Work? && s.ok && u.bus.enabled
  }

  /** The transfer ends: torn down, completed and its permit given, or completed after the reset disowned it. */
  predicate Ends(u: Usb, s: Step) {
    || (s.Disable? && u.buf.busy) || (s.GivePermit? && u.buf.returning)
    || (s.DataIn? && u.buf.busy && !u.buf.returning && !u.buf.inFlight)
  }

  /** Step w was an accepted write, and its transfer has not ended before step k. */
  ghost predicate Unfinished(us: seq<Usb>, steps: seq<Step>, w: nat, k: nat)
    requires |us| == |steps| + 1
  {
    w < k <= |steps| && Writes(us[w], steps[w]) && forall m | w < m < k :: !Ends(us[m], steps[m])
  }

  lemma WorkOwns(u: Usb, ok: bool)
    requires PermitInv(u)
    ensures var v := WorkStatement(u, ok);
            v.buf.busy == (u.buf.busy || Writes(u, Work(ok))) && v.buf.returning == u.buf.returning
  {
  }

  lemma OwnedStep(u: Usb, s: Step)
    requires PermitInv(u)
    ensures Owned(Apply(u, s)) <==> Writes(u, s) || (Owned(u) && !Ends(u, s))
  {
    if s.Work? {
      WorkOwns(u, s.ok);
    }
  }

  /** In a run that has kept the invariant so far, the endpoint side owns the buffer exactly when a write is unfinished. */
  lemma {:induction false} OwnedIff(us: seq<Usb>, steps: seq<Step>, k: nat)
    requires Runs(us, steps) && k <= |steps| && forall m | 0 <= m <= k :: PermitInv(us[m])
    ensures Owned(us[k]) <==> exists w :: Unfinished(us, steps, w, k)
  {
    if k > 0 {
      OwnedIff(us, steps, k - 1);
      assert us[k] == Apply(us[k - 1], steps[k - 1]);
      OwnedStep(us[k - 1], steps[k - 1]);
      if Owned(us[k]) {
        if Writes(us[k - 1], steps[k - 1]) {
          assert Unfinished(us, steps, k - 1, k);
        } else {
          var w: nat :| Unfinished(us, steps, w, k - 1);
          assert Unfinished(us, steps, w, k);
        }
      }
      if w: nat :| Unfinished(us, steps, w, k) {
        if w < k - 1 {
          assert Unfinished(us, steps, w, k - 1);
        }
      }
    }
  }

  /** No reset gives the permit while an accepted write is unfinished. */
  ghost predicate ReclaimsOnlyFinished(us: seq<Usb>, steps: seq<Step>)
    requires |us| == |steps| + 1
  {
    forall k, w | 0 <= k < |steps| && GivesBack(us[k], steps[k]) :: !Unfinished(us, steps, w, k)
  }

  lemma {:induction false} FinishedKeepsPermitInv(us: seq<Usb>, steps: seq<Step>, k: nat)
    requires Runs(us, steps) && ReclaimsOnlyFinished(us, steps) && k <= |steps|
    ensures forall m | 0 <= m <= k :: PermitInv(us[m])
  {
    if k > 0 {
      FinishedKeepsPermitInv(us, steps, k - 1);
      assert us[k] == Apply(us[k - 1], steps[k - 1]);
      StepKeepsPermitInv(us[k - 1], steps[k - 1]);
      OwnedIff(us, steps, k - 1);
    }
  }

  lemma {:induction false} OneOwnerKeepsPermitInv(us: seq<Usb>, steps: seq<Step>, k: nat)
    requires Runs(us, steps) && k <= |steps| && forall m | 0 <= m < |us| :: OneOwner(us[m])
    ensures forall m | 0 <= m <= k :: PermitInv(us[m])
  {
    if k > 0 {
      OneOwnerKeepsPermitInv(us, steps, k - 1);
      assert us[k] == Apply(us[k - 1], steps[k - 1]);
      StepKeepsPermitInv(us[k - 1], steps[k - 1]);
    }
  }

  lemma UnfinishedGiveBreaks(us: seq<Usb>, steps: seq<Step>, w: nat, k: nat)
    requires Runs(us, steps) && k < |steps| && (forall m | 0 <= m <= k :: PermitInv(us[m]))
    requires GivesBack(us[k], steps[k]) && Unfinished(us, steps, w, k)
    ensures !OneOwner(us[k + 1])
  {
    OwnedIff(us, steps, k);
    StepKeepsPermitInv(us[k], steps[k]);
    assert us[k + 1] == Apply(us[k], steps[k]);
  }

  /**
   * One permit. Over any interleaving there is at most one owner at every moment if and only if no reset gives the
   * permit between an accepted write and the end of its transfer.
   */
  lemma OneOwnerIff(us: seq<Usb>, steps: seq<Step>)
    requires Runs(us, steps)
    ensures (forall k | 0 <= k < |us| :: OneOwner(us[k])) <==> ReclaimsOnlyFinished(us, steps)
  {
    var n := |steps|;
    if ReclaimsOnlyFinished(us, steps) {
      FinishedKeepsPermitInv(us, steps, n);
    } else if forall k | 0 <= k < |us| :: OneOwner(us[k]) {
      OneOwnerKeepsPermitInv(us, steps, n);
      var k: nat, w: nat :| k < n && GivesBack(us[k], steps[k]) && Unfinished(us, steps, w, k);
      UnfinishedGiveBreaks(us, steps, w, k);
    }
  }

  // ------------------------------------------------------------------ the permit is not lost

  /** A transfer was torn down by the stack, and nobody but a reclaiming reset will give its permit. */
  predicate Stranded(u: Usb) {
    u.buf.inFlight && !u.buf.busy && !u.buf.returning && !Holds(u.worker)
  }

  /** Exactly one of the three owners, unless the permit is being reclaimed or its transfer is stranded. */
  predicate Kept(u: Usb) {
    u.buf.permits + Bit(Owned(u)) + Bit(Holds(u.worker)) == 1 || Reclaiming(u.worker) || Stranded(u)
  }

  lemma HandlerKeepsPermit(u: Usb, h: Handler, ok: bool)
    requires PermitInv(u) && Kept(u) && u.worker == Handling(h)
    ensures var v := HandlerStatement(u, h, ok); Kept(v) && (Stranded(v) ==> Stranded(u))
  {
  }

  lemma ListenerKeepsPermit(u: Usb, l: Listener, s: Samples)
    requires PermitInv(u) && Kept(u) && u.worker == Listening(l, s) && !(l.Drained? && Owned(u))
    ensures var v := ListenerStatement(u, l, s); Kept(v) && (Stranded(v) ==> Stranded(u))
  {
  }

  lemma StepKeepsPermit(u: Usb, s: Step)
    requires PermitInv(u) && Kept(u) && !(GivesBack(u, s) && Owned(u))
    ensures Kept(Apply(u, s)) && (Stranded(Apply(u, s)) && !Stranded(u) ==> s.Disable? && u.buf.busy)
  {
    if s.Work? {
      match u.worker
      case Handling(h) => HandlerKeepsPermit(u, h, s.ok);
      case Listening(l, t) => ListenerKeepsPermit(u, l, t);
      case Resting =>
    }
  }

  /** At step d the endpoint was torn down under a transfer, which has been stranded ever since. */
  ghost predicate StrandedSince(us: seq<Usb>, steps: seq<Step>, d: nat, k: nat)
    requires |us| == |steps| + 1
  {
    d < k <= |steps| && steps[d].Disable? && us[d].buf.busy && forall m | d < m <= k :: Stranded(us[m])
  }

  lemma {:induction false} KeepsPermit(us: seq<Usb>, steps: seq<Step>, k: nat) returns (d: nat)
    requires Runs(us, steps) && ReclaimsOnlyFinished(us, steps) && k <= |steps|
    ensures PermitInv(us[k]) && Kept(us[k]) && (Stranded(us[k]) ==> StrandedSince(us, steps, d, k))
  {
    d := 0;
    if k > 0 {
      d := KeepsPermit(us, steps, k - 1);
      assert us[k] == Apply(us[k - 1], steps[k - 1]);
      FinishedKeepsPermitInv(us, steps, k);
      OwnedIff(us, steps, k - 1);
      StepKeepsPermit(us[k - 1], steps[k - 1]);
      if !Stranded(us[k - 1]) {
        d := k - 1;
      }
    }
  }

  /**
   * The permit is never lost. In every such run exactly one of available permit, endpoint side and handler owns the buffer,
   * unless a reset is just taking the buffer back or the stack tore the endpoint down under a transfer. So a work thread at
   * rest can take a request whenever no accepted write is unfinished and no torn-down transfer waits for a reset.
   */
  lemma PermitIsNeverLost(us: seq<Usb>, steps: seq<Step>, k: nat)
    requires Runs(us, steps) && ReclaimsOnlyFinished(us, steps) && k <= |steps|
    ensures var u := us[k];
            || u.buf.permits + Bit(Owned(u)) + Bit(Holds(u.worker)) == 1
            || (u.worker.Listening? && (u.worker.l.Unmarked? || u.worker.l.Drained?))
            || exists d :: StrandedSince(us, steps, d, k)
    ensures us[k].worker.Resting? && (forall w :: !Unfinished(us, steps, w, k)) && (forall d :: !StrandedSince(us, steps, d, k)) ==>
              us[k].buf.permits == 1 && Apply(us[k], StartHandler).worker == Handling(Holding)
  {
    var d := KeepsPermit(us, steps, k);
    FinishedKeepsPermitInv(us, steps, k);
    OwnedIff(us, steps, k);
  }

  /** A stranded transfer holds up requests until a reset takes the buffer back, and then no longer. */
  lemma ResetEndsStranding(u: Usb)
    requires PermitInv(u) && u.worker.Listening? && u.worker.l.Drained? && !Owned(u)
    ensures var v := Apply(u, Work(true)); v.buf.permits == 1 && !Stranded(v)
  {
  }

  /** In such a run the protocol never writes the response while a transfer owns it. */
  lemma HandlerOwnsTheBuffer(us: seq<Usb>, steps: seq<Step>, k: nat)
    requires Runs(us, steps) && ReclaimsOnlyFinished(us, steps) && k <= |steps|
    ensures us[k].worker.Handling? && us[k].worker.h.Fetched? ==>
              !us[k].buf.busy && !us[k].buf.returning && us[k].buf.permits == 0
    ensures !us[k].bus.enabled ==> !us[k].buf.busy
  {
    FinishedKeepsPermitInv(us, steps, k);
  }

  // ------------------------------------------------------------------ what suffices outside

  /** Every CONFIGURED report before step k has been followed by a teardown of the endpoint. */
  ghost predicate TornDown(steps: seq<Step>, k: nat)
    requires k <= |steps|
  {
    forall j | 0 <= j < k && steps[j] == Report(Configured) :: exists m | j < m < k :: steps[m].Disable?
  }

  ghost predicate OncePerTeardown(steps: seq<Step>) {
    forall k | 0 <= k < |steps| && steps[k] == Report(Configured) :: TornDown(steps, k)
  }

  /** The completion callback gives the permit before the work thread goes on. */
  ghost predicate GivenAtOnce(us: seq<Usb>, steps: seq<Step>)
    requires |us| == |steps| + 1
  {
    forall k | 0 <= k < |steps| && us[k].buf.returning :: !steps[k].Work?
  }

  /** No write is accepted between a teardown and the next CONFIGURED report, nor while a notification is pending. */
  ghost predicate WritesWhenSettled(us: seq<Usb>, steps: seq<Step>)
    requires |us| == |steps| + 1
  {
    forall k | 0 <= k < |steps| && Writes(us[k], steps[k]) :: !TornDown(steps, k) && !us[k].bus.notified
  }

  /** A transfer under way is safe from the listener. */
  predicate Spared(u: Usb) {
    u.buf.busy ==>
      && !Reclaiming(u.worker)
      && (StatusReclaims(u.bus.status) ==> !u.bus.notified && !u.worker.Listening?)
      && (u.worker.Listening? && !u.worker.l.Noticed? ==> !StatusReclaims(u.worker.s.before))
  }

  lemma ListenerSpares(u: Usb, l: Listener, s: Samples)
    requires PermitInv(u) && Spared(u) && u.worker == Listening(l, s)
    ensures Spared(ListenerStatement(u, l, s))
  {
  }

  lemma StepSpares(u: Usb, s: Step)
    requires PermitInv(u) && Spared(u) && (u.buf.busy ==> s != Report(Configured)) && (Writes(u, s) ==> !u.bus.notified)
    ensures Spared(Apply(u, s))
    ensures GivesBack(u, s) && !u.buf.returning ==> !Owned(u)
  {
    if s.Work? && u.worker.Listening? {
      ListenerSpares(u, u.worker.l, u.worker.s);
    }
  }

  lemma TornDownStep(steps: seq<Step>, k: nat)
    requires k < |steps| && TornDown(steps, k + 1) && !steps[k].Disable?
    ensures TornDown(steps, k) && steps[k] != Report(Configured)
  {
  }

  lemma {:induction false} OrderlyKeepsInv(us: seq<Usb>, steps: seq<Step>, k: nat)
    requires Runs(us, steps) && k <= |steps|
    requires OncePerTeardown(steps) && GivenAtOnce(us, steps) && WritesWhenSettled(us, steps)
    ensures PermitInv(us[k]) && Spared(us[k]) && (TornDown(steps, k) ==> !us[k].buf.busy)
    ensures forall m | 0 <= m < k :: OneOwner(us[m])
  {
    if k > 0 {
      OrderlyKeepsInv(us, steps, k - 1);
      var u, s := us[k - 1], steps[k - 1];
      assert us[k] == Apply(u, s);
      StepSpares(u, s);
      StepKeepsPermitInv(u, s);
      OwnedStep(u, s);
      if TornDown(steps, k) && !s.Disable? {
        TornDownStep(steps, k - 1);
      }
    }
  }

  /**
   * What the surroundings must do for one owner at every moment: report CONFIGURED once per teardown, give the permit of a
   * completed transfer before the work thread goes on, and have no write accepted while a connection change is unsettled.
   */
  lemma OrderlyIsSafe(us: seq<Usb>, steps: seq<Step>)
    requires Runs(us, steps) && OncePerTeardown(steps) && GivenAtOnce(us, steps) && WritesWhenSettled(us, steps)
    ensures (forall k | 0 <= k < |us| :: OneOwner(us[k])) && ReclaimsOnlyFinished(us, steps)
  {
    OrderlyKeepsInv(us, steps, |steps|);
    OneOwnerIff(us, steps);
  }

  lemma {:induction false} WithoutCompletions(us: seq<Usb>, steps: seq<Step>, k: nat)
    requires Runs(us, steps) && k <= |steps| && forall m | 0 <= m < |steps| :: !steps[m].DataIn?
    ensures forall m | 0 <= m <= k :: !us[m].buf.returning
  {
    if k > 0 {
      WithoutCompletions(us, steps, k - 1);
      assert us[k] == Apply(us[k - 1], steps[k - 1]);
    }
  }

  // ------------------------------------------------------------------ a run with two owners

  /** An execution that is being built, and the state it has reached. */
  datatype Trace = Trace(us: seq<Usb>, steps: seq<Step>)

  ghost predicate Reaches(t: Trace, u: Usb) {
    Runs(t.us, t.steps) && t.us[|t.steps|] == u
  }

  lemma Extend(t: Trace, u: Usb, s: Step, v: Usb) returns (t': Trace)
    requires Reaches(t, u) && v == Apply(u, s)
    ensures Reaches(t', v) && t'.steps == t.steps + [s]
  {
    t' := Trace(t.us + [v], t.steps + [s]);
    forall k | 0 <= k < |t'.steps| ensures t'.us[k + 1] == Apply(t'.us[k], t'.steps[k]) {
      if k < |t.steps| {
        assert t.us[k + 1] == Apply(t.us[k], t.steps[k]);
      }
    }
  }

  lemma HandlerStep(t: Trace, p: Usb, h: Handler, q: Usb, h': Handler) returns (t': Trace)
    requires Reaches(t, Handle(p, h)) && HandlerStatement(Handle(p, h), h, true) == Handle(q, h')
    ensures Reaches(t', Handle(q, h')) && t'.steps == t.steps + [Work(true)]
  {
    t' := Extend(t, Handle(p, h), Work(true), Handle(q, h'));
  }

  lemma HandlerFetches(t: Trace, u: Usb) returns (t': Trace)
    requires Reaches(t, u) && u.worker.Resting? && u.buf.permits == 1 && u.online
    requires u.inbox.queue != [] && u.inbox.queue[0].epoch == u.epoch
    ensures Reaches(t', Handle(u.(buf := u.buf.(permits := 0), inbox := u.inbox.(queue := u.inbox.queue[1..])),
                               Fetched(u.epoch, u.inbox.queue[0])))
    ensures t'.steps == t.steps + [StartHandler, Work(true), Work(true)]
  {
    var p := u.(buf := u.buf.(permits := 0));
    t' := Extend(t, u, StartHandler, Handle(p, Holding));
    t' := HandlerStep(t', p, Holding, p, Looking(u.epoch));
    var h := p.(inbox := p.inbox.(queue := u.inbox.queue[1..]));
    t' := HandlerStep(t', p, Looking(u.epoch), h, Fetched(u.epoch, u.inbox.queue[0]));
  }

  lemma HandlerAnswers(t: Trace, h: Usb, f: Frame) returns (t': Trace)
    requires Reaches(t, Handle(h, Fetched(h.epoch, f))) && f.epoch == h.epoch
    ensures var log := h.inbox.log + [Handled(f.id, h.epoch, h.epoch)];
            Reaches(t', Handle(h.(buf := h.buf.(inFlight := true), inbox := h.inbox.(log := log)), Marked(h.epoch)))
    ensures t'.steps == t.steps + [Work(true), Work(true)]
  {
    var a := h.(inbox := h.inbox.(log := h.inbox.log + [Handled(f.id, h.epoch, h.epoch)]));
    t' := HandlerStep(t, h, Fetched(h.epoch, f), a, Answered(h.epoch));
    t' := HandlerStep(t', a, Answered(h.epoch), a.(buf := a.buf.(inFlight := true)), Marked(h.epoch));
  }

  /** The handler from the marked transfer to the accepted write. */
  lemma HandlerSends(t: Trace, a: Usb) returns (t': Trace)
    requires Reaches(t, Handle(a, Marked(a.epoch))) && a.bus.enabled
    ensures Reaches(t', a.(buf := a.buf.(busy := true), worker := Resting))
    ensures t'.steps == t.steps + [Work(true), Work(true)]
  {
    t' := HandlerStep(t, a, Marked(a.epoch), a.(buf := a.buf.(busy := true)), Sent(a.epoch));
    var b := a.(buf := a.buf.(busy := true));
    t' := Extend(t', Handle(b, Sent(a.epoch)), Work(true), b.(worker := Resting));
  }

  /** The samples of a listener that finds the device configured throughout. */
  const RECONNECTED := Samples(Hid, Configured, Configured)

  lemma ListenerStep(t: Trace, p: Usb, l: Listener, q: Usb, l': Listener) returns (t': Trace)
    requires Reaches(t, Listen(p, l, RECONNECTED))
    requires ListenerStatement(Listen(p, l, RECONNECTED), l, RECONNECTED) == Listen(q, l', RECONNECTED)
    ensures Reaches(t', Listen(q, l', RECONNECTED)) && t'.steps == t.steps + [Work(true)]
  {
    t' := Extend(t, Listen(p, l, RECONNECTED), Work(true), Listen(q, l', RECONNECTED));
  }

  lemma ListenerEnters(t: Trace, u: Usb) returns (t': Trace)
    requires Reaches(t, u) && u.worker.Resting? && u.bus.notified && u.bus.status == Configured
    ensures Reaches(t', Listen(u.(bus := u.bus.(notified := false), online := false), Offline, RECONNECTED))
    ensures t'.steps == t.steps + [StartListener, Work(true), Work(true)]
  {
    var n := u.(bus := u.bus.(notified := false));
    t' := Extend(t, u, StartListener, Listen(n, Noticed, RECONNECTED));
    t' := ListenerStep(t', n, Noticed, n, Entering);
    t' := ListenerStep(t', n, Entering, n.(online := false), Offline);
  }

  lemma ListenerPurges(t: Trace, o: Usb) returns (t': Trace)
    requires Reaches(t, Listen(o, Offline, RECONNECTED))
    ensures Reaches(t', Listen(o.(inbox := o.inbox.(queue := []), epoch := o.epoch + 1), Purged, RECONNECTED))
    ensures t'.steps == t.steps + [Work(true), Work(true), Work(true)]
  {
    var b := o.(epoch := o.epoch + 1);
    t' := ListenerStep(t, o, Offline, b, Bumped);
    t' := ListenerStep(t', b, Bumped, b, Discarded);
    t' := ListenerStep(t', b, Discarded, b.(inbox := b.inbox.(queue := [])), Purged);
  }

  lemma ListenerDisowns(t: Trace, p: Usb) returns (t': Trace)
    requires Reaches(t, Listen(p, Purged, RECONNECTED)) && p.bus.status == Configured
    ensures Reaches(t', Listen(p.(buf := p.buf.(inFlight := false)), Unmarked, RECONNECTED))
    ensures t'.steps == t.steps + [Work(true), Work(true)]
  {
    t' := ListenerStep(t, p, Purged, p, Decided);
    t' := ListenerStep(t', p, Decided, p.(buf := p.buf.(inFlight := false)), Unmarked);
  }

  lemma ListenerGives(t: Trace, i: Usb) returns (t': Trace)
    requires Reaches(t, Listen(i, Unmarked, RECONNECTED))
    ensures Reaches(t', Listen(i.(buf := i.buf.(permits := 1)), Settled, RECONNECTED))
    ensures t'.steps == t.steps + [Work(true), Work(true)]
  {
    t' := ListenerStep(t, i, Unmarked, i.(buf := i.buf.(permits := 0)), Drained);
    t' := ListenerStep(t', i.(buf := i.buf.(permits := 0)), Drained, i.(buf := i.buf.(permits := 1)), Settled);
  }

  const LISTEN := [StartListener, Work(true), Work(true), Work(true), Work(true), Work(true), Work(true), Work(true),
                   Work(true), Work(true)]

  /** The listener, which finds the device configured, up to the point where it has given the permit. */
  lemma ListenerPass(t: Trace, u: Usb) returns (t': Trace)
    requires Reaches(t, u) && u.worker.Resting? && u.bus.notified && u.bus.status == Configured
    ensures var v := u.(bus := u.bus.(notified := false), online := false, epoch := u.epoch + 1);
            Reaches(t', Listen(v.(inbox := u.inbox.(queue := []), buf := u.buf.(inFlight := false, permits := 1)),
                               Settled, RECONNECTED))
    ensures t'.steps == t.steps + LISTEN
  {
    var o := u.(bus := u.bus.(notified := false), online := false);
    var p := o.(inbox := o.inbox.(queue := []), epoch := u.epoch + 1);
    t' := ListenerEnters(t, u);
    t' := ListenerPurges(t', o);
    t' := ListenerDisowns(t', p);
    t' := ListenerGives(t', p.(buf := p.buf.(inFlight := false)));
  }

  const CONNECT := [Enable, Report(Configured)] + LISTEN + [Work(true)]

  /** First configuration, and the listener that publishes it. */
  lemma Connects() returns (t: Trace)
    ensures Reaches(t, BOOT.(bus := BOOT.bus.(status := Configured, enabled := true), epoch := 1)) && t.steps == CONNECT
  {
    var e := BOOT.(bus := BOOT.bus.(enabled := true));
    var r := e.(bus := e.bus.(status := Configured, notified := true));
    t := Extend(Trace([BOOT], []), BOOT, Enable, e);
    t := Extend(t, e, Report(Configured), r);
    t := ListenerPass(t, r);
    var v := r.(bus := r.bus.(notified := false), online := false, epoch := 1);
    t := Extend(t, Listen(v, Settled, RECONNECTED), Work(true), v.(online := true, worker := Resting));
  }

  const RECONNECT := [Sample, Check, Enqueue, Disable, Report(Reset), Enable, Report(Configured)]

  /** A request is queued; then the bus is reset and configured again before any work runs. */
  lemma ReconnectsWithARequest(t: Trace, u: Usb) returns (t': Trace)
    requires Reaches(t, u) && u == BOOT.(bus := BOOT.bus.(status := Configured, enabled := true), epoch := 1)
    ensures Reaches(t', u.(inbox := u.inbox.(queue := [Frame(0, 1)], nextId := 1), bus := u.bus.(notified := true)))
    ensures t'.steps == t.steps + RECONNECT
  {
    var q := u.(inbox := u.inbox.(queue := [Frame(0, 1)], nextId := 1));
    var d := q.(bus := q.bus.(enabled := false));
    var r := d.(bus := d.bus.(status := Reset, notified := true));
    t' := Extend(t, u, Sample, u.(callback := Sampled(1)));
    t' := Extend(t', u.(callback := Sampled(1)), Check, u.(callback := Admitted(1)));
    t' := Extend(t', u.(callback := Admitted(1)), Enqueue, q);
    t' := Extend(t', q, Disable, d);
    t' := Extend(t', d, Report(Reset), r);
    t' := Extend(t', r, Enable, r.(bus := r.bus.(enabled := true)));
    t' := Extend(t', r.(bus := r.bus.(enabled := true)), Report(Configured), q.(bus := q.bus.(notified := true)));
  }

  const WRITE := [StartHandler, Work(true), Work(true), Work(true), Work(true), Work(true), Work(true)]

  /** The run with two owners up to the accepted write, which comes while the notification of the reconnection is pending. */
  lemma ReconnectsAndWrites() returns (t: Trace)
    ensures t.steps == CONNECT + RECONNECT + WRITE
    ensures Runs(t.us, t.steps)
    ensures var u := t.us[|t.steps|]; PermitInv(u) && u.worker.Resting? && u.bus == Bus(Configured, true, true) && u.buf.busy
  {
    t := Connects();
    var u := BOOT.(bus := BOOT.bus.(status := Configured, enabled := true), epoch := 1);
    t := ReconnectsWithARequest(t, u);
    var q := u.(inbox := u.inbox.(queue := [Frame(0, 1)], nextId := 1), bus := u.bus.(notified := true));
    t := HandlerFetches(t, q);
    var h := q.(buf := q.buf.(permits := 0), inbox := q.inbox.(queue := []));
    t := HandlerAnswers(t, h, Frame(0, 1));
    var a := h.(buf := h.buf.(inFlight := true), inbox := h.inbox.(log := [Handled(0, 1, 1)]));
    assert h.inbox.log + [Handled(0, 1, 1)] == a.inbox.log;
    t := HandlerSends(t, a);
  }

  lemma SnatchIsOncePerTeardown()
    ensures OncePerTeardown(CONNECT + RECONNECT + WRITE + LISTEN)
    ensures var steps := CONNECT + RECONNECT + WRITE + LISTEN; forall m | 0 <= m < |steps| :: !steps[m].DataIn?
  {
    var steps := CONNECT + RECONNECT + WRITE + LISTEN;
    var n := |CONNECT|;
    assert steps[n + 3] == Disable;
  }

  /**
   * Reporting CONFIGURED once per teardown is not enough. In this run the endpoint is torn down and enabled again while
   * a request and the coalesced notification are both waiting; the handler runs first and its write is accepted; then the
   * listener sees a stable CONFIGURED and gives the permit while the new transfer, which never completes, is under way.
   */
  lemma ReconnectSnatches() returns (t: Trace)
    ensures t.steps == CONNECT + RECONNECT + WRITE + LISTEN
    ensures Runs(t.us, t.steps) && OncePerTeardown(t.steps) && GivenAtOnce(t.us, t.steps)
    ensures !OneOwner(t.us[|t.steps|]) && !ReclaimsOnlyFinished(t.us, t.steps)
  {
    t := ReconnectsAndWrites();
    t := ListenerPass(t, t.us[|t.steps|]);
    OneOwnerIff(t.us, t.steps);
    SnatchIsOncePerTeardown();
    WithoutCompletions(t.us, t.steps, |t.steps|);
  }

  // ------------------------------------------------------------------ epochs

  predicate InHand(w: Worker) {
    w.Handling? && w.h.Fetched?
  }

  /** The least number still waiting in the queue, or the next to be given out. */
  function NextQueued(q: Inbox): nat {
    if q.queue == [] then q.nextId else q.queue[0].id
  }

  function NextPending(q: Inbox, w: Worker): nat {
    if InHand(w) then w.h.frame.id else NextQueued(q)
  }

  /** Acceptance numbers rise through the frames handled, then the one in hand, then the queue, up to the next number. */
  ghost predicate InOrder(q: Inbox, w: Worker) {
    && (forall i, j | 0 <= i < j < |q.log| :: q.log[i].id < q.log[j].id)
    && (forall i | 0 <= i < |q.log| :: q.log[i].id < NextPending(q, w))
    && (InHand(w) ==> w.h.frame.id < NextQueued(q))
    && (forall i, j | 0 <= i < j < |q.queue| :: q.queue[i].id < q.queue[j].id)
    && (forall i | 0 <= i < |q.queue| :: q.queue[i].id < q.nextId)
  }

  /** The reset has opened a new epoch but not yet emptied the queue. */
  predicate Opening(w: Worker) {
    w.Listening? && (w.l.Bumped? || w.l.Discarded?)
  }

  ghost predicate EpochInv(u: Usb) {
    && (forall i | 0 <= i < |u.inbox.log| :: u.inbox.log[i].sampled == u.inbox.log[i].epoch <= u.epoch)
    && (forall i | 0 <= i < |u.inbox.queue| :: u.inbox.queue[i].epoch <= u.epoch)
    && (u.callback.Sampled? || u.callback.Admitted? ==> u.callback.epoch <= u.epoch)
    && (u.worker.Handling? && (u.worker.h.Looking? || u.worker.h.Fetched?) ==> u.worker.h.epoch == u.epoch)
    && (u.worker.Listening? && !u.worker.l.Noticed? && !u.worker.l.Entering? ==> !u.online)
    && (Opening(u.worker) ==> (u.callback.Admitted? ==> u.callback.epoch < u.epoch)
                              && forall i | 0 <= i < |u.inbox.queue| :: u.inbox.queue[i].epoch < u.epoch)
  }

  lemma SameOrder(q: Inbox, w: Worker, q': Inbox, w': Worker)
    requires InOrder(q, w) && q'.log == q.log && q'.nextId == q.nextId && (q'.queue == q.queue || q'.queue == [])
    requires w' == w || !InHand(w')
    ensures InOrder(q', w')
  {
  }

  lemma FetchKeepsOrder(q: Inbox, w: Worker, e: nat)
    requires InOrder(q, w) && !InHand(w) && q.queue != []
    ensures InOrder(q.(queue := q.queue[1..]), Handling(Fetched(e, q.queue[0])))
  {
  }

  lemma HandledKeepsOrder(q: Inbox, e: nat, f: Frame, now: nat)
    requires InOrder(q, Handling(Fetched(e, f)))
    ensures InOrder(q.(log := q.log + [Handled(f.id, f.epoch, now)]), Handling(Answered(e)))
  {
  }

  lemma EnqueueKeepsOrder(q: Inbox, w: Worker, e: nat)
    requires InOrder(q, w)
    ensures InOrder(q.(queue := q.queue + [Frame(q.nextId, e)], nextId := q.nextId + 1), w)
  {
  }

  lemma HandlerKeepsOrder(u: Usb, h: Handler, ok: bool)
    requires InOrder(u.inbox, u.worker) && u.worker == Handling(h)
    ensures var v := HandlerStatement(u, h, ok); InOrder(v.inbox, v.worker)
  {
    var v := HandlerStatement(u, h, ok);
    if h.Looking? && u.online && u.inbox.queue != [] {
      FetchKeepsOrder(u.inbox, u.worker, h.epoch);
    } else if h.Fetched? && v.inbox != u.inbox {
      HandledKeepsOrder(u.inbox, h.epoch, h.frame, u.epoch);
    } else {
      SameOrder(u.inbox, u.worker, v.inbox, v.worker);
    }
  }

  lemma ListenerKeepsOrder(u: Usb, l: Listener, s: Samples)
    requires InOrder(u.inbox, u.worker) && u.worker == Listening(l, s)
    ensures var v := ListenerStatement(u, l, s); InOrder(v.inbox, v.worker)
  {
    var v := ListenerStatement(u, l, s);
    SameOrder(u.inbox, u.worker, v.inbox, v.worker);
  }

  lemma OthersLeaveInbox(u: Usb, s: Step)
    requires !s.Work? && !(s.Enqueue? && u.callback.Admitted?)
    ensures Apply(u, s).worker == u.worker || !InHand(Apply(u, s).worker)
    ensures Apply(u, s).inbox == u.inbox || (s.Enqueue? && u.callback.Admitted?)
  {
  }

  lemma StepKeepsOrder(u: Usb, s: Step)
    requires InOrder(u.inbox, u.worker)
    ensures var v := Apply(u, s); InOrder(v.inbox, v.worker)
  {
    if s.Work? {
      match u.worker
      case Handling(h) => HandlerKeepsOrder(u, h, s.ok);
      case Listening(l, t) => ListenerKeepsOrder(u, l, t);
      case Resting =>
    } else if s.Enqueue? && u.callback.Admitted? {
      EnqueueKeepsOrder(u.inbox, u.worker, u.callback.epoch);
    } else {
      OthersLeaveInbox(u, s);
      SameOrder(u.inbox, u.worker, u.inbox, Apply(u, s).worker);
    }
  }

  /** No epoch changes when only the front of the queue, the worker and the buffer's ownership move. */
  lemma SameEpochs(u: Usb, v: Usb)
    requires EpochInv(u) && v.inbox.log == u.inbox.log && v.epoch == u.epoch && v.callback == u.callback && v.online == u.online
    requires v.inbox.queue == u.inbox.queue || v.inbox.queue == [] || (u.inbox.queue != [] && v.inbox.queue == u.inbox.queue[1..])
    requires || v.worker == u.worker
             || (!Opening(v.worker)
                 && (v.worker.Listening? && !v.worker.l.Noticed? && !v.worker.l.Entering? ==> !v.online))
    requires v.worker.Handling? && (v.worker.h.Looking? || v.worker.h.Fetched?) ==> v.worker.h.epoch == v.epoch
    ensures EpochInv(v)
  {
  }

  lemma AnswerKeepsEpochInv(u: Usb, h: Handler, ok: bool)
    requires EpochInv(u) && u.worker == Handling(h) && h.Fetched?
    ensures EpochInv(HandlerStatement(u, h, ok))
  {
  }

  lemma HandlerKeepsEpochInv(u: Usb, h: Handler, ok: bool)
    requires EpochInv(u) && u.worker == Handling(h)
    ensures EpochInv(HandlerStatement(u, h, ok))
  {
    if h.Fetched? {
      AnswerKeepsEpochInv(u, h, ok);
    } else {
      SameEpochs(u, HandlerStatement(u, h, ok));
    }
  }

  /** The reset's first statements: offline, a new epoch, then an empty queue. */
  lemma OpeningKeepsEpochInv(u: Usb, l: Listener, s: Samples)
    requires EpochInv(u) && u.worker == Listening(l, s) && (l.Entering? || l.Offline? || l.Bumped? || l.Discarded?)
    ensures EpochInv(ListenerStatement(u, l, s))
  {
  }

  lemma ListenerKeepsEpochInv(u: Usb, l: Listener, s: Samples)
    requires EpochInv(u) && u.worker == Listening(l, s)
    ensures EpochInv(ListenerStatement(u, l, s))
  {
    if l.Entering? || l.Offline? || l.Bumped? || l.Discarded? {
      OpeningKeepsEpochInv(u, l, s);
    } else {
      SameEpochs(u, ListenerStatement(u, l, s).(online := u.online));
    }
  }

  lemma CallbackKeepsEpochInv(u: Usb, s: Step)
    requires EpochInv(u) && (s.Sample? || s.Check? || s.Enqueue?)
    ensures EpochInv(CallbackStep(u, s))
  {
  }

  lemma StepKeepsEpochInv(u: Usb, s: Step)
    requires EpochInv(u)
    ensures EpochInv(Apply(u, s))
  {
    if s.Sample? || s.Check? || s.Enqueue? {
      CallbackKeepsEpochInv(u, s);
    } else if s.Work? {
      match u.worker
      case Handling(h) => HandlerKeepsEpochInv(u, h, s.ok);
      case Listening(l, t) => ListenerKeepsEpochInv(u, l, t);
      case Resting =>
    } else {
      SameEpochs(u, Apply(u, s));
    }
  }

  /**
   * Epochs. Over all interleavings of the callback's reads with resets: a frame that is handled carries the epoch of
   * the latest reset, each frame is handled at most once and in the order of acceptance, and the purge of a reset
   * never meets a frame of the epoch which that reset opened.
   */
  lemma {:induction false} StaleFramesAreNeverHandled(us: seq<Usb>, steps: seq<Step>, k: nat)
    requires Runs(us, steps) && k <= |steps|
    ensures EpochInv(us[k]) && InOrder(us[k].inbox, us[k].worker)
    ensures forall i | 0 <= i < |us[k].inbox.log| :: us[k].inbox.log[i].sampled == us[k].inbox.log[i].epoch
    ensures forall i, j | 0 <= i < j < |us[k].inbox.log| :: us[k].inbox.log[i].id < us[k].inbox.log[j].id
    ensures Opening(us[k].worker) ==> forall i | 0 <= i < |us[k].inbox.queue| :: us[k].inbox.queue[i].epoch < us[k].epoch
  {
    if k > 0 {
      StaleFramesAreNeverHandled(us, steps, k - 1);
      assert us[k] == Apply(us[k - 1], steps[k - 1]);
      StepKeepsEpochInv(us[k - 1], steps[k - 1]);
      StepKeepsOrder(us[k - 1], steps[k - 1]);
    }
  }

  // ------------------------------------------------------------------ online

  /** A reset takes the transport offline. */
  predicate GoesOffline(u: Usb, s: Step) {
    s.Work? && u.worker.Listening? && u.worker.l.Entering?
  }

  /** A reset ends that has seen one and the same configured status before it and after its purge, as has its event. */
  predicate GoesOnline(u: Usb, s: Step) {
    s.Work? && u.worker.Listening? && u.worker.l.Settled? && u.worker.s.before == u.worker.s.after
    && ConnStateFor(u.worker.s.after) == u.worker.s.event == Hid
  }

  lemma OnlineStep(u: Usb, s: Step)
    ensures Apply(u, s).online == if GoesOffline(u, s) then false else u.online || GoesOnline(u, s)
  {
  }

  /** No reset began between these steps. */
  ghost predicate Undisturbed(us: seq<Usb>, steps: seq<Step>, from: nat, to: nat)
    requires |us| == |steps| + 1 && to <= |steps|
  {
    forall m | from <= m < to :: !GoesOffline(us[m], steps[m])
  }

  /** The transport is online exactly when no reset has begun since boot, or since one that found the host configured throughout. */
  lemma {:induction false} OnlineIff(us: seq<Usb>, steps: seq<Step>, k: nat)
    requires Runs(us, steps) && k <= |steps|
    ensures us[k].online <==>
            Undisturbed(us, steps, 0, k) || exists e | 0 <= e < k :: GoesOnline(us[e], steps[e]) && Undisturbed(us, steps, e + 1, k)
  {
    if k > 0 {
      var k' := k - 1;
      OnlineIff(us, steps, k');
      assert us[k] == Apply(us[k'], steps[k']);
      OnlineStep(us[k'], steps[k']);
      if GoesOnline(us[k'], steps[k']) {
        assert Undisturbed(us, steps, k' + 1, k);
      } else if us[k'].online && !GoesOffline(us[k'], steps[k']) && !Undisturbed(us, steps, 0, k') {
        var e: nat :| e < k' && GoesOnline(us[e], steps[e]) && Undisturbed(us, steps, e + 1, k');
        assert Undisturbed(us, steps, e + 1, k);
      }
      if e: nat :| e < k' && GoesOnline(us[e], steps[e]) && Undisturbed(us, steps, e + 1, k) {
        assert Undisturbed(us, steps, e + 1, k');
      }
    }
  }

  /** A frame that was admitted while online is accepted exactly when fewer than four wait; a callback admits nothing offline. */
  lemma AcceptedIff(u: Usb)
    ensures u.callback.Admitted? ==> (Apply(u, Enqueue).inbox.nextId == u.inbox.nextId + 1 <==> |u.inbox.queue| < 4)
    ensures Apply(u, Check).callback.Admitted? && !u.callback.Admitted? ==> u.online
    ensures Apply(u, Enqueue).inbox.nextId != u.inbox.nextId ==>
              var q := Apply(u, Enqueue).inbox.queue; q == u.inbox.queue + [Frame(u.inbox.nextId, u.callback.epoch)]
  {
  }

  // ------------------------------------------------------------------ no request is lost

  predicate Queued(q: Inbox, id: nat) {
    exists i | 0 <= i < |q.queue| :: q.queue[i].id == id
  }

  predicate Waits(u: Usb, id: nat) {
    Queued(u.inbox, id) || (InHand(u.worker) && u.worker.h.frame.id == id)
  }

  predicate WasHandled(u: Usb, id: nat) {
    exists i | 0 <= i < |u.inbox.log| :: u.inbox.log[i].id == id
  }

  /** The queue is emptied, by a reset or while offline, or the fetched frame is stale or has no device. */
  predicate Drops(u: Usb, s: Step, id: nat) {
    && s.Work?
    && ((Queued(u.inbox, id) && (if u.worker.Listening? then u.worker.l.Discarded?
                                 else u.worker.Handling? && u.worker.h.Looking? && !u.online))
        || (InHand(u.worker) && u.worker.h.frame.id == id && (u.worker.h.frame.epoch != u.worker.h.epoch || !s.ok)))
  }

  /** A frame in the queue stays there, is fetched, or goes with the whole queue. */
  lemma QueuedStep(u: Usb, s: Step, i: nat)
    requires i < |u.inbox.queue|
    ensures var id, v := u.inbox.queue[i].id, Apply(u, s);
            || (i < |v.inbox.queue| && v.inbox.queue[i].id == id)
            || (i > 0 && i - 1 < |v.inbox.queue| && v.inbox.queue[i - 1].id == id)
            || (InHand(v.worker) && v.worker.h.frame.id == id) || Drops(u, s, id)
  {
  }

  lemma InHandStep(u: Usb, s: Step)
    requires InHand(u.worker)
    ensures var id, v := u.worker.h.frame.id, Apply(u, s);
            || (InHand(v.worker) && v.worker.h.frame.id == id) || Drops(u, s, id)
            || (|v.inbox.log| > 0 && v.inbox.log[|v.inbox.log| - 1].id == id)
  {
  }

  lemma LogGrows(u: Usb, s: Step)
    ensures |Apply(u, s).inbox.log| >= |u.inbox.log| && Apply(u, s).inbox.log[..|u.inbox.log|] == u.inbox.log
  {
  }

  lemma WaitingStep(u: Usb, s: Step, id: nat)
    requires Waits(u, id)
    ensures var v := Apply(u, s); Waits(v, id) || WasHandled(v, id) || Drops(u, s, id)
  {
    if Queued(u.inbox, id) {
      var i: nat :| i < |u.inbox.queue| && u.inbox.queue[i].id == id;
      QueuedStep(u, s, i);
    } else {
      InHandStep(u, s);
    }
  }

  lemma AcceptedStep(u: Usb, s: Step, id: nat)
    requires u.inbox.nextId <= id < Apply(u, s).inbox.nextId
    ensures Waits(Apply(u, s), id)
  {
    var q := Apply(u, s).inbox.queue;
    assert q[|q| - 1].id == id;
  }

  /**
   * Every accepted request is handled, still waits, or was dropped by a step that empties the queue (a reset, or the
   * handler while offline) or finds the frame stale or the device missing. Nothing else loses one.
   */
  lemma {:induction false} RequestsAreConserved(us: seq<Usb>, steps: seq<Step>, k: nat, id: nat)
    requires Runs(us, steps) && k <= |steps| && id < us[k].inbox.nextId
    ensures WasHandled(us[k], id) || Waits(us[k], id) || exists m | 0 <= m < k :: Drops(us[m], steps[m], id)
  {
    if k > 0 {
      var u, s := us[k - 1], steps[k - 1];
      assert us[k] == Apply(u, s);
      LogGrows(u, s);
      if id >= u.inbox.nextId {
        AcceptedStep(u, s, id);
      } else {
        RequestsAreConserved(us, steps, k - 1, id);
        if WasHandled(u, id) {
          var i: nat :| i < |u.inbox.log| && u.inbox.log[i].id == id;
          assert us[k].inbox.log[i] == us[k].inbox.log[..|u.inbox.log|][i];
        } else if Waits(u, id) {
          WaitingStep(u, s, id);
        }
      }
    }
  }
}
