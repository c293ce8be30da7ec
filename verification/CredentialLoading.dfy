/** Loading the credential from settings: interleaved deliveries, fail-closed locking, and the save/reload round trip. */
module CredentialLoading {
  import opened Bytes
  import opened AuthSpec
  import AT = AuthTheorems

  const WRAP: nat := 0x1_0000_0000

  /** A delivery that has read a loadable value but not yet installed it. */
  datatype Pending = Pending(generation: u32, cred: Credential)

  /** starts counts the deliveries since boot; installed is set by an installation and reset by the next delivery. */
  datatype Loader = Loader(auth: Auth, pending: seq<Pending>, starts: nat, installed: bool)

  /** Other: anything else that happens to the authentication core within the boot. */
  datatype Step =
    | Start(value: Option<seq<byte>>)
    | Install(which: nat)
    | Commit
    | Other(ev: AT.Event)

  function Booted(stored: Option<seq<byte>>): Loader {
    Loader(Boot(stored), [], 0, false)
  }

  /** Deliveries interleave: each one runs its two critical sections at arbitrary later moments. */
  function Apply(u: AT.Setup, l: Loader, s: Step): Loader {
    match s
    case Start(value) =>
      var c := Loadable(l.auth.seen, value);
      var a := DeliveryStarts(l.auth);
      Loader(a, if c.Some? then l.pending + [Pending(a.generation, c.value)] else l.pending, l.starts + 1, false)
    case Install(i) =>
      if i >= |l.pending| then l
      else
        var (a, e) := DeliveryInstalls(l.auth, l.pending[i].generation, l.pending[i].cred);
        Loader(a, l.pending[..i] + l.pending[i + 1..], l.starts, l.installed || e == Success)
    case Commit => l.(auth := SettingsCommit(l.auth))
    case Other(ev) => l.(auth := AT.Step(u, l.auth, ev).0)
  }

  function Run(u: AT.Setup, stored: Option<seq<byte>>, steps: seq<Step>): Loader {
    if steps == [] then Booted(stored) else Apply(u, Run(u, stored, steps[..|steps| - 1]), steps[|steps| - 1])
  }

  /** The run contains no attempt to set a credential. */
  predicate NoChange(steps: seq<Step>) {
    forall i | 0 <= i < |steps| :: !(steps[i].Other? && steps[i].ev.Change?)
  }

  predicate Inv(l: Loader) {
    && l.auth.generation == l.starts % WRAP
    && (l.auth.seen <==> l.starts > 0)
    && (l.starts == 0 ==> l.pending == [] && !l.installed && l.auth.state == Open)
    && (forall i | 0 <= i < |l.pending| :: l.pending[i].generation == 1 && Valid(l.pending[i].cred))
    && |l.pending| <= 1
    && (l.starts > 0 ==> l.auth.invalid == !l.installed && l.auth.state == if l.installed then Protected else ErrorLocked)
    && (l.installed ==> l.pending == [] && l.starts % WRAP == 1)
  }

  lemma StartKeepsInv(u: AT.Setup, l: Loader, value: Option<seq<byte>>)
    requires Inv(l)
    ensures Inv(Apply(u, l, Start(value)))
  {
    var l' := Apply(u, l, Start(value));
    assert l'.auth.generation == l'.starts % WRAP;
    if l.starts > 0 {
      assert l'.pending == l.pending;
    }
  }

  lemma ApplyKeepsInv(u: AT.Setup, l: Loader, s: Step)
    requires Inv(l) && !(s.Other? && s.ev.Change?)
    ensures Inv(Apply(u, l, s))
  {
    match s
    case Start(value) => StartKeepsInv(u, l, value);
    case _ =>
  }

  lemma {:induction false} RunKeepsInv(u: AT.Setup, stored: Option<seq<byte>>, steps: seq<Step>)
    requires NoChange(steps)
    ensures Inv(Run(u, stored, steps))
  {
    if steps != [] {
      RunKeepsInv(u, stored, steps[..|steps| - 1]);
      ApplyKeepsInv(u, Run(u, stored, steps[..|steps| - 1]), steps[|steps| - 1]);
    }
  }

  /** The run that defeats the 32-bit generation: a good value, then n-1 more deliveries, then the late installation. */
  function Starts(good: seq<byte>, n: nat): seq<Step>
    requires n > 0
  {
    if n == 1 then [Start(Some(good))] else Starts(good, n - 1) + [Start(None)]
  }

  lemma {:induction false} StartsLeaveItPending(u: AT.Setup, good: seq<byte>, n: nat)
    requires n > 0 && Loadable(false, Some(good)).Some?
    ensures var l := Run(u, None, Starts(good, n));
            l.starts == n && l.pending == [Pending(1, Deserialize(good))] && l.auth.seen && NoChange(Starts(good, n))
  {
    var s := Starts(good, n);
    if n == 1 {
      assert s[..0] == [];
      assert Run(u, None, s) == Apply(u, Booted(None), s[0]);
    } else {
      StartsLeaveItPending(u, good, n - 1);
      assert s[..|s| - 1] == Starts(good, n - 1) && s[|s| - 1] == Start(None);
      var l := Run(u, None, Starts(good, n - 1));
      assert Run(u, None, s) == Apply(u, l, Start(None));
    }
  }

  /** If this run has n deliveries and no credential change, it ends locked. */
  predicate LocksAfter(u: AT.Setup, n: nat, stored: Option<seq<byte>>, steps: seq<Step>) {
    NoChange(steps) && Run(u, stored, steps).starts == n ==> Run(u, stored, steps).auth.state == ErrorLocked
  }

  /**
   * Fail closed. After n >= 2 deliveries and no credential change, whatever else happens and however they interleave, the
   * device is locked; the single exception is a number of deliveries that is 1 modulo 2^32, where the generation
   * counter has come round to the first delivery's.
   */
  lemma DeliveriesLock(u: AT.Setup, n: nat, good: seq<byte>)
    requires n >= 2 && Loadable(false, Some(good)).Some?
    ensures (forall stored, steps :: LocksAfter(u, n, stored, steps)) <==> n % WRAP != 1
  {
    forall stored, steps | n % WRAP != 1 ensures LocksAfter(u, n, stored, steps) {
      if NoChange(steps) {
        RunKeepsInv(u, stored, steps);
      }
    }
    if n % WRAP == 1 {
      StartsLeaveItPending(u, good, n);
      RunKeepsInv(u, None, Starts(good, n));
      var late := Starts(good, n) + [Install(0)];
      assert late[..|late| - 1] == Starts(good, n) && NoChange(late);
      assert Run(u, None, late).starts == n && Run(u, None, late).auth.state == Protected;
      assert !LocksAfter(u, n, None, late);
    }
  }

  // ------------------------------------------------------------------ every run, credential changes included

  /** Any credential in force or on its way has made the settings known. */
  predicate Known(l: Loader) {
    (l.auth.state != Open ==> l.auth.seen) && (l.pending != [] ==> l.auth.seen)
  }

  lemma StepKeepsKnown(u: AT.Setup, l: Loader, s: Step)
    requires Known(l)
    ensures var m := Apply(u, l, s);
            && Known(m)
            && (l.auth.state != Open ==> m.auth.state != Open)
            && (l.auth.state == ErrorLocked && m.auth.state != ErrorLocked ==> s.Install? && l.pending != [])
            && (l.auth.state == ErrorLocked && l.pending == [] ==> m.pending == [])
  {
  }

  lemma {:induction false} RunKeepsKnown(u: AT.Setup, stored: Option<seq<byte>>, steps: seq<Step>)
    ensures Known(Run(u, stored, steps))
  {
    if steps != [] {
      RunKeepsKnown(u, stored, steps[..|steps| - 1]);
      StepKeepsKnown(u, Run(u, stored, steps[..|steps| - 1]), steps[|steps| - 1]);
    }
  }

  /**
   * Within one boot, whatever is delivered, committed, proved, locked, reset or set, in any order: protection or a
   * lock-out never gives way to OPEN, and a lock-out ends only when a delivery that was pending is installed.
   */
  lemma NeverReopens(u: AT.Setup, stored: Option<seq<byte>>, steps: seq<Step>, s: Step)
    ensures var before, after := Run(u, stored, steps).auth.state, Run(u, stored, steps + [s]).auth.state;
            && (before != Open ==> after != Open)
            && (before == ErrorLocked && after != ErrorLocked ==> s.Install? && Run(u, stored, steps).pending != [])
  {
    RunKeepsKnown(u, stored, steps);
    StepKeepsKnown(u, Run(u, stored, steps), s);
    assert (steps + [s])[..|steps|] == steps;
  }

  /** With nothing pending a lock-out is final. */
  lemma {:induction false} LockedForGood(u: AT.Setup, stored: Option<seq<byte>>, steps: seq<Step>, more: seq<Step>)
    requires Run(u, stored, steps).auth.state == ErrorLocked && Run(u, stored, steps).pending == []
    ensures Run(u, stored, steps + more).auth.state == ErrorLocked && Run(u, stored, steps + more).pending == []
  {
    if more == [] {
      assert steps + more == steps;
    } else {
      var n := |more| - 1;
      LockedForGood(u, stored, steps, more[..n]);
      RunKeepsKnown(u, stored, steps + more[..n]);
      StepKeepsKnown(u, Run(u, stored, steps + more[..n]), more[n]);
      assert (steps + more)[..|steps + more| - 1] == steps + more[..n];
    }
  }

  // ------------------------------------------------------------------ RAM mirrors the settings store

  predicate Mirrors(a: Auth) {
    a.state == Protected ==> a.stored == Some(Serialize(a.cred)) && Valid(a.cred) && a.seen
  }

  /** A boot with one delivery of what the backend holds (or of nothing), then the commit. */
  function Reboot(stored: Option<seq<byte>>): Auth {
    var a := Boot(stored);
    if stored.None? then SettingsCommit(a)
    else
      var b := DeliveryStarts(a);
      var c := Loadable(a.seen, stored);
      SettingsCommit(if c.None? then b else DeliveryInstalls(b, b.generation, c.value).0)
  }

  /** A record of the current version is what its credential is saved as. */
  lemma ReloadAndStore(r: Record)
    requires r[0] == CREDENTIAL_VERSION
    ensures Serialize(Deserialize(r)) == r
  {
    U32RoundTrip(0, r[1..5]);
    assert r == r[..1] + r[1..5] + r[5..21] + r[21..53];
  }

  /** What a delivery reads is what the settings hold, or something that cannot be loaded. */
  predicate Reads(l: Loader, s: Step) {
    s.Start? && Loadable(false, s.value).Some? ==> s.value == l.auth.stored
  }

  predicate Truthful(u: AT.Setup, stored: Option<seq<byte>>, steps: seq<Step>) {
    forall k | 0 <= k < |steps| :: Reads(Run(u, stored, steps[..k]), steps[k])
  }

  /** The record of the last change that was accepted and saved, or else the one found at boot. */
  function LastSaved(u: AT.Setup, stored: Option<seq<byte>>, steps: seq<Step>): Option<seq<byte>> {
    if steps == [] then stored
    else
      var n := |steps| - 1;
      var s := steps[n];
      if s.Other? && s.ev.Change? && AT.Step(u, Run(u, stored, steps[..n]).auth, s.ev).1 == Success
      then Some(Serialize(s.ev.cred)) else LastSaved(u, stored, steps[..n])
  }

  /** The credential in force is the stored one, and so is one that is about to be installed. */
  predicate Mirrored(l: Loader) {
    && Mirrors(l.auth) && |l.pending| <= 1
    && (l.pending != [] ==>
          && l.auth.seen && l.auth.state == ErrorLocked && Valid(l.pending[0].cred)
          && l.auth.stored == Some(Serialize(l.pending[0].cred)))
  }

  lemma StartKeepsMirrored(u: AT.Setup, l: Loader, s: Step)
    requires Mirrored(l) && Known(l) && s.Start? && Reads(l, s)
    ensures Mirrored(Apply(u, l, s)) && Apply(u, l, s).auth.stored == l.auth.stored
  {
    if Loadable(l.auth.seen, s.value).Some? {
      ReloadAndStore(s.value.value);
    }
  }

  lemma OthersKeepCredential(u: AT.Setup, a: Auth, ev: AT.Event)
    requires !ev.Change?
    ensures var b := AT.Step(u, a, ev).0; b.state == a.state && b.cred == a.cred && b.stored == a.stored && b.seen == a.seen
  {
  }

  lemma ChangeStoresFirst(a: Auth, now: nat, c: Credential, save: Errno)
    requires Mirrors(a)
    ensures var (b, e) := SetCredential(a, now, c, save);
            && Mirrors(b) && (a.seen ==> b.seen)
            && b.stored == (if e == Success then Some(Serialize(c)) else a.stored)
            && (e != Success ==> b.cred == a.cred && b.state == a.state)
            && (a.state == ErrorLocked ==> e != Success)
  {
  }

  lemma EventKeepsMirrored(u: AT.Setup, l: Loader, ev: AT.Event)
    requires Mirrored(l)
    ensures Mirrored(Apply(u, l, Other(ev)))
    ensures var (a, e) := AT.Step(u, l.auth, ev);
            && a.stored == (if ev.Change? && e == Success then Some(Serialize(ev.cred)) else l.auth.stored)
            && (ev.Change? && e != Success ==> a.cred == l.auth.cred && a.state == l.auth.state)
  {
    match ev
    case Change(now, c, save) => ChangeStoresFirst(l.auth, now, c, save);
    case _ => OthersKeepCredential(u, l.auth, ev);
  }

  lemma StepKeepsMirrored(u: AT.Setup, l: Loader, s: Step)
    requires Mirrored(l) && Known(l) && Reads(l, s)
    ensures Mirrored(Apply(u, l, s))
    ensures !s.Other? ==> Apply(u, l, s).auth.stored == l.auth.stored
  {
    match s
    case Start(value) => StartKeepsMirrored(u, l, s);
    case Other(ev) => EventKeepsMirrored(u, l, ev);
    case _ =>
  }

  lemma TruthfulSoFar(u: AT.Setup, stored: Option<seq<byte>>, steps: seq<Step>, n: nat)
    requires Truthful(u, stored, steps) && n <= |steps|
    ensures Truthful(u, stored, steps[..n])
  {
    assert forall k | 0 <= k <= n :: steps[..n][..k] == steps[..k];
  }

  /**
   * Storage comes first, over every run that mixes deliveries, installations, commits and changes in any order: the record
   * is always the last one saved, and the credential in force, or about to be installed, is the one of that record.
   */
  lemma {:induction false} RamIsStorage(u: AT.Setup, stored: Option<seq<byte>>, steps: seq<Step>)
    requires Truthful(u, stored, steps)
    ensures var l := Run(u, stored, steps); Mirrored(l) && l.auth.stored == LastSaved(u, stored, steps)
  {
    if steps != [] {
      var n := |steps| - 1;
      var front := steps[..n];
      TruthfulSoFar(u, stored, steps, n);
      RamIsStorage(u, stored, front);
      RunKeepsKnown(u, stored, front);
      StepKeepsMirrored(u, Run(u, stored, front), steps[n]);
      if steps[n].Other? {
        EventKeepsMirrored(u, Run(u, stored, front), steps[n].ev);
      }
    }
  }

  /** A reboot restores the credential of an intact record. */
  lemma RecordRestores(c: Credential)
    requires Valid(c)
    ensures var a := Reboot(Some(Serialize(c))); a.state == Protected && a.cred == c && Mirrors(a)
  {
    StoreAndReload(c);
  }

  /**
   * After any such run a reboot restores exactly the credential in force; a damaged record locks, and only a missing
   * one opens.
   */
  lemma RebootRestores(u: AT.Setup, stored: Option<seq<byte>>, steps: seq<Step>, damaged: seq<byte>)
    requires Truthful(u, stored, steps)
    ensures var a := Run(u, stored, steps).auth;
            a.state == Protected ==> Reboot(a.stored).state == Protected && Reboot(a.stored).cred == a.cred
    ensures Loadable(false, Some(damaged)).None? ==> Reboot(Some(damaged)).state == ErrorLocked
    ensures Reboot(None).state == Open
  {
    RamIsStorage(u, stored, steps);
    var a := Run(u, stored, steps).auth;
    if a.state == Protected {
      RecordRestores(a.cred);
    }
  }
}
