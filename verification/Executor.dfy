/** The press/release machine that types one snapshot, under arbitrary scheduling failures. */
module ExecutorSpec {
  import opened Bytes

  const MAX_TEXT: nat := 512

  datatype Phase = Pressing | Releasing
  datatype Run = Run(text: seq<byte>, index: nat, phase: Phase)

  /** run is None when idle; pending: the work item is scheduled. */
  datatype Exec = Exec(run: Option<Run>, pending: bool)

  /** A keycode event that reaches the listeners, named by the byte it types. */
  datatype KeyEvent = Down(key: byte) | Up(key: byte)

  const IDLE := Exec(None, false)

  function Start(e: Exec, text: seq<byte>, sched: Errno): (Exec, Errno) {
    if |text| > MAX_TEXT then (e, Einval)
    else if e.run.Some? then (e, Ebusy)
    else if text == [] then (e, Success)
    else if sched != Success then (e, sched)
    else (Exec(Some(Run(text, 0, Pressing)), true), Success)
  }

  /** What a start is answered with, and that it runs exactly a text that fits, on an idle machine that can be scheduled. */
  lemma StartIsAnswered(e: Exec, text: seq<byte>, sched: Errno)
    ensures var (x, err) := Start(e, text, sched);
            && (|text| > 512 ==> err == Einval) && (|text| <= 512 && e.run.Some? ==> err == Ebusy)
            && (e.run.None? && text == [] ==> err == Success && x == e)
            && (x != e <==> 1 <= |text| <= 512 && e.run.None? && sched == Success)
            && (x != e ==> err == Success && x.run.Some? && x.run.value.text == text && x.run.value.index == 0 && x.pending)
            && (e.run.None? && 1 <= |text| <= 512 ==> err == sched)
  {
  }

  predicate Sane(e: Exec) {
    e.run.Some? ==> e.run.value.index < |e.run.value.text| <= MAX_TEXT
  }

  /** One run of the work item; sched is what the kernel answers when the next one is scheduled. */
  function Handle(e: Exec, sched: Errno): (Exec, seq<KeyEvent>)
    requires Sane(e)
  {
    match e.run
    case None => (IDLE, [])
    case Some(r) =>
      var key := r.text[r.index];
      match r.phase
      case Pressing =>
        if !TextByte(key) then (IDLE, [])
        else if sched != Success then (IDLE, [Down(key), Up(key)])
        else (Exec(Some(r.(phase := Releasing)), true), [Down(key)])
      case Releasing =>
        if r.index + 1 >= |r.text| || sched != Success then (IDLE, [Up(key)])
        else (Exec(Some(Run(r.text, r.index + 1, Pressing)), true), [Up(key)])
  }

  /** A start followed by one run of the work item per element of scheds. */
  function Play(text: seq<byte>, scheds: seq<Errno>): (r: (Exec, seq<KeyEvent>))
    ensures Sane(r.0)
  {
    if scheds == [] then (Start(IDLE, text, Success).0, [])
    else
      var (e, before) := Play(text, scheds[..|scheds| - 1]);
      var (e', new') := Handle(e, scheds[|scheds| - 1]);
      (e', before + new')
  }

  /** Press and release of the first n characters, one after the other. */
  function Taps(text: seq<byte>, n: nat): seq<KeyEvent>
    requires n <= |text|
  {
    if n == 0 then [] else Taps(text, n - 1) + [Down(text[n - 1]), Up(text[n - 1])]
  }

  /** What is left to do: two runs for each remaining character, one less while a key is down. */
  function Remaining(e: Exec): nat
    requires Sane(e)
  {
    if e.run.None? then 0
    else 2 * (|e.run.value.text| - e.run.value.index) - (if e.run.value.phase.Releasing? then 1 else 0)
  }

  /** The keys typed so far are complete taps of a prefix, in order, plus at most the one key that is down. */
  predicate Typed(text: seq<byte>, e: Exec, out: seq<KeyEvent>) {
    && (e.pending <==> e.run.Some?)
    && match e.run
       case None => exists n | 0 <= n <= |text| :: out == Taps(text, n)
       case Some(r) => r.text == text && r.index < |text|
                       && out == Taps(text, r.index) + (if r.phase.Releasing? then [Down(text[r.index])] else [])
  }

  lemma TapStep(text: seq<byte>, n: nat)
    requires n < |text|
    ensures Taps(text, n + 1) == Taps(text, n) + [Down(text[n])] + [Up(text[n])]
    ensures Taps(text, n + 1) == Taps(text, n) + [Down(text[n]), Up(text[n])]
  {
  }

  lemma HandleTypes(text: seq<byte>, e: Exec, out: seq<KeyEvent>, sched: Errno)
    requires |text| <= MAX_TEXT && TextOk(text) && Typed(text, e, out)
    ensures var (e', more) := Handle(e, sched); Typed(text, e', out + more)
  {
    if e.run.None? {
      assert out + [] == out;
    } else {
      TapStep(text, e.run.value.index);
    }
  }

  lemma HandleProgresses(text: seq<byte>, e: Exec, sched: Errno)
    requires 1 <= |text| <= MAX_TEXT && TextOk(text) && Sane(e) && (e.run.Some? ==> e.run.value.text == text)
    ensures var e' := Handle(e, sched).0;
            && (Remaining(e') < Remaining(e) || e' == e == IDLE || (e.run.None? && e' == IDLE))
            && (sched == Success && Remaining(e) > 0 ==> Remaining(e') == Remaining(e) - 1)
  {
  }

  /**
   * Whatever the scheduler does: the keys typed are complete taps of a prefix of the snapshot, in order, plus at most
   * the one key that is down; nothing is down when idle, and the work item is pending exactly while a macro runs.
   */
  lemma {:induction false} TypesAPrefix(text: seq<byte>, scheds: seq<Errno>)
    requires 1 <= |text| <= MAX_TEXT && TextOk(text)
    ensures var (e, out) := Play(text, scheds); Typed(text, e, out)
  {
    if scheds == [] {
      assert Taps(text, 0) + [] == [];
    } else {
      var init := scheds[..|scheds| - 1];
      TypesAPrefix(text, init);
      var (e, out) := Play(text, init);
      HandleTypes(text, e, out, scheds[|scheds| - 1]);
    }
  }

  /** Every run makes progress, and if no scheduling call fails the whole snapshot is typed by the 2n-th run, not earlier. */
  lemma {:induction false} TypesItAll(text: seq<byte>, scheds: seq<Errno>)
    requires 1 <= |text| <= MAX_TEXT && TextOk(text)
    ensures var (e, out) := Play(text, scheds);
            && (scheds != [] ==>
                  var e0 := Play(text, scheds[..|scheds| - 1]).0; Remaining(e) < Remaining(e0) || e == e0 == IDLE)
            && ((forall i | 0 <= i < |scheds| :: scheds[i] == Success) ==>
                  && Remaining(e) == (if |scheds| <= 2 * |text| then 2 * |text| - |scheds| else 0)
                  && (|scheds| >= 2 * |text| ==> out == Taps(text, |text|)))
  {
    TypesAPrefix(text, scheds);
    if scheds != [] {
      var init := scheds[..|scheds| - 1];
      TypesItAll(text, init);
      TypesAPrefix(text, init);
      assert forall i | 0 <= i < |init| :: init[i] == scheds[i];
      var e0 := Play(text, init).0;
      HandleProgresses(text, e0, scheds[|scheds| - 1]);
      LastTap(text, init, scheds[|scheds| - 1]);
    }
  }

  /** The run that finishes the whole text without a failure leaves all its taps behind. */
  lemma LastTap(text: seq<byte>, init: seq<Errno>, sched: Errno)
    requires 1 <= |text| <= MAX_TEXT && TextOk(text)
    ensures var (e, out) := Play(text, init);
            var (e', more) := Handle(e, sched);
            (e.run.None? ==> more == []) && (Remaining(e) == 1 ==> out + more == Taps(text, |text|))
  {
    TypesAPrefix(text, init);
    var e := Play(text, init).0;
    if Remaining(e) == 1 {
      assert e.run.value.index == |text| - 1 && e.run.value.phase.Releasing?;
      TapStep(text, |text| - 1);
    }
  }
}

/** The executor as it stands in memory: one static snapshot buffer advanced by a work handler. */
module Executor {
  import opened Bytes
  import opened ExecutorSpec

  class Executor {
    const text: array<byte>
    var length: nat
    var index: nat
    var encoded: byte
    var phase: Phase
    var busy: bool
    var pending: bool
    ghost var emitted: seq<KeyEvent>

    ghost predicate Valid()
      reads this, text
    {
      && text.Length == MAX_TEXT + 1
      && (!busy ==> AllZero(text[..]) && length == 0 && index == 0 && encoded == 0 && phase == Pressing && !pending)
      && (busy ==> index < length <= MAX_TEXT && AllZero(text[length..]) && pending
                   && (phase == Releasing ==> encoded == text[index]))
    }

    ghost function Abs(): (e: Exec)
      reads this, text
      requires Valid()
      ensures Sane(e)
    {
      Exec(if busy then Some(Run(text[..length], index, phase)) else None, pending)
    }

    constructor ()
      ensures Valid() && fresh(text) && Abs() == IDLE && emitted == []
    {
      text := new byte[MAX_TEXT + 1](_ => 0);
      length, index, encoded, phase := 0, 0, 0, Pressing;
      busy, pending := false, false;
      emitted := [];
    }

    method Raise(pressed: bool)
      modifies this`emitted
      ensures emitted == old(emitted) + [if pressed then Down(encoded) else Up(encoded)]
    {
      emitted := emitted + [if pressed then Down(encoded) else Up(encoded)];
    }

    method Finish()
      requires text.Length == MAX_TEXT + 1
      modifies this`length, this`index, this`encoded, this`phase, this`busy, this`pending, text
      ensures Valid() && Abs() == IDLE
    {
      for i := 0 to text.Length
        invariant forall j | 0 <= j < i :: text[j] == 0
        modifies text
      {
        text[i] := 0;
      }
      length, index, encoded, phase := 0, 0, 0, Pressing;
      busy, pending := false, false;
    }

    /** The work item's handler, entered when it is no longer pending. */
    method WorkHandler(sched: Errno)
      requires Valid()
      modifies this, text
      ensures Valid()
      ensures Abs() == Handle(old(Abs()), sched).0
      ensures emitted == old(emitted) + Handle(old(Abs()), sched).1
    {
      if !busy {
        return;
      }
      pending := false;
      match phase
      case Pressing =>
        if !TextByte(text[index]) {
          Finish();
          return;
        }
        encoded := text[index];
        Raise(true);
        phase := Releasing;
        pending := sched == Success;
        if sched != Success {
          Raise(false);
          Finish();
        }
      case Releasing =>
        Raise(false);
        index := index + 1;
        if index >= length {
          Finish();
          return;
        }
        phase := Pressing;
        pending := sched == Success;
        if sched != Success {
          Finish();
        }
    }

    /** Take a private copy of the caller's bytes; sched is the kernel's answer to scheduling the first run. */
    method Start(source: array<byte>, n: nat, sched: Errno) returns (err: Errno)
      requires Valid() && n <= source.Length && source != text
      modifies this`length, this`index, this`encoded, this`phase, this`busy, this`pending, text
      ensures Valid()
      ensures (Abs(), err) == ExecutorSpec.Start(old(Abs()), source[..n], sched)
    {
      if n > MAX_TEXT {
        return Einval;
      }
      if busy {
        return Ebusy;
      }
      busy := true;
      if n == 0 {
        Finish();
        return Success;
      }
      for i := 0 to n
        invariant text[..i] == source[..i] && AllZero(text[i..])
        modifies text
      {
        text[i] := source[i];
      }
      text[n] := 0;
      length, index, phase := n, 0, Pressing;
      pending := sched == Success;
      if sched != Success {
        Finish();
        return sched;
      }
      return Success;
    }
  }
}
