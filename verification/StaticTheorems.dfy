/** Slot names are canonical, and a reboot restores exactly the slots. */
module StaticTheorems {
  import opened Bytes
  import opened StaticSpec

  lemma {:induction false} DecimalInjective(a: nat, b: nat)
    requires Decimal(a) == Decimal(b)
    ensures a == b
  {
    var s, n := Decimal(a), |Decimal(a)|;
    if a >= 10 && b >= 10 {
      assert s[..n - 1] == Decimal(a / 10) == Decimal(b / 10);
      assert s[n - 1] == Digit(a % 10) == Digit(b % 10);
      DecimalInjective(a / 10, b / 10);
    }
  }

  lemma {:induction false} NoLeadingZero(v: nat)
    ensures |Decimal(v)| > 1 ==> Decimal(v)[0] != '0'
  {
    if v >= 10 {
      NoLeadingZero(v / 10);
      assert Decimal(v)[0] == Decimal(v / 10)[0];
    }
  }

  /** A canonical prefix of a numeral is no greater than the number: why the parser may give up early. */
  lemma {:induction false} PrefixIsNoGreater(v: nat, u: nat, k: nat)
    requires k <= |Decimal(v)| && Decimal(v)[..k] == Decimal(u)
    ensures u <= v
  {
    var s := Decimal(v);
    if k == |s| {
      DecimalInjective(v, u);
    } else {
      assert v >= 10 && s[..k] == Decimal(v / 10)[..k];
      PrefixIsNoGreater(v / 10, u, k);
    }
  }

  /** Reading a slot's own key finds that slot and no other. */
  lemma SlotNameRoundTrip(c: Limits, slot: nat)
    ensures Below(SlotName(slot), "slot") == Some(Some(Decimal(slot)))
    ensures SlotNamed(Decimal(slot), c.count) == if slot < c.count then Some(slot) else None
    ensures Below(SlotName(slot), MARKER_NAME).None? && SlotName(slot) != MARKER_NAME
    ensures forall other: nat | other != slot :: SlotName(other) != SlotName(slot)
  {
    var name := SlotName(slot);
    assert name[..4] == "slot" && name[5..] == Decimal(slot);
    assert name[0] == 's' && MARKER_NAME[0] == 'd';
    var r := SlotNamed(Decimal(slot), c.count);
    if r.Some? {
      DecimalInjective(r.value, slot);
    }
    forall other: nat | SlotName(other) == name
      ensures other == slot
    {
      assert SlotName(other)[5..] == Decimal(other);
      DecimalInjective(other, slot);
    }
  }

  function Persisted(nvs: map<string, seq<byte>>, slot: nat): Text {
    if SlotName(slot) in nvs then nvs[SlotName(slot)] else []
  }

  /** The settings hold exactly the slots: a key with the text, or no key for an empty slot. */
  ghost predicate Synced(c: Limits, s: Static) {
    && |s.slots| == c.count
    && MARKER_NAME in s.nvs && s.nvs[MARKER_NAME] == MARKER
    && forall i | 0 <= i < c.count :: s.slots[i] == Persisted(s.nvs, i) && TextFits(c, s.slots[i])
  }

  datatype Edit = Put(slot: nat, text: Text, save: Errno) | Erase(slot: nat, del: Errno)

  function Apply(c: Limits, s: Static, e: Edit): (Static, Errno) {
    match e
    case Put(slot, text, save) => SlotSet(c, s, slot, text, save)
    case Erase(slot, del) => SlotClear(c, s, slot, del)
  }

  /** An edit changes one slot, as asked, and keeps RAM and settings in step exactly when the backend agrees. */
  lemma EditKeepsSync(c: Limits, s: Static, e: Edit)
    requires Synced(c, s)
    ensures var (s', err) := Apply(c, s, e);
            && (err == Success ==> Synced(c, s'))
            && |s'.slots| == |s.slots|
            && (forall i | 0 <= i < |s.slots| && i != e.slot :: s'.slots[i] == s.slots[i])
            && (err == Success ==> e.slot < c.count && s'.slots[e.slot] == if e.Put? then e.text else [])
  {
    SlotNameRoundTrip(c, e.slot);
  }

  function Edits(c: Limits, s: Static, es: seq<Edit>): Static {
    if es == [] then s else Apply(c, Edits(c, s, es[..|es| - 1]), es[|es| - 1]).0
  }

  ghost predicate AllSucceed(c: Limits, s: Static, es: seq<Edit>) {
    forall k | 0 <= k < |es| :: Apply(c, Edits(c, s, es[..k]), es[k]).1 == Success
  }

  lemma {:induction false} EditsKeepSync(c: Limits, s: Static, es: seq<Edit>)
    requires Synced(c, s) && AllSucceed(c, s, es)
    ensures Synced(c, Edits(c, s, es))
  {
    if es != [] {
      var init := es[..|es| - 1];
      assert forall k | 0 <= k < |init| :: init[..k] == es[..k];
      EditsKeepSync(c, s, init);
      EditKeepsSync(c, Edits(c, s, init), es[|es| - 1]);
    }
  }

  /** Deliver the keys of `order`, one by one; the credential's key goes to the authentication core. */
  function Replay(c: Limits, nvs: map<string, seq<byte>>, order: seq<string>): Static
    requires forall name | name in order :: name in nvs
  {
    if order == [] then Boot(c, nvs)
    else
      var s, name := Replay(c, nvs, order[..|order| - 1]), order[|order| - 1];
      if name == CREDENTIAL_NAME then s else SettingsSet(c, s, name, Whole(nvs[name])).0
  }

  /** After any part of the replay, exactly the slots whose key was delivered hold their text and count as stored. */
  ghost predicate Replayed(c: Limits, nvs: map<string, seq<byte>>, order: seq<string>, s: Static) {
    && |s.slots| == |s.persisted| == c.count && s.nvs == nvs
    && (s.defaults <==> MARKER_NAME in order)
    && (forall i | 0 <= i < c.count :: s.slots[i] == if SlotName(i) in order then Persisted(nvs, i) else [])
    && forall i | 0 <= i < c.count :: s.persisted[i] <==> SlotName(i) in order
  }

  lemma DeliverMarker(c: Limits, nvs: map<string, seq<byte>>, order: seq<string>, s: Static)
    requires Replayed(c, nvs, order, s) && MARKER_NAME in nvs && nvs[MARKER_NAME] == MARKER
    ensures Replayed(c, nvs, order + [MARKER_NAME], SettingsSet(c, s, MARKER_NAME, Whole(nvs[MARKER_NAME])).0)
  {
    assert Below(MARKER_NAME, MARKER_NAME) == Some(None);
    forall i | 0 <= i < c.count ensures SlotName(i) != MARKER_NAME { SlotNameRoundTrip(c, i); }
  }

  lemma DeliverKey(c: Limits, nvs: map<string, seq<byte>>, order: seq<string>, name: string, s: Static)
    requires Replayed(c, nvs, order, s) && name in nvs && name != CREDENTIAL_NAME
    requires MARKER_NAME in nvs ==> nvs[MARKER_NAME] == MARKER
    requires forall i | 0 <= i < c.count :: TextFits(c, Persisted(nvs, i))
    ensures Replayed(c, nvs, order + [name], SettingsSet(c, s, name, Whole(nvs[name])).0)
  {
    var s' := SettingsSet(c, s, name, Whole(nvs[name])).0;
    if name == MARKER_NAME {
      DeliverMarker(c, nvs, order, s);
    } else {
      forall i | 0 <= i < c.count
        ensures s'.slots[i] == if SlotName(i) in order + [name] then Persisted(nvs, i) else []
        ensures s'.persisted[i] <==> SlotName(i) in order + [name]
      {
        SlotNameRoundTrip(c, i);
        if name != SlotName(i) && Below(name, "slot").Some? && Below(name, "slot").value.Some? {
          var next := Below(name, "slot").value.value;
          assert name == "slot" + "/" + next;
          assert "slot" + "/" == "slot/";
        }
      }
    }
  }

  lemma {:induction false} ReplayRestores(c: Limits, nvs: map<string, seq<byte>>, order: seq<string>)
    requires forall name | name in order :: name in nvs
    requires MARKER_NAME in nvs ==> nvs[MARKER_NAME] == MARKER
    requires forall i | 0 <= i < c.count :: TextFits(c, Persisted(nvs, i))
    ensures Replayed(c, nvs, order, Replay(c, nvs, order))
  {
    if order != [] {
      var init, name := order[..|order| - 1], order[|order| - 1];
      ReplayRestores(c, nvs, init);
      assert order == init + [name];
      if name == CREDENTIAL_NAME {
        assert name[0] == 'a' && MARKER_NAME[0] == 'd';
        forall i | 0 <= i < c.count ensures SlotName(i) != name { assert SlotName(i)[0] == 's'; }
      } else {
        DeliverKey(c, nvs, init, name, Replay(c, nvs, init));
      }
    }
  }

  /**
   * Once the defaults marker is stored: after any edits that all succeeded, a boot that delivers every stored key, in
   * any order, and then commits brings back exactly the slots from before, the cleared ones included, and writes nothing.
   */
  lemma RebootRestores(c: Limits, s: Static, es: seq<Edit>, order: seq<string>, saves: seq<Errno>, markerSave: Errno)
    requires LimitsOk(c) && Synced(c, s) && AllSucceed(c, s, es) && |saves| == c.count
    requires var nvs := Edits(c, s, es).nvs; forall name :: name in order <==> name in nvs
    ensures var before := Edits(c, s, es);
            var replayed := Replay(c, before.nvs, order);
            |replayed.slots| == |replayed.persisted| == c.count
            && SettingsCommit(c, replayed, saves, markerSave).slots == before.slots
            && SettingsCommit(c, replayed, saves, markerSave).nvs == before.nvs
  {
    EditsKeepSync(c, s, es);
    var before := Edits(c, s, es);
    ReplayRestores(c, before.nvs, order);
    var replayed := Replay(c, before.nvs, order);
    forall i | 0 <= i < c.count ensures replayed.slots[i] == before.slots[i] {
      if SlotName(i) !in order { assert SlotName(i) !in before.nvs; }
    }
    assert replayed.slots == before.slots;
  }

  /** The text that the last edit saved for the slot, or the one from before. */
  function LastSaved(c: Limits, s: Static, es: seq<Edit>, i: nat): Text {
    if es == [] then Persisted(s.nvs, i)
    else
      var n := |es| - 1;
      if es[n].slot == i && Apply(c, Edits(c, s, es[..n]), es[n]).1 == Success then if es[n].Put? then es[n].text else []
      else LastSaved(c, s, es[..n], i)
  }

  /** The settings are such as boot leaves them: the marker is stored, and every stored text fits. */
  ghost predicate Stored(c: Limits, s: Static) {
    && |s.slots| == c.count && MARKER_NAME in s.nvs && s.nvs[MARKER_NAME] == MARKER
    && forall i | 0 <= i < c.count :: TextFits(c, Persisted(s.nvs, i))
  }

  lemma EditStores(c: Limits, s: Static, e: Edit)
    requires Stored(c, s)
    ensures var (s', err) := Apply(c, s, e);
            && Stored(c, s')
            && forall i | 0 <= i < c.count ::
                 Persisted(s'.nvs, i) == if e.slot == i && err == Success then if e.Put? then e.text else [] else Persisted(s.nvs, i)
  {
    SlotNameRoundTrip(c, e.slot);
    var (s', err) := Apply(c, s, e);
    forall i | 0 <= i < c.count
      ensures Persisted(s'.nvs, i) == if e.slot == i && err == Success then if e.Put? then e.text else [] else Persisted(s.nvs, i)
      ensures TextFits(c, Persisted(s'.nvs, i))
    {
      assert TextFits(c, Persisted(s.nvs, i));
    }
  }

  lemma {:induction false} SettingsHoldLastSaved(c: Limits, s: Static, es: seq<Edit>)
    requires Stored(c, s)
    ensures var t := Edits(c, s, es); Stored(c, t) && forall i | 0 <= i < c.count :: Persisted(t.nvs, i) == LastSaved(c, s, es, i)
  {
    if es != [] {
      var n := |es| - 1;
      SettingsHoldLastSaved(c, s, es[..n]);
      EditStores(c, Edits(c, s, es[..n]), es[n]);
    }
  }

  /**
   * After any edits, whether they could be saved or not, a boot that delivers every stored key, in any order, and commits
   * gives every slot the text that was last saved for it.
   */
  lemma RebootGivesLastSaved(c: Limits, s: Static, es: seq<Edit>, order: seq<string>, saves: seq<Errno>, markerSave: Errno)
    requires LimitsOk(c) && Stored(c, s) && |saves| == c.count
    requires var nvs := Edits(c, s, es).nvs; forall name :: name in order <==> name in nvs
    ensures var replayed := Replay(c, Edits(c, s, es).nvs, order);
            |replayed.slots| == |replayed.persisted| == c.count
            && var booted := SettingsCommit(c, replayed, saves, markerSave);
               |booted.slots| == c.count && forall i | 0 <= i < c.count :: booted.slots[i] == LastSaved(c, s, es, i)
  {
    SettingsHoldLastSaved(c, s, es);
    ReplayRestores(c, Edits(c, s, es).nvs, order);
  }

  /** RAM and settings agree on every slot. */
  ghost predicate Agrees(c: Limits, s: Static) {
    |s.slots| == |s.persisted| == c.count && forall i | 0 <= i < c.count :: s.slots[i] == Persisted(s.nvs, i)
  }

  lemma DefaultFills(c: Limits, s: Static, slot: nat)
    requires Agrees(c, s) && slot < c.count
    ensures var t := WithDefault(c, s, slot, Success);
            && Agrees(c, t) && t.slots == s.slots[slot := DefaultText(c, slot)] && t.persisted == s.persisted[slot := true]
  {
    var t := WithDefault(c, s, slot, Success);
    forall i | 0 <= i < c.count ensures t.slots[i] == Persisted(t.nvs, i) {
      SlotNameRoundTrip(c, i);
    }
  }

  lemma {:induction false} DefaultsAgree(c: Limits, s: Static, n: nat, saves: seq<Errno>)
    requires Agrees(c, s) && n <= c.count == |saves| && forall i | 0 <= i < c.count :: saves[i] == Success
    ensures Agrees(c, FillDefaults(c, s, n, saves))
  {
    if n > 0 {
      DefaultsAgree(c, s, n - 1, saves);
      DefaultFills(c, FillDefaults(c, s, n - 1, saves), n - 1);
    }
  }

  /** The first n slots that had no key have their default, and every other slot is as it was. */
  predicate Filled(c: Limits, s: Static, f: Static, n: nat) {
    && |f.slots| == |f.persisted| == |s.slots| == |s.persisted| == c.count
    && (forall i | 0 <= i < c.count :: f.persisted[i] == (s.persisted[i] || i < n))
    && forall i | 0 <= i < c.count :: f.slots[i] == if i < n && !s.persisted[i] then DefaultText(c, i) else s.slots[i]
  }

  lemma FillsOneMore(c: Limits, s: Static, p: Static, f: Static, n: nat)
    requires n < c.count && Filled(c, s, p, n)
    requires f.slots == (if p.persisted[n] then p.slots else p.slots[n := DefaultText(c, n)]) && f.persisted == p.persisted[n := true]
    ensures Filled(c, s, f, n + 1)
  {
  }

  lemma {:induction false} DefaultsFill(c: Limits, s: Static, n: nat, saves: seq<Errno>)
    requires |s.slots| == |s.persisted| == c.count == |saves| && n <= c.count && forall i | 0 <= i < c.count :: saves[i] == Success
    ensures Filled(c, s, FillDefaults(c, s, n, saves), n)
  {
    if n > 0 {
      DefaultsFill(c, s, n - 1, saves);
      FillsOneMore(c, s, FillDefaults(c, s, n - 1, saves), FillDefaults(c, s, n, saves), n - 1);
    }
  }

  /**
   * A first boot that was interrupted before the marker was stored: the next boot keeps every text that had been stored,
   * gives the other slots their defaults, and, when its saves succeed, leaves settings and slots in agreement.
   */
  lemma InterruptedBootRecovers(c: Limits, nvs: map<string, seq<byte>>, order: seq<string>, saves: seq<Errno>)
    requires |saves| == c.count && (forall i | 0 <= i < c.count :: saves[i] == Success) && MARKER_NAME !in nvs
    requires (forall name :: name in order <==> name in nvs) && forall i | 0 <= i < c.count :: TextFits(c, Persisted(nvs, i))
    ensures var replayed := Replay(c, nvs, order);
            && |replayed.slots| == |replayed.persisted| == c.count
            && var booted := SettingsCommit(c, replayed, saves, Success);
               && Synced(c, booted)
               && forall i | 0 <= i < c.count :: booted.slots[i] == if SlotName(i) in nvs then nvs[SlotName(i)] else DefaultText(c, i)
  {
    ReplayRestores(c, nvs, order);
    DefaultsAgree(c, Replay(c, nvs, order), c.count, saves);
    DefaultsFill(c, Replay(c, nvs, order), c.count, saves);
    forall i | 0 <= i < c.count ensures SlotName(i) != MARKER_NAME { SlotNameRoundTrip(c, i); }
  }

  /** The first boot on empty settings, if every save succeeds, stores the defaults and the marker. */
  lemma FirstBootSyncs(c: Limits, saves: seq<Errno>)
    requires c.count == |saves| && forall i | 0 <= i < c.count :: saves[i] == Success
    ensures var s := SettingsCommit(c, Boot(c, map[]), saves, Success);
            Synced(c, s) && forall i | 0 <= i < c.count :: s.slots[i] == DefaultText(c, i)
  {
    assert Replay(c, map[], []) == Boot(c, map[]);
    InterruptedBootRecovers(c, map[], [], saves);
  }

  /** The key of a slot is taken exactly when the whole value arrives, is no longer than allowed and is text; no other slot moves. */
  lemma SlotDeliveryIff(c: Limits, s: Static, slot: nat, d: Delivery)
    requires |s.slots| == |s.persisted| == c.count && slot < c.count
    ensures var (t, e) := SettingsSet(c, s, SlotName(slot), d);
            && (e == Success <==> d.length <= c.maxText && d.read.Some? && |d.read.value| == d.length && TextOk(d.read.value))
            && t.slots == (if e == Success then s.slots[slot := d.read.value] else s.slots)
            && t.persisted == s.persisted[slot := true] && t.nvs == s.nvs && t.defaults == s.defaults
  {
    SlotNameRoundTrip(c, slot);
  }

  /** A slot's default is the text "Runtime Macro " with its number counted from one, cut off at the limit. */
  lemma DefaultIsText(c: Limits, slot: nat)
    ensures var t, full := DefaultText(c, slot), "Runtime Macro " + Decimal(slot + 1);
            && |t| == (if |full| > c.maxText then c.maxText else |full|) && |t| <= |full|
            && forall i | 0 <= i < |t| :: t[i] == full[i] as int
  {
    DecimalIsDigits(slot + 1);
    var prefix := "Runtime Macro ";
    assert forall i | 0 <= i < |prefix| :: DEFAULT_PREFIX[i] == prefix[i] as int;
  }
}
