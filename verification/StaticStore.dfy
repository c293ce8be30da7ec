/** The static slots as they stand in memory, refining StaticSpec: NUL-terminated buffers beside their lengths. */
module StaticStore {
  import opened Bytes
  import opened StaticSpec
  import StaticTheorems

  const U32_MAX: nat := 0xffff_ffff

  lemma DigitValue(ch: char)
    requires '0' <= ch <= '9'
    ensures ch as int - '0' as int < 10 && Digit(ch as int - '0' as int) == ch
  {
  }

  /** The slot index that a settings name spells: accepts exactly the canonical decimal of an index below count. */
  method ParseSlot(name: Option<string>, count: nat) returns (r: Option<nat>)
    requires count <= U32_MAX
    ensures name.None? ==> r == None
    ensures name.Some? ==> r == SlotNamed(name.value, count)
  {
    if name.None? || |name.value| == 0 {
      return None;
    }
    var s := name.value;
    if s[0] == '0' && |s| > 1 {
      forall v: nat | v < count ensures s != Decimal(v) { StaticTheorems.NoLeadingZero(v); }
      return None;
    }
    var value: nat := 0;
    for i := 0 to |s|
      invariant if i == 0 then value == 0 else s[..i] == Decimal(value) && value < count
      invariant i > 0 && |s| > 1 ==> value > 0
    {
      if s[i] < '0' || s[i] > '9' {
        forall v: nat | v < count ensures s != Decimal(v) { DecimalIsDigits(v); }
        return None;
      }
      DigitValue(s[i]);
      var digit := s[i] as int - '0' as int;
      ghost var before: nat := value;
      value := value * 10 + digit;
      assert s[..i + 1] == Decimal(value) by {
        if i > 0 {
          assert value / 10 == before && value % 10 == digit;
          assert s[..i + 1] == s[..i] + [s[i]];
        }
      }
      if value > U32_MAX || value >= count {
        forall v: nat | v < count ensures s != Decimal(v) {
          if s == Decimal(v) { StaticTheorems.PrefixIsNoGreater(v, value, i + 1); }
        }
        return None;
      }
    }
    assert s[..|s|] == s;
    var found := SlotNamed(s, count);
    if found.Some? {
      StaticTheorems.DecimalInjective(found.value, value);
    }
    return Some(value);
  }

  class StaticStore {
    const limits: Limits
    const text: array2<byte>
    const lengths: array<nat>
    const persisted: array<bool>
    var defaults: bool
    /** The settings backend below "runtime_macro/". */
    var nvs: map<string, seq<byte>>
    /** What the slots hold. */
    ghost var contents: seq<Text>

    ghost predicate Valid()
      reads this, text, lengths, persisted
    {
      && LimitsOk(limits)
      && text.Length0 == lengths.Length == persisted.Length == |contents| == limits.count
      && text.Length1 == limits.maxText + 1
      && forall i | 0 <= i < limits.count ::
           && lengths[i] == |contents[i]| <= limits.maxText && text[i, lengths[i]] == 0
           && forall j | 0 <= j < lengths[i] :: text[i, j] == contents[i][j]
    }

    ghost function Abs(): (s: Static)
      reads this, persisted
    {
      Static(contents, nvs, persisted[..], defaults)
    }

    constructor (limits: Limits, nvs: map<string, seq<byte>>)
      requires LimitsOk(limits)
      ensures Valid() && fresh(text) && fresh(lengths) && fresh(persisted)
      ensures this.limits == limits && Abs() == Boot(limits, nvs)
    {
      this.limits, this.nvs, defaults := limits, nvs, false;
      text := new byte[limits.count, limits.maxText + 1]((_, _) => 0);
      lengths := new nat[limits.count](_ => 0);
      persisted := new bool[limits.count](_ => false);
      contents := seq(limits.count, _ => []);
    }

    method Replace(slot: nat, t: Text)
      requires Valid() && slot < limits.count && |t| <= limits.maxText
      modifies this`contents, text, lengths
      ensures Valid() && contents == old(contents)[slot := t]
    {
      for j := 0 to |t|
        invariant forall k | 0 <= k < j :: text[slot, k] == t[k]
        invariant forall i, k | 0 <= i < limits.count && i != slot && 0 <= k <= limits.maxText :: text[i, k] == old(text[i, k])
        modifies text
      {
        text[slot, j] := t[j];
      }
      text[slot, |t|] := 0;
      lengths[slot] := |t|;
      contents := contents[slot := t];
    }

    method Copy(slot: nat) returns (err: Errno, t: Text)
      requires Valid()
      ensures if slot < limits.count then err == Success && t == contents[slot] else err == Einval
    {
      t := [];
      if slot >= limits.count {
        return Einval, t;
      }
      for j := 0 to lengths[slot]
        invariant t == contents[slot][..j]
      {
        t := t + [text[slot, j]];
      }
      return Success, t;
    }

    method TextIsValid(t: Text) returns (ok: bool)
      ensures ok == TextOk(t)
    {
      for i := 0 to |t|
        invariant TextOk(t[..i])
      {
        if !TextByte(t[i]) {
          return false;
        }
        assert t[..i + 1] == t[..i] + [t[i]];
      }
      assert t[..|t|] == t;
      return true;
    }

    /** RAM first, then the backend, whose answer is `save`. */
    method Put(slot: nat, t: Text, save: Errno) returns (err: Errno)
      requires Valid()
      modifies this`contents, this`nvs, text, lengths
      ensures Valid() && (Abs(), err) == SlotSet(limits, old(Abs()), slot, t, save)
    {
      var ok := TextIsValid(t);
      if slot >= limits.count || |t| > limits.maxText || !ok {
        return Einval;
      }
      Replace(slot, t);
      if save == Success {
        nvs := nvs[SlotName(slot) := t];
      }
      return save;
    }

    method Erase(slot: nat, del: Errno) returns (err: Errno)
      requires Valid()
      modifies this`contents, this`nvs, text, lengths
      ensures Valid() && (Abs(), err) == SlotClear(limits, old(Abs()), slot, del)
    {
      if slot >= limits.count {
        return Einval;
      }
      for j := 0 to text.Length1
        invariant forall k | 0 <= k < j :: text[slot, k] == 0
        invariant forall i, k | 0 <= i < limits.count && i != slot && 0 <= k <= limits.maxText :: text[i, k] == old(text[i, k])
        modifies text
      {
        text[slot, j] := 0;
      }
      lengths[slot] := 0;
      contents := contents[slot := []];
      if del == Success {
        nvs := nvs - {SlotName(slot)};
      }
      return del;
    }

    /** One settings delivery below "runtime_macro/", except the credential's. */
    method Deliver(name: string, d: Delivery) returns (err: Errno)
      requires Valid()
      modifies this`contents, this`defaults, text, lengths, persisted
      ensures Valid() && (Abs(), err) == SettingsSet(limits, old(Abs()), name, d)
    {
      var marker := Below(name, MARKER_NAME);
      if marker.Some? {
        if marker.value.Some? || d.length != 1 {
          return Einval;
        }
        if d.read.None? {
          return Eio;
        }
        if d.read.value != MARKER {
          return Einval;
        }
        defaults := true;
        return Success;
      }
      var below := Below(name, "slot");
      if below.None? {
        return Enoent;
      }
      var slot := ParseSlot(below.value, limits.count);
      if slot.None? {
        return Einval;
      }
      persisted[slot.value] := true;
      if d.length > limits.maxText {
        return Einval;
      }
      if d.read.None? || |d.read.value| != d.length {
        return Eio;
      }
      var ok := TextIsValid(d.read.value);
      if !ok {
        return Einval;
      }
      Replace(slot.value, d.read.value);
      return Success;
    }

    /** Give one slot its default text and store it. */
    method StoreDefault(slot: nat, save: Errno)
      requires Valid() && slot < limits.count
      modifies this`contents, this`nvs, text, lengths, persisted
      ensures Valid()
      ensures Abs() == WithDefault(limits, old(Abs()), slot, save)
    {
      var t := DefaultText(limits, slot);
      Replace(slot, t);
      if save == Success {
        nvs := nvs[SlotName(slot) := t];
        persisted[slot] := true;
      }
    }

    /** Store defaults for the slots without a key, and the marker once all of them are stored. */
    method CommitSettings(saves: seq<Errno>, markerSave: Errno)
      requires Valid() && limits.count <= |saves|
      modifies this, text, lengths, persisted
      ensures Valid() && Abs() == SettingsCommit(limits, old(Abs()), saves, markerSave)
    {
      if defaults {
        return;
      }
      ghost var before := Abs();
      var allStored := true;
      for slot := 0 to limits.count
        invariant Valid() && Abs() == FillDefaults(limits, before, slot, saves)
        invariant forall i | slot <= i < limits.count :: persisted[i] == before.persisted[i]
        invariant allStored <==> !exists i | 0 <= i < slot :: !before.persisted[i] && saves[i] != Success
      {
        if !persisted[slot] {
          StoreDefault(slot, saves[slot]);
          allStored := allStored && saves[slot] == Success;
        }
      }
      if !allStored || markerSave != Success {
        return;
      }
      nvs := nvs[MARKER_NAME := MARKER];
      defaults := true;
    }
  }
}
