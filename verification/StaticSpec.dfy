/** The Settings-backed macro slots as values: RAM slots, the settings map, and what boot has learned from it. */
module StaticSpec {
  import opened Bytes

  /** 1..16 slots of at most 1..256 characters. */
  datatype Limits = Limits(count: nat, maxText: nat)

  predicate LimitsOk(c: Limits) {
    1 <= c.count <= 16 && 1 <= c.maxText <= 256
  }

  type Text = seq<byte>

  /** nvs maps names below "runtime_macro/" to values; persisted and defaults describe the current boot. */
  datatype Static = Static(slots: seq<Text>, nvs: map<string, seq<byte>>, persisted: seq<bool>, defaults: bool)

  const MARKER_NAME: string := "defaults_initialized"
  const MARKER: seq<byte> := [1]
  const CREDENTIAL_NAME: string := "auth/credential"

  function Digit(d: nat): char
    requires d < 10
  {
    '0' + d as char
  }

  function Decimal(n: nat): (s: string)
    ensures |s| > 0
  {
    if n < 10 then [Digit(n)] else Decimal(n / 10) + [Digit(n % 10)]
  }

  function SlotName(slot: nat): string {
    "slot/" + Decimal(slot)
  }

  /** The slot below n whose canonical decimal is `name`. */
  function SlotNamed(name: string, n: nat): (r: Option<nat>)
    ensures r.Some? ==> r.value < n && name == Decimal(r.value)
    ensures r.None? ==> forall v | 0 <= v < n :: name != Decimal(v)
  {
    if n == 0 then None else if name == Decimal(n - 1) then Some(n - 1) else SlotNamed(name, n - 1)
  }

  predicate TextFits(c: Limits, text: Text) {
    |text| <= c.maxText && TextOk(text)
  }

  /** RAM first: a failed save is reported but does not roll the RAM value back. */
  function SlotSet(c: Limits, s: Static, slot: nat, text: Text, save: Errno): (Static, Errno) {
    if slot >= c.count || slot >= |s.slots| || !TextFits(c, text) then (s, Einval)
    else
      (s.(slots := s.slots[slot := text],
          nvs := if save == Success then s.nvs[SlotName(slot) := text] else s.nvs), save)
  }

  function SlotClear(c: Limits, s: Static, slot: nat, del: Errno): (Static, Errno) {
    if slot >= c.count || slot >= |s.slots| then (s, Einval)
    else
      (s.(slots := s.slots[slot := []], nvs := if del == Success then s.nvs - {SlotName(slot)} else s.nvs), del)
  }

  /** What the backend offers for one key: the announced length and the bytes read, or a read error. */
  datatype Delivery = Delivery(length: nat, read: Option<seq<byte>>)

  function Whole(value: seq<byte>): Delivery {
    Delivery(|value|, Some(value))
  }

  /** The part of a name after `key` and a slash; None when the name is not `key` or below it. */
  function Below(name: string, key: string): Option<Option<string>> {
    if |name| < |key| || name[..|key|] != key then None
    else if |name| == |key| then Some(None)
    else if name[|key|] == '/' then Some(Some(name[|key| + 1..]))
    else None
  }

  /** One settings delivery, except the credential's. */
  function SettingsSet(c: Limits, s: Static, name: string, d: Delivery): (Static, Errno) {
    if Below(name, MARKER_NAME).Some? then
      if Below(name, MARKER_NAME).value.Some? || d.length != 1 then (s, Einval)
      else if d.read.None? then (s, Eio)
      else if d.read.value != MARKER then (s, Einval)
      else (s.(defaults := true), Success)
    else if Below(name, "slot").None? then (s, Enoent)
    else
      var next := Below(name, "slot").value;
      var slot := if next.None? then None else SlotNamed(next.value, c.count);
      if slot.None? || slot.value >= |s.slots| || slot.value >= |s.persisted| then (s, Einval)
      else
        var p := s.(persisted := s.persisted[slot.value := true]);
        if d.length > c.maxText then (p, Einval)
        else if d.read.None? then (p, Eio)
        else if |d.read.value| != d.length then (p, Eio)
        else if !TextOk(d.read.value) then (p, Einval)
        else (p.(slots := p.slots[slot.value := d.read.value]), Success)
  }

  /** "Runtime Macro " */
  const DEFAULT_PREFIX: seq<byte> := [82, 117, 110, 116, 105, 109, 101, 32, 77, 97, 99, 114, 111, 32]

  function CharByte(ch: char): byte {
    if ch as int < 0x80 then ch as int else 0
  }

  function Ascii(s: string): seq<byte> {
    seq(|s|, i requires 0 <= i < |s| => CharByte(s[i]))
  }

  lemma {:induction false} DecimalIsDigits(n: nat)
    ensures forall i | 0 <= i < |Decimal(n)| :: '0' <= Decimal(n)[i] <= '9'
  {
    if n >= 10 {
      DecimalIsDigits(n / 10);
    }
  }

  function DefaultText(c: Limits, slot: nat): (t: Text)
    ensures |t| <= c.maxText && TextOk(t)
  {
    DecimalIsDigits(slot + 1);
    var full := DEFAULT_PREFIX + Ascii(Decimal(slot + 1));
    if |full| > c.maxText then full[..c.maxText] else full
  }

  /** One slot given its default; a failed save leaves it in RAM only. */
  function WithDefault(c: Limits, s: Static, slot: nat, save: Errno): Static
    requires slot < |s.slots| == |s.persisted|
  {
    var q := s.(slots := s.slots[slot := DefaultText(c, slot)]);
    if save != Success then q
    else q.(nvs := q.nvs[SlotName(slot) := DefaultText(c, slot)], persisted := q.persisted[slot := true])
  }

  /** Give the first n slots that have no persisted key their default; saves[i] is the backend's answer for slot i. */
  function FillDefaults(c: Limits, s: Static, n: nat, saves: seq<Errno>): (r: Static)
    requires n <= |s.slots| == |s.persisted| && n <= |saves|
    ensures |r.slots| == |r.persisted| == |s.slots| && r.defaults == s.defaults
  {
    if n == 0 then s
    else
      var p := FillDefaults(c, s, n - 1, saves);
      if p.persisted[n - 1] then p else WithDefault(c, p, n - 1, saves[n - 1])
  }

  function SettingsCommit(c: Limits, s: Static, saves: seq<Errno>, markerSave: Errno): Static
    requires |s.slots| == |s.persisted| == c.count <= |saves|
  {
    if s.defaults then s
    else
      var f := FillDefaults(c, s, c.count, saves);
      if (exists i | 0 <= i < c.count :: !s.persisted[i] && saves[i] != Success) || markerSave != Success then f
      else f.(nvs := f.nvs[MARKER_NAME := MARKER], defaults := true)
  }

  function Boot(c: Limits, nvs: map<string, seq<byte>>): Static {
    Static(seq(c.count, _ => []), nvs, seq(c.count, _ => false), false)
  }
}
