/**
 Where a person's mutable values lie in memory and how the bytes encode them. The layout is a parameter;
 the one layout the bridge ships is pinned here and shown to keep the footprints of one person apart.
 */
module PersonLayout {
  import opened Wrappers
  import opened ScanModel

  datatype Entry = Entry(key: string, offset: int)

  datatype MutationLayout = MutationLayout(
    objectUidOffset: int,
    currentAbilityOffset: int,
    potentialAbilityOffset: int,
    staffCurrentAbilityOffset: int,
    staffPotentialAbilityOffset: int,
    attrsOffset: int,
    personalityEntries: seq<Entry>,
    attributeEntries: seq<Entry>)

  datatype Field = Ambition | Professionalism | Determination

  function KeyOf(f: Field): string {
    match f
    case Ambition => "Ambition"
    case Professionalism => "Professionalism"
    case Determination => "Determination"
  }

  /** The offset of the first usable entry with the key. */
  function FirstOffset(entries: seq<Entry>, key: string): Option<int> {
    if entries == [] then None
    else if entries[0].key == key && entries[0].offset >= 0 then Some(entries[0].offset)
    else FirstOffset(entries[1..], key)
  }

  method TryFindOffset(entries: seq<Entry>, key: string) returns (offset: Option<int>)
    ensures offset == FirstOffset(entries, key)
  {
    for i := 0 to |entries|
      invariant FirstOffset(entries, key) == FirstOffset(entries[i..], key)
    {
      if entries[i].key == key && entries[i].offset >= 0 {
        return Some(entries[i].offset);
      }
    }
    offset := None;
  }

  /** A person's current and potential ability, two bytes each. */
  function CaAddress(layout: MutationLayout, c: PersonCandidate): Option<Word64> {
    TryAdd(c.blockAddress, if c.facet.Player? then layout.currentAbilityOffset else layout.staffCurrentAbilityOffset)
  }

  function PaAddress(layout: MutationLayout, c: PersonCandidate): Option<Word64> {
    TryAdd(c.blockAddress, if c.facet.Player? then layout.potentialAbilityOffset else layout.staffPotentialAbilityOffset)
  }

  function UidAddress(layout: MutationLayout, c: PersonCandidate): Option<Word64> {
    TryAdd(c.objectAddress, layout.objectUidOffset)
  }

  /** A player's mentality byte: personality is filed by the object, Determination among the block's attributes. */
  function FieldAddress(layout: MutationLayout, c: PersonCandidate, f: Field): Option<Word64> {
    var entries := if f.Determination? then layout.attributeEntries else layout.personalityEntries;
    match FirstOffset(entries, KeyOf(f))
    case None => None
    case Some(offset) =>
      if !f.Determination? then TryAdd(c.objectAddress, offset)
      else
        match TryAdd(c.blockAddress, layout.attrsOffset)
        case None => None
        case Some(attributes) => TryAdd(attributes, offset)
  }

  // ---------------------------------------------------------------- encodings

  /** A stored attribute is five times its value; reading rounds to the nearest value. */
  function DecodeScaledUnclamped(raw: Byte): int { (raw as real / 5.0 + 0.5).Floor }

  function TryDecodeScaledStrict(raw: Byte): Option<int> {
    var value := DecodeScaledUnclamped(raw);
    if 1 <= value <= 20 then Some(value) else None
  }

  predicate IsMentalityValue(value: int) { 1 <= value <= 20 }

  function Decode(f: Field, raw: Byte): Option<int> {
    if f.Determination? then TryDecodeScaledStrict(raw)
    else if IsMentalityValue(raw) then Some(raw) else None
  }

  function Encode(f: Field, value: int): Byte
    requires IsMentalityValue(value)
  {
    if f.Determination? then 5 * value else value
  }

  /** A raw byte reads as `value` exactly when it is within two of its encoding. */
  lemma DecodesNearest(raw: Byte, value: int)
    requires IsMentalityValue(value)
    ensures TryDecodeScaledStrict(raw) == Some(value) <==> 5 * value - 2 <= raw <= 5 * value + 2
  {
    var x := raw as real / 5.0 + 0.5;
    assert x * 5.0 == raw as real + 2.5;
    assert x.Floor as real <= x < x.Floor as real + 1.0;
  }

  /** What is written is read back; what is read and written back may differ, unless the byte was exact. */
  lemma EncodingRoundTrips(f: Field, value: int, raw: Byte)
    requires IsMentalityValue(value)
    ensures Decode(f, Encode(f, value)) == Some(value)
    ensures Decode(f, raw).Some? ==>
              IsMentalityValue(Decode(f, raw).value)
              && (Encode(f, Decode(f, raw).value) == raw <==> (f.Determination? ==> raw % 5 == 0))
  {
    DecodesNearest(5 * value, value);
    if f.Determination? && Decode(f, raw).Some? {
      var v := Decode(f, raw).value;
      DecodesNearest(raw, v);
      assert raw == 5 * v + (raw - 5 * v);
    }
  }

  // ---------------------------------------------------------------- footprints

  predicate Apart(a: Option<Word64>, aLength: nat, b: Option<Word64>, bLength: nat) {
    a.None? || b.None? || a.value + aLength <= b.value || b.value + bLength <= a.value
  }

  /** One person's own values do not overlap. */
  ghost predicate SpreadOut(layout: MutationLayout, c: PersonCandidate) {
    var ca, pa := CaAddress(layout, c), PaAddress(layout, c);
    && Apart(ca, 2, pa, 2)
    && (forall f :: Apart(FieldAddress(layout, c, f), 1, ca, 2) && Apart(FieldAddress(layout, c, f), 1, pa, 2))
    && (forall f, g :: f != g ==> Apart(FieldAddress(layout, c, f), 1, FieldAddress(layout, c, g), 1))
  }

  /** Nothing that a boost may write into a record overlaps the uid by which the record is recognized. */
  ghost predicate KeepsIdentity(layout: MutationLayout, c: PersonCandidate) {
    && Apart(UidAddress(layout, c), 4, CaAddress(layout, c), 2)
    && (c.facet.Player? ==> forall f :: Apart(FieldAddress(layout, c, f), 1, UidAddress(layout, c), 4))
  }

  /** All checked and written values of one record by itself lie apart. */
  ghost predicate KeepsOwnApart(layout: MutationLayout, c: PersonCandidate) {
    && (if c.facet.Player? then SpreadOut(layout, c) else Apart(CaAddress(layout, c), 2, PaAddress(layout, c), 2))
    && KeepsIdentity(layout, c)
  }

  /** Nothing that a boost of `b` may write overlaps the abilities of `a`. */
  ghost predicate Undisturbed(layout: MutationLayout, a: PersonCandidate, b: PersonCandidate) {
    && Apart(CaAddress(layout, a), 2, CaAddress(layout, b), 2)
    && Apart(PaAddress(layout, a), 2, CaAddress(layout, b), 2)
    && (b.facet.Player? ==> forall f :: Apart(FieldAddress(layout, b, f), 1, CaAddress(layout, a), 2)
                                        && Apart(FieldAddress(layout, b, f), 1, PaAddress(layout, a), 2))
  }

  /** The FM 26.3 pins. Only the entries that mutations look up are listed. */
  const FM_26_3: MutationLayout := MutationLayout(
    0x0C, 0x264, 0x266, 0xDA, 0xDC, 0x15F,
    [Entry("Ambition", 0x71), Entry("Professionalism", 0x74)],
    [Entry("Determination", 0x33)])

  const FM_26_3_PLAYER_CLASS_OFFSETS: set<int> := {0x288, 0x380}
  const FM_26_3_STAFF_CLASS_OFFSETS: set<int> := {0x100}
  const FM_26_3_MANAGER_CLASS_OFFSETS: set<int> := {0x450}

  /** In the pinned layout every record keeps its values apart, whichever class of person it belongs to. */
  lemma PinnedLayoutKeepsRecordsApart(c: PersonCandidate)
    requires c.classOffset in
               if c.facet.Player? then FM_26_3_PLAYER_CLASS_OFFSETS
               else FM_26_3_STAFF_CLASS_OFFSETS + FM_26_3_MANAGER_CLASS_OFFSETS
    requires TrySubtract(c.objectAddress, c.classOffset) == Some(c.blockAddress)
    ensures KeepsOwnApart(FM_26_3, c)
  {
    assert FirstOffset(FM_26_3.personalityEntries, "Ambition") == Some(0x71);
    assert FM_26_3.personalityEntries[1..][0] == Entry("Professionalism", 0x74);
    assert FirstOffset(FM_26_3.personalityEntries, "Professionalism") == Some(0x74);
    assert FirstOffset(FM_26_3.attributeEntries, "Determination") == Some(0x33);
  }
}
