/** The text budget of an embedded ICC profile (ICC.1, section 7.3 for the tag table). */
module IccProfile {
  import opened Prelude

  datatype Limits = Limits(maxTags: nat, maxTextBytes: nat, maxTextRecords: nat)

  datatype Error = Malformed | WrongExtent | TooManyTags | TextRecords | TextSize

  const HEADER_BYTES: nat := 128
  const TAG_ENTRY_BYTES: nat := 12

  const MLUC: nat := 0x6D6C_7563
  const DESC: nat := 0x6465_7363
  const TEXT: nat := 0x7465_7874

  // ------------------------------------------------------------------ demand

  /** What reading a tag makes the parser hold: decoded text bytes, and localization records. */
  datatype Demand = Demand(text: nat, records: nat)

  ghost function Plus(a: Demand, b: Demand): Demand { Demand(a.text + b.text, a.records + b.records) }

  /** Three bytes for each two-byte code unit. */
  function Utf16TextBound(bytes: nat): nat { bytes * 3 / 2 }

  /** Three bytes for each byte that has to be replaced. */
  function LossyTextBound(bytes: nat): nat { bytes * 3 }

  /** Record `r` of a localized tag: present, and its range inside the tag. */
  ghost predicate RecordFits(tag: seq<byte>, r: nat) {
    28 + 12 * r <= |tag| && Field(tag, 24 + 12 * r, 4) + Field(tag, 20 + 12 * r, 4) <= |tag|
  }

  /** The records from `r` on, up to the first that does not fit. The first is read even when none is declared. */
  ghost function Localized(tag: seq<byte>, r: nat, count: nat): (d: Demand)
    decreases |tag| - 12 * r
  {
    if (r > 0 && r >= count) || !RecordFits(tag, r) then Demand(0, 0)
    else Plus(Demand(Utf16TextBound(Field(tag, 20 + 12 * r, 4)), 1), Localized(tag, r + 1, count))
  }

  /** However many records a tag declares, no more are charged than have room in it. */
  lemma {:induction false} RecordsHaveRoom(tag: seq<byte>, r: nat, count: nat)
    ensures 12 * (r + Localized(tag, r, count).records) <= Max(|tag| - 16, 12 * r)
    decreases |tag| - 12 * r
  {
    if (r == 0 || r < count) && RecordFits(tag, r) { RecordsHaveRoom(tag, r + 1, count); }
  }

  /** An ASCII section, then a counted Unicode section when both it and its header fit. */
  ghost function Described(tag: seq<byte>): Demand {
    if |tag| < 12 || 12 + Field(tag, 8, 4) > |tag| then Demand(0, 0)
    else
      var ascii := Field(tag, 8, 4);
      var end := 12 + ascii;
      if end + 8 > |tag| then Demand(LossyTextBound(ascii), 0)
      else
        var units := Field(tag, end + 4, 4);
        var unicode := if end + 8 + units * 2 > |tag| then 0 else Utf16TextBound(units * 2);
        Demand(LossyTextBound(ascii) + unicode, 1)
  }

  ghost function DemandOf(tag: seq<byte>): Demand {
    if |tag| < 4 then Demand(0, 0)
    else
      var kind := Field(tag, 0, 4);
      if kind == MLUC then Localized(tag, 0, Field(tag, 8, 4))
      else if kind == DESC then Described(tag)
      else if kind == TEXT then Demand(LossyTextBound(if |tag| >= 8 then |tag| - 8 else 0), 0)
      else Demand(0, 0)
  }

  // ----------------------------------------------------------------- profile

  ghost function EntryAt(index: nat): nat { HEADER_BYTES + 4 + index * TAG_ENTRY_BYTES }

  /** The range of a tag; a zero size runs to the end of the profile. */
  ghost function TagRange(bytes: seq<byte>, index: nat): (nat, nat) {
    var offset, size := Field(bytes, EntryAt(index) + 4, 4), Field(bytes, EntryAt(index) + 8, 4);
    (offset, if size == 0 then |bytes| else offset + size)
  }

  ghost predicate TagInside(bytes: seq<byte>, index: nat) {
    var (start, end) := TagRange(bytes, index); start <= end <= |bytes|
  }

  ghost predicate AllInside(bytes: seq<byte>, count: nat) {
    forall i :: 0 <= i < count ==> TagInside(bytes, i)
  }

  ghost function TagBytes(bytes: seq<byte>, index: nat): seq<byte> {
    var (start, end) := TagRange(bytes, index);
    if start <= end <= |bytes| then bytes[start..end] else []
  }

  /** What the first `count` tags demand together, overlapping tags each in full. */
  ghost function Total(bytes: seq<byte>, count: nat): Demand {
    if count == 0 then Demand(0, 0) else Plus(Total(bytes, count - 1), DemandOf(TagBytes(bytes, count - 1)))
  }

  ghost predicate Within(d: Demand, limits: Limits) {
    d.text <= limits.maxTextBytes && d.records <= limits.maxTextRecords
  }

  ghost function TagCount(bytes: seq<byte>): nat { Field(bytes, HEADER_BYTES, 4) }

  ghost predicate WellFormed(bytes: seq<byte>, limits: Limits) {
    |bytes| >= HEADER_BYTES + 4 && Field(bytes, 0, 4) == |bytes| && TagCount(bytes) <= limits.maxTags &&
    EntryAt(TagCount(bytes)) <= |bytes| && AllInside(bytes, TagCount(bytes))
  }

  /** The profile describes itself consistently and its text stays within both ceilings. */
  ghost predicate Acceptable(bytes: seq<byte>, limits: Limits) {
    WellFormed(bytes, limits) && Within(Total(bytes, TagCount(bytes)), limits)
  }

  // ------------------------------------------------------------------- meter

  /** The running totals over the tags of one profile. */
  class Meter {
    const limits: Limits
    var text: nat
    var records: nat

    /** How many record headers were looked at. */
    ghost var looks: nat

    ghost function Used(): Demand
      reads this
    {
      Demand(text, records)
    }

    ghost predicate Valid()
      reads this
    {
      Within(Used(), limits) && limits.maxTextBytes <= USIZE_MAX && limits.maxTextRecords < USIZE_MAX
    }

    constructor (limits: Limits)
      requires limits.maxTextBytes <= USIZE_MAX && limits.maxTextRecords < USIZE_MAX
      ensures this.limits == limits && Valid() && Used() == Demand(0, 0) && looks == 0
    {
      this.limits := limits;
      text, records, looks := 0, 0, 0;
    }

    method ChargeTextBytes(decoded: nat) returns (r: Result<(), Error>)
      requires limits.maxTextBytes <= USIZE_MAX
      modifies this`text
      ensures r.Ok? <==> old(text) + decoded <= limits.maxTextBytes
      ensures r.Ok? ==> text == old(text) + decoded
    {
      var sum := CheckedAdd(text, decoded, USIZE_MAX);
      if sum.None? { return Err(TextSize); }
      text := sum.value;
      if text > limits.maxTextBytes { return Err(TextSize); }
      return Ok(());
    }

    method CountRecord() returns (r: Result<(), Error>)
      requires records <= limits.maxTextRecords < USIZE_MAX
      modifies this`records
      ensures r.Ok? <==> old(records) + 1 <= limits.maxTextRecords
      ensures records == old(records) + 1
    {
      records := records + 1;
      if records > limits.maxTextRecords { return Err(TextRecords); }
      return Ok(());
    }

    /** Adds the demand of a record that fits its tag; a misfit adds nothing and yields false. */
    method ChargeRecord(tag: seq<byte>, offset: nat, length: nat) returns (r: Result<bool, Error>)
      requires Valid() && |tag| <= U32_MAX && offset <= U32_MAX && length <= U32_MAX
      modifies this
      ensures looks == old(looks) + 1
      ensures r.Ok? <==>
        offset + length <= |tag| ==> Within(Plus(old(Used()), Demand(Utf16TextBound(length), 1)), limits)
      ensures r.Ok? ==> Valid() && r.value == (offset + length <= |tag|)
      ensures r.Ok? ==> Used() == if r.value then Plus(old(Used()), Demand(Utf16TextBound(length), 1)) else old(Used())
    {
      looks := looks + 1;
      var end := CheckedAdd(offset, length, USIZE_MAX);
      if end.None? || end.value > |tag| { return Ok(false); }
      var counted := CountRecord();
      if counted.Err? { return Err(counted.error); }
      var charged := ChargeTextBytes(Utf16TextBound(length));
      if charged.Err? { return Err(charged.error); }
      return Ok(true);
    }

    /** Charges the records of a localized tag, however many it declares. */
    method ChargeLocalized(tag: seq<byte>) returns (r: Result<(), Error>)
      requires Valid() && 28 <= |tag| <= U32_MAX
      modifies this
      ensures r.Ok? <==> Within(Plus(old(Used()), Localized(tag, 0, Field(tag, 8, 4))), limits)
      ensures r.Ok? ==> Valid() && Used() == Plus(old(Used()), Localized(tag, 0, Field(tag, 8, 4)))
      ensures looks - old(looks) <= limits.maxTextRecords - old(records) + 1
      ensures r.Ok? ==> looks - old(looks) <= records - old(records) + 1
    {
      hide Field, Utf16TextBound;
      var count := ReadU32(tag, 8);
      ghost var before, all, seen := Used(), Localized(tag, 0, count), looks;
      var record := 0;
      while record == 0 || record < count
        invariant Valid() && records == before.records + record && looks == seen + record
        invariant Plus(Used(), Localized(tag, record, count)) == Plus(before, all)
        invariant 28 + 12 * record <= |tag| + 12
        decreases |tag| + 12 - 12 * record
      {
        if 28 + 12 * record > |tag| { return Ok(()); }
        var length, offset := ReadU32(tag, 20 + 12 * record), ReadU32(tag, 24 + 12 * record);
        var charged := ChargeRecord(tag, offset, length);
        if charged.Err? { return Err(charged.error); }
        if !charged.value { return Ok(()); }
        record := record + 1;
      }
      return Ok(());
    }

    /** Charges both sections of a text description. */
    method ChargeDescribed(tag: seq<byte>) returns (r: Result<(), Error>)
      requires Valid() && |tag| <= U32_MAX
      modifies this
      ensures r.Ok? <==> Within(Plus(old(Used()), Described(tag)), limits)
      ensures r.Ok? ==> Valid() && Used() == Plus(old(Used()), Described(tag))
      ensures looks == old(looks)
    {
      if |tag| < 12 { return Ok(()); }
      var ascii := ReadU32(tag, 8);
      var asciiEnd := CheckedAdd(12, ascii, USIZE_MAX);
      if asciiEnd.None? { return Ok(()); }
      var end := asciiEnd.value;
      if end > |tag| { return Ok(()); }
      var charged := ChargeTextBytes(LossyTextBound(ascii));
      if charged.Err? { return Err(charged.error); }
      if end + 8 > |tag| { return Ok(()); }
      charged := CountRecord();
      if charged.Err? { return Err(charged.error); }
      var units := ReadU32(tag, end + 4);
      var encoded := CheckedMul(units, 2, USIZE_MAX);
      if encoded.None? { return Ok(()); }
      if end + 8 + encoded.value > |tag| { return Ok(()); }
      charged := ChargeTextBytes(Utf16TextBound(encoded.value));
      if charged.Err? { return Err(charged.error); }
      return Ok(());
    }

    /** Adds exactly `DemandOf(tag)` to the totals, or fails because they would pass a ceiling. */
    method ChargeText(tag: seq<byte>) returns (r: Result<(), Error>)
      requires Valid() && |tag| <= U32_MAX
      modifies this
      ensures r.Ok? <==> Within(Plus(old(Used()), DemandOf(tag)), limits)
      ensures r.Ok? ==> Valid() && Used() == Plus(old(Used()), DemandOf(tag))
      ensures looks - old(looks) <= limits.maxTextRecords - old(records) + 1
      ensures r.Ok? ==> looks - old(looks) <= records - old(records) + 1
    {
      if |tag| < 4 { return Ok(()); }
      var kind := ReadU32(tag, 0);
      if kind == MLUC {
        if |tag| < 28 { return Ok(()); }
        r := ChargeLocalized(tag);
      } else if kind == DESC {
        r := ChargeDescribed(tag);
      } else if kind == TEXT {
        r := ChargeTextBytes(LossyTextBound(if |tag| >= 8 then |tag| - 8 else 0));
      } else {
        return Ok(());
      }
    }

    /** Checks the range of a tag, then charges what it holds. */
    method ChargeTag(bytes: seq<byte>, index: nat) returns (r: Result<(), Error>)
      requires Valid() && |bytes| <= U32_MAX && EntryAt(index) + TAG_ENTRY_BYTES <= |bytes|
      modifies this
      ensures r.Ok? <==> TagInside(bytes, index) && Within(Plus(old(Used()), DemandOf(TagBytes(bytes, index))), limits)
      ensures r.Ok? ==> Valid() && Used() == Plus(old(Used()), DemandOf(TagBytes(bytes, index)))
      ensures looks - old(looks) <= limits.maxTextRecords - old(records) + 1
      ensures r.Ok? ==> looks - old(looks) <= records - old(records) + 1
    {
      hide Field, DemandOf;
      var entry := HEADER_BYTES + 4 + index * TAG_ENTRY_BYTES;
      var offset, size := ReadU32(bytes, entry + 4), ReadU32(bytes, entry + 8);
      var end := if size == 0 then |bytes| else offset + size;
      assert TagRange(bytes, index) == (offset, end);
      if offset > |bytes| || end > |bytes| { return Err(Malformed); }
      r := ChargeText(bytes[offset..end]);
    }

    /** Charges every tag of the table in turn. */
    method ChargeTags(bytes: seq<byte>, tagCount: nat) returns (r: Result<(), Error>)
      requires Valid() && Used() == Demand(0, 0) && looks == 0
      requires |bytes| <= U32_MAX && EntryAt(tagCount) <= |bytes|
      modifies this
      ensures r.Ok? <==> AllInside(bytes, tagCount) && Within(Total(bytes, tagCount), limits)
      ensures looks <= limits.maxTextRecords + tagCount
    {
      hide DemandOf, TagBytes, TagInside;
      for index := 0 to tagCount
        invariant Valid() && AllInside(bytes, index) && Used() == Total(bytes, index)
        invariant looks <= records + index
      {
        var charged := ChargeTag(bytes, index);
        if charged.Err? {
          if TagInside(bytes, index) { TotalGrows(bytes, index + 1, tagCount); }
          return Err(charged.error);
        }
      }
      return Ok(());
    }
  }

  function ReadU32(bytes: seq<byte>, at: nat): (n: nat)
    requires at + 4 <= |bytes|
    ensures n == Field(bytes, at, 4) <= U32_MAX
  {
    0x100_0000 * (bytes[at] as int) + 0x1_0000 * (bytes[at + 1] as int) + 0x100 * (bytes[at + 2] as int) + bytes[at + 3]
  }

  /**
   * Checks the extent, the tag table and the text budget of a profile. `looks` counts the record headers
   * it looks at: the ceilings bound them whatever record counts the tags declare.
   */
  method Preflight(bytes: seq<byte>, limits: Limits) returns (r: Result<(), Error>, ghost looks: nat)
    requires |bytes| <= MAX_SLICE
    requires limits.maxTextBytes <= USIZE_MAX && limits.maxTextRecords < USIZE_MAX
    ensures r.Ok? <==> Acceptable(bytes, limits)
    ensures looks <= limits.maxTextRecords + limits.maxTags
  {
    hide Field, Total, AllInside;
    looks := 0;
    if |bytes| < HEADER_BYTES + 4 { return Err(Malformed), 0; }
    if ReadU32(bytes, 0) != |bytes| { return Err(WrongExtent), 0; }
    var tagCount := ReadU32(bytes, HEADER_BYTES);
    if tagCount > limits.maxTags { return Err(TooManyTags), 0; }
    if HEADER_BYTES + 4 + tagCount * TAG_ENTRY_BYTES > |bytes| { return Err(Malformed), 0; }
    var meter := new Meter(limits);
    r := meter.ChargeTags(bytes, tagCount);
    looks := meter.looks;
  }

  lemma {:induction false} TotalGrows(bytes: seq<byte>, i: nat, count: nat)
    requires i <= count
    ensures Total(bytes, i).text <= Total(bytes, count).text
    ensures Total(bytes, i).records <= Total(bytes, count).records
  {
    hide DemandOf, TagBytes;
    if i < count { TotalGrows(bytes, i, count - 1); }
  }
}
