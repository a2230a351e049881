/**
 * How an ICC profile and its text tags are written (ICC.1, sections 7.3, 10.15, 10.24 and the version 2
 * description type), and what their texts become once decoded.
 */
module IccWriting {
  import opened Prelude
  import opened ByteWriting
  import I = IccProfile

  // --------------------------------------------------------------- decoded sizes

  /** Bytes in UTF-8 of the text that UTF-16 units spell; an unpaired surrogate becomes a replacement. */
  ghost function Utf16Decoded(units: seq<nat>): nat {
    if units == [] then 0
    else if |units| > 1 && 0xD800 <= units[0] < 0xDC00 && 0xDC00 <= units[1] < 0xE000
    then 4 + Utf16Decoded(units[2..])
    else (if units[0] < 0x80 then 1 else if units[0] < 0x800 then 2 else 3) + Utf16Decoded(units[1..])
  }

  /** The bound charged for a UTF-16 payload is never too small, even with a stray last byte. */
  lemma {:induction false} Utf16BoundHolds(units: seq<nat>, bytes: nat)
    requires bytes == 2 * |units| || bytes == 2 * |units| + 1
    ensures Utf16Decoded(units) <= I.Utf16TextBound(bytes)
    decreases |units|
  {
    if units != [] {
      if |units| > 1 && 0xD800 <= units[0] < 0xDC00 && 0xDC00 <= units[1] < 0xE000 {
        Utf16BoundHolds(units[2..], bytes - 4);
      } else {
        Utf16BoundHolds(units[1..], bytes - 2);
      }
    }
  }

  /** Some text of every length needs it all. */
  lemma {:induction false} Utf16BoundIsTight(count: nat) returns (units: seq<nat>)
    ensures |units| == count && Utf16Decoded(units) == I.Utf16TextBound(2 * count)
    ensures forall i :: 0 <= i < count ==> units[i] == 0x20AC
  {
    if count == 0 {
      units := [];
    } else {
      var rest := Utf16BoundIsTight(count - 1);
      units := [0x20AC] + rest;
      assert units[1..] == rest;
    }
  }

  /** Lossy decoding keeps what is well formed and replaces each ill-formed stretch by three bytes. */
  datatype Stretch = WellFormed(bytes: nat) | IllFormed(bytes: nat)

  ghost function LossyDecoded(text: seq<Stretch>): nat {
    if text == [] then 0 else (if text[0].WellFormed? then text[0].bytes else 3) + LossyDecoded(text[1..])
  }

  ghost function Encoded(text: seq<Stretch>): nat {
    if text == [] then 0 else text[0].bytes + Encoded(text[1..])
  }

  lemma {:induction false} LossyBoundHolds(text: seq<Stretch>)
    requires forall i :: 0 <= i < |text| ==> text[i].bytes >= 1
    ensures LossyDecoded(text) <= I.LossyTextBound(Encoded(text))
  {
    if text != [] { LossyBoundHolds(text[1..]); }
  }

  lemma {:induction false} LossyBoundIsTight(count: nat) returns (text: seq<Stretch>)
    ensures (forall i :: 0 <= i < |text| ==> text[i].bytes >= 1) && Encoded(text) == count
    ensures LossyDecoded(text) == I.LossyTextBound(count)
  {
    if count == 0 {
      text := [];
    } else {
      var rest := LossyBoundIsTight(count - 1);
      text := [IllFormed(1)] + rest;
      assert text[1..] == rest;
    }
  }

  // ----------------------------------------------------------------------- tags

  datatype Record = Record(language: seq<byte>, length: nat, offset: nat)

  ghost predicate LegalRecord(r: Record) { |r.language| == 4 && r.length <= U32_MAX && r.offset <= U32_MAX }

  ghost function WriteRecord(r: Record): seq<byte> { r.language + Big(r.length, 4) + Big(r.offset, 4) }

  ghost function WriteRecords(records: seq<Record>): seq<byte> {
    if records == [] then [] else WriteRecord(records[0]) + WriteRecords(records[1..])
  }

  /** Type, reserved bytes, record count and size, the records, then whatever they point into. */
  ghost function WriteLocalized(reserved: seq<byte>, count: nat, size: seq<byte>, records: seq<Record>, rest: seq<byte>)
    : seq<byte>
  {
    Ascii("mluc") + reserved + Big(count, 4) + size + WriteRecords(records) + rest
  }

  ghost function WriteDescription(reserved: seq<byte>, ascii: seq<byte>, rest: seq<byte>): seq<byte> {
    Ascii("desc") + reserved + Big(|ascii|, 4) + ascii + rest
  }

  ghost function WriteText(reserved: seq<byte>, text: seq<byte>): seq<byte> { Ascii("text") + reserved + text }

  // --------------------------------------------------------------------- demands

  lemma Signatures()
    ensures Ascii("mluc") == Big(I.MLUC, 4) && Ascii("desc") == Big(I.DESC, 4) && Ascii("text") == Big(I.TEXT, 4)
  {
    hide Big;
    FourBytes(I.MLUC);
    FourBytes(I.DESC);
    FourBytes(I.TEXT);
  }

  lemma FourBytes(n: nat)
    ensures Big(n, 4) ==
      [n / 256 / 256 / 256 % 256, n / 256 / 256 % 256, n / 256 % 256, n % 256]
  {
    assert Big(n, 4) == Big(n / 256, 3) + [n % 256];
    assert Big(n / 256, 3) == Big(n / 256 / 256, 2) + [n / 256 % 256];
    assert Big(n / 256 / 256, 2) == Big(n / 256 / 256 / 256, 1) + [n / 256 / 256 % 256];
    assert Big(n / 256 / 256 / 256, 1) == [] + [n / 256 / 256 / 256 % 256];
  }

  /** Which text a tag holds is told by its first four bytes; any other type holds none. */
  lemma KindOf(tag: seq<byte>, n: nat)
    requires |tag| >= 4 && tag[..4] == Big(n, 4) && n <= U32_MAX
    ensures Field(tag, 0, 4) == n
  {
    Pow256Small();
    assert tag[0..4] == tag[..4];
    FieldIff(tag, 0, n, 4);
  }

  lemma OtherTagsHoldNoText(tag: seq<byte>)
    requires |tag| < 4 || (tag[..4] != Ascii("mluc") && tag[..4] != Ascii("desc") && tag[..4] != Ascii("text"))
    ensures I.DemandOf(tag) == I.Demand(0, 0)
  {
    hide Field, Big, Ascii;
    Signatures();
    if |tag| >= 4 {
      FieldWritten(tag, 0, 4);
      assert tag[0..4] == tag[..4];
    }
  }

  lemma TextDemand(reserved: seq<byte>, text: seq<byte>)
    requires |reserved| == 4
    ensures I.DemandOf(WriteText(reserved, text)) == I.Demand(3 * |text|, 0)
  {
    hide Field, Big, Ascii;
    var tag := WriteText(reserved, text);
    Signatures();
    assert tag[..4] == Ascii("text");
    KindOf(tag, I.TEXT);
  }

  /** What can follow the ASCII section of a description. */
  datatype Tail = Ends(bytes: seq<byte>) | Cut(language: seq<byte>, units: nat, bytes: seq<byte>)
                | Whole(language: seq<byte>, units: nat, text: seq<byte>, rest: seq<byte>)

  ghost function WriteTail(t: Tail): seq<byte> {
    match t
    case Ends(bytes) => bytes
    case Cut(language, units, bytes) => language + Big(units, 4) + bytes
    case Whole(language, units, text, rest) => language + Big(units, 4) + text + rest
  }

  ghost predicate LegalTail(t: Tail) {
    match t
    case Ends(bytes) => |bytes| < 8
    case Cut(language, units, bytes) => |language| == 4 && units <= U32_MAX && |bytes| < 2 * units
    case Whole(language, units, text, _) => |language| == 4 && units <= U32_MAX && |text| == 2 * units
  }

  lemma DescriptionParts(reserved: seq<byte>, ascii: seq<byte>, rest: seq<byte>)
    requires |reserved| == 4
    ensures var tag := WriteDescription(reserved, ascii, rest);
      && |tag| == 12 + |ascii| + |rest| && tag[..4] == Ascii("desc")
      && Holds(tag, 8, Big(|ascii|, 4)) && Holds(tag, 12 + |ascii|, rest)
  {
    hide Holds, Big, Ascii;
    var tag := WriteDescription(reserved, ascii, rest);
    HoldsWhole(tag);
    HoldsSplit(tag, 0, Ascii("desc") + reserved + Big(|ascii|, 4) + ascii, rest);
    HoldsFour(tag, 0, Ascii("desc"), reserved, Big(|ascii|, 4), ascii);
    HoldsAll(tag, 0, 4, Ascii("desc"));
  }

  /**
   * A description is charged its ASCII section at three bytes a byte, and, when the whole of it is there,
   * its Unicode section at three bytes a unit; reading the Unicode header counts as one record.
   */
  lemma DescriptionDemand(reserved: seq<byte>, ascii: seq<byte>, t: Tail)
    requires |reserved| == 4 && |ascii| <= U32_MAX && LegalTail(t)
    ensures I.DemandOf(WriteDescription(reserved, ascii, WriteTail(t))) ==
      match t
      case Ends(_) => I.Demand(3 * |ascii|, 0)
      case Cut(_, _, _) => I.Demand(3 * |ascii|, 1)
      case Whole(_, units, _, _) => I.Demand(3 * |ascii| + 3 * units, 1)
  {
    hide Field, Big, Ascii, Holds, WriteDescription;
    Pow256Small();
    Signatures();
    var rest := WriteTail(t);
    var tag := WriteDescription(reserved, ascii, rest);
    DescriptionParts(reserved, ascii, rest);
    KindOf(tag, I.DESC);
    ReadsAt(tag, 8, |ascii|);
    match t {
      case Ends(_) =>
      case Cut(language, units, bytes) =>
        HoldsThree(tag, 12 + |ascii|, language, Big(units, 4), bytes);
        ReadsAt(tag, 12 + |ascii| + 4, units);
      case Whole(language, units, text, after) =>
        HoldsFour(tag, 12 + |ascii|, language, Big(units, 4), text, after);
        ReadsAt(tag, 12 + |ascii| + 4, units);
    }
  }

  lemma ReadsAt(tag: seq<byte>, at: nat, n: nat)
    requires Holds(tag, at, Big(n, 4)) && n <= U32_MAX
    ensures Field(tag, at, 4) == n
  {
    Pow256Small();
    FieldIff(tag, at, n, 4);
  }

  ghost function Charged(records: seq<Record>): nat {
    if records == [] then 0 else 3 * records[0].length / 2 + Charged(records[1..])
  }

  ghost predicate AllLegal(records: seq<Record>) { forall i :: 0 <= i < |records| ==> LegalRecord(records[i]) }

  lemma RecordParts(tag: seq<byte>, at: nat, records: seq<Record>)
    requires records != [] && AllLegal(records)
    ensures Holds(tag, at, WriteRecords(records)) ==>
      Field(tag, at + 4, 4) == records[0].length && Field(tag, at + 8, 4) == records[0].offset &&
      at + 12 <= |tag| && Holds(tag, at + 12, WriteRecords(records[1..]))
    ensures |WriteRecords(records)| == 12 + |WriteRecords(records[1..])|
  {
    hide Holds, Big, Field;
    var r := records[0];
    assert LegalRecord(r);
    HoldsSplit(tag, at, WriteRecord(r), WriteRecords(records[1..]));
    HoldsThree(tag, at, r.language, Big(r.length, 4), Big(r.offset, 4));
    HoldsFits(tag, at, WriteRecord(r));
    if Holds(tag, at, WriteRecords(records)) {
      ReadsAt(tag, at + 4, r.length);
      ReadsAt(tag, at + 8, r.offset);
    }
  }

  /** The parser stops after `done` records: no more are declared, no more are there, or the next one misfits. */
  ghost predicate StopsAfter(tag: seq<byte>, count: nat, done: nat) {
    (done > 0 && done >= count) || !I.RecordFits(tag, done)
  }

  lemma {:induction false} RecordsDemand(tag: seq<byte>, done: nat, count: nat, records: seq<Record>)
    requires AllLegal(records) && Holds(tag, 16 + 12 * done, WriteRecords(records))
    requires forall i :: 0 <= i < |records| ==> records[i].offset + records[i].length <= |tag|
    requires records != [] ==> done + |records| <= Max(count, 1)
    requires StopsAfter(tag, count, done + |records|)
    ensures I.Localized(tag, done, count) == I.Demand(Charged(records), |records|)
    decreases |records|
  {
    hide Holds, Field, WriteRecords;
    if records != [] {
      RecordParts(tag, 16 + 12 * done, records);
      assert LegalRecord(records[0]) && 16 + 12 * (done + 1) == 16 + 12 * done + 12;
      RecordsDemand(tag, done + 1, count, records[1..]);
    }
  }

  /**
   * A localized tag is charged the records up to the first that does not fit, at three bytes for each two
   * of their text, whatever number it declares; the first record is read even when none is declared.
   */
  lemma LocalizedDemand(reserved: seq<byte>, count: nat, size: seq<byte>, records: seq<Record>, rest: seq<byte>)
    requires |reserved| == 4 && |size| == 4 && count <= U32_MAX && AllLegal(records)
    requires var tag := WriteLocalized(reserved, count, size, records, rest);
      && (forall i :: 0 <= i < |records| ==> records[i].offset + records[i].length <= |tag|)
      && (records != [] ==> |records| <= Max(count, 1)) && StopsAfter(tag, count, |records|)
    ensures I.DemandOf(WriteLocalized(reserved, count, size, records, rest)) ==
      I.Demand(Charged(records), |records|)
  {
    hide Holds, Field, Big, Ascii, WriteRecords;
    var tag := WriteLocalized(reserved, count, size, records, rest);
    Signatures();
    HoldsWhole(tag);
    HoldsSix(tag, 0, Ascii("mluc"), reserved, Big(count, 4), size, WriteRecords(records), rest);
    HoldsAll(tag, 0, 4, Ascii("mluc"));
    assert tag[0..4] == tag[..4];
    KindOf(tag, I.MLUC);
    ReadsAt(tag, 8, count);
    RecordsDemand(tag, 0, count, records);
  }

  // -------------------------------------------------------------------- profile

  datatype Tag = Tag(signature: seq<byte>, offset: nat, size: nat)

  ghost predicate LegalTag(t: Tag) { |t.signature| == 4 && t.offset <= U32_MAX && t.size <= U32_MAX }

  ghost function WriteTable(tags: seq<Tag>): seq<byte> {
    if tags == [] then []
    else tags[0].signature + Big(tags[0].offset, 4) + Big(tags[0].size, 4) + WriteTable(tags[1..])
  }

  /** The profile size opens a header of 128 bytes; then the tag count, the table, and the tags. */
  ghost function WriteProfile(size: nat, header: seq<byte>, tags: seq<Tag>, data: seq<byte>): seq<byte> {
    Big(size, 4) + header + Big(|tags|, 4) + WriteTable(tags) + data
  }

  lemma {:induction false} TableRead(bytes: seq<byte>, at: nat, tags: seq<Tag>, i: nat)
    requires (forall k :: 0 <= k < |tags| ==> LegalTag(tags[k])) && Holds(bytes, at, WriteTable(tags)) && i < |tags|
    ensures at + 12 * i + 12 <= |bytes|
    ensures Field(bytes, at + 12 * i + 4, 4) == tags[i].offset && Field(bytes, at + 12 * i + 8, 4) == tags[i].size
    decreases |tags|
  {
    hide Holds, Field, Big;
    var t := tags[0];
    assert LegalTag(t);
    HoldsFour(bytes, at, t.signature, Big(t.offset, 4), Big(t.size, 4), WriteTable(tags[1..]));
    HoldsFits(bytes, at + 12, WriteTable(tags[1..]));
    if i == 0 {
      ReadsAt(bytes, at + 4, t.offset);
      ReadsAt(bytes, at + 8, t.size);
    } else {
      TableRead(bytes, at + 12, tags[1..], i - 1);
    }
  }

  lemma {:induction false} TableSize(tags: seq<Tag>)
    requires forall k :: 0 <= k < |tags| ==> LegalTag(tags[k])
    ensures |WriteTable(tags)| == 12 * |tags|
  {
    if tags != [] { TableSize(tags[1..]); }
  }

  /** The bytes a tag of the table names; a zero size runs to the end. */
  ghost predicate TagReaches(total: nat, t: Tag) {
    t.offset <= total && t.offset + t.size <= total
  }

  ghost function TagBytes(bytes: seq<byte>, t: Tag): seq<byte>
    requires TagReaches(|bytes|, t)
  {
    if t.size == 0 then bytes[t.offset..] else bytes[t.offset..t.offset + t.size]
  }

  /** A written profile is well formed exactly when its size is right, its tags few enough, and each inside it. */
  lemma ProfileIsRead(size: nat, header: seq<byte>, tags: seq<Tag>, data: seq<byte>, limits: I.Limits)
    requires |header| == 124 && size <= U32_MAX && |tags| <= U32_MAX
    requires forall k :: 0 <= k < |tags| ==> LegalTag(tags[k])
    ensures var bytes := WriteProfile(size, header, tags, data);
      && I.TagCount(bytes) == |tags|
      && (I.WellFormed(bytes, limits) <==>
          size == |bytes| && |tags| <= limits.maxTags && forall k :: 0 <= k < |tags| ==> TagReaches(|bytes|, tags[k]))
      && (forall k :: 0 <= k < |tags| && TagReaches(|bytes|, tags[k]) ==>
          I.TagBytes(bytes, k) == TagBytes(bytes, tags[k]))
  {
    hide Holds, Field, Big, WriteTable;
    var bytes := WriteProfile(size, header, tags, data);
    HoldsWhole(bytes);
    HoldsSplit(bytes, 0, Big(size, 4) + header + Big(|tags|, 4) + WriteTable(tags), data);
    HoldsFour(bytes, 0, Big(size, 4), header, Big(|tags|, 4), WriteTable(tags));
    ReadsAt(bytes, 0, size);
    ReadsAt(bytes, 128, |tags|);
    TableSize(tags);
    forall k | 0 <= k < |tags|
      ensures I.TagRange(bytes, k) ==
        (tags[k].offset, if tags[k].size == 0 then |bytes| else tags[k].offset + tags[k].size)
      ensures I.TagInside(bytes, k) <==> TagReaches(|bytes|, tags[k])
    {
      TableRead(bytes, 132, tags, k);
    }
    HoldsFits(bytes, 132, WriteTable(tags));
  }

  /** The decoded text all tags hold together, overlapping ones each in full. */
  ghost function TextOf(bytes: seq<byte>, tags: seq<Tag>): nat
    requires forall k :: 0 <= k < |tags| ==> TagReaches(|bytes|, tags[k])
  {
    if tags == [] then 0
    else TextOf(bytes, tags[..|tags| - 1]) + I.DemandOf(TagBytes(bytes, tags[|tags| - 1])).text
  }

  ghost function RecordsOf(bytes: seq<byte>, tags: seq<Tag>): nat
    requires forall k :: 0 <= k < |tags| ==> TagReaches(|bytes|, tags[k])
  {
    if tags == [] then 0
    else RecordsOf(bytes, tags[..|tags| - 1]) + I.DemandOf(TagBytes(bytes, tags[|tags| - 1])).records
  }

  lemma {:induction false} TotalOf(bytes: seq<byte>, tags: seq<Tag>)
    requires forall k :: 0 <= k < |tags| ==> TagReaches(|bytes|, tags[k])
    requires forall k :: 0 <= k < |tags| ==> I.TagBytes(bytes, k) == TagBytes(bytes, tags[k])
    ensures I.Total(bytes, |tags|) == I.Demand(TextOf(bytes, tags), RecordsOf(bytes, tags))
  {
    hide I.DemandOf, I.TagBytes, TagBytes;
    if tags != [] { TotalOf(bytes, tags[..|tags| - 1]); }
  }

  /** A written profile is accepted if and only if it is well formed and its tags stay within both ceilings. */
  lemma ProfileAcceptedIff(size: nat, header: seq<byte>, tags: seq<Tag>, data: seq<byte>, limits: I.Limits)
    requires |header| == 124 && size <= U32_MAX && |tags| <= U32_MAX
    requires forall k :: 0 <= k < |tags| ==> LegalTag(tags[k])
    ensures var bytes := WriteProfile(size, header, tags, data);
      I.Acceptable(bytes, limits) <==>
        && size == |bytes| && |tags| <= limits.maxTags
        && (forall k :: 0 <= k < |tags| ==> TagReaches(|bytes|, tags[k]))
        && TextOf(bytes, tags) <= limits.maxTextBytes && RecordsOf(bytes, tags) <= limits.maxTextRecords
  {
    hide WriteProfile, I.WellFormed, I.TagBytes, I.Total, TagBytes, TagReaches, LegalTag, I.TagCount;
    ProfileIsRead(size, header, tags, data, limits);
    var bytes := WriteProfile(size, header, tags, data);
    if forall k :: 0 <= k < |tags| ==> TagReaches(|bytes|, tags[k]) { TotalOf(bytes, tags); }
  }
}
