/**
 * The container format, as far as the walk is concerned (ISO/IEC 14496-12 section 4.2 for box
 * structure, sections 8.11.3, 8.11.6 and 8.11.12 for items, and ISO/IEC 23008-12 for associations).
 *
 * Four-character codes are compared as big-endian numbers.
 */
module BoxFormat {
  import opened Prelude
  import opened BoxTree

  const META: nat := 0x6D65_7461
  const IINF: nat := 0x6969_6E66
  const INFE: nat := 0x696E_6665
  const ILOC: nat := 0x696C_6F63
  const IREF: nat := 0x6972_6566
  const IPMA: nat := 0x6970_6D61
  const STSD: nat := 0x7374_7364
  const DREF: nat := 0x6472_6566
  const URIM: nat := 0x7572_696D
  const TREF: nat := 0x7472_6566
  const FTYP: nat := 0x6674_7970
  const COLR: nat := 0x636F_6C72
  const MINI: nat := 0x6D69_6E69
  const UUID: nat := 0x7575_6964
  const IPRP: nat := 0x6970_7270
  const IPCO: nat := 0x6970_636F
  const DINF: nat := 0x6469_6E66
  const GRPL: nat := 0x6772_706C
  const MOOV: nat := 0x6D6F_6F76
  const TRAK: nat := 0x7472_616B
  const MDIA: nat := 0x6D64_6961
  const MINF: nat := 0x6D69_6E66
  const STBL: nat := 0x7374_626C
  const EDTS: nat := 0x6564_7473
  const J2KH: nat := 0x6A32_6B48
  const HVC1: nat := 0x6876_6331
  const AV01: nat := 0x6176_3031
  const VVC1: nat := 0x7676_6331
  const AVC1: nat := 0x6176_6331
  const MJPG: nat := 0x6D6A_7067
  const J2KI: nat := 0x6A32_6B69
  const MSF1: nat := 0x6D73_6631
  const ISOM: nat := 0x6973_6F6D
  const MP41: nat := 0x6D70_3431
  const MP42: nat := 0x6D70_3432
  const GRID: nat := 0x6772_6964
  const TILI: nat := 0x7469_6C69
  const IDEN: nat := 0x6964_656E
  const IOVL: nat := 0x696F_766C
  const UNCI: nat := 0x756E_6369
  const JPEG: nat := 0x6A70_6567
  const J2K1: nat := 0x6A32_6B31
  const MSKI: nat := 0x6D73_6B69
  const MIME: nat := 0x6D69_6D65
  const URI: nat := 0x7572_6920
  const PROF: nat := 0x7072_6F66
  const RICC: nat := 0x7249_4343

  const CONTAINERS := {IPRP, IPCO, DINF, GRPL, MOOV, TRAK, MDIA, MINF, STBL, EDTS, J2KH}
  const VISUAL_SAMPLE_ENTRIES := {HVC1, AV01, VVC1, AVC1, MJPG, J2KI}
  const SEQUENCE_BRANDS := {MSF1, ISOM, MP41, MP42}
  const IMAGE_TYPES := {HVC1, AV01, GRID, TILI, IDEN, IOVL, AVC1, UNCI, VVC1, JPEG, J2K1, MSKI}

  const VISUAL_SAMPLE_ENTRY_PREFIX := 78
  const VISUAL_SAMPLE_ENTRY_NAME_LENGTH := 42

  /** A parsed box header; the next box starts where the body ends. */
  datatype Header = Header(kind: nat, bodyStart: nat, bodyEnd: nat)

  ghost predicate Placed(bytes: seq<byte>, h: Header) {
    8 <= h.bodyStart <= h.bodyEnd <= |bytes| <= MAX_SLICE
  }

  /** An unsigned field that must end by `end`. */
  ghost function Number(bytes: seq<byte>, at: nat, width: nat, end: nat): Option<nat> {
    if at + width <= end then Some(Field(bytes, at, width)) else None
  }

  /** The header at `offset` of a region ending at `limit`. */
  ghost function HeaderAt(bytes: seq<byte>, offset: nat, limit: nat): (h: Option<Header>)
    ensures h.Some? ==> offset + 8 <= h.value.bodyStart <= h.value.bodyEnd <= limit
  {
    if offset + 8 > limit then None else
    var size := Field(bytes, offset, 4);
    var kind := Field(bytes, offset + 4, 4);
    if size == 1 && offset + 16 > limit then None else
    var length := if size == 0 then limit - offset else if size == 1 then Field(bytes, offset + 8, 8) else size;
    var header := (if size == 1 then 16 else 8) + (if kind == UUID then 16 else 0);
    if header <= length && offset + length <= limit
    then Some(Header(kind, offset + header, offset + length)) else None
  }

  // ----------------------------------------------------------------- leaves

  /** Where a string starting at `at` stops: after its zero byte, or at the end of the box. */
  ghost function AfterString(bytes: seq<byte>, at: nat, end: nat): (next: Option<nat>)
    requires end <= |bytes|
    ensures next.Some? <==> at <= end
    ensures next.Some? ==> at <= next.value <= end
    decreases end - at
  {
    if at > end then None
    else if at == end then Some(end)
    else if bytes[at] == 0 then Some(at + 1)
    else AfterString(bytes, at + 1, end)
  }

  ghost function AfterStrings(bytes: seq<byte>, at: nat, end: nat, count: nat): (next: Option<nat>)
    requires end <= |bytes|
    decreases count
  {
    if count == 0 then (if at <= end then Some(at) else None)
    else
      var next := AfterString(bytes, at, end);
      if next.None? then None else AfterStrings(bytes, next.value, end, count - 1)
  }

  /** An item information entry: three strings follow in the old layout, one to two in the new one. */
  ghost function EntryAt(bytes: seq<byte>, h: Header): Option<Payload>
    requires Placed(bytes, h)
  {
    var version := Number(bytes, h.bodyStart, 1, h.bodyEnd);
    if version.None? || version.value > 3 then None
    else if version.value <= 1 then
      var id := Number(bytes, h.bodyStart + 4, 2, h.bodyEnd);
      if id.None? || AfterStrings(bytes, h.bodyStart + 8, h.bodyEnd, 3).None? then None
      else Some(Item(id.value, true))
    else
      var width := if version.value == 2 then 2 else 4;
      var id := Number(bytes, h.bodyStart + 4, width, h.bodyEnd);
      var kind := Number(bytes, h.bodyStart + 6 + width, 4, h.bodyEnd);
      if id.None? || kind.None? then None else
      var strings := if kind.value == MIME || kind.value == URI then 2 else 1;
      if AfterStrings(bytes, h.bodyStart + 10 + width, h.bodyEnd, strings).None? then None
      else Some(Item(id.value, kind.value !in IMAGE_TYPES))
  }

  /** Field widths of an item location box. */
  datatype Layout = Layout(version: nat, offsetSize: nat, lengthSize: nat, baseSize: nat, indexSize: nat)
  {
    function IdSize(): nat { if version < 2 then 2 else 4 }

    /** Bytes between the start of a record and its extent count. */
    ghost function Prefix(): nat { IdSize() + (if version >= 1 then 2 else 0) + 2 + baseSize }

    ghost function Stride(): nat { indexSize + offsetSize + lengthSize }
  }

  ghost predicate ReadableLayout(l: Layout) {
    l.version <= 2 && l.offsetSize in {0, 4, 8} && l.lengthSize in {0, 4, 8} &&
    l.baseSize in {0, 4, 8} && l.indexSize in {0, 4, 8}
  }

  /** The first `count` extent lengths of a record whose extents start at `at`. */
  ghost function ExtentSum(bytes: seq<byte>, l: Layout, at: nat, count: nat): nat {
    if count == 0 then 0
    else
      ExtentSum(bytes, l, at, count - 1) +
      Field(bytes, at + (count - 1) * l.Stride() + l.indexSize + l.offsetSize, l.lengthSize)
  }

  /** A record, its extent count, and where the next record starts. */
  datatype Record = Record(extent: Extent, count: nat, next: nat)

  ghost function RecordAt(bytes: seq<byte>, l: Layout, at: nat, end: nat): Option<Record> {
    var id := Number(bytes, at, l.IdSize(), end);
    var count := Number(bytes, at + l.Prefix(), 2, end);
    if id.None? || count.None? then None else
    var first := at + l.Prefix() + 2;
    var next := first + count.value * l.Stride();
    var sum := ExtentSum(bytes, l, first, count.value);
    if next > end || sum > U64_MAX then None
    else Some(Record(Extent(id.value, sum), count.value, next))
  }

  /** Consecutive records, and the largest extent count among them. */
  datatype Batch = Batch(records: seq<Extent>, widest: nat)

  ghost function Records(bytes: seq<byte>, l: Layout, at: nat, end: nat, count: nat): Option<Batch>
    decreases count
  {
    if count == 0 then Some(Batch([], 0)) else
    var head := RecordAt(bytes, l, at, end);
    if head.None? then None else
    var tail := Records(bytes, l, head.value.next, end, count - 1);
    if tail.None? then None
    else Some(Batch([head.value.extent] + tail.value.records, Max(head.value.count, tail.value.widest)))
  }

  ghost function Located(batch: Option<Batch>): Option<Payload> {
    if batch.None? then None else Some(Locations(batch.value.records, batch.value.widest))
  }

  ghost function LayoutAt(bytes: seq<byte>, h: Header): Option<Layout> {
    var version := Number(bytes, h.bodyStart, 1, h.bodyEnd);
    var widths := Number(bytes, h.bodyStart + 4, 2, h.bodyEnd);
    if version.None? || widths.None? then None else
    var w := widths.value;
    var l := Layout(version.value, w / 4096 % 16, w / 256 % 16, w / 16 % 16,
                    if version.value >= 1 then w % 16 else 0);
    if ReadableLayout(l) then Some(l) else None
  }

  ghost function LocationsAt(bytes: seq<byte>, h: Header): Option<Payload> {
    var layout := LayoutAt(bytes, h);
    if layout.None? then None else
    var width := layout.value.IdSize();
    var count := Number(bytes, h.bodyStart + 6, width, h.bodyEnd);
    if count.None? then None
    else Located(Records(bytes, layout.value, h.bodyStart + 6 + width, h.bodyEnd, count.value))
  }

  /** References counted over the lists from `at`; each list must fill its box exactly and not be empty. */
  ghost function ItemLists(bytes: seq<byte>, at: nat, end: nat, idSize: nat): Option<nat>
    decreases end - at
  {
    if at >= end then Some(0) else
    var h := HeaderAt(bytes, at, end);
    if h.None? then None else
    var count := Number(bytes, h.value.bodyStart + idSize, 2, h.value.bodyEnd);
    if count.None? || count.value == 0 then None
    else if h.value.bodyStart + idSize + 2 + count.value * idSize != h.value.bodyEnd then None
    else
      var rest := ItemLists(bytes, h.value.bodyEnd, end, idSize);
      if rest.None? then None else Some(count.value + rest.value)
  }

  ghost function ReferencesAt(bytes: seq<byte>, h: Header): Option<Payload> {
    if h.bodyStart + 4 > h.bodyEnd || Field(bytes, h.bodyStart, 1) > 1 then None else
    var idSize := if Field(bytes, h.bodyStart, 1) == 0 then 2 else 4;
    Listed(ItemLists(bytes, h.bodyStart + 4, h.bodyEnd, idSize))
  }

  ghost function Listed(count: Option<nat>): Option<Payload> {
    if count.None? then None else Some(References(count.value))
  }

  /** Track references: every list holds whole four-byte destinations, at least one. */
  ghost function TrackLists(bytes: seq<byte>, at: nat, end: nat): Option<nat>
    decreases end - at
  {
    if at >= end then Some(0) else
    var h := HeaderAt(bytes, at, end);
    if h.None? || Field(bytes, at, 4) == 0 then None else
    var length := h.value.bodyEnd - h.value.bodyStart;
    if length < 4 || length % 4 != 0 then None
    else
      var rest := TrackLists(bytes, h.value.bodyEnd, end);
      if rest.None? then None else Some(length / 4 + rest.value)
  }

  ghost function TrackReferencesAt(bytes: seq<byte>, h: Header): Option<Payload> {
    Listed(TrackLists(bytes, h.bodyStart, h.bodyEnd))
  }

  /** Associations counted over `count` entries from `at`. */
  ghost function AssociationEntries(
    bytes: seq<byte>, at: nat, end: nat, idSize: nat, width: nat, count: nat): Option<nat>
    decreases count
  {
    if count == 0 then Some(0) else
    var associations := Number(bytes, at + idSize, 1, end);
    if associations.None? then None else
    var next := at + idSize + 1 + associations.value * width;
    if next > end then None else
    var rest := AssociationEntries(bytes, next, end, idSize, width, count - 1);
    if rest.None? then None else Some(associations.value + rest.value)
  }

  ghost function AssociationsAt(bytes: seq<byte>, h: Header): Option<Payload> {
    var entries := Number(bytes, h.bodyStart + 4, 4, h.bodyEnd);
    if entries.None? || Field(bytes, h.bodyStart, 1) > 1 then None else
    var idSize := if Field(bytes, h.bodyStart, 1) < 1 then 2 else 4;
    var width := if Field(bytes, h.bodyStart + 3, 1) % 2 == 1 then 2 else 1;
    Associated(entries.value, AssociationEntries(bytes, h.bodyStart + 8, h.bodyEnd, idSize, width, entries.value))
  }

  ghost function Associated(entries: nat, total: Option<nat>): Option<Payload> {
    if total.None? then None else Some(Associations(entries, total.value))
  }

  /** A file type is a sequence when its major or any compatible brand is. */
  ghost predicate SequenceBrand(bytes: seq<byte>, h: Header) {
    Field(bytes, h.bodyStart, 4) in SEQUENCE_BRANDS ||
    exists i: nat :: h.bodyStart + 12 + 4 * i <= h.bodyEnd && BrandAt(bytes, h, i) in SEQUENCE_BRANDS
  }

  ghost function BrandAt(bytes: seq<byte>, h: Header, i: nat): nat {
    Field(bytes, h.bodyStart + 8 + 4 * i, 4)
  }

  ghost function FileTypeAt(bytes: seq<byte>, h: Header): Option<Payload> {
    if h.bodyStart + 8 > h.bodyEnd then None else Some(FileType(SequenceBrand(bytes, h)))
  }

  /** A colour box must not announce an embedded profile and carry none. */
  ghost function ColourAt(bytes: seq<byte>, h: Header): Option<Payload> {
    if h.bodyStart + 4 > h.bodyEnd then None
    else if Field(bytes, h.bodyStart, 4) in {PROF, RICC} && h.bodyStart + 4 == h.bodyEnd then None
    else Some(Plain)
  }

  // ------------------------------------------------------------------- tree

  /** The boxes that fill `start..end`. */
  ghost function Boxes(bytes: seq<byte>, start: nat, end: nat): Option<seq<Box>>
    requires end <= |bytes| <= MAX_SLICE
    decreases end - start, 2
  {
    if start > end then None
    else if start == end then Some([])
    else
      var h := HeaderAt(bytes, start, end);
      if h.None? then None else
      var head := BoxAt(bytes, h.value);
      var tail := Boxes(bytes, h.value.bodyEnd, end);
      if head.None? || tail.None? then None else Some([head.value] + tail.value)
  }

  /** Exactly `count` boxes from `start`; what follows them is not looked at. */
  ghost function BoxesCounted(bytes: seq<byte>, start: nat, end: nat, count: nat): Option<seq<Box>>
    requires end <= |bytes| <= MAX_SLICE
    decreases end - start, 2
  {
    if count == 0 then Some([]) else
    if start >= end then None else
    var h := HeaderAt(bytes, start, end);
    if h.None? then None else
    var head := BoxAt(bytes, h.value);
    var tail := BoxesCounted(bytes, h.value.bodyEnd, end, count - 1);
    if head.None? || tail.None? then None else Some([head.value] + tail.value)
  }

  ghost function Leaf(payload: Option<Payload>): (b: Option<Box>)
    ensures b.Some? ==> b.value.children == []
  {
    if payload.None? then None else Some(Box(payload.value, []))
  }

  ghost function Node(payload: Payload, children: Option<seq<Box>>): Option<Box> {
    if children.None? then None else Some(Box(payload, children.value))
  }

  /** Boxes whose parse reads child boxes. */
  predicate HasChildren(kind: nat) {
    kind in {META, IINF, STSD, DREF, URIM} || kind in CONTAINERS || kind in VISUAL_SAMPLE_ENTRIES
  }

  /** The child boxes of a box that has them. */
  ghost function ChildrenOf(bytes: seq<byte>, h: Header): Option<seq<Box>>
    requires Placed(bytes, h)
    decreases h.bodyEnd - h.bodyStart + 8, 0
  {
    if h.kind == META then Boxes(bytes, h.bodyStart + 4, h.bodyEnd)
    else if h.kind == IINF then
      var at := ItemCount(bytes, h);
      if at.None? then None else
      var children := Boxes(bytes, at.value.1, h.bodyEnd);
      if children.Some? && |children.value| == at.value.0 then children else None
    else if h.kind == STSD then
      var count := Number(bytes, h.bodyStart + 4, 4, h.bodyEnd);
      if count.None? || Field(bytes, h.bodyStart, 1) != 0 then None
      else BoxesCounted(bytes, h.bodyStart + 8, h.bodyEnd, count.value)
    else if h.kind == DREF || h.kind == URIM then Boxes(bytes, h.bodyStart + 8, h.bodyEnd)
    else if h.kind in VISUAL_SAMPLE_ENTRIES then
      if h.bodyStart + VISUAL_SAMPLE_ENTRY_PREFIX > h.bodyEnd then None
      else if Field(bytes, h.bodyStart + VISUAL_SAMPLE_ENTRY_NAME_LENGTH, 1) > 31 then None
      else Boxes(bytes, h.bodyStart + VISUAL_SAMPLE_ENTRY_PREFIX, h.bodyEnd)
    else Boxes(bytes, h.bodyStart, h.bodyEnd)
  }

  ghost function BoxAt(bytes: seq<byte>, h: Header): Option<Box>
    requires Placed(bytes, h)
    decreases h.bodyEnd - h.bodyStart + 8, 1
  {
    if HasChildren(h.kind)
    then Node(if h.kind == META then Metadata else Plain, ChildrenOf(bytes, h))
    else Leaf(PayloadAt(bytes, h))
  }

  /** The declared entry count of an item information box and where its entries start. */
  ghost function ItemCount(bytes: seq<byte>, h: Header): (r: Option<(nat, nat)>)
    requires Placed(bytes, h)
    ensures r.Some? ==> h.bodyStart + 6 <= r.value.1 <= h.bodyEnd
  {
    var version := Number(bytes, h.bodyStart, 1, h.bodyEnd);
    if version.None? then None else
    var width := if version.value == 0 then 2 else 4;
    var count := Number(bytes, h.bodyStart + 4, width, h.bodyEnd);
    if count.None? then None else Some((count.value, h.bodyStart + 4 + width))
  }

  ghost function PayloadAt(bytes: seq<byte>, h: Header): Option<Payload>
    requires Placed(bytes, h)
  {
    if h.kind == INFE then EntryAt(bytes, h)
    else if h.kind == ILOC then LocationsAt(bytes, h)
    else if h.kind == IREF then ReferencesAt(bytes, h)
    else if h.kind == IPMA then AssociationsAt(bytes, h)
    else if h.kind == TREF then TrackReferencesAt(bytes, h)
    else if h.kind == FTYP then FileTypeAt(bytes, h)
    else if h.kind == COLR then ColourAt(bytes, h)
    else if h.kind == MINI then Some(Minimised)
    else Some(Plain)
  }

  // ---------------------------------------------------------- whole-file law

  /** The whole file parses into boxes that respect every aggregate ceiling. */
  ghost predicate Acceptable(bytes: seq<byte>, budget: Budget)
    requires |bytes| <= MAX_SLICE
  {
    var top := Boxes(bytes, 0, |bytes|);
    top.Some? && Affordable(top.value, budget)
  }

  // ------------------------------------------------------------------ bounds

  /** Boxes that number and nest at most one per eight bytes. */
  ghost predicate Sized(bs: seq<Box>, room: int) {
    8 * SumAll(bs).boxes <= room && 8 * HeightAll(bs) <= room
  }

  lemma SizedCons(head: Box, tail: seq<Box>, first: nat, rest: nat)
    requires Sized(head.children, first - 8) && Sized(tail, rest)
    ensures Sized([head] + tail, first + rest)
  {
    assert ([head] + tail)[1..] == tail;
  }

  /** Every box takes at least eight bytes of its own, so the file bounds both count and nesting. */
  lemma {:induction false} BoxesBound(bytes: seq<byte>, start: nat, end: nat)
    requires end <= |bytes| <= MAX_SLICE && Boxes(bytes, start, end).Some?
    ensures Sized(Boxes(bytes, start, end).value, end - start)
    decreases end - start, 2
  {
    hide Field, BoxAt;
    if start < end {
      var h := HeaderAt(bytes, start, end).value;
      BoxBound(bytes, h);
      BoxesBound(bytes, h.bodyEnd, end);
      SizedCons(BoxAt(bytes, h).value, Boxes(bytes, h.bodyEnd, end).value, h.bodyEnd - start, end - h.bodyEnd);
    }
  }

  lemma {:induction false} CountedBound(bytes: seq<byte>, start: nat, end: nat, count: nat)
    requires start <= end <= |bytes| <= MAX_SLICE && BoxesCounted(bytes, start, end, count).Some?
    ensures Sized(BoxesCounted(bytes, start, end, count).value, end - start)
    decreases end - start, 2
  {
    hide Field, BoxAt;
    if count > 0 {
      var h := HeaderAt(bytes, start, end).value;
      BoxBound(bytes, h);
      CountedBound(bytes, h.bodyEnd, end, count - 1);
      SizedCons(BoxAt(bytes, h).value, BoxesCounted(bytes, h.bodyEnd, end, count - 1).value,
                h.bodyEnd - start, end - h.bodyEnd);
    }
  }

  lemma {:induction false} ChildrenBound(bytes: seq<byte>, h: Header)
    requires Placed(bytes, h) && ChildrenOf(bytes, h).Some?
    ensures Sized(ChildrenOf(bytes, h).value, h.bodyEnd - h.bodyStart)
    decreases h.bodyEnd - h.bodyStart + 8, 0
  {
    hide Field, SumAll, HeightAll, Boxes, BoxesCounted;
    if h.kind == META {
      BoxesBound(bytes, h.bodyStart + 4, h.bodyEnd);
    } else if h.kind == IINF {
      BoxesBound(bytes, ItemCount(bytes, h).value.1, h.bodyEnd);
    } else if h.kind == STSD {
      CountedBound(bytes, h.bodyStart + 8, h.bodyEnd, Field(bytes, h.bodyStart + 4, 4));
    } else if h.kind == DREF || h.kind == URIM {
      BoxesBound(bytes, h.bodyStart + 8, h.bodyEnd);
    } else if h.kind in VISUAL_SAMPLE_ENTRIES {
      BoxesBound(bytes, h.bodyStart + VISUAL_SAMPLE_ENTRY_PREFIX, h.bodyEnd);
    } else {
      BoxesBound(bytes, h.bodyStart, h.bodyEnd);
    }
  }

  lemma {:induction false} BoxBound(bytes: seq<byte>, h: Header)
    requires Placed(bytes, h) && BoxAt(bytes, h).Some?
    ensures Sized(BoxAt(bytes, h).value.children, h.bodyEnd - h.bodyStart)
    decreases h.bodyEnd - h.bodyStart + 8, 1
  {
    if HasChildren(h.kind) { ChildrenBound(bytes, h); }
  }
}
