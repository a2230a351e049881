/** Heads and leaves of the container format: the reader reads exactly what can be written. */
module BoxLeaves {
  import opened Prelude
  import opened ByteWriting
  import opened BoxTree
  import opened BoxWriting
  import F = BoxFormat

  // -------------------------------------------------------------------- codes

  lemma GroupCodes(kind: nat)
    ensures IsGroup(kind) <==> kind in F.CONTAINERS
  {
  }

  lemma SampleCodes(kind: nat)
    ensures IsSample(kind) <==> kind in F.VISUAL_SAMPLE_ENTRIES
  {
  }

  lemma PictureCodes(kind: nat)
    ensures IsPicture(kind) <==> kind in F.IMAGE_TYPES
  {
  }

  lemma SequenceCodes(brand: nat)
    ensures IsSequence(brand) <==> brand in F.SEQUENCE_BRANDS
  {
  }

  lemma PlaceCodes()
    ensures Code("meta") == F.META && Code("dref") == F.DREF && Code("urim") == F.URIM && Code("iinf") == F.IINF
    ensures Code("stsd") == F.STSD && Code("uuid") == F.UUID && Code("mini") == F.MINI
  {
  }

  lemma LeafCodes()
    ensures Code("infe") == F.INFE && Code("iloc") == F.ILOC && Code("iref") == F.IREF && Code("tref") == F.TREF
    ensures Code("ipma") == F.IPMA && Code("ftyp") == F.FTYP && Code("colr") == F.COLR
    ensures Code("prof") == F.PROF && Code("rICC") == F.RICC
  {
  }

  // ------------------------------------------------------------------- numbers

  /** What stands where a number was written is that number. */
  lemma ReadsNumber(bytes: seq<byte>, at: nat, n: nat, width: nat)
    requires Holds(bytes, at, Big(n, width)) && n < Pow256(width)
    ensures Field(bytes, at, width) == n
  {
    FieldIff(bytes, at, n, width);
  }

  lemma ReadsByte(bytes: seq<byte>, at: nat, b: byte)
    requires Holds(bytes, at, [b])
    ensures Field(bytes, at, 1) == b && bytes[at] == b
  {
    FieldOne(bytes, at);
    assert bytes[at..at + 1][0] == b;
  }

  lemma FoundNumber(bytes: seq<byte>, at: nat, width: nat)
    requires at + width <= |bytes|
    ensures Field(bytes, at, width) < Pow256(width) && Holds(bytes, at, Big(Field(bytes, at, width), width))
  {
    FieldWritten(bytes, at, width);
  }

  // -------------------------------------------------------------------- heads

  lemma HeadParts(bytes: seq<byte>, at: nat, head: Head, body: nat)
    ensures var size := HeadSize(head) + body;
      Holds(bytes, at, WriteHead(head, body)) <==>
        && Holds(bytes, at, Big(if head.form == Short then size else if head.form == Long then 1 else 0, 4))
        && Holds(bytes, at + 4, Big(head.kind, 4))
        && (head.form == Long ==> Holds(bytes, at + 8, Big(size, 8)))
        && Holds(bytes, at + (if head.form == Long then 16 else 8), head.extended)
  {
    hide Holds, Big;
    var size := HeadSize(head) + body;
    var a := Big(if head.form == Short then size else if head.form == Long then 1 else 0, 4);
    var b, c := Big(head.kind, 4), if head.form == Long then Big(size, 8) else [];
    HoldsFour(bytes, at, a, b, c, head.extended);
    HoldsNothing(bytes, at + 8);
    HoldsFits(bytes, at + 8, head.extended);
  }

  lemma HeadRead(bytes: seq<byte>, at: nat, limit: nat, head: Head, body: nat)
    requires Holds(bytes, at, WriteHead(head, body)) && LegalHead(head, body)
    requires at + HeadSize(head) + body <= limit <= |bytes| <= MAX_SLICE
    requires head.form == Open ==> at + HeadSize(head) + body == limit
    ensures F.HeaderAt(bytes, at, limit) ==
      Some(F.Header(head.kind, at + HeadSize(head), at + HeadSize(head) + body))
  {
    hide Field, Big, WriteHead, Code;
    PlaceCodes();
    Pow256Small();
    HeadParts(bytes, at, head, body);
    var size := HeadSize(head) + body;
    ReadsNumber(bytes, at, if head.form == Short then size else if head.form == Long then 1 else 0, 4);
    ReadsNumber(bytes, at + 4, head.kind, 4);
    if head.form == Long { ReadsNumber(bytes, at + 8, size, 8); }
  }

  lemma HeadFound(bytes: seq<byte>, at: nat, limit: nat) returns (head: Head)
    requires limit <= |bytes| <= MAX_SLICE && F.HeaderAt(bytes, at, limit).Some?
    ensures var h := F.HeaderAt(bytes, at, limit).value; var body := h.bodyEnd - h.bodyStart;
      && LegalHead(head, body) && Holds(bytes, at, WriteHead(head, body))
      && head.kind == h.kind && at + HeadSize(head) == h.bodyStart && (head.form == Open ==> h.bodyEnd == limit)
    ensures head.form == Open <==> Field(bytes, at, 4) == 0
  {
    hide Field, Big, WriteHead, Code;
    PlaceCodes();
    Pow256Small();
    var h := F.HeaderAt(bytes, at, limit).value;
    var size := Field(bytes, at, 4);
    var form := if size == 0 then Open else if size == 1 then Long else Short;
    var extended := bytes[at + (if form == Long then 16 else 8)..h.bodyStart];
    head := Head(form, h.kind, extended);
    FoundNumber(bytes, at, 4);
    FoundNumber(bytes, at + 4, 4);
    if form == Long { FoundNumber(bytes, at + 8, 8); }
    HoldsSlice(bytes, at + (if form == Long then 16 else 8), h.bodyStart);
    HeadParts(bytes, at, head, h.bodyEnd - h.bodyStart);
  }

  // ------------------------------------------------------------------- strides

  lemma {:induction false} FlatSize(parts: seq<seq<byte>>, width: nat)
    requires Each(parts, width)
    ensures |Flat(parts)| == |parts| * width
  {
    if parts != [] {
      FlatSize(parts[1..], width);
      OneMore(|parts| - 1, width);
    }
  }

  lemma {:induction false} FlatFound(bytes: seq<byte>, at: nat, count: nat, width: nat) returns (parts: seq<seq<byte>>)
    requires at + count * width <= |bytes|
    ensures |parts| == count && Each(parts, width) && Holds(bytes, at, Flat(parts))
    decreases count
  {
    if count == 0 {
      parts := [];
      HoldsNothing(bytes, at);
    } else {
      OneMore(count - 1, width);
      var first := bytes[at..at + width];
      var rest := FlatFound(bytes, at + width, count - 1, width);
      parts := [first] + rest;
      HoldsSlice(bytes, at, at + width);
      HoldsSplit(bytes, at, first, Flat(rest));
      assert parts[1..] == rest;
    }
  }

  // -------------------------------------------------------------------- entries

  lemma {:induction false} StringsEnd(bytes: seq<byte>, at: nat, end: nat, count: nat)
    requires at <= end <= |bytes|
    ensures F.AfterStrings(bytes, at, end, count).Some?
    decreases count
  {
    if count > 0 { StringsEnd(bytes, F.AfterString(bytes, at, end).value, end, count - 1); }
  }

  /** `c` fills the body of `h`. */
  ghost predicate Fills(bytes: seq<byte>, h: F.Header, c: Content) {
    F.Placed(bytes, h) && Holds(bytes, h.bodyStart, WriteBody(c)) && h.bodyStart + |WriteBody(c)| == h.bodyEnd
  }

  ghost function EntryWidth(version: nat): nat { if version <= 2 then 2 else 4 }

  lemma EntryParts(bytes: seq<byte>, at: nat, c: Content)
    requires c.Entry? && LegalContent(c)
    ensures var w := EntryWidth(c.version); var k := if c.version <= 1 then 0 else 4;
      && |WriteBody(c)| == 6 + w + k + |c.strings|
      && (Holds(bytes, at, WriteBody(c)) <==>
          && Holds(bytes, at, [c.version]) && Holds(bytes, at + 1, c.flags) && Holds(bytes, at + 4, Big(c.id, w))
          && Holds(bytes, at + 4 + w, c.protection)
          && Holds(bytes, at + 6 + w, if c.version <= 1 then [] else Big(c.itemKind, 4))
          && Holds(bytes, at + 6 + w + k, c.strings))
  {
    hide Holds, Big;
    HoldsSix(bytes, at, [c.version], c.flags, Big(c.id, if c.version <= 2 then 2 else 4), c.protection,
             if c.version <= 1 then [] else Big(c.itemKind, 4), c.strings);
  }

  lemma EntryRead(bytes: seq<byte>, h: F.Header, c: Content)
    requires c.Entry? && LegalContent(c) && Fills(bytes, h, c)
    ensures F.EntryAt(bytes, h) == Some(PayloadOf(h.kind, c))
  {
    hide Field, Holds, Big, WriteBody, F.AfterStrings, IsPicture;
    var at, w := h.bodyStart, EntryWidth(c.version);
    Pow256Small();
    EntryParts(bytes, at, c);
    ReadsByte(bytes, at, c.version);
    ReadsNumber(bytes, at + 4, c.id, w);
    if c.version <= 1 {
      StringsEnd(bytes, at + 8, h.bodyEnd, 3);
    } else {
      ReadsNumber(bytes, at + 6 + w, c.itemKind, 4);
      PictureCodes(c.itemKind);
      StringsEnd(bytes, at + 10 + w, h.bodyEnd, if c.itemKind == F.MIME || c.itemKind == F.URI then 2 else 1);
    }
  }

  lemma EntryFound(bytes: seq<byte>, h: F.Header) returns (c: Content)
    requires F.Placed(bytes, h) && F.EntryAt(bytes, h).Some?
    ensures c.Entry? && LegalContent(c) && Fills(bytes, h, c)
  {
    hide Field, Holds, Big, WriteBody, F.AfterStrings, F.AfterString;
    Pow256Small();
    var at := h.bodyStart;
    FieldOne(bytes, at);
    var version := bytes[at];
    var w, k := EntryWidth(version), if version <= 1 then 0 else 4;
    AfterStringsFit(bytes, at + 6 + w + k, h.bodyEnd, if version <= 1 then 3 else
      var kind := Field(bytes, at + 6 + w, 4); if kind == F.MIME || kind == F.URI then 2 else 1);
    c := Entry(version, bytes[at + 1..at + 4], Field(bytes, at + 4, w), bytes[at + 4 + w..at + 6 + w],
               if version <= 1 then 0 else Field(bytes, at + 6 + w, 4), bytes[at + 6 + w + k..h.bodyEnd]);
    FoundNumber(bytes, at + 4, w);
    if version <= 1 { HoldsNothing(bytes, at + 8); } else { FoundNumber(bytes, at + 6 + w, 4); }
    HoldsSlice(bytes, at, at + 1);
    assert bytes[at..at + 1] == [version];
    HoldsSlice(bytes, at + 1, at + 4);
    HoldsSlice(bytes, at + 4 + w, at + 6 + w);
    HoldsSlice(bytes, at + 6 + w + k, h.bodyEnd);
    EntryParts(bytes, at, c);
  }

  lemma {:induction false} AfterStringsFit(bytes: seq<byte>, at: nat, end: nat, count: nat)
    requires end <= |bytes| && F.AfterStrings(bytes, at, end, count).Some?
    ensures at <= end
    decreases count
  {
  }

  // ------------------------------------------------------------ item locations

  ghost function LayoutOf(l: Shape): F.Layout {
    F.Layout(l.version, l.offset, l.length, l.base, if l.version == 0 then 0 else l.index)
  }

  /** The first extent can be taken off the front of a sum. */
  lemma {:induction false} ExtentSumFront(bytes: seq<byte>, l: F.Layout, at: nat, count: nat)
    requires count > 0
    ensures F.ExtentSum(bytes, l, at, count) ==
      Field(bytes, at + l.indexSize + l.offsetSize, l.lengthSize) + F.ExtentSum(bytes, l, at + l.Stride(), count - 1)
  {
    hide F.Layout.Stride, Field;
    var stride := l.Stride();
    if count == 1 {
      assert F.ExtentSum(bytes, l, at, 0) == 0 && 0 * stride == 0;
    } else {
      ExtentSumFront(bytes, l, at, count - 1);
      OneMore(count - 2, stride);
      assert at + stride + (count - 2) * stride == at + (count - 1) * stride;
    }
  }

  lemma PieceParts(bytes: seq<byte>, l: Shape, at: nat, pieces: seq<Piece>)
    requires pieces != []
    ensures var p := pieces[0];
      Holds(bytes, at, WritePieces(l, pieces)) <==>
        Holds(bytes, at, p.lead) && Holds(bytes, at + |p.lead|, Big(p.length, l.length)) &&
        Holds(bytes, at + |p.lead| + l.length, WritePieces(l, pieces[1..]))
  {
    hide Holds, Big;
    HoldsThree(bytes, at, pieces[0].lead, Big(pieces[0].length, l.length), WritePieces(l, pieces[1..]));
  }

  ghost predicate LegalPieces(l: Shape, pieces: seq<Piece>) {
    forall i :: 0 <= i < |pieces| ==> LegalPiece(l, pieces[i])
  }

  lemma {:induction false} PiecesSize(l: Shape, pieces: seq<Piece>)
    requires LegalPieces(l, pieces)
    ensures |WritePieces(l, pieces)| == |pieces| * LayoutOf(l).Stride()
  {
    if pieces != [] {
      PiecesSize(l, pieces[1..]);
      OneMore(|pieces| - 1, LayoutOf(l).Stride());
    }
  }

  lemma {:induction false} PiecesRead(bytes: seq<byte>, l: Shape, at: nat, pieces: seq<Piece>)
    requires LegalPieces(l, pieces) && Holds(bytes, at, WritePieces(l, pieces))
    ensures F.ExtentSum(bytes, LayoutOf(l), at, |pieces|) == Covered(pieces)
    decreases |pieces|
  {
    hide Field, Holds, Big;
    if pieces != [] {
      PieceParts(bytes, l, at, pieces);
      ExtentSumFront(bytes, LayoutOf(l), at, |pieces|);
      ReadsNumber(bytes, at + |pieces[0].lead|, pieces[0].length, l.length);
      PiecesRead(bytes, l, at + LayoutOf(l).Stride(), pieces[1..]);
    }
  }

  lemma {:induction false} PiecesFound(bytes: seq<byte>, l: Shape, at: nat, count: nat) returns (pieces: seq<Piece>)
    requires at + count * LayoutOf(l).Stride() <= |bytes|
    ensures |pieces| == count && LegalPieces(l, pieces) && Holds(bytes, at, WritePieces(l, pieces))
    decreases count
  {
    hide Field, Holds, Big;
    if count == 0 {
      pieces := [];
      HoldsNothing(bytes, at);
    } else {
      var stride := LayoutOf(l).Stride();
      var middle := at + stride - l.length;
      OneMore(count - 1, stride);
      NotNegative(count - 1, stride);
      var rest := PiecesFound(bytes, l, at + stride, count - 1);
      HoldsSlice(bytes, at, middle);
      FoundNumber(bytes, middle, l.length);
      pieces := [Piece(bytes[at..middle], Field(bytes, middle, l.length))] + rest;
      assert pieces[1..] == rest;
      PieceParts(bytes, l, at, pieces);
    }
  }

  ghost function MiddleSize(l: Shape): nat { (if l.version == 0 then 0 else 2) + 2 + l.base }

  lemma LocationParts(bytes: seq<byte>, l: Shape, at: nat, r: Location)
    ensures var w := IdWidth(l);
      Holds(bytes, at, WriteLocation(l, r)) <==>
        Holds(bytes, at, Big(r.id, w)) && Holds(bytes, at + w, r.middle) &&
        Holds(bytes, at + w + |r.middle|, Big(|r.pieces|, 2)) &&
        Holds(bytes, at + w + |r.middle| + 2, WritePieces(l, r.pieces))
  {
    hide Holds, Big;
    HoldsFour(bytes, at, Big(r.id, IdWidth(l)), r.middle, Big(|r.pieces|, 2), WritePieces(l, r.pieces));
  }

  lemma LocationSize(l: Shape, r: Location)
    requires LegalShape(l) && LegalLocation(l, r)
    ensures |WriteLocation(l, r)| == LayoutOf(l).Prefix() + 2 + |r.pieces| * LayoutOf(l).Stride()
  {
    hide Big;
    PiecesSize(l, r.pieces);
  }

  lemma LocationRead(bytes: seq<byte>, l: Shape, at: nat, end: nat, r: Location)
    requires LegalShape(l) && LegalLocation(l, r) && Holds(bytes, at, WriteLocation(l, r))
    requires at + |WriteLocation(l, r)| <= end <= |bytes|
    ensures F.RecordAt(bytes, LayoutOf(l), at, end) ==
      Some(F.Record(Extent(r.id, Covered(r.pieces)), |r.pieces|, at + |WriteLocation(l, r)|))
  {
    hide Field, Holds, Big, WriteLocation, WritePieces, F.ExtentSum, F.Layout.Stride, LegalPiece, Covered;
    Pow256Small();
    var w, first := IdWidth(l), at + LayoutOf(l).Prefix() + 2;
    LocationParts(bytes, l, at, r);
    LocationSize(l, r);
    NotNegative(|r.pieces|, LayoutOf(l).Stride());
    ReadsNumber(bytes, at, r.id, w);
    ReadsNumber(bytes, at + LayoutOf(l).Prefix(), |r.pieces|, 2);
    PiecesRead(bytes, l, first, r.pieces);
  }

  lemma LocationFound(bytes: seq<byte>, l: Shape, at: nat, end: nat) returns (r: Location)
    requires LegalShape(l) && end <= |bytes| && F.RecordAt(bytes, LayoutOf(l), at, end).Some?
    ensures LegalLocation(l, r) && Holds(bytes, at, WriteLocation(l, r))
    ensures at + |WriteLocation(l, r)| == F.RecordAt(bytes, LayoutOf(l), at, end).value.next
  {
    hide Field, Holds, Big, WriteLocation, WritePieces, F.ExtentSum, F.Layout.Stride, LegalPiece, Covered;
    Pow256Small();
    var w, first := IdWidth(l), at + LayoutOf(l).Prefix() + 2;
    var count := Field(bytes, first - 2, 2);
    FoundNumber(bytes, at, w);
    FoundNumber(bytes, first - 2, 2);
    HoldsSlice(bytes, at + w, first - 2);
    NotNegative(count, LayoutOf(l).Stride());
    var pieces := PiecesFound(bytes, l, first, count);
    PiecesRead(bytes, l, first, pieces);
    r := Location(Field(bytes, at, w), bytes[at + w..first - 2], pieces);
    LocationParts(bytes, l, at, r);
    LocationSize(l, r);
  }

  ghost predicate LegalLocations(l: Shape, records: seq<Location>) {
    forall i :: 0 <= i < |records| ==> LegalLocation(l, records[i])
  }

  lemma {:induction false} LocationsRead(bytes: seq<byte>, l: Shape, at: nat, end: nat, records: seq<Location>)
    requires LegalShape(l) && LegalLocations(l, records) && Holds(bytes, at, WriteLocations(l, records))
    requires at + |WriteLocations(l, records)| <= end <= |bytes|
    ensures F.Records(bytes, LayoutOf(l), at, end, |records|) == Some(F.Batch(Extents(records), Widest(records)))
    decreases |records|
  {
    hide Holds, WriteLocation, F.RecordAt, LegalLocation;
    if records != [] {
      HoldsSplit(bytes, at, WriteLocation(l, records[0]), WriteLocations(l, records[1..]));
      LocationRead(bytes, l, at, end, records[0]);
      LocationsRead(bytes, l, at + |WriteLocation(l, records[0])|, end, records[1..]);
    }
  }

  lemma {:induction false} LocationsFound(bytes: seq<byte>, l: Shape, at: nat, end: nat, count: nat)
    returns (records: seq<Location>)
    requires LegalShape(l) && at <= end <= |bytes| && F.Records(bytes, LayoutOf(l), at, end, count).Some?
    ensures |records| == count && LegalLocations(l, records) && Holds(bytes, at, WriteLocations(l, records))
    ensures at + |WriteLocations(l, records)| <= end
    decreases count
  {
    hide Holds, WriteLocation, LegalLocation, F.ExtentSum, Field;
    if count == 0 {
      records := [];
      HoldsNothing(bytes, at);
    } else {
      var r := LocationFound(bytes, l, at, end);
      var next := F.RecordAt(bytes, LayoutOf(l), at, end).value.next;
      var rest := LocationsFound(bytes, l, next, end, count - 1);
      records := [r] + rest;
      assert records[1..] == rest;
      HoldsSplit(bytes, at, WriteLocation(l, r), WriteLocations(l, rest));
    }
  }

  lemma ItemLocationParts(bytes: seq<byte>, at: nat, c: Content)
    requires c.ItemLocations? && LegalContent(c)
    ensures var l := c.shape; var w := IdWidth(l);
      && |WriteBody(c)| == 6 + w + |WriteLocations(l, c.records)| + |c.rest|
      && (Holds(bytes, at, WriteBody(c)) <==>
          && Holds(bytes, at, Big(l.version, 1)) && Holds(bytes, at + 1, c.flags)
          && Holds(bytes, at + 4, Big(16 * l.offset + l.length, 1))
          && Holds(bytes, at + 5, Big(16 * l.base + l.index, 1))
          && Holds(bytes, at + 6, Big(|c.records|, w))
          && Holds(bytes, at + 6 + w, WriteLocations(l, c.records))
          && Holds(bytes, at + 6 + w + |WriteLocations(l, c.records)|, c.rest))
  {
    hide Holds, Big;
    var l := c.shape;
    var a, b, d := Big(l.version, 1), Big(16 * l.offset + l.length, 1), Big(16 * l.base + l.index, 1);
    var n, records := Big(|c.records|, IdWidth(l)), WriteLocations(l, c.records);
    HoldsSplit(bytes, at, a + c.flags + b + d + n + records, c.rest);
    HoldsSix(bytes, at, a, c.flags, b, d, n, records);
  }

  /** Two bytes of widths are four half-bytes. */
  lemma Widths(bytes: seq<byte>, at: nat)
    requires at + 2 <= |bytes|
    ensures var w := Field(bytes, at, 2); var a, b := Field(bytes, at, 1), Field(bytes, at + 1, 1);
      w / 4096 % 16 == a / 16 && w / 256 % 16 == a % 16 && w / 16 % 16 == b / 16 && w % 16 == b % 16 &&
      a < 256 && b < 256
  {
    FieldOne(bytes, at);
    FieldOne(bytes, at + 1);
    assert Field(bytes, at, 2) == 256 * Field(bytes, at, 1) + bytes[at + 1];
    HalfBytes(bytes[at], bytes[at + 1]);
  }

  lemma HalfBytes(a: byte, b: byte)
    ensures var w := 256 * (a as int) + b as int;
      w / 4096 % 16 == a / 16 && w / 256 % 16 == a % 16 && w / 16 % 16 == b / 16 && w % 16 == b % 16
  {
    FourHalves(a / 16, a % 16, b / 16, b % 16);
  }

  lemma FourHalves(p: int, q: int, r: int, s: int)
    requires 0 <= p < 16 && 0 <= q < 16 && 0 <= r < 16 && 0 <= s < 16
    ensures var w := 4096 * p + 256 * q + 16 * r + s;
      w / 4096 % 16 == p && w / 256 % 16 == q && w / 16 % 16 == r && w % 16 == s
  {
    var w := 4096 * p + 256 * q + 16 * r + s;
    assert w / 4096 == p;
    assert w / 256 == 16 * p + q;
    assert w / 16 == 256 * p + 16 * q + r;
  }

  /** The widths are read back from their half-bytes. */
  lemma ShapeRead(bytes: seq<byte>, h: F.Header, l: Shape)
    requires LegalShape(l) && h.bodyStart + 6 <= h.bodyEnd <= |bytes|
    requires Holds(bytes, h.bodyStart, Big(l.version, 1))
    requires Holds(bytes, h.bodyStart + 4, Big(16 * l.offset + l.length, 1))
    requires Holds(bytes, h.bodyStart + 5, Big(16 * l.base + l.index, 1))
    ensures F.LayoutAt(bytes, h) == Some(LayoutOf(l))
  {
    hide Field, Holds, Big;
    Pow256Small();
    var at := h.bodyStart;
    ReadsNumber(bytes, at, l.version, 1);
    ReadsNumber(bytes, at + 4, 16 * l.offset + l.length, 1);
    ReadsNumber(bytes, at + 5, 16 * l.base + l.index, 1);
    Widths(bytes, at + 4);
  }

  lemma ItemLocationsRead(bytes: seq<byte>, h: F.Header, c: Content)
    requires c.ItemLocations? && LegalContent(c) && Fills(bytes, h, c)
    ensures F.LocationsAt(bytes, h) == Some(PayloadOf(h.kind, c))
  {
    hide Field, Holds, Big, WriteBody, WriteLocations, F.Records, F.LayoutAt, LegalShape, LegalLocation;
    Pow256Small();
    var at, l := h.bodyStart, c.shape;
    ItemLocationParts(bytes, at, c);
    ShapeRead(bytes, h, l);
    ReadsNumber(bytes, at + 6, |c.records|, IdWidth(l));
    LocationsRead(bytes, l, at + 6 + IdWidth(l), h.bodyEnd, c.records);
  }

  lemma ItemLocationsFound(bytes: seq<byte>, h: F.Header) returns (c: Content)
    requires F.Placed(bytes, h) && F.LocationsAt(bytes, h).Some?
    ensures c.ItemLocations? && LegalContent(c) && Fills(bytes, h, c)
  {
    hide Field, Holds, Big, WriteBody, WriteLocations, F.Records;
    Pow256Small();
    var at := h.bodyStart;
    Widths(bytes, at + 4);
    var a, b := Field(bytes, at + 4, 1), Field(bytes, at + 5, 1);
    var l := Shape(Field(bytes, at, 1), a / 16, a % 16, b / 16, b % 16);
    var w := IdWidth(l);
    assert F.LayoutAt(bytes, h) == Some(LayoutOf(l));
    var records := LocationsFound(bytes, l, at + 6 + w, h.bodyEnd, Field(bytes, at + 6, w));
    var next := at + 6 + w + |WriteLocations(l, records)|;
    c := ItemLocations(bytes[at + 1..at + 4], l, records, bytes[next..h.bodyEnd]);
    FoundNumber(bytes, at, 1);
    FoundNumber(bytes, at + 4, 1);
    FoundNumber(bytes, at + 5, 1);
    FoundNumber(bytes, at + 6, w);
    HoldsSlice(bytes, at + 1, at + 4);
    HoldsSlice(bytes, next, h.bodyEnd);
    ItemLocationParts(bytes, at, c);
  }

  // ----------------------------------------------------------------- references

  lemma ListSplit(bytes: seq<byte>, at: nat, lists: seq<RefList>, counted: bool)
    requires lists != []
    ensures var r := lists[0]; var n := |ListBody(r, counted)|;
      Holds(bytes, at, WriteLists(lists, counted)) <==>
        Holds(bytes, at, WriteHead(r.head, n)) && Holds(bytes, at + HeadSize(r.head), ListBody(r, counted)) &&
        Holds(bytes, at + HeadSize(r.head) + n, WriteLists(lists[1..], counted))
  {
    hide Holds, WriteHead, ListBody;
    var r := lists[0];
    var body := ListBody(r, counted);
    HoldsSplit(bytes, at, WriteHead(r.head, |body|) + body, WriteLists(lists[1..], counted));
    HoldsSplit(bytes, at, WriteHead(r.head, |body|), body);
  }

  lemma ListParts(bytes: seq<byte>, at: nat, r: RefList, counted: bool)
    ensures var n := if counted then 2 else 0;
      && |ListBody(r, counted)| == |r.from| + n + |Flat(r.to)|
      && (Holds(bytes, at, ListBody(r, counted)) <==>
          Holds(bytes, at, r.from) && Holds(bytes, at + |r.from|, if counted then Big(|r.to|, 2) else []) &&
          Holds(bytes, at + |r.from| + n, Flat(r.to)))
  {
    hide Holds, Big, Flat;
    HoldsThree(bytes, at, r.from, if counted then Big(|r.to|, 2) else [], Flat(r.to));
  }

  lemma {:induction false} ItemListsRead(bytes: seq<byte>, at: nat, end: nat, lists: seq<RefList>, width: nat)
    requires LegalLists(lists, width, true) && Holds(bytes, at, WriteLists(lists, true)) && |bytes| <= MAX_SLICE
    requires at + |WriteLists(lists, true)| == end
    ensures F.ItemLists(bytes, at, end, width) == Some(Targets(lists))
    decreases |lists|
  {
    hide Field, Holds, Big, WriteHead, ListBody, Flat, LegalHead, F.HeaderAt, HeadSize;
    if lists != [] {
      var r := lists[0];
      assert LegalList(r, width, true);
      var n := |ListBody(r, true)|;
      Pow256Small();
      HeadSizeBound(r.head);
      ListSplit(bytes, at, lists, true);
      ListParts(bytes, at + HeadSize(r.head), r, true);
      FlatSize(r.to, width);
      HoldsFits(bytes, at + HeadSize(r.head) + n, WriteLists(lists[1..], true));
      HeadRead(bytes, at, end, r.head, n);
      ReadsNumber(bytes, at + HeadSize(r.head) + width, |r.to|, 2);
      ItemListsRead(bytes, at + HeadSize(r.head) + n, end, lists[1..], width);
    }
  }

  lemma HeadSizeBound(head: Head)
    ensures HeadSize(head) >= 8
  {
  }

  lemma {:induction false} ItemListsFound(bytes: seq<byte>, at: nat, end: nat, width: nat) returns (lists: seq<RefList>)
    requires at <= end <= |bytes| <= MAX_SLICE && F.ItemLists(bytes, at, end, width).Some?
    ensures LegalLists(lists, width, true) && Holds(bytes, at, WriteLists(lists, true))
    ensures at + |WriteLists(lists, true)| == end
    decreases end - at
  {
    hide Field, Holds, Big, WriteHead, ListBody, Flat, LegalHead, F.HeaderAt, HeadSize;
    if at == end {
      lists := [];
      HoldsNothing(bytes, at);
    } else {
      Pow256Small();
      var h := F.HeaderAt(bytes, at, end).value;
      var count := Field(bytes, h.bodyStart + width, 2);
      var head := HeadFound(bytes, at, end);
      FoundNumber(bytes, h.bodyStart + width, 2);
      var to := FlatFound(bytes, h.bodyStart + width + 2, count, width);
      FlatSize(to, width);
      var r := RefList(head, bytes[h.bodyStart..h.bodyStart + width], to);
      HoldsSlice(bytes, h.bodyStart, h.bodyStart + width);
      ListParts(bytes, h.bodyStart, r, true);
      var rest := ItemListsFound(bytes, h.bodyEnd, end, width);
      lists := [r] + rest;
      assert lists[1..] == rest;
      ListSplit(bytes, at, lists, true);
      OpenIsLast(head, h.bodyEnd, end, rest);
    }
  }

  /** Nothing follows what is open to the end. */
  lemma OpenIsLast(head: Head, at: nat, end: nat, rest: seq<RefList>)
    requires head.form == Open ==> at == end
    requires at + |WriteLists(rest, true)| == end
    ensures head.form == Open ==> rest == []
  {
    if rest != [] {
      HeadSizeBound(rest[0].head);
      assert |WriteLists(rest, true)| >= |WriteList(rest[0], true)| >= HeadSize(rest[0].head);
    }
  }

  lemma {:induction false} TrackListsRead(bytes: seq<byte>, at: nat, end: nat, lists: seq<RefList>)
    requires LegalLists(lists, 4, false) && Holds(bytes, at, WriteLists(lists, false)) && |bytes| <= MAX_SLICE
    requires at + |WriteLists(lists, false)| == end
    ensures F.TrackLists(bytes, at, end) == Some(Targets(lists))
    decreases |lists|
  {
    hide Field, Holds, Big, WriteHead, ListBody, Flat, LegalHead, F.HeaderAt, HeadSize;
    if lists != [] {
      var r := lists[0];
      assert LegalList(r, 4, false);
      var n := |ListBody(r, false)|;
      HeadSizeBound(r.head);
      ListSplit(bytes, at, lists, false);
      ListParts(bytes, at + HeadSize(r.head), r, false);
      FlatSize(r.to, 4);
      HoldsFits(bytes, at + HeadSize(r.head) + n, WriteLists(lists[1..], false));
      HeadRead(bytes, at, end, r.head, n);
      ClosedSize(bytes, at, r.head, n);
      TrackListsRead(bytes, at + HeadSize(r.head) + n, end, lists[1..]);
    }
  }

  /** Only an open head has a zero first field. */
  lemma ClosedSize(bytes: seq<byte>, at: nat, head: Head, body: nat)
    requires Holds(bytes, at, WriteHead(head, body)) && LegalHead(head, body)
    ensures Field(bytes, at, 4) == 0 <==> head.form == Open
  {
    hide Field, Big, WriteHead, Holds;
    Pow256Small();
    HeadParts(bytes, at, head, body);
    HeadSizeBound(head);
    var size := HeadSize(head) + body;
    ReadsNumber(bytes, at, if head.form == Short then size else if head.form == Long then 1 else 0, 4);
  }

  lemma {:induction false} TrackListsFound(bytes: seq<byte>, at: nat, end: nat) returns (lists: seq<RefList>)
    requires at <= end <= |bytes| <= MAX_SLICE && F.TrackLists(bytes, at, end).Some?
    ensures LegalLists(lists, 4, false) && Holds(bytes, at, WriteLists(lists, false))
    ensures at + |WriteLists(lists, false)| == end
    decreases end - at
  {
    hide Field, Holds, Big, WriteHead, ListBody, Flat, LegalHead, F.HeaderAt, HeadSize;
    if at == end {
      lists := [];
      HoldsNothing(bytes, at);
    } else {
      var h := F.HeaderAt(bytes, at, end).value;
      var head := HeadFound(bytes, at, end);
      var to := FlatFound(bytes, h.bodyStart, (h.bodyEnd - h.bodyStart) / 4, 4);
      FlatSize(to, 4);
      var r := RefList(head, [], to);
      HoldsNothing(bytes, h.bodyStart);
      ListParts(bytes, h.bodyStart, r, false);
      var rest := TrackListsFound(bytes, h.bodyEnd, end);
      lists := [r] + rest;
      assert lists[1..] == rest;
      ListSplit(bytes, at, lists, false);
    }
  }

  lemma ReferenceParts(bytes: seq<byte>, at: nat, c: Content)
    requires c.ItemReferences? && LegalContent(c)
    ensures |WriteBody(c)| == 4 + |WriteLists(c.lists, true)|
    ensures Holds(bytes, at, WriteBody(c)) <==>
      Holds(bytes, at, [c.version]) && Holds(bytes, at + 1, c.flags) && Holds(bytes, at + 4, WriteLists(c.lists, true))
  {
    hide Holds, WriteLists;
    HoldsThree(bytes, at, [c.version], c.flags, WriteLists(c.lists, true));
  }

  lemma ReferencesRead(bytes: seq<byte>, h: F.Header, c: Content)
    requires c.ItemReferences? && LegalContent(c) && Fills(bytes, h, c)
    ensures F.ReferencesAt(bytes, h) == Some(PayloadOf(h.kind, c))
  {
    hide Field, Holds, WriteBody, WriteLists, LegalLists;
    ReferenceParts(bytes, h.bodyStart, c);
    ReadsByte(bytes, h.bodyStart, c.version);
    ItemListsRead(bytes, h.bodyStart + 4, h.bodyEnd, c.lists, if c.version == 0 then 2 else 4);
  }

  lemma ReferencesFound(bytes: seq<byte>, h: F.Header) returns (c: Content)
    requires F.Placed(bytes, h) && F.ReferencesAt(bytes, h).Some?
    ensures c.ItemReferences? && LegalContent(c) && Fills(bytes, h, c)
  {
    hide Field, Holds, WriteBody, WriteLists, LegalLists;
    var at := h.bodyStart;
    FieldOne(bytes, at);
    var version := bytes[at];
    var lists := ItemListsFound(bytes, at + 4, h.bodyEnd, if version == 0 then 2 else 4);
    c := ItemReferences(version, bytes[at + 1..at + 4], lists);
    HoldsSlice(bytes, at, at + 1);
    assert bytes[at..at + 1] == [version];
    HoldsSlice(bytes, at + 1, at + 4);
    ReferenceParts(bytes, at, c);
  }

  lemma TracksRead(bytes: seq<byte>, h: F.Header, c: Content)
    requires c.TrackReferences? && LegalContent(c) && Fills(bytes, h, c)
    ensures F.TrackReferencesAt(bytes, h) == Some(PayloadOf(h.kind, c))
  {
    TrackListsRead(bytes, h.bodyStart, h.bodyEnd, c.lists);
  }

  lemma TracksFound(bytes: seq<byte>, h: F.Header) returns (c: Content)
    requires F.Placed(bytes, h) && F.TrackReferencesAt(bytes, h).Some?
    ensures c.TrackReferences? && LegalContent(c) && Fills(bytes, h, c)
  {
    var lists := TrackListsFound(bytes, h.bodyStart, h.bodyEnd);
    c := TrackReferences(lists);
  }

  // --------------------------------------------------------------- associations

  lemma AssociationParts(bytes: seq<byte>, at: nat, entries: seq<Association>)
    requires entries != []
    ensures var a := entries[0]; var n := |a.id| + 1 + |Flat(a.properties)|;
      && |WriteAssociations(entries)| == n + |WriteAssociations(entries[1..])|
      && (Holds(bytes, at, WriteAssociations(entries)) <==>
          Holds(bytes, at, a.id) && Holds(bytes, at + |a.id|, Big(|a.properties|, 1)) &&
          Holds(bytes, at + |a.id| + 1, Flat(a.properties)) && Holds(bytes, at + n, WriteAssociations(entries[1..])))
  {
    hide Holds, Big, Flat;
    var a := entries[0];
    HoldsSplit(bytes, at, WriteAssociation(a), WriteAssociations(entries[1..]));
    HoldsThree(bytes, at, a.id, Big(|a.properties|, 1), Flat(a.properties));
  }

  ghost predicate LegalAssociations(entries: seq<Association>, idWidth: nat, width: nat) {
    forall i :: 0 <= i < |entries| ==> LegalAssociation(entries[i], idWidth, width)
  }

  lemma {:induction false} AssociationsRead(
    bytes: seq<byte>, at: nat, end: nat, idWidth: nat, width: nat, entries: seq<Association>)
    requires LegalAssociations(entries, idWidth, width) && Holds(bytes, at, WriteAssociations(entries))
    requires at + |WriteAssociations(entries)| <= end <= |bytes|
    ensures F.AssociationEntries(bytes, at, end, idWidth, width, |entries|) == Some(Properties(entries))
    decreases |entries|
  {
    hide Field, Holds, Big, Flat;
    if entries != [] {
      var a := entries[0];
      Pow256Small();
      AssociationParts(bytes, at, entries);
      FlatSize(a.properties, width);
      ReadsNumber(bytes, at + idWidth, |a.properties|, 1);
      AssociationsRead(bytes, at + |a.id| + 1 + |Flat(a.properties)|, end, idWidth, width, entries[1..]);
    }
  }

  lemma {:induction false} AssociationsFound(
    bytes: seq<byte>, at: nat, end: nat, idWidth: nat, width: nat, count: nat) returns (entries: seq<Association>)
    requires at <= end <= |bytes| && F.AssociationEntries(bytes, at, end, idWidth, width, count).Some?
    ensures |entries| == count && LegalAssociations(entries, idWidth, width)
    ensures Holds(bytes, at, WriteAssociations(entries)) && at + |WriteAssociations(entries)| <= end
    decreases count
  {
    hide Field, Holds, Big, Flat;
    if count == 0 {
      entries := [];
      HoldsNothing(bytes, at);
    } else {
      Pow256Small();
      var n := Field(bytes, at + idWidth, 1);
      FoundNumber(bytes, at + idWidth, 1);
      NotNegative(n, width);
      var properties := FlatFound(bytes, at + idWidth + 1, n, width);
      FlatSize(properties, width);
      var rest := AssociationsFound(bytes, at + idWidth + 1 + n * width, end, idWidth, width, count - 1);
      entries := [Association(bytes[at..at + idWidth], properties)] + rest;
      assert entries[1..] == rest;
      HoldsSlice(bytes, at, at + idWidth);
      AssociationParts(bytes, at, entries);
    }
  }

  lemma PropertyParts(bytes: seq<byte>, at: nat, c: Content)
    requires c.PropertyAssociations? && LegalContent(c)
    ensures |WriteBody(c)| == 8 + |WriteAssociations(c.entries)| + |c.rest|
    ensures Holds(bytes, at, WriteBody(c)) <==>
      Holds(bytes, at, [c.version]) && Holds(bytes, at + 1, c.flags) && Holds(bytes, at + 4, Big(|c.entries|, 4)) &&
      Holds(bytes, at + 8, WriteAssociations(c.entries)) &&
      Holds(bytes, at + 8 + |WriteAssociations(c.entries)|, c.rest)
  {
    hide Holds, Big, WriteAssociations;
    HoldsSplit(bytes, at, [c.version] + c.flags + Big(|c.entries|, 4) + WriteAssociations(c.entries), c.rest);
    HoldsFour(bytes, at, [c.version], c.flags, Big(|c.entries|, 4), WriteAssociations(c.entries));
  }

  lemma FlagRead(bytes: seq<byte>, at: nat, flags: seq<byte>)
    requires |flags| == 3 && Holds(bytes, at, flags)
    ensures Field(bytes, at + 2, 1) == flags[2]
  {
    FieldOne(bytes, at + 2);
    assert bytes[at..at + 3][2] == flags[2];
  }

  lemma PropertiesRead(bytes: seq<byte>, h: F.Header, c: Content)
    requires c.PropertyAssociations? && LegalContent(c) && Fills(bytes, h, c)
    ensures F.AssociationsAt(bytes, h) == Some(PayloadOf(h.kind, c))
  {
    hide Field, Holds, Big, WriteBody, WriteAssociations, LegalAssociation;
    Pow256Small();
    var at := h.bodyStart;
    PropertyParts(bytes, at, c);
    ReadsByte(bytes, at, c.version);
    FlagRead(bytes, at + 1, c.flags);
    ReadsNumber(bytes, at + 4, |c.entries|, 4);
    AssociationsRead(bytes, at + 8, h.bodyEnd, if c.version == 0 then 2 else 4,
                     if c.flags[2] % 2 == 1 then 2 else 1, c.entries);
  }

  lemma PropertiesFound(bytes: seq<byte>, h: F.Header) returns (c: Content)
    requires F.Placed(bytes, h) && F.AssociationsAt(bytes, h).Some?
    ensures c.PropertyAssociations? && LegalContent(c) && Fills(bytes, h, c)
  {
    hide Field, Holds, Big, WriteBody, WriteAssociations, LegalAssociation;
    Pow256Small();
    var at := h.bodyStart;
    FieldOne(bytes, at);
    FieldOne(bytes, at + 3);
    FoundNumber(bytes, at + 4, 4);
    var version, flags := bytes[at], bytes[at + 1..at + 4];
    var entries := AssociationsFound(bytes, at + 8, h.bodyEnd, if version == 0 then 2 else 4,
                                     if flags[2] % 2 == 1 then 2 else 1, Field(bytes, at + 4, 4));
    var next := at + 8 + |WriteAssociations(entries)|;
    c := PropertyAssociations(version, flags, entries, bytes[next..h.bodyEnd]);
    HoldsSlice(bytes, at, at + 1);
    assert bytes[at..at + 1] == [version];
    HoldsSlice(bytes, at + 1, at + 4);
    HoldsSlice(bytes, next, h.bodyEnd);
    PropertyParts(bytes, at, c);
  }

  // ------------------------------------------------------------ brands and colour

  lemma {:induction false} BrandsRead(bytes: seq<byte>, at: nat, brands: seq<nat>)
    requires (forall i :: 0 <= i < |brands| ==> brands[i] <= U32_MAX) && Holds(bytes, at, WriteBrands(brands))
    ensures |WriteBrands(brands)| == 4 * |brands|
    ensures forall i :: 0 <= i < |brands| ==> Field(bytes, at + 4 * i, 4) == brands[i]
    decreases |brands|
  {
    hide Field, Holds, Big;
    if brands != [] {
      Pow256Small();
      HoldsSplit(bytes, at, Big(brands[0], 4), WriteBrands(brands[1..]));
      ReadsNumber(bytes, at, brands[0], 4);
      BrandsRead(bytes, at + 4, brands[1..]);
      forall i | 0 <= i < |brands| ensures Field(bytes, at + 4 * i, 4) == brands[i] {
        if i > 0 { assert Field(bytes, at + 4 + 4 * (i - 1), 4) == brands[1..][i - 1]; }
      }
    }
  }

  lemma {:induction false} BrandsFound(bytes: seq<byte>, at: nat, count: nat) returns (brands: seq<nat>)
    requires at + 4 * count <= |bytes|
    ensures |brands| == count && |WriteBrands(brands)| == 4 * count && Holds(bytes, at, WriteBrands(brands))
    ensures forall i :: 0 <= i < |brands| ==> brands[i] <= U32_MAX
    decreases count
  {
    hide Field, Holds, Big;
    if count == 0 {
      brands := [];
      HoldsNothing(bytes, at);
    } else {
      Pow256Small();
      FoundNumber(bytes, at, 4);
      var rest := BrandsFound(bytes, at + 4, count - 1);
      brands := [Field(bytes, at, 4)] + rest;
      assert brands[1..] == rest;
      HoldsSplit(bytes, at, Big(brands[0], 4), WriteBrands(rest));
    }
  }

  lemma FileTypeParts(bytes: seq<byte>, at: nat, c: Content)
    requires c.Brands? && LegalContent(c)
    ensures |WriteBody(c)| == 8 + |WriteBrands(c.brands)| + |c.rest|
    ensures Holds(bytes, at, WriteBody(c)) <==>
      Holds(bytes, at, Big(c.major, 4)) && Holds(bytes, at + 4, c.minor) &&
      Holds(bytes, at + 8, WriteBrands(c.brands)) && Holds(bytes, at + 8 + |WriteBrands(c.brands)|, c.rest)
  {
    hide Holds, Big, WriteBrands;
    HoldsFour(bytes, at, Big(c.major, 4), c.minor, WriteBrands(c.brands), c.rest);
  }

  lemma FileTypeRead(bytes: seq<byte>, h: F.Header, c: Content)
    requires c.Brands? && LegalContent(c) && Fills(bytes, h, c)
    ensures F.FileTypeAt(bytes, h) == Some(PayloadOf(h.kind, c))
  {
    hide Field, Holds, Big, WriteBody, WriteBrands, IsSequence;
    Pow256Small();
    var at := h.bodyStart;
    FileTypeParts(bytes, at, c);
    ReadsNumber(bytes, at, c.major, 4);
    BrandsRead(bytes, at + 8, c.brands);
    forall brand ensures IsSequence(brand) <==> brand in F.SEQUENCE_BRANDS { SequenceCodes(brand); }
    if i: nat :| at + 12 + 4 * i <= h.bodyEnd && F.BrandAt(bytes, h, i) in F.SEQUENCE_BRANDS {
      assert F.BrandAt(bytes, h, i) == c.brands[i] && IsSequence(c.brands[i]);
    }
    if i :| 0 <= i < |c.brands| && IsSequence(c.brands[i]) {
      assert F.BrandAt(bytes, h, i) == c.brands[i];
    }
  }

  lemma FileTypeFound(bytes: seq<byte>, h: F.Header) returns (c: Content)
    requires F.Placed(bytes, h) && F.FileTypeAt(bytes, h).Some?
    ensures c.Brands? && LegalContent(c) && Fills(bytes, h, c)
  {
    hide Field, Holds, Big, WriteBody, WriteBrands;
    Pow256Small();
    var at := h.bodyStart;
    var count := (h.bodyEnd - at - 8) / 4;
    FoundNumber(bytes, at, 4);
    var brands := BrandsFound(bytes, at + 8, count);
    c := Brands(Field(bytes, at, 4), bytes[at + 4..at + 8], brands, bytes[at + 8 + 4 * count..h.bodyEnd]);
    HoldsSlice(bytes, at + 4, at + 8);
    HoldsSlice(bytes, at + 8 + 4 * count, h.bodyEnd);
    FileTypeParts(bytes, at, c);
  }

  lemma ColourRead(bytes: seq<byte>, h: F.Header, c: Content)
    requires c.Colour? && LegalContent(c) && Fills(bytes, h, c)
    ensures F.ColourAt(bytes, h) == Some(PayloadOf(h.kind, c))
  {
    hide Field, Holds, Big, Code;
    Pow256Small();
    LeafCodes();
    HoldsSplit(bytes, h.bodyStart, Big(c.colourKind, 4), c.data);
    ReadsNumber(bytes, h.bodyStart, c.colourKind, 4);
  }

  lemma ColourFound(bytes: seq<byte>, h: F.Header) returns (c: Content)
    requires F.Placed(bytes, h) && F.ColourAt(bytes, h).Some?
    ensures c.Colour? && LegalContent(c) && Fills(bytes, h, c)
  {
    hide Field, Holds, Big, Code;
    Pow256Small();
    LeafCodes();
    var at := h.bodyStart;
    FoundNumber(bytes, at, 4);
    c := Colour(Field(bytes, at, 4), bytes[at + 4..h.bodyEnd]);
    HoldsSlice(bytes, at + 4, h.bodyEnd);
    HoldsSplit(bytes, at, Big(c.colourKind, 4), c.data);
  }
}
