/**
 * How a container is written (ISO/IEC 14496-12 section 4.2 for box structure, sections 8.11.3, 8.11.6
 * and 8.11.12 for items, and ISO/IEC 23008-12 for associations): the bytes of every box, field by field.
 *
 * Nothing here looks at a buffer. Four-character codes are spelled as such.
 */
module BoxWriting {
  import opened Prelude
  import opened ByteWriting
  import opened BoxTree

  /** A size in 32 bits, in 64 bits, or left open to the end of the enclosing region. */
  datatype Form = Short | Long | Open

  /** What precedes a body; only `uuid` has an extended type. */
  datatype Head = Head(form: Form, kind: nat, extended: seq<byte>)

  datatype Node = Node(head: Head, content: Content)

  /** Bytes nothing depends on are kept as they are. */
  datatype Content =
    | Region(prefix: seq<byte>, children: seq<Node>)
    | ItemInformation(version: byte, flags: seq<byte>, children: seq<Node>)
    | Descriptions(flags: seq<byte>, children: seq<Node>, rest: seq<byte>)
    | Entry(version: byte, flags: seq<byte>, id: nat, protection: seq<byte>, itemKind: nat, strings: seq<byte>)
    | ItemLocations(flags: seq<byte>, shape: Shape, records: seq<Location>, rest: seq<byte>)
    | ItemReferences(version: byte, flags: seq<byte>, lists: seq<RefList>)
    | TrackReferences(lists: seq<RefList>)
    | PropertyAssociations(version: byte, flags: seq<byte>, entries: seq<Association>, rest: seq<byte>)
    | Brands(major: nat, minor: seq<byte>, brands: seq<nat>, rest: seq<byte>)
    | Colour(colourKind: nat, data: seq<byte>)
    | Other(body: seq<byte>)

  /** Version and field widths of an item location box; `index` is written but unused in version 0. */
  datatype Shape = Shape(version: nat, offset: nat, length: nat, base: nat, index: nat)

  /** Construction method, data reference and base offset are in `middle`. */
  datatype Location = Location(id: nat, middle: seq<byte>, pieces: seq<Piece>)

  /** One extent: index and offset, then how many bytes it covers. */
  datatype Piece = Piece(lead: seq<byte>, length: nat)

  /** A list of references of one kind, from one item or track to others. */
  datatype RefList = RefList(head: Head, from: seq<byte>, to: seq<seq<byte>>)

  datatype Association = Association(id: seq<byte>, properties: seq<seq<byte>>)

  // -------------------------------------------------------------------- codes

  /** Boxes that hold nothing but boxes. */
  ghost predicate IsGroup(kind: nat) {
    kind == Code("iprp") || kind == Code("ipco") || kind == Code("dinf") || kind == Code("grpl") ||
    kind == Code("moov") || kind == Code("trak") || kind == Code("mdia") || kind == Code("minf") ||
    kind == Code("stbl") || kind == Code("edts") || kind == Code("j2kH")
  }

  ghost predicate IsSample(kind: nat) {
    kind == Code("hvc1") || kind == Code("av01") || kind == Code("vvc1") || kind == Code("avc1") ||
    kind == Code("mjpg") || kind == Code("j2ki")
  }

  /** Items that are pictures whatever they contain. */
  ghost predicate IsPicture(kind: nat) {
    kind == Code("hvc1") || kind == Code("av01") || kind == Code("grid") || kind == Code("tili") ||
    kind == Code("iden") || kind == Code("iovl") || kind == Code("avc1") || kind == Code("unci") ||
    kind == Code("vvc1") || kind == Code("jpeg") || kind == Code("j2k1") || kind == Code("mski")
  }

  ghost predicate IsSequence(brand: nat) {
    brand == Code("msf1") || brand == Code("isom") || brand == Code("mp41") || brand == Code("mp42")
  }

  /** Boxes with a layout of their own. */
  ghost predicate IsSpecial(kind: nat) {
    IsGroup(kind) || IsSample(kind) || kind == Code("meta") || kind == Code("dref") || kind == Code("urim") ||
    kind == Code("iinf") || kind == Code("stsd") || kind == Code("infe") || kind == Code("iloc") ||
    kind == Code("iref") || kind == Code("tref") || kind == Code("ipma") || kind == Code("ftyp") ||
    kind == Code("colr")
  }

  // ------------------------------------------------------------------ writing

  ghost function HeadSize(h: Head): nat { (if h.form == Long then 16 else 8) + |h.extended| }

  /** Size, type, and the size again in 64 bits where the first field says 1. */
  ghost function WriteHead(h: Head, body: nat): (s: seq<byte>)
    ensures |s| == HeadSize(h)
  {
    var size := HeadSize(h) + body;
    Big(if h.form == Short then size else if h.form == Long then 1 else 0, 4) + Big(h.kind, 4) +
    (if h.form == Long then Big(size, 8) else []) + h.extended
  }

  ghost function Write(n: Node): seq<byte> { WriteHead(n.head, |WriteBody(n.content)|) + WriteBody(n.content) }

  ghost function WriteAll(nodes: seq<Node>): seq<byte> {
    if nodes == [] then [] else Write(nodes[0]) + WriteAll(nodes[1..])
  }

  ghost function WriteBody(c: Content): seq<byte> {
    match c
    case Region(prefix, children) => prefix + WriteAll(children)
    case ItemInformation(version, flags, children) =>
      [version] + flags + Big(|children|, if version == 0 then 2 else 4) + WriteAll(children)
    case Descriptions(flags, children, rest) => [0] + flags + Big(|children|, 4) + WriteAll(children) + rest
    case Entry(version, flags, id, protection, itemKind, strings) =>
      [version] + flags + Big(id, if version <= 2 then 2 else 4) + protection +
      (if version <= 1 then [] else Big(itemKind, 4)) + strings
    case ItemLocations(flags, shape, records, rest) =>
      Big(shape.version, 1) + flags + Big(16 * shape.offset + shape.length, 1) + Big(16 * shape.base + shape.index, 1) +
      Big(|records|, IdWidth(shape)) + WriteLocations(shape, records) + rest
    case ItemReferences(version, flags, lists) => [version] + flags + WriteLists(lists, true)
    case TrackReferences(lists) => WriteLists(lists, false)
    case PropertyAssociations(version, flags, entries, rest) =>
      [version] + flags + Big(|entries|, 4) + WriteAssociations(entries) + rest
    case Brands(major, minor, brands, rest) => Big(major, 4) + minor + WriteBrands(brands) + rest
    case Colour(colourKind, data) => Big(colourKind, 4) + data
    case Other(body) => body
  }

  ghost function IdWidth(l: Shape): nat { if l.version < 2 then 2 else 4 }

  ghost function WriteLocations(l: Shape, records: seq<Location>): seq<byte> {
    if records == [] then [] else WriteLocation(l, records[0]) + WriteLocations(l, records[1..])
  }

  ghost function WriteLocation(l: Shape, r: Location): seq<byte> {
    Big(r.id, IdWidth(l)) + r.middle + Big(|r.pieces|, 2) + WritePieces(l, r.pieces)
  }

  ghost function WritePieces(l: Shape, pieces: seq<Piece>): seq<byte> {
    if pieces == [] then [] else pieces[0].lead + Big(pieces[0].length, l.length) + WritePieces(l, pieces[1..])
  }

  ghost function WriteLists(lists: seq<RefList>, counted: bool): seq<byte> {
    if lists == [] then [] else WriteList(lists[0], counted) + WriteLists(lists[1..], counted)
  }

  ghost function WriteList(r: RefList, counted: bool): seq<byte> {
    WriteHead(r.head, |ListBody(r, counted)|) + ListBody(r, counted)
  }

  /** Item references say how many there are; track references only fill their box. */
  ghost function ListBody(r: RefList, counted: bool): seq<byte> {
    r.from + (if counted then Big(|r.to|, 2) else []) + Flat(r.to)
  }

  ghost function Flat(parts: seq<seq<byte>>): seq<byte> {
    if parts == [] then [] else parts[0] + Flat(parts[1..])
  }

  ghost function WriteAssociations(entries: seq<Association>): seq<byte> {
    if entries == [] then [] else WriteAssociation(entries[0]) + WriteAssociations(entries[1..])
  }

  ghost function WriteAssociation(a: Association): seq<byte> {
    a.id + Big(|a.properties|, 1) + Flat(a.properties)
  }

  ghost function WriteBrands(brands: seq<nat>): seq<byte> {
    if brands == [] then [] else Big(brands[0], 4) + WriteBrands(brands[1..])
  }

  // ------------------------------------------------------------------ legality

  ghost predicate LegalHead(h: Head, body: nat) {
    h.kind <= U32_MAX && |h.extended| == (if h.kind == Code("uuid") then 16 else 0) &&
    (h.form == Short ==> HeadSize(h) + body <= U32_MAX) && HeadSize(h) + body <= U64_MAX
  }

  ghost predicate Legal(n: Node) {
    LegalHead(n.head, |WriteBody(n.content)|) && Fits(n.head.kind, n.content) && LegalContent(n.content)
  }

  /** Only the last box of a region may leave its size open. */
  ghost predicate LegalAll(nodes: seq<Node>) {
    forall i :: 0 <= i < |nodes| ==> Legal(nodes[i]) && (i < |nodes| - 1 ==> nodes[i].head.form != Open)
  }

  ghost predicate EndsOpen(nodes: seq<Node>) { nodes != [] && nodes[|nodes| - 1].head.form == Open }

  /** Which content belongs to which type, and how many bytes stand before child boxes. */
  ghost predicate Fits(kind: nat, c: Content) {
    match c
    case Region(prefix, _) =>
      || (IsGroup(kind) && prefix == [])
      // Version and flags.
      || (kind == Code("meta") && |prefix| == 4)
      // A full-box header and a count, or the fixed fields of a plain sample entry.
      || ((kind == Code("dref") || kind == Code("urim")) && |prefix| == 8)
      || (IsSample(kind) && SamplePrefix(prefix))
    case ItemInformation(_, _, _) => kind == Code("iinf")
    case Descriptions(_, _, _) => kind == Code("stsd")
    case Entry(_, _, _, _, _, _) => kind == Code("infe")
    case ItemLocations(_, _, _, _) => kind == Code("iloc")
    case ItemReferences(_, _, _) => kind == Code("iref")
    case TrackReferences(_) => kind == Code("tref")
    case PropertyAssociations(_, _, _, _) => kind == Code("ipma")
    case Brands(_, _, _, _) => kind == Code("ftyp")
    case Colour(_, _) => kind == Code("colr")
    case Other(_) => !IsSpecial(kind)
  }

  /** The fixed fields of a picture entry, in order; the tenth is a name whose first byte is its length. */
  ghost predicate SamplePrefix(prefix: seq<byte>) {
    |prefix| == 6 + 2 + 16 + 2 + 2 + 4 + 4 + 4 + 2 + 32 + 2 + 2 && prefix[6 + 2 + 16 + 2 + 2 + 4 + 4 + 4 + 2] <= 31
  }

  ghost predicate LegalContent(c: Content) {
    match c
    case Region(_, children) => LegalAll(children)
    case ItemInformation(version, flags, children) =>
      |flags| == 3 && |children| < (if version == 0 then 0x1_0000 else 0x1_0000_0000) && LegalAll(children)
    case Descriptions(flags, children, rest) =>
      |flags| == 3 && |children| <= U32_MAX && LegalAll(children) && (EndsOpen(children) ==> rest == [])
    case Entry(version, flags, id, protection, itemKind, _) =>
      version <= 3 && |flags| == 3 && id < (if version <= 2 then 0x1_0000 else 0x1_0000_0000) && |protection| == 2 &&
      itemKind <= U32_MAX && (version <= 1 ==> itemKind == 0)
    case ItemLocations(flags, shape, records, _) =>
      |flags| == 3 && LegalShape(shape) &&
      |records| < (if shape.version < 2 then 0x1_0000 else 0x1_0000_0000) &&
      forall i :: 0 <= i < |records| ==> LegalLocation(shape, records[i])
    case ItemReferences(version, flags, lists) =>
      version <= 1 && |flags| == 3 && LegalLists(lists, if version == 0 then 2 else 4, true)
    case TrackReferences(lists) => LegalLists(lists, 4, false)
    case PropertyAssociations(version, flags, entries, _) =>
      version <= 1 && |flags| == 3 && |entries| <= U32_MAX &&
      forall i :: 0 <= i < |entries| ==>
        LegalAssociation(entries[i], if version == 0 then 2 else 4, if flags[2] % 2 == 1 then 2 else 1)
    case Brands(major, minor, brands, rest) =>
      major <= U32_MAX && |minor| == 4 && |rest| < 4 && forall i :: 0 <= i < |brands| ==> brands[i] <= U32_MAX
    case Colour(colourKind, data) =>
      colourKind <= U32_MAX && ((colourKind == Code("prof") || colourKind == Code("rICC")) ==> data != [])
    case Other(_) => true
  }

  ghost predicate LegalShape(l: Shape) {
    l.version <= 2 && l.offset in {0, 4, 8} && l.length in {0, 4, 8} && l.base in {0, 4, 8} &&
    (if l.version == 0 then l.index < 16 else l.index in {0, 4, 8})
  }

  /** Construction method from version 1 on, data reference index, base offset; lengths that add up in 64 bits. */
  ghost predicate LegalLocation(l: Shape, r: Location) {
    r.id < (if l.version < 2 then 0x1_0000 else 0x1_0000_0000) &&
    |r.middle| == (if l.version == 0 then 0 else 2) + 2 + l.base && |r.pieces| < 0x1_0000 &&
    (forall i :: 0 <= i < |r.pieces| ==> LegalPiece(l, r.pieces[i])) && Covered(r.pieces) <= U64_MAX
  }

  ghost predicate LegalPiece(l: Shape, p: Piece) {
    |p.lead| == (if l.version == 0 then 0 else l.index) + l.offset && p.length < Pow256(l.length)
  }

  /** The bytes of all extents of a record. */
  ghost function Covered(pieces: seq<Piece>): nat {
    if pieces == [] then 0 else pieces[0].length + Covered(pieces[1..])
  }

  /** Lists are never empty; a track list may not leave its size open. */
  ghost predicate LegalLists(lists: seq<RefList>, idWidth: nat, counted: bool) {
    forall i :: 0 <= i < |lists| ==>
      LegalList(lists[i], idWidth, counted) && (!counted || i < |lists| - 1 ==> lists[i].head.form != Open)
  }

  ghost predicate LegalList(r: RefList, idWidth: nat, counted: bool) {
    LegalHead(r.head, |ListBody(r, counted)|) && |r.from| == (if counted then idWidth else 0) &&
    |r.to| > 0 && (counted ==> |r.to| < 0x1_0000) && Each(r.to, idWidth)
  }

  ghost predicate Each(parts: seq<seq<byte>>, width: nat) {
    forall i :: 0 <= i < |parts| ==> |parts[i]| == width
  }

  ghost predicate LegalAssociation(a: Association, idWidth: nat, width: nat) {
    |a.id| == idWidth && |a.properties| < 256 && Each(a.properties, width)
  }

  // ------------------------------------------------------------------- meaning

  /** The box tree that was written. */
  ghost function TreeOf(n: Node): Box {
    Box(PayloadOf(n.head.kind, n.content), Inside(n.content))
  }

  ghost function Inside(c: Content): seq<Box> {
    match c
    case Region(_, children) => Trees(children)
    case ItemInformation(_, _, children) => Trees(children)
    case Descriptions(_, children, _) => Trees(children)
    case _ => []
  }

  ghost function Trees(nodes: seq<Node>): (bs: seq<Box>)
    ensures |bs| == |nodes|
  {
    if nodes == [] then [] else [TreeOf(nodes[0])] + Trees(nodes[1..])
  }

  ghost function PayloadOf(kind: nat, c: Content): Payload {
    match c
    case Region(_, _) => if kind == Code("meta") then Metadata else Plain
    case Entry(version, _, id, _, itemKind, _) => Item(id, version <= 1 || !IsPicture(itemKind))
    case ItemLocations(_, _, records, _) => Locations(Extents(records), Widest(records))
    case ItemReferences(_, _, lists) => References(Targets(lists))
    case TrackReferences(lists) => References(Targets(lists))
    case PropertyAssociations(_, _, entries, _) => Associations(|entries|, Properties(entries))
    case Brands(major, _, brands, _) =>
      FileType(SequenceFile(major, brands))
    case Other(_) => if kind == Code("mini") then Minimised else Plain
    case _ => Plain
  }

  ghost predicate SequenceFile(major: nat, brands: seq<nat>) {
    IsSequence(major) || exists i :: 0 <= i < |brands| && IsSequence(brands[i])
  }

  ghost function Extents(records: seq<Location>): (extents: seq<Extent>)
    ensures |extents| == |records|
  {
    if records == [] then [] else [Extent(records[0].id, Covered(records[0].pieces))] + Extents(records[1..])
  }

  ghost function Widest(records: seq<Location>): nat {
    if records == [] then 0 else Max(|records[0].pieces|, Widest(records[1..]))
  }

  ghost function Targets(lists: seq<RefList>): nat {
    if lists == [] then 0 else |lists[0].to| + Targets(lists[1..])
  }

  ghost function Properties(entries: seq<Association>): nat {
    if entries == [] then 0 else |entries[0].properties| + Properties(entries[1..])
  }
}
