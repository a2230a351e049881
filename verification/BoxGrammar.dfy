/** The whole container format: a file reads as a box tree exactly when it is a writing of that tree. */
module BoxGrammar {
  import opened Prelude
  import opened ByteWriting
  import opened BoxTree
  import opened BoxWriting
  import opened BoxLeaves
  import F = BoxFormat

  /** Which types have children, and which a layout of their own. */
  lemma Kinds(kind: nat)
    ensures F.HasChildren(kind) <==>
      IsGroup(kind) || IsSample(kind) || kind == Code("meta") || kind == Code("dref") || kind == Code("urim") ||
      kind == Code("iinf") || kind == Code("stsd")
    ensures IsSpecial(kind) <==>
      F.HasChildren(kind) || kind in {F.INFE, F.ILOC, F.IREF, F.TREF, F.IPMA, F.FTYP, F.COLR}
  {
    hide IsGroup, IsSample, Code;
    GroupCodes(kind);
    SampleCodes(kind);
    PlaceCodes();
    LeafCodes();
  }

  /** The types of children-bearing boxes are told apart. */
  lemma Apart(kind: nat)
    ensures IsGroup(kind) ==> kind !in F.VISUAL_SAMPLE_ENTRIES && kind !in {F.META, F.IINF, F.STSD, F.DREF, F.URIM}
    ensures IsSample(kind) ==> kind !in {F.META, F.IINF, F.STSD, F.DREF, F.URIM}
  {
    GroupCodes(kind);
    SampleCodes(kind);
  }

  // --------------------------------------------------------------------- leaves

  lemma LeafRead(bytes: seq<byte>, h: F.Header, c: Content)
    requires Fits(h.kind, c) && LegalContent(c) && Fills(bytes, h, c) && !F.HasChildren(h.kind)
    ensures F.PayloadAt(bytes, h) == Some(PayloadOf(h.kind, c)) && Inside(c) == []
  {
    hide Code, Field, Holds, WriteBody, LegalContent, IsGroup, IsSample, IsSpecial, PayloadOf;
    hide F.EntryAt, F.LocationsAt, F.ReferencesAt, F.TrackReferencesAt, F.AssociationsAt, F.FileTypeAt, F.ColourAt;
    Kinds(h.kind);
    LeafCodes();
    match c {
      case Entry(_, _, _, _, _, _) => EntryRead(bytes, h, c);
      case ItemLocations(_, _, _, _) => ItemLocationsRead(bytes, h, c);
      case ItemReferences(_, _, _) => ReferencesRead(bytes, h, c);
      case TrackReferences(_) => TracksRead(bytes, h, c);
      case PropertyAssociations(_, _, _, _) => PropertiesRead(bytes, h, c);
      case Brands(_, _, _, _) => FileTypeRead(bytes, h, c);
      case Colour(_, _) => ColourRead(bytes, h, c);
      case Other(_) => OtherPayload(h.kind, c);
      case _ =>
    }
  }

  lemma OtherPayload(kind: nat, c: Content)
    requires c.Other?
    ensures PayloadOf(kind, c) == if kind == F.MINI then Minimised else Plain
  {
    hide Code;
    PlaceCodes();
  }

  lemma LeafFound(bytes: seq<byte>, h: F.Header) returns (c: Content)
    requires F.Placed(bytes, h) && F.PayloadAt(bytes, h).Some? && !F.HasChildren(h.kind)
    ensures Fits(h.kind, c) && LegalContent(c) && Fills(bytes, h, c)
  {
    hide Code, Field, LegalContent, IsGroup, IsSample, IsSpecial;
    hide F.EntryAt, F.LocationsAt, F.ReferencesAt, F.TrackReferencesAt, F.AssociationsAt, F.FileTypeAt, F.ColourAt;
    Kinds(h.kind);
    LeafCodes();
    if h.kind == F.INFE {
      c := EntryFound(bytes, h);
    } else if h.kind == F.ILOC {
      c := ItemLocationsFound(bytes, h);
    } else if h.kind == F.IREF {
      c := ReferencesFound(bytes, h);
    } else if h.kind == F.TREF {
      c := TracksFound(bytes, h);
    } else if h.kind == F.IPMA {
      c := PropertiesFound(bytes, h);
    } else if h.kind == F.FTYP {
      c := FileTypeFound(bytes, h);
    } else if h.kind == F.COLR {
      c := ColourFound(bytes, h);
    } else {
      c := OtherFound(bytes, h);
    }
  }

  lemma OtherFound(bytes: seq<byte>, h: F.Header) returns (c: Content)
    requires F.Placed(bytes, h)
    ensures c.Other? && LegalContent(c) && Fills(bytes, h, c)
  {
    c := Other(bytes[h.bodyStart..h.bodyEnd]);
  }

  // -------------------------------------------------------- what precedes children

  /** Where the children of a content begin in its body. */
  ghost function Before(c: Content): nat {
    match c
    case Region(prefix, _) => |prefix|
    case ItemInformation(version, _, _) => if version == 0 then 6 else 8
    case Descriptions(_, _, _) => 8
    case _ => 0
  }

  ghost function Nested(c: Content): seq<Node> {
    match c
    case Region(_, children) => children
    case ItemInformation(_, _, children) => children
    case Descriptions(_, children, _) => children
    case _ => []
  }

  ghost predicate HasNested(c: Content) { c.Region? || c.ItemInformation? || c.Descriptions? }

  lemma RegionParts(bytes: seq<byte>, at: nat, c: Content)
    requires c.Region?
    ensures |WriteBody(c)| == |c.prefix| + |WriteAll(c.children)|
    ensures Holds(bytes, at, WriteBody(c)) <==>
      Holds(bytes, at, c.prefix) && Holds(bytes, at + |c.prefix|, WriteAll(c.children))
  {
    hide Holds, WriteAll;
    HoldsSplit(bytes, at, c.prefix, WriteAll(c.children));
  }

  lemma InformationParts(bytes: seq<byte>, at: nat, c: Content)
    requires c.ItemInformation? && |c.flags| == 3
    ensures var w := if c.version == 0 then 2 else 4;
      && |WriteBody(c)| == 4 + w + |WriteAll(c.children)|
      && (Holds(bytes, at, WriteBody(c)) <==>
          Holds(bytes, at, [c.version]) && Holds(bytes, at + 1, c.flags) &&
          Holds(bytes, at + 4, Big(|c.children|, w)) && Holds(bytes, at + 4 + w, WriteAll(c.children)))
  {
    hide Holds, Big, WriteAll;
    var w := if c.version == 0 then 2 else 4;
    HoldsFour(bytes, at, [c.version], c.flags, Big(|c.children|, w), WriteAll(c.children));
  }

  lemma DescriptionParts(bytes: seq<byte>, at: nat, c: Content)
    requires c.Descriptions? && |c.flags| == 3
    ensures |WriteBody(c)| == 8 + |WriteAll(c.children)| + |c.rest|
    ensures Holds(bytes, at, WriteBody(c)) <==>
      Holds(bytes, at, [0]) && Holds(bytes, at + 1, c.flags) && Holds(bytes, at + 4, Big(|c.children|, 4)) &&
      Holds(bytes, at + 8, WriteAll(c.children)) && Holds(bytes, at + 8 + |WriteAll(c.children)|, c.rest)
  {
    hide Holds, Big, WriteAll;
    HoldsSplit(bytes, at, [0] + c.flags + Big(|c.children|, 4) + WriteAll(c.children), c.rest);
    HoldsFour(bytes, at, [0], c.flags, Big(|c.children|, 4), WriteAll(c.children));
  }

  // -------------------------------------------------------------------- reading

  lemma NodeSplit(bytes: seq<byte>, at: nat, nodes: seq<Node>)
    requires nodes != []
    ensures var head, n := nodes[0].head, |WriteBody(nodes[0].content)|;
      && |WriteAll(nodes)| == HeadSize(head) + n + |WriteAll(nodes[1..])|
      && (Holds(bytes, at, WriteAll(nodes)) <==>
          Holds(bytes, at, WriteHead(head, n)) && Holds(bytes, at + HeadSize(head), WriteBody(nodes[0].content)) &&
          Holds(bytes, at + HeadSize(head) + n, WriteAll(nodes[1..])))
  {
    hide Holds, WriteHead, WriteBody;
    var head, body := nodes[0].head, WriteBody(nodes[0].content);
    HoldsSplit(bytes, at, WriteHead(head, |body|) + body, WriteAll(nodes[1..]));
    HoldsSplit(bytes, at, WriteHead(head, |body|), body);
  }

  /** The head of the first node, in a region that ends at `end`. */
  lemma FirstHead(bytes: seq<byte>, at: nat, end: nat, nodes: seq<Node>)
    requires nodes != [] && LegalAll(nodes) && Holds(bytes, at, WriteAll(nodes)) && |bytes| <= MAX_SLICE
    requires at + |WriteAll(nodes)| <= end <= |bytes| && (EndsOpen(nodes) ==> at + |WriteAll(nodes)| == end)
    ensures var n := nodes[0]; var start := at + HeadSize(n.head); var next := start + |WriteBody(n.content)|;
      && start >= at + 8 && F.HeaderAt(bytes, at, end) == Some(F.Header(n.head.kind, start, next))
      && Fills(bytes, F.Header(n.head.kind, start, next), n.content) && Legal(n)
      && Holds(bytes, next, WriteAll(nodes[1..])) && next + |WriteAll(nodes[1..])| == at + |WriteAll(nodes)|
      && LegalAll(nodes[1..]) && (EndsOpen(nodes[1..]) ==> EndsOpen(nodes))
  {
    hide Holds, WriteHead, WriteBody, Legal, F.HeaderAt;
    var n := nodes[0];
    assert Legal(n);
    NodeSplit(bytes, at, nodes);
    HeadLegal(n);
    HeadSizeBound(n.head);
    if |nodes| == 1 { assert nodes[1..] == [] && WriteAll(nodes[1..]) == []; }
    HeadRead(bytes, at, end, n.head, |WriteBody(n.content)|);
  }

  lemma HeadLegal(n: Node)
    requires Legal(n)
    ensures LegalHead(n.head, |WriteBody(n.content)|) && Fits(n.head.kind, n.content) && LegalContent(n.content)
  {
  }

  lemma {:induction false} BoxesRead(bytes: seq<byte>, at: nat, end: nat, nodes: seq<Node>)
    requires LegalAll(nodes) && Holds(bytes, at, WriteAll(nodes)) && at + |WriteAll(nodes)| == end
    requires |bytes| <= MAX_SLICE
    ensures end <= |bytes| && F.Boxes(bytes, at, end) == Some(Trees(nodes))
    decreases nodes, 2
  {
    hide Holds, WriteHead, WriteBody, WriteAll, Legal, LegalAll, EndsOpen, F.HeaderAt, F.BoxAt, Fills, TreeOf;
    HoldsFits(bytes, at, WriteAll(nodes));
    if nodes == [] {
      WritesNothing();
    } else {
      var n := nodes[0];
      FirstHead(bytes, at, end, nodes);
      var h := F.HeaderAt(bytes, at, end).value;
      BoxRead(bytes, h, n);
      BoxesRead(bytes, h.bodyEnd, end, nodes[1..]);
    }
  }

  lemma WritesNothing()
    ensures WriteAll([]) == []
  {
  }

  lemma {:induction false} CountedRead(bytes: seq<byte>, at: nat, end: nat, nodes: seq<Node>)
    requires LegalAll(nodes) && Holds(bytes, at, WriteAll(nodes))
    requires at + |WriteAll(nodes)| <= end <= |bytes| <= MAX_SLICE
    requires EndsOpen(nodes) ==> at + |WriteAll(nodes)| == end
    ensures F.BoxesCounted(bytes, at, end, |nodes|) == Some(Trees(nodes))
    decreases nodes, 2
  {
    hide Holds, WriteHead, WriteBody, WriteAll, Legal, LegalAll, EndsOpen, F.HeaderAt, F.BoxAt, Fills, TreeOf;
    if nodes != [] {
      var n := nodes[0];
      FirstHead(bytes, at, end, nodes);
      var h := F.HeaderAt(bytes, at, end).value;
      BoxRead(bytes, h, n);
      CountedRead(bytes, h.bodyEnd, end, nodes[1..]);
    }
  }

  lemma {:induction false} BoxRead(bytes: seq<byte>, h: F.Header, n: Node)
    requires Legal(n) && h.kind == n.head.kind && Fills(bytes, h, n.content)
    ensures F.Placed(bytes, h) && F.BoxAt(bytes, h) == Some(TreeOf(n))
    decreases n, 1
  {
    hide F.ChildrenOf, F.PayloadAt, F.HasChildren, WriteBody, LegalContent, Fits, Inside, Code, Holds;
    HeadLegal(n);
    var c := n.content;
    if F.HasChildren(h.kind) {
      NestedFits(h.kind, c);
      ChildrenRead(bytes, h, c);
      NestedPayload(h.kind, c);
    } else {
      LeafRead(bytes, h, c);
    }
  }

  lemma NestedFits(kind: nat, c: Content)
    requires Fits(kind, c)
    ensures F.HasChildren(kind) ==> HasNested(c)
  {
    hide IsGroup, IsSample, IsSpecial, Code;
    Kinds(kind);
    LeafCodes();
  }

  lemma NestedPayload(kind: nat, c: Content)
    requires Fits(kind, c) && HasNested(c)
    ensures PayloadOf(kind, c) == if kind == F.META then Metadata else Plain
  {
    hide IsGroup, IsSample, IsSpecial, Code;
    PlaceCodes();
  }

  lemma {:induction false} ChildrenRead(bytes: seq<byte>, h: F.Header, c: Content)
    requires Fits(h.kind, c) && LegalContent(c) && Fills(bytes, h, c) && HasNested(c)
    ensures F.ChildrenOf(bytes, h) == Some(Inside(c))
    decreases c, 0
  {
    hide Code, Field, Holds, Big, WriteBody, WriteAll, Trees, IsGroup, IsSample, IsSpecial, LegalAll, EndsOpen;
    hide F.Boxes, F.BoxesCounted;
    Kinds(h.kind);
    Apart(h.kind);
    SampleCodes(h.kind);
    PlaceCodes();
    Pow256Small();
    var at := h.bodyStart;
    match c {
      case Region(prefix, children) =>
        RegionParts(bytes, at, c);
        if IsSample(h.kind) { NameLength(bytes, at, prefix); }
        BoxesRead(bytes, at + |prefix|, h.bodyEnd, children);
      case ItemInformation(version, _, children) =>
        InformationParts(bytes, at, c);
        ReadsByte(bytes, at, version);
        ReadsNumber(bytes, at + 4, |children|, if version == 0 then 2 else 4);
        BoxesRead(bytes, at + Before(c), h.bodyEnd, children);
      case Descriptions(_, children, _) =>
        DescriptionParts(bytes, at, c);
        ReadsByte(bytes, at, 0);
        ReadsNumber(bytes, at + 4, |children|, 4);
        CountedRead(bytes, at + 8, h.bodyEnd, children);
    }
  }

  /** The length of the compressor name is where the prefix has it. */
  lemma NameLength(bytes: seq<byte>, at: nat, prefix: seq<byte>)
    requires Holds(bytes, at, prefix)
    ensures |prefix| > 42 ==> Field(bytes, at + 42, 1) == prefix[42]
  {
    if |prefix| > 42 {
      FieldOne(bytes, at + 42);
      assert bytes[at..at + |prefix|][42] == prefix[42];
    }
  }

  // --------------------------------------------------------------------- finding

  /** One more node in front. */
  lemma FirstNode(bytes: seq<byte>, at: nat, h: F.Header, n: Node, rest: seq<Node>, end: nat)
    requires Legal(n) && Fills(bytes, h, n.content) && at + HeadSize(n.head) == h.bodyStart
    requires Holds(bytes, at, WriteHead(n.head, h.bodyEnd - h.bodyStart))
    requires LegalAll(rest) && Holds(bytes, h.bodyEnd, WriteAll(rest)) && h.bodyEnd + |WriteAll(rest)| <= end
    requires n.head.form == Open ==> h.bodyEnd == end
    ensures var nodes := [n] + rest;
      && LegalAll(nodes) && Holds(bytes, at, WriteAll(nodes)) && Trees(nodes) == [TreeOf(n)] + Trees(rest)
      && at + |WriteAll(nodes)| == h.bodyEnd + |WriteAll(rest)|
      && (EndsOpen(nodes) ==> EndsOpen(rest) || (rest == [] && n.head.form == Open))
  {
    hide Holds, WriteHead, WriteBody, Legal;
    var nodes := [n] + rest;
    assert nodes[1..] == rest;
    NodeSplit(bytes, at, nodes);
    if rest != [] { NodeSplit(bytes, h.bodyEnd, rest); HeadSizeBound(rest[0].head); }
  }

  lemma {:induction false} BoxesFound(bytes: seq<byte>, at: nat, end: nat) returns (nodes: seq<Node>)
    requires end <= |bytes| <= MAX_SLICE && F.Boxes(bytes, at, end).Some?
    ensures LegalAll(nodes) && Holds(bytes, at, WriteAll(nodes)) && at + |WriteAll(nodes)| == end
    ensures Trees(nodes) == F.Boxes(bytes, at, end).value
    decreases end - at, 2
  {
    hide Holds, WriteHead, WriteBody, Legal, Fills, F.HeaderAt, F.BoxAt, TreeOf, LegalAll;
    if at == end {
      nodes := [];
      NoNodes(bytes, at);
    } else {
      var h := F.HeaderAt(bytes, at, end).value;
      var head := HeadFound(bytes, at, end);
      var n := BoxFound(bytes, h, head);
      var rest := BoxesFound(bytes, h.bodyEnd, end);
      FirstNode(bytes, at, h, n, rest, end);
      nodes := [n] + rest;
    }
  }

  lemma NoNodes(bytes: seq<byte>, at: nat)
    requires at <= |bytes|
    ensures LegalAll([]) && Holds(bytes, at, WriteAll([])) && WriteAll([]) == [] && !EndsOpen([])
  {
  }

  lemma {:induction false} CountedFound(bytes: seq<byte>, at: nat, end: nat, count: nat) returns (nodes: seq<Node>)
    requires at <= end <= |bytes| <= MAX_SLICE && F.BoxesCounted(bytes, at, end, count).Some?
    ensures |nodes| == count && LegalAll(nodes) && Holds(bytes, at, WriteAll(nodes))
    ensures at + |WriteAll(nodes)| <= end && (EndsOpen(nodes) ==> at + |WriteAll(nodes)| == end)
    ensures Trees(nodes) == F.BoxesCounted(bytes, at, end, count).value
    decreases end - at, 2
  {
    hide Holds, WriteHead, WriteBody, Legal, Fills, F.HeaderAt, F.BoxAt, TreeOf, LegalAll, WriteAll, EndsOpen;
    if count == 0 {
      nodes := [];
      NoNodes(bytes, at);
    } else {
      var h := F.HeaderAt(bytes, at, end).value;
      var head := HeadFound(bytes, at, end);
      var n := BoxFound(bytes, h, head);
      var rest := CountedFound(bytes, h.bodyEnd, end, count - 1);
      FirstNode(bytes, at, h, n, rest, end);
      NoNodes(bytes, at);
      nodes := [n] + rest;
    }
  }

  lemma {:induction false} BoxFound(bytes: seq<byte>, h: F.Header, head: Head) returns (n: Node)
    requires F.Placed(bytes, h) && F.BoxAt(bytes, h).Some? && head.kind == h.kind
    requires LegalHead(head, h.bodyEnd - h.bodyStart)
    ensures n.head == head && Legal(n) && Fills(bytes, h, n.content) && TreeOf(n) == F.BoxAt(bytes, h).value
    decreases h.bodyEnd - h.bodyStart + 8, 1
  {
    hide F.ChildrenOf, F.PayloadAt, F.HasChildren, WriteBody, LegalContent, Fits, Inside, Code, Holds;
    var c;
    if F.HasChildren(h.kind) {
      c := ChildrenFound(bytes, h);
      NestedPayload(h.kind, c);
    } else {
      c := LeafFound(bytes, h);
      LeafRead(bytes, h, c);
    }
    n := Node(head, c);
  }

  lemma {:induction false} ChildrenFound(bytes: seq<byte>, h: F.Header) returns (c: Content)
    requires F.Placed(bytes, h) && F.HasChildren(h.kind) && F.ChildrenOf(bytes, h).Some?
    ensures HasNested(c) && Fits(h.kind, c) && LegalContent(c) && Fills(bytes, h, c)
    ensures Inside(c) == F.ChildrenOf(bytes, h).value
    decreases h.bodyEnd - h.bodyStart + 8, 0
  {
    hide Code, Field, Holds, Big, WriteBody, WriteAll, Trees, IsGroup, IsSample, IsSpecial, LegalAll, EndsOpen;
    hide F.Boxes, F.BoxesCounted;
    Kinds(h.kind);
    PlaceCodes();
    if h.kind == F.IINF {
      c := InformationFound(bytes, h);
    } else if h.kind == F.STSD {
      c := DescriptionsFound(bytes, h);
    } else {
      Apart(h.kind);
      SampleCodes(h.kind);
      var size := if h.kind == F.META then 4 else if h.kind == F.DREF || h.kind == F.URIM then 8
        else if IsSample(h.kind) then 78 else 0;
      c := RegionFound(bytes, h, size);
      if IsSample(h.kind) { NameLength(bytes, h.bodyStart, c.prefix); }
    }
  }

  lemma RegionFound(bytes: seq<byte>, h: F.Header, size: nat) returns (c: Content)
    requires F.Placed(bytes, h) && F.Boxes(bytes, h.bodyStart + size, h.bodyEnd).Some?
    ensures c.Region? && |c.prefix| == size && LegalContent(c) && Fills(bytes, h, c)
    ensures Holds(bytes, h.bodyStart, c.prefix)
    ensures Trees(c.children) == F.Boxes(bytes, h.bodyStart + size, h.bodyEnd).value
    decreases h.bodyEnd - h.bodyStart + 7, 3
  {
    hide Holds, WriteBody, WriteAll, Trees, LegalAll, F.Boxes;
    NotBeyond(bytes, h.bodyStart + size, h.bodyEnd);
    var children := BoxesFound(bytes, h.bodyStart + size, h.bodyEnd);
    c := Region(bytes[h.bodyStart..h.bodyStart + size], children);
    HoldsSlice(bytes, h.bodyStart, h.bodyStart + size);
    RegionParts(bytes, h.bodyStart, c);
  }

  lemma NotBeyond(bytes: seq<byte>, at: nat, end: nat)
    requires end <= |bytes| <= MAX_SLICE && F.Boxes(bytes, at, end).Some?
    ensures at <= end
  {
  }

  lemma InformationFound(bytes: seq<byte>, h: F.Header) returns (c: Content)
    requires F.Placed(bytes, h) && h.kind == F.IINF && F.ChildrenOf(bytes, h).Some?
    ensures c.ItemInformation? && LegalContent(c) && Fills(bytes, h, c)
    ensures Trees(c.children) == F.ChildrenOf(bytes, h).value
    decreases h.bodyEnd - h.bodyStart + 7, 3
  {
    hide Field, Holds, Big, WriteBody, WriteAll, LegalAll, F.Boxes, Trees;
    Pow256Small();
    var at := h.bodyStart;
    var (count, start) := F.ItemCount(bytes, h).value;
    FieldOne(bytes, at);
    var children := BoxesFound(bytes, start, h.bodyEnd);
    c := ItemInformation(bytes[at], bytes[at + 1..at + 4], children);
    FoundNumber(bytes, at + 4, start - at - 4);
    HoldsSlice(bytes, at, at + 1);
    assert bytes[at..at + 1] == [bytes[at]];
    HoldsSlice(bytes, at + 1, at + 4);
    InformationParts(bytes, at, c);
  }

  lemma DescriptionsFound(bytes: seq<byte>, h: F.Header) returns (c: Content)
    requires F.Placed(bytes, h) && h.kind == F.STSD && F.ChildrenOf(bytes, h).Some?
    ensures c.Descriptions? && LegalContent(c) && Fills(bytes, h, c)
    ensures Trees(c.children) == F.ChildrenOf(bytes, h).value
    decreases h.bodyEnd - h.bodyStart + 7, 3
  {
    hide Field, Holds, Big, WriteBody, WriteAll, LegalAll, F.BoxesCounted, Trees, EndsOpen;
    Pow256Small();
    var at := h.bodyStart;
    var count := Field(bytes, at + 4, 4);
    FieldOne(bytes, at);
    var children := CountedFound(bytes, at + 8, h.bodyEnd, count);
    var next := at + 8 + |WriteAll(children)|;
    c := Descriptions(bytes[at + 1..at + 4], children, bytes[next..h.bodyEnd]);
    FoundNumber(bytes, at + 4, 4);
    HoldsSlice(bytes, at, at + 1);
    assert bytes[at..at + 1] == [0];
    HoldsSlice(bytes, at + 1, at + 4);
    HoldsSlice(bytes, next, h.bodyEnd);
    DescriptionParts(bytes, at, c);
  }

  // ----------------------------------------------------------------- main theorems

  /** Every legal file is read as exactly the tree that was written, whatever forms its sizes take. */
  lemma WrittenIsRead(nodes: seq<Node>)
    requires LegalAll(nodes) && |WriteAll(nodes)| <= MAX_SLICE
    ensures F.Boxes(WriteAll(nodes), 0, |WriteAll(nodes)|) == Some(Trees(nodes))
  {
    HoldsWhole(WriteAll(nodes));
    BoxesRead(WriteAll(nodes), 0, |WriteAll(nodes)|, nodes);
  }

  /** A file reads as a box tree if and only if it is a legal writing of that tree. */
  lemma ReadIffWritten(bytes: seq<byte>, tree: seq<Box>)
    requires |bytes| <= MAX_SLICE
    ensures F.Boxes(bytes, 0, |bytes|) == Some(tree) <==>
      exists nodes :: LegalAll(nodes) && WriteAll(nodes) == bytes && Trees(nodes) == tree
  {
    if F.Boxes(bytes, 0, |bytes|) == Some(tree) {
      var nodes := BoxesFound(bytes, 0, |bytes|);
      HoldsAll(bytes, 0, |bytes|, WriteAll(nodes));
      assert bytes[0..|bytes|] == bytes;
    }
    if nodes :| LegalAll(nodes) && WriteAll(nodes) == bytes && Trees(nodes) == tree {
      WrittenIsRead(nodes);
    }
  }
}
