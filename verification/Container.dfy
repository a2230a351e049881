/** The structural preflight of an untrusted HEIF container. */
module Container {
  import opened Prelude
  import opened BoxTree
  import opened BoxFormat

  datatype Error = Malformed | Limit

  /** The running counters; each keeps growing from box to box and is compared with its ceiling. */
  datatype Totals = Totals(
    items: nat, ilocRecords: nat, irefReferences: nat, ipmaEntries: nat, ipmaAssociations: nat)

  ghost function Ids(s: seq<nat>): set<nat> { set x | x in s }

  ghost predicate Distinct(s: seq<nat>) {
    forall i, j :: 0 <= i < j < |s| ==> s[i] != s[j]
  }

  const IMAGE_JPEG: seq<byte> := [105, 109, 97, 103, 101, 47, 106, 112, 101, 103]

  /** Decides by type code, and for MIME items by content type, whether an item is a picture. */
  predicate IsImageItem(kind: nat, contentType: seq<byte>) {
    kind in IMAGE_TYPES || (kind == MIME && contentType == IMAGE_JPEG)
  }

  class Walk {
    const bytes: seq<byte>
    const budget: Budget
    var totals: Totals
    var boxes: nat
    var metadataItems: seq<nat>
    var extents: seq<Extent>
    var sawMeta: bool
    var sawMini: bool
    var sequenceBrand: bool

    /** The largest extent count of any record so far; the walk only ever compares it. */
    ghost var widest: nat

    constructor (bytes: seq<byte>, budget: Budget)
      requires |bytes| <= MAX_SLICE && MachineBudget(budget)
      ensures this.bytes == bytes && this.budget == budget && Valid()
      ensures Abs() == START
    {
      this.bytes := bytes;
      this.budget := budget;
      totals := Totals(0, 0, 0, 0, 0);
      boxes := 0;
      metadataItems := [];
      extents := [];
      sawMeta, sawMini, sequenceBrand := false, false, false;
      widest := 0;
    }

    ghost function Abs(): Summary
      reads this
    {
      Summary(boxes, totals.items, totals.ilocRecords, totals.irefReferences, totals.ipmaEntries,
              totals.ipmaAssociations, widest, Ids(metadataItems), extents, sawMeta, sawMini, Some(sequenceBrand))
    }

    ghost predicate Valid()
      reads this
    {
      |bytes| <= MAX_SLICE && MachineBudget(budget) && Within(Abs(), budget) &&
      Distinct(metadataItems) && |Ids(metadataItems)| == |metadataItems|
    }

    // --------------------------------------------------------------- readers

    method Read(offset: nat, length: nat, end: nat) returns (r: Result<seq<byte>, Error>)
      requires |bytes| <= MAX_SLICE
      ensures r.Ok? <==> offset + length <= end && offset + length <= |bytes|
      ensures r.Ok? ==> r.value == bytes[offset..offset + length]
    {
      var stop := CheckedAdd(offset, length, USIZE_MAX);
      if stop.None? || stop.value > end || stop.value > |bytes| { return Err(Malformed); }
      return Ok(bytes[offset..stop.value]);
    }

    method Advance(offset: nat, length: nat, end: nat) returns (r: Result<nat, Error>)
      requires end <= MAX_SLICE
      ensures r.Ok? <==> offset + length <= end
      ensures r.Ok? ==> r.value == offset + length
    {
      var stop := CheckedAdd(offset, length, USIZE_MAX);
      if stop.None? || stop.value > end { return Err(Malformed); }
      return Ok(stop.value);
    }

    method ReadU8(offset: nat, end: nat) returns (r: Result<nat, Error>)
      requires end <= |bytes| <= MAX_SLICE
      ensures r.Ok? <==> offset + 1 <= end
      ensures r.Ok? ==> r.value == Field(bytes, offset, 1) < 0x100
    {
      var slice := Read(offset, 1, end);
      if slice.Err? { return Err(Malformed); }
      return Ok(slice.value[0]);
    }

    method ReadU16(offset: nat, end: nat) returns (r: Result<nat, Error>)
      requires end <= |bytes| <= MAX_SLICE
      ensures r.Ok? <==> offset + 2 <= end
      ensures r.Ok? ==> r.value == Field(bytes, offset, 2) < 0x1_0000
    {
      var slice := Read(offset, 2, end);
      if slice.Err? { return Err(Malformed); }
      return Ok(0x100 * (slice.value[0] as int) + slice.value[1]);
    }

    method ReadU32(offset: nat, end: nat) returns (r: Result<nat, Error>)
      requires end <= |bytes| <= MAX_SLICE
      ensures r.Ok? <==> offset + 4 <= end
      ensures r.Ok? ==> r.value == Field(bytes, offset, 4) <= U32_MAX
    {
      var slice := Read(offset, 4, end);
      if slice.Err? { return Err(Malformed); }
      var b := slice.value;
      return Ok(0x100_0000 * (b[0] as int) + 0x1_0000 * (b[1] as int) + 0x100 * (b[2] as int) + b[3]);
    }

    method ReadUint(offset: nat, width: nat, end: nat) returns (r: Result<nat, Error>)
      requires end <= |bytes| <= MAX_SLICE && width in {0, 4, 8}
      ensures r.Ok? <==> width == 0 || offset + width <= end
      ensures r.Ok? ==> r.value == Field(bytes, offset, width) <= U64_MAX
    {
      if width == 0 {
        return Ok(0);
      } else if width == 4 {
        r := ReadU32(offset, end);
      } else {
        var high := ReadU32(offset, end);
        if high.Err? { return Err(high.error); }
        var low := ReadU32(offset + 4, end);
        if low.Err? { return Err(low.error); }
        FieldSplit(bytes, offset, 4, 4);
        Pow256Small();
        return Ok(high.value * 0x1_0000_0000 + low.value);
      }
    }

    /** Returns a string and where the next field starts; only an offset beyond the box is refused. */
    method ReadCString(offset: nat, end: nat) returns (r: Result<(seq<byte>, nat), Error>)
      requires end <= |bytes| <= MAX_SLICE
      ensures r.Ok? <==> offset <= end
      ensures r.Ok? ==> AfterString(bytes, offset, end) == Some(r.value.1)
      ensures r.Ok? ==> r.value.0 == bytes[offset..Max(offset, r.value.1 - 1)]
    {
      if offset > end || end > |bytes| { return Err(Malformed); }
      var at := offset;
      while at < end && bytes[at] != 0
        invariant offset <= at <= end
        invariant AfterString(bytes, offset, end) == AfterString(bytes, at, end)
      {
        at := at + 1;
      }
      if at < end { return Ok((bytes[offset..at], at + 1)); }
      if offset < end { return Ok((bytes[offset..end - 1], end)); }
      return Ok(([], end));
    }

    method ReadHeader(offset: nat, limit: nat) returns (r: Result<Header, Error>)
      requires limit <= |bytes| <= MAX_SLICE
      ensures r.Ok? <==> HeaderAt(bytes, offset, limit).Some?
      ensures r.Ok? ==> r.value == HeaderAt(bytes, offset, limit).value
    {
      hide Field;
      var room := Read(offset, 8, limit);
      if room.Err? { return Err(Malformed); }
      var size := ReadU32(offset, limit);
      var kind := ReadU32(offset + 4, limit);
      if size.Err? || kind.Err? { return Err(Malformed); }
      var boxLength, headerLength := size.value, 8;
      if size.value == 0 {
        boxLength := limit - offset;
      } else if size.value == 1 {
        if offset + 16 > limit { return Err(Malformed); }
        var large := ReadUint(offset + 8, 8, limit);
        if large.Err? { return Err(Malformed); }
        boxLength, headerLength := large.value, 16;
      }
      if kind.value == UUID { headerLength := headerLength + 16; }
      if boxLength < headerLength { return Err(Malformed); }
      var bodyStart := CheckedAdd(offset, headerLength, USIZE_MAX);
      var bodyEnd := CheckedAdd(offset, boxLength, USIZE_MAX);
      if bodyStart.None? || bodyEnd.None? || bodyEnd.value > limit { return Err(Malformed); }
      return Ok(Header(kind.value, bodyStart.value, bodyEnd.value));
    }

    // ------------------------------------------------------------ descending

    /**
     * Walks the boxes that fill a region and returns how many there were.
     *
     * Every enclosing visit consumed a header of at least eight bytes, so the depth is
     * bounded by the file as well as by the budget.
     */
    method WalkBoxes(start: nat, end: nat, depth: nat) returns (r: Result<nat, Error>)
      requires Valid() && end <= |bytes| && depth <= budget.maxDepth + 1 && 8 * depth <= start
      modifies this
      ensures r.Ok? <==> Completes(old(Abs()), Boxes(bytes, start, end), depth, budget)
      ensures r.Ok? ==> Valid() && Abs() == Join(old(Abs()), SumAll(Boxes(bytes, start, end).value))
      ensures r.Ok? ==> r.value == |Boxes(bytes, start, end).value|
      decreases end - start, 2
    {
      if start > end { return Err(Malformed); }
      var offset, seen := start, 0;
      ghost var before, all := Abs(), Boxes(bytes, start, end);
      ghost var goal, rest := Completes(before, all, depth, budget), all;
      while offset < end
        invariant start <= offset <= end && Valid()
        invariant rest == Boxes(bytes, offset, end)
        invariant goal <==> Completes(Abs(), rest, depth, budget)
        invariant goal ==> Join(Abs(), SumAll(rest.value)) == Join(before, SumAll(all.value))
        invariant goal ==> seen + |rest.value| == |all.value|
      {
        var header := ReadHeader(offset, end);
        if header.Err? { return Err(Malformed); }
        ghost var head, tail := BoxAt(bytes, header.value), Boxes(bytes, header.value.bodyEnd, end);
        if head.Some? && tail.Some? { CompletesCons(Abs(), head.value, tail.value, depth, budget); }
        var visited := Visit(header.value, depth);
        if visited.Err? { return Err(visited.error); }
        rest := tail;
        seen := seen + 1;
        offset := header.value.bodyEnd;
      }
      CompletesNothing(Abs(), depth, budget);
      return Ok(seen);
    }

    /** Counts one box and dispatches it by type. */
    method Visit(h: Header, depth: nat) returns (r: Result<(), Error>)
      requires Valid() && Placed(bytes, h) && depth <= budget.maxDepth + 1 && 8 * (depth + 1) <= h.bodyStart
      modifies this
      ensures r.Ok? <==> CompletesBox(old(Abs()), BoxAt(bytes, h), depth, budget)
      ensures r.Ok? ==> Valid() && Abs() == Join(old(Abs()), Sum(BoxAt(bytes, h).value))
      decreases h.bodyEnd - h.bodyStart + 8, 1
    {
      ghost var before, box := Abs(), BoxAt(bytes, h);
      if box.Some? {
        CompletesNode(before, box.value, depth, budget);
        if !HasChildren(h.kind) { CompletesLeaf(before, box.value, depth, budget); }
      }
      if depth > budget.maxDepth { return Err(Limit); }
      var counted := CountBox();
      if counted.Err? { return Err(Limit); }
      if HasChildren(h.kind) {
        r := Descend(h, depth);
      } else {
        r := VisitLeaf(h);
      }
    }

    method CountBox() returns (r: Result<(), Error>)
      requires Valid()
      modifies this`boxes
      ensures r.Ok? <==> Within(Join(old(Abs()), Unit()), budget)
      ensures r.Ok? ==> Valid() && Abs() == Join(old(Abs()), Unit())
    {
      JoinZero(Abs());
      assert Join(Abs(), Unit()) == Abs().(boxes := boxes + 1);
      var sum := CheckedAdd(boxes, 1, U32_MAX);
      if sum.None? || sum.value > budget.maxBoxes { return Err(Limit); }
      boxes := sum.value;
      return Ok(());
    }

    /** Walks the children of an already counted box. */
    method Descend(h: Header, depth: nat) returns (r: Result<(), Error>)
      requires Valid() && Placed(bytes, h) && depth <= budget.maxDepth && 8 * (depth + 1) <= h.bodyStart
      requires HasChildren(h.kind)
      modifies this
      ensures var before := Join(old(Abs()), Own(if h.kind == META then Metadata else Plain));
        (r.Ok? <==> Completes(before, ChildrenOf(bytes, h), depth + 1, budget)) &&
        (r.Ok? ==> Valid() && Abs() == Join(before, SumAll(ChildrenOf(bytes, h).value)))
      decreases h.bodyEnd - h.bodyStart + 8, 0
    {
      hide Completes, Join, SumAll, Within, Boxes;
      AddMark(Abs(), Metadata, budget);
      AddPlain(Abs(), budget);
      var walked;
      if h.kind == META {
        sawMeta := true;
        walked := WalkBoxes(h.bodyStart + 4, h.bodyEnd, depth + 1);
      } else if h.kind == IINF {
        walked := ParseIinf(h, depth);
      } else if h.kind == STSD {
        walked := ParseStsd(h, depth);
      } else if h.kind == DREF || h.kind == URIM {
        walked := WalkBoxes(h.bodyStart + 8, h.bodyEnd, depth + 1);
      } else if h.kind in VISUAL_SAMPLE_ENTRIES {
        walked := WalkVisualSampleEntry(h, depth);
      } else {
        walked := WalkBoxes(h.bodyStart, h.bodyEnd, depth + 1);
      }
      if walked.Err? { return Err(walked.error); }
      return Ok(());
    }

    /** Completes exactly when the boxes behind the 78-byte prefix do; returns how many there were. */
    method WalkVisualSampleEntry(h: Header, depth: nat) returns (r: Result<nat, Error>)
      requires Valid() && Placed(bytes, h) && depth <= budget.maxDepth && 8 * (depth + 1) <= h.bodyStart
      requires h.kind in VISUAL_SAMPLE_ENTRIES
      modifies this
      ensures r.Ok? <==> Completes(old(Abs()), ChildrenOf(bytes, h), depth + 1, budget)
      ensures r.Ok? ==> Valid() && Abs() == Join(old(Abs()), SumAll(ChildrenOf(bytes, h).value))
      decreases h.bodyEnd - h.bodyStart + 7, 3
    {
      hide Join, SumAll, Within, Boxes;
      var prefix := Read(h.bodyStart, VISUAL_SAMPLE_ENTRY_PREFIX, h.bodyEnd);
      if prefix.Err? { return Err(Malformed); }
      if prefix.value[VISUAL_SAMPLE_ENTRY_NAME_LENGTH] > 31 { return Err(Malformed); }
      r := WalkBoxes(h.bodyStart + VISUAL_SAMPLE_ENTRY_PREFIX, h.bodyEnd, depth + 1);
    }

    /** Reads an item information box, whose declared count must match the entries present. */
    method ParseIinf(h: Header, depth: nat) returns (r: Result<nat, Error>)
      requires Valid() && Placed(bytes, h) && depth <= budget.maxDepth && 8 * (depth + 1) <= h.bodyStart
      requires h.kind == IINF
      modifies this
      ensures r.Ok? <==> Completes(old(Abs()), ChildrenOf(bytes, h), depth + 1, budget)
      ensures r.Ok? ==> Valid() && Abs() == Join(old(Abs()), SumAll(ChildrenOf(bytes, h).value))
      decreases h.bodyEnd - h.bodyStart + 7, 3
    {
      hide Join, SumAll, Within, Boxes;
      var version := ReadU8(h.bodyStart, h.bodyEnd);
      if version.Err? { return Err(Malformed); }
      var offset := h.bodyStart + 4;
      var declared;
      if version.value == 0 {
        declared := ReadU16(offset, h.bodyEnd);
        offset := offset + 2;
      } else {
        declared := ReadU32(offset, h.bodyEnd);
        offset := offset + 4;
      }
      if declared.Err? { return Err(Malformed); }
      assert ItemCount(bytes, h) == Some((declared.value, offset));
      r := WalkBoxes(offset, h.bodyEnd, depth + 1);
      if r.Ok? && r.value != declared.value { return Err(Malformed); }
    }

    /** Reads a sample description box: the declared entries, and nothing after them. */
    method ParseStsd(h: Header, depth: nat) returns (r: Result<nat, Error>)
      requires Valid() && Placed(bytes, h) && depth <= budget.maxDepth && 8 * (depth + 1) <= h.bodyStart
      requires h.kind == STSD
      modifies this
      ensures r.Ok? <==> Completes(old(Abs()), ChildrenOf(bytes, h), depth + 1, budget)
      ensures r.Ok? ==> Valid() && Abs() == Join(old(Abs()), SumAll(ChildrenOf(bytes, h).value))
      decreases h.bodyEnd - h.bodyStart + 7, 3
    {
      hide Join, SumAll, Within, BoxesCounted;
      var version := ReadU8(h.bodyStart, h.bodyEnd);
      if version.Err? || version.value != 0 { return Err(Malformed); }
      var count := ReadU32(h.bodyStart + 4, h.bodyEnd);
      if count.Err? { return Err(Malformed); }
      r := WalkCounted(h.bodyStart + 8, h.bodyEnd, count.value, depth + 1);
    }

    method WalkCounted(start: nat, end: nat, count: nat, depth: nat) returns (r: Result<nat, Error>)
      requires Valid() && start <= end <= |bytes| && depth <= budget.maxDepth + 1 && 8 * depth <= start
      modifies this
      ensures r.Ok? <==> Completes(old(Abs()), BoxesCounted(bytes, start, end, count), depth, budget)
      ensures r.Ok? ==> Valid() && Abs() == Join(old(Abs()), SumAll(BoxesCounted(bytes, start, end, count).value))
      decreases end - start, 2
    {
      var offset := start;
      ghost var before, all := Abs(), BoxesCounted(bytes, start, end, count);
      ghost var goal, rest := Completes(before, all, depth, budget), all;
      for i := 0 to count
        invariant start <= offset <= end && Valid()
        invariant rest == BoxesCounted(bytes, offset, end, count - i)
        invariant goal <==> Completes(Abs(), rest, depth, budget)
        invariant goal ==> Join(Abs(), SumAll(rest.value)) == Join(before, SumAll(all.value))
      {
        if offset >= end { return Err(Malformed); }
        var header := ReadHeader(offset, end);
        if header.Err? { return Err(Malformed); }
        ghost var head := BoxAt(bytes, header.value);
        ghost var tail := BoxesCounted(bytes, header.value.bodyEnd, end, count - i - 1);
        if head.Some? && tail.Some? { CompletesCons(Abs(), head.value, tail.value, depth, budget); }
        var visited := Visit(header.value, depth);
        if visited.Err? { return Err(visited.error); }
        rest := tail;
        offset := header.value.bodyEnd;
      }
      CompletesNothing(Abs(), depth, budget);
      return Ok(count);
    }

    // ------------------------------------------------------------- whole file

    /** Decides whether the byte charge of the remembered items is within its ceiling. */
    method CheckMetadataBytes() returns (r: Result<(), Error>)
      requires Valid()
      ensures r.Ok? <==> Charge(Ids(metadataItems), extents) <= budget.maxMetadataBytes
    {
      hide Charge, Largest;
      var total: nat := 0;
      ChargeNothing(extents);
      for i := 0 to |metadataItems|
        invariant Charge(Ids(metadataItems), extents) == total + Charge(Ids(metadataItems[i..]), extents)
      {
        var id := metadataItems[i];
        assert Ids(metadataItems[i..]) - {id} == Ids(metadataItems[i + 1..]) by {
          assert metadataItems[i..] == [id] + metadataItems[i + 1..];
        }
        ChargeSplit(Ids(metadataItems[i..]), extents, id);
        var largest := LargestExtent(id);
        var sum := CheckedAdd(total, largest, U64_MAX);
        if sum.None? { return Err(Limit); }
        total := sum.value;
      }
      assert Ids(metadataItems[|metadataItems|..]) == {};
      if total > budget.maxMetadataBytes { return Err(Limit); }
      return Ok(());
    }

    method LargestExtent(id: nat) returns (largest: nat)
      ensures largest == Largest(extents, id)
    {
      largest := 0;
      for i := 0 to |extents|
        invariant largest == Largest(extents[..i], id)
      {
        assert extents[..i + 1][..i] == extents[..i];
        if extents[i].id == id { largest := Max(largest, extents[i].bytes); }
      }
      assert extents[..|extents|] == extents;
    }

    method Run() returns (r: Result<(), Error>)
      requires Valid() && Abs() == START
      modifies this
      ensures r.Ok? <==> Acceptable(bytes, budget)
    {
      hide HeightAll, Affordable, Join, SumAll, Within, Boxes, Charge;
      ghost var top := Boxes(bytes, 0, |bytes|);
      if top.Some? { AffordableFromStart(top.value, budget); }
      var walked := WalkBoxes(0, |bytes|, 0);
      if walked.Err? { return Err(walked.error); }
      if !sawMeta && !sawMini && !sequenceBrand { return Err(Malformed); }
      r := CheckMetadataBytes();
    }

    method VisitLeaf(h: Header) returns (r: Result<(), Error>)
      requires Valid() && Placed(bytes, h)
      modifies this
      ensures r.Ok? <==> Adds(old(Abs()), PayloadAt(bytes, h), budget)
      ensures r.Ok? ==> Valid() && Abs() == Join(old(Abs()), Own(PayloadAt(bytes, h).value))
    {
      if h.kind == INFE {
        r := ParseInfe(h);
      } else if h.kind == ILOC {
        r := ParseIloc(h);
      } else if h.kind == IREF {
        r := ParseIref(h);
      } else if h.kind == IPMA {
        r := ParseIpma(h);
      } else if h.kind == TREF {
        r := ParseTref(h);
      } else if h.kind == FTYP {
        r := ParseFtyp(h);
      } else if h.kind == COLR {
        AddPlain(Abs(), budget);
        r := ParseColr(h);
      } else if h.kind == MINI {
        AddMark(Abs(), Minimised, budget);
        sawMini := true;
        r := Ok(());
      } else {
        AddPlain(Abs(), budget);
        r := Ok(());
      }
    }

    // ---------------------------------------------------------------- leaves

    /** Adds one item to the totals, exactly when the entry parses and leaves them within budget. */
    method ParseInfe(h: Header) returns (r: Result<(), Error>)
      requires Valid() && Placed(bytes, h)
      modifies this`totals, this`metadataItems
      ensures r.Ok? <==> Adds(old(Abs()), EntryAt(bytes, h), budget)
      ensures r.Ok? ==> Valid() && Abs() == Join(old(Abs()), Own(EntryAt(bytes, h).value))
    {
      var entry := ReadEntry(h);
      if entry.Err? { return Err(entry.error); }
      r := AddEntry(entry.value.0, entry.value.1, entry.value.2);
    }

    method AddEntry(id: nat, kind: nat, contentType: seq<byte>) returns (r: Result<(), Error>)
      requires Valid()
      modifies this`totals, this`metadataItems
      ensures var payload := Item(id, kind !in IMAGE_TYPES);
        (r.Ok? <==> Adds(old(Abs()), Some(payload), budget)) &&
        (r.Ok? ==> Valid() && Abs() == Join(old(Abs()), Own(payload)))
    {
      AddItem(Abs(), id, kind !in IMAGE_TYPES, budget);
      var items := CheckedAdd(totals.items, 1, U32_MAX);
      if items.None? || items.value > budget.maxItems { return Err(Limit); }
      totals := totals.(items := items.value);
      if IsImageItem(kind, contentType) && kind != MIME { return Ok(()); }
      assert kind !in IMAGE_TYPES;
      r := Remember(id);
    }

    /** Keeps the first declaration of an eagerly loaded item. */
    method Remember(id: nat) returns (r: Result<(), Error>)
      requires Distinct(metadataItems) && |Ids(metadataItems)| == |metadataItems|
      modifies this`metadataItems
      ensures r.Ok? <==> id in old(metadataItems) || |old(metadataItems)| + 1 <= budget.maxMetadataItems
      ensures r.Ok? ==> Distinct(metadataItems) && |Ids(metadataItems)| == |metadataItems|
      ensures r.Ok? ==> Ids(metadataItems) == Ids(old(metadataItems)) + {id}
    {
      if id in metadataItems {
        assert Ids(metadataItems) + {id} == Ids(metadataItems);
        return Ok(());
      }
      assert Ids(metadataItems + [id]) == Ids(metadataItems) + {id};
      if |metadataItems| >= budget.maxMetadataItems { return Err(Limit); }
      metadataItems := metadataItems + [id];
      return Ok(());
    }

    /** The fields of an entry: identifier, type code (0 in the old layout) and content type. */
    method ReadEntry(h: Header) returns (r: Result<(nat, nat, seq<byte>), Error>)
      requires Valid() && Placed(bytes, h)
      ensures r.Ok? <==> EntryAt(bytes, h).Some?
      ensures r.Ok? ==> EntryAt(bytes, h) == Some(Item(r.value.0, r.value.1 !in IMAGE_TYPES))
    {
      var end := h.bodyEnd;
      var version := ReadU8(h.bodyStart, end);
      if version.Err? { return Err(Malformed); }
      if version.value > 3 { return Err(Malformed); }
      var offset := h.bodyStart + 4;
      if version.value <= 1 {
        var id := ReadU16(offset, end);
        if id.Err? { return Err(Malformed); }
        var content := ReadOldStrings(offset + 4, end);
        if content.Err? { return Err(Malformed); }
        return Ok((id.value, 0, content.value));
      }
      var id;
      if version.value == 2 { id := ReadU16(offset, end); } else { id := ReadU32(offset, end); }
      if id.Err? { return Err(Malformed); }
      offset := offset + (if version.value == 2 then 2 else 4) + 2;
      var kind := ReadU32(offset, end);
      if kind.Err? { return Err(Malformed); }
      var content := ReadStrings(kind.value, offset + 4, end);
      if content.Err? { return Err(Malformed); }
      return Ok((id.value, kind.value, content.value));
    }

    /** Name, content type and encoding; the content type is kept. */
    method ReadOldStrings(offset: nat, end: nat) returns (r: Result<seq<byte>, Error>)
      requires end <= |bytes| <= MAX_SLICE
      ensures r.Ok? <==> AfterStrings(bytes, offset, end, 3).Some?
    {
      var name := ReadCString(offset, end);
      if name.Err? { return Err(Malformed); }
      var contentType := ReadCString(name.value.1, end);
      if contentType.Err? { return Err(Malformed); }
      var encoding := ReadCString(contentType.value.1, end);
      if encoding.Err? { return Err(Malformed); }
      assert AfterStrings(bytes, contentType.value.1, end, 1).Some?;
      assert AfterStrings(bytes, name.value.1, end, 2).Some?;
      return Ok(contentType.value.0);
    }

    method ReadStrings(kind: nat, offset: nat, end: nat) returns (r: Result<seq<byte>, Error>)
      requires end <= |bytes| <= MAX_SLICE
      ensures r.Ok? <==> AfterStrings(bytes, offset, end, if kind == MIME || kind == URI then 2 else 1).Some?
    {
      var name := ReadCString(offset, end);
      if name.Err? { return Err(Malformed); }
      assert AfterStrings(bytes, name.value.1, end, 0).Some?;
      var contentType := [];
      if kind == MIME {
        var content := ReadCString(name.value.1, end);
        if content.Err? { return Err(Malformed); }
        assert AfterStrings(bytes, content.value.1, end, 0).Some?;
        contentType := content.value.0;
      }
      if kind == URI {
        var uri := ReadCString(name.value.1, end);
        if uri.Err? { return Err(Malformed); }
        assert AfterStrings(bytes, uri.value.1, end, 0).Some?;
      }
      assert AfterStrings(bytes, name.value.1, end, 1).Some?;
      return Ok(contentType);
    }

    /** Adds the references of all lists of a box, exactly when each list fills its own extent. */
    method ParseIref(h: Header) returns (r: Result<(), Error>)
      requires Valid() && Placed(bytes, h)
      modifies this`totals
      ensures r.Ok? <==> Adds(old(Abs()), ReferencesAt(bytes, h), budget)
      ensures r.Ok? ==> Valid() && Abs() == Join(old(Abs()), Own(ReferencesAt(bytes, h).value))
    {
      hide ItemLists, Listed, ReferencesAt, Join, Within;
      var idSize := ReadReferenceWidth(h);
      if idSize.Err? { return Err(Malformed); }
      r := AddItemLists(h.bodyStart + 4, h.bodyEnd, idSize.value);
    }

    method AddItemLists(start: nat, end: nat, idSize: nat) returns (r: Result<(), Error>)
      requires Valid() && start <= end <= |bytes| && idSize in {2, 4}
      modifies this`totals
      ensures r.Ok? <==> Adds(old(Abs()), Listed(ItemLists(bytes, start, end, idSize)), budget)
      ensures r.Ok? ==> Valid() && Abs() == Join(old(Abs()), Own(Listed(ItemLists(bytes, start, end, idSize)).value))
    {
      ghost var all := ItemLists(bytes, start, end, idSize);
      if all.Some? { AddReferences(Abs(), all.value, budget); }
      r := CountItemLists(start, end, idSize);
    }

    /** Identifiers take two or four bytes by version; a body of fewer than four bytes has neither. */
    method ReadReferenceWidth(h: Header) returns (r: Result<nat, Error>)
      requires Placed(bytes, h)
      ensures r.Err? ==> ReferencesAt(bytes, h).None?
      ensures r.Ok? ==> r.value in {2, 4} && h.bodyStart + 4 <= h.bodyEnd
      ensures r.Ok? ==> ReferencesAt(bytes, h) == Listed(ItemLists(bytes, h.bodyStart + 4, h.bodyEnd, r.value))
    {
      var head := Read(h.bodyStart, 4, h.bodyEnd);
      if head.Err? { return Err(Malformed); }
      var version := ReadU8(h.bodyStart, h.bodyEnd);
      if version.Err? || version.value > 1 { return Err(Malformed); }
      return Ok(if version.value == 0 then 2 else 4);
    }

    method CountItemLists(start: nat, end: nat, idSize: nat) returns (r: Result<(), Error>)
      requires start <= end <= |bytes| <= MAX_SLICE && idSize in {2, 4}
      requires totals.irefReferences <= budget.maxItems <= U32_MAX
      modifies this`totals
      ensures r.Ok? <==> CountFits(ItemLists(bytes, start, end, idSize), old(totals).irefReferences, budget.maxItems)
      ensures r.Ok? ==> totals == old(totals).(irefReferences :=
        old(totals).irefReferences + ItemLists(bytes, start, end, idSize).value)
    {
      hide Field, HeaderAt;
      var offset := start;
      ghost var goal := CountFits(ItemLists(bytes, start, end, idSize), totals.irefReferences, budget.maxItems);
      ghost var before := totals;
      while offset < end
        invariant start <= offset <= end
        invariant before.irefReferences <= totals.irefReferences <= budget.maxItems
        invariant totals == before.(irefReferences := totals.irefReferences)
        invariant goal <==> CountFits(ItemLists(bytes, offset, end, idSize), totals.irefReferences, budget.maxItems)
        invariant goal ==>
          totals.irefReferences + ItemLists(bytes, offset, end, idSize).value ==
          before.irefReferences + ItemLists(bytes, start, end, idSize).value
      {
        var child := ReadHeader(offset, end);
        if child.Err? { return Err(Malformed); }
        var count := ReadU16(child.value.bodyStart + idSize, child.value.bodyEnd);
        if count.Err? { return Err(Malformed); }
        if count.value == 0 { return Err(Malformed); }
        var counted := CountReferences(count.value);
        if counted.Err? { return Err(Limit); }
        var expected := CheckedAdd(child.value.bodyStart, idSize + 2 + count.value * idSize, USIZE_MAX);
        if expected.None? { return Err(Limit); }
        if expected.value != child.value.bodyEnd { return Err(Malformed); }
        offset := child.value.bodyEnd;
      }
      return Ok(());
    }

    method CountReferences(count: nat) returns (r: Result<(), Error>)
      requires budget.maxItems <= U32_MAX
      modifies this`totals
      ensures r.Ok? <==> old(totals).irefReferences + count <= budget.maxItems
      ensures r.Ok? ==> totals == old(totals).(irefReferences := old(totals).irefReferences + count)
    {
      var sum := CheckedAdd(totals.irefReferences, count, U32_MAX);
      if sum.None? || sum.value > budget.maxItems { return Err(Limit); }
      totals := totals.(irefReferences := sum.value);
      return Ok(());
    }

    /** Reads a track reference box, counting the destinations of every list. */
    method ParseTref(h: Header) returns (r: Result<(), Error>)
      requires Valid() && Placed(bytes, h)
      modifies this`totals
      ensures r.Ok? <==> Adds(old(Abs()), TrackReferencesAt(bytes, h), budget)
      ensures r.Ok? ==> Valid() && Abs() == Join(old(Abs()), Own(TrackReferencesAt(bytes, h).value))
    {
      ghost var all := TrackLists(bytes, h.bodyStart, h.bodyEnd);
      if all.Some? { AddReferences(Abs(), all.value, budget); }
      r := CountTrackLists(h.bodyStart, h.bodyEnd);
    }

    method CountTrackLists(start: nat, end: nat) returns (r: Result<(), Error>)
      requires start <= end <= |bytes| <= MAX_SLICE
      requires totals.irefReferences <= budget.maxItems <= U32_MAX
      modifies this`totals
      ensures r.Ok? <==> CountFits(TrackLists(bytes, start, end), old(totals).irefReferences, budget.maxItems)
      ensures r.Ok? ==> totals == old(totals).(irefReferences :=
        old(totals).irefReferences + TrackLists(bytes, start, end).value)
    {
      var offset := start;
      ghost var goal := CountFits(TrackLists(bytes, start, end), totals.irefReferences, budget.maxItems);
      ghost var before := totals;
      while offset < end
        invariant start <= offset <= end
        invariant before.irefReferences <= totals.irefReferences <= budget.maxItems
        invariant totals == before.(irefReferences := totals.irefReferences)
        invariant goal <==> CountFits(TrackLists(bytes, offset, end), totals.irefReferences, budget.maxItems)
        invariant goal ==>
          totals.irefReferences + TrackLists(bytes, offset, end).value ==
          before.irefReferences + TrackLists(bytes, start, end).value
      {
        var declared := ReadU32(offset, end);
        if declared.Err? { return Err(Malformed); }
        if declared.value == 0 { return Err(Malformed); }
        var child := ReadHeader(offset, end);
        if child.Err? { return Err(Malformed); }
        var length := child.value.bodyEnd - child.value.bodyStart;
        if length < 4 || length % 4 != 0 { return Err(Malformed); }
        var count := length / 4;
        if count > U32_MAX { return Err(Limit); }
        var counted := CountReferences(count);
        if counted.Err? { return Err(Limit); }
        offset := child.value.bodyEnd;
      }
      return Ok(());
    }

    /** Reads the file type box; the brands are compared in place. */
    method ParseFtyp(h: Header) returns (r: Result<(), Error>)
      requires Valid() && Placed(bytes, h)
      modifies this`sequenceBrand
      ensures r.Ok? <==> Adds(old(Abs()), FileTypeAt(bytes, h), budget)
      ensures r.Ok? ==> Valid() && Abs() == Join(old(Abs()), Own(FileTypeAt(bytes, h).value))
    {
      if h.bodyEnd - h.bodyStart < 8 { return Err(Malformed); }
      AddMark(Abs(), FileType(SequenceBrand(bytes, h)), budget);
      sequenceBrand := HasSequenceBrand(h);
      return Ok(());
    }

    method HasSequenceBrand(h: Header) returns (found: bool)
      requires Placed(bytes, h) && h.bodyStart + 8 <= h.bodyEnd
      ensures found <==> SequenceBrand(bytes, h)
    {
      var major := ReadU32(h.bodyStart, h.bodyEnd);
      found := major.value in SEQUENCE_BRANDS;
      var i: nat := 0;
      while !found && h.bodyStart + 12 + 4 * i <= h.bodyEnd
        invariant found ==> SequenceBrand(bytes, h)
        invariant !found ==> Field(bytes, h.bodyStart, 4) !in SEQUENCE_BRANDS
        invariant !found ==> forall j: nat :: j < i ==> BrandAt(bytes, h, j) !in SEQUENCE_BRANDS
        decreases h.bodyEnd - 4 * i
      {
        var brand := ReadU32(h.bodyStart + 8 + 4 * i, h.bodyEnd);
        assert brand.value == BrandAt(bytes, h, i);
        found := brand.value in SEQUENCE_BRANDS;
        i := i + 1;
      }
    }

    /** Rejects a colour box that declares an embedded profile without carrying one. */
    method ParseColr(h: Header) returns (r: Result<(), Error>)
      requires Valid() && Placed(bytes, h)
      ensures r.Ok? <==> ColourAt(bytes, h).Some?
    {
      if h.bodyEnd - h.bodyStart < 4 { return Err(Malformed); }
      var kind := ReadU32(h.bodyStart, h.bodyEnd);
      if kind.Err? { return Err(Malformed); }
      if kind.value in {PROF, RICC} && h.bodyEnd - h.bodyStart == 4 { return Err(Malformed); }
      return Ok(());
    }

    /** Reads an item location box, keeping each record's declared extent bytes. */
    method ParseIloc(h: Header) returns (r: Result<(), Error>)
      requires Valid() && Placed(bytes, h)
      modifies this`totals, this`extents, this`widest
      ensures r.Ok? <==> Adds(old(Abs()), LocationsAt(bytes, h), budget)
      ensures r.Ok? ==> Valid() && Abs() == Join(old(Abs()), Own(LocationsAt(bytes, h).value))
    {
      hide LocationsAt, Records, Own, Within;
      var layout := ReadLocationLayout(h);
      if layout.Err? { return Err(Malformed); }
      var (l, itemCount) := layout.value;
      r := AddRecords(l, h.bodyStart + 6 + l.IdSize(), h.bodyEnd, itemCount);
    }

    method ReadLocationLayout(h: Header) returns (r: Result<(Layout, nat), Error>)
      requires Placed(bytes, h)
      ensures r.Err? ==> LocationsAt(bytes, h).None?
      ensures r.Ok? ==> ReadableLayout(r.value.0) && h.bodyStart + 6 + r.value.0.IdSize() <= h.bodyEnd
      ensures r.Ok? ==> var (l, count) := r.value;
        LocationsAt(bytes, h) == Located(Records(bytes, l, h.bodyStart + 6 + l.IdSize(), h.bodyEnd, count))
    {
      hide Field, Records;
      var version := ReadU8(h.bodyStart, h.bodyEnd);
      if version.Err? || version.value > 2 { return Err(Malformed); }
      var widths := ReadU16(h.bodyStart + 4, h.bodyEnd);
      if widths.Err? { return Err(Malformed); }
      var w := widths.value;
      var l := Layout(version.value, w / 4096 % 16, w / 256 % 16, w / 16 % 16,
                      if version.value >= 1 then w % 16 else 0);
      if l.offsetSize !in {0, 4, 8} || l.lengthSize !in {0, 4, 8} ||
         l.baseSize !in {0, 4, 8} || l.indexSize !in {0, 4, 8} { return Err(Malformed); }
      var itemCount;
      if l.version < 2 {
        itemCount := ReadU16(h.bodyStart + 6, h.bodyEnd);
      } else {
        itemCount := ReadU32(h.bodyStart + 6, h.bodyEnd);
      }
      if itemCount.Err? { return Err(Malformed); }
      return Ok((l, itemCount.value));
    }

    method AddRecords(l: Layout, start: nat, end: nat, count: nat) returns (r: Result<(), Error>)
      requires Valid() && start <= end <= |bytes| && ReadableLayout(l)
      modifies this`totals, this`extents, this`widest
      ensures var payload := Located(Records(bytes, l, start, end, count));
        (r.Ok? <==> Adds(old(Abs()), payload, budget)) &&
        (r.Ok? ==> Valid() && Abs() == Join(old(Abs()), Own(payload.value)))
    {
      ghost var all := Records(bytes, l, start, end, count);
      RecordsCount(bytes, l, start, end, count);
      if all.Some? { AddLocations(Abs(), all.value.records, all.value.widest, budget); }
      var sum := CheckedAdd(totals.ilocRecords, count, U32_MAX);
      if sum.None? || sum.value > budget.maxItems { return Err(Limit); }
      totals := totals.(ilocRecords := sum.value);
      ghost var before := Abs();
      r := KeepRecords(l, start, end, count);
      if r.Ok? { assert Abs() == before.(widest := widest, extents := extents); }
    }

    method KeepRecords(l: Layout, start: nat, end: nat, count: nat) returns (r: Result<(), Error>)
      requires start <= end <= |bytes| <= MAX_SLICE && ReadableLayout(l) && widest <= budget.maxExtents
      modifies this`extents, this`widest
      ensures var all := Records(bytes, l, start, end, count);
        (r.Ok? <==> all.Some? && all.value.widest <= budget.maxExtents) &&
        (r.Ok? ==> extents == old(extents) + all.value.records && widest == Max(old(widest), all.value.widest))
    {
      hide Field, RecordAt;
      var offset := start;
      ghost var all := Records(bytes, l, start, end, count);
      ghost var rest := all;
      ghost var goal := all.Some? && all.value.widest <= budget.maxExtents;
      ghost var before, width := extents, widest;
      for i := 0 to count
        invariant start <= offset <= end && widest <= budget.maxExtents
        invariant rest == Records(bytes, l, offset, end, count - i)
        invariant goal <==> rest.Some? && rest.value.widest <= budget.maxExtents
        invariant goal ==> extents + rest.value.records == before + all.value.records
        invariant goal ==> Max(widest, rest.value.widest) == Max(width, all.value.widest)
      {
        var record := ReadRecord(l, offset, end);
        if record.Err? { return Err(record.error); }
        ghost var head := RecordAt(bytes, l, offset, end).value;
        ghost var tail := Records(bytes, l, head.next, end, count - i - 1);
        if goal {
          assert rest.value.records == [head.extent] + tail.value.records;
          assert extents + rest.value.records == (extents + [head.extent]) + tail.value.records;
        }
        rest := tail;
        extents := extents + [record.value.0];
        widest := Max(widest, head.count);
        offset := record.value.1;
      }
      return Ok(());
    }

    /** One record and where the next one starts. */
    method ReadRecord(l: Layout, offset: nat, end: nat) returns (r: Result<(Extent, nat), Error>)
      requires offset <= end <= |bytes| <= MAX_SLICE && ReadableLayout(l)
      ensures r.Ok? <==>
        RecordAt(bytes, l, offset, end).Some? && RecordAt(bytes, l, offset, end).value.count <= budget.maxExtents
      ensures r.Ok? ==> var record := RecordAt(bytes, l, offset, end).value;
        r.value == (record.extent, record.next) && offset <= record.next <= end
    {
      hide Field, ExtentSum, Layout.Prefix, Layout.Stride;
      var head := ReadRecordHead(l, offset, end);
      if head.Err? { return Err(Malformed); }
      var (id, count, first) := head.value;
      if count > budget.maxExtents { return Err(Limit); }
      var sum := SumExtents(l, first, end, count);
      if sum.Err? { return Err(sum.error); }
      return Ok((Extent(id, sum.value.0), sum.value.1));
    }

    /** The identifier and extent count of a record, and where its extents start. */
    method ReadRecordHead(l: Layout, offset: nat, end: nat) returns (r: Result<(nat, nat, nat), Error>)
      requires offset <= end <= |bytes| <= MAX_SLICE && ReadableLayout(l)
      ensures r.Ok? <==> offset + l.Prefix() + 2 <= end
      ensures r.Ok? ==> Number(bytes, offset, l.IdSize(), end) == Some(r.value.0)
      ensures r.Ok? ==> Number(bytes, offset + l.Prefix(), 2, end) == Some(r.value.1)
      ensures r.Ok? ==> r.value.2 == offset + l.Prefix() + 2
    {
      hide Field;
      var id;
      if l.version < 2 { id := ReadU16(offset, end); } else { id := ReadU32(offset, end); }
      if id.Err? { return Err(Malformed); }
      var at := offset + (if l.version < 2 then 2 else 4) + (if l.version >= 1 then 2 else 0) + 2;
      var base := Advance(at, l.baseSize, end);
      if base.Err? { return Err(Malformed); }
      var extentCount := ReadU16(base.value, end);
      if extentCount.Err? { return Err(Malformed); }
      return Ok((id.value, extentCount.value, base.value + 2));
    }

    /** Sums the extent lengths of one record and finds its end. */
    method SumExtents(l: Layout, first: nat, end: nat, count: nat) returns (r: Result<(nat, nat), Error>)
      requires first <= end <= |bytes| <= MAX_SLICE && ReadableLayout(l)
      ensures r.Ok? <==> first + count * l.Stride() <= end && ExtentSum(bytes, l, first, count) <= U64_MAX
      ensures r.Ok? ==> r.value == (ExtentSum(bytes, l, first, count), first + count * l.Stride())
    {
      hide Field, Layout.Stride, ReadableLayout;
      var offset, total := first, 0;
      for i := 0 to count
        invariant offset == first + i * l.Stride() <= end
        invariant total == ExtentSum(bytes, l, first, i) <= U64_MAX
      {
        StepsAhead(i, count, l.Stride());
        ExtentSumMonotone(bytes, l, first, i + 1, count);
        var extent := ReadExtent(l, offset, end);
        if extent.Err? { return Err(Malformed); }
        var sum := CheckedAdd(total, extent.value.0, U64_MAX);
        if sum.None? { return Err(Limit); }
        offset, total := extent.value.1, sum.value;
      }
      return Ok((total, offset));
    }

    /** One extent: its declared length and where the next extent starts. */
    method ReadExtent(l: Layout, offset: nat, end: nat) returns (r: Result<(nat, nat), Error>)
      requires offset <= end <= |bytes| <= MAX_SLICE && ReadableLayout(l)
      ensures r.Ok? <==> offset + l.Stride() <= end
      ensures r.Ok? ==> r.value.0 == Field(bytes, offset + l.indexSize + l.offsetSize, l.lengthSize)
      ensures r.Ok? ==> r.value.1 == offset + l.Stride()
    {
      var at := Advance(offset, l.indexSize, end);
      if at.Err? { return Err(Malformed); }
      at := Advance(at.value, l.offsetSize, end);
      if at.Err? { return Err(Malformed); }
      var length := ReadUint(at.value, l.lengthSize, end);
      if length.Err? { return Err(Malformed); }
      return Ok((length.value, at.value + l.lengthSize));
    }

    /** Adds the entries of a property association box and what each associates. */
    method ParseIpma(h: Header) returns (r: Result<(), Error>)
      requires Valid() && Placed(bytes, h)
      modifies this`totals
      ensures r.Ok? <==> Adds(old(Abs()), AssociationsAt(bytes, h), budget)
      ensures r.Ok? ==> Valid() && Abs() == Join(old(Abs()), Own(AssociationsAt(bytes, h).value))
    {
      var header := ReadAssociationHeader(h);
      if header.Err? { return Err(Malformed); }
      var (idSize, width, entries) := header.value;
      r := AddAssociationEntries(h.bodyStart + 8, h.bodyEnd, idSize, width, entries);
    }

    method AddAssociationEntries(start: nat, end: nat, idSize: nat, width: nat, entries: nat)
      returns (r: Result<(), Error>)
      requires Valid() && start <= end <= |bytes| && width in {1, 2}
      modifies this`totals
      ensures var payload := Associated(entries, AssociationEntries(bytes, start, end, idSize, width, entries));
        (r.Ok? <==> Adds(old(Abs()), payload, budget)) &&
        (r.Ok? ==> Valid() && Abs() == Join(old(Abs()), Own(payload.value)))
    {
      ghost var all := AssociationEntries(bytes, start, end, idSize, width, entries);
      if all.Some? { AddAssociations(Abs(), entries, all.value, budget); }
      var sum := CheckedAdd(totals.ipmaEntries, entries, U32_MAX);
      if sum.None? || sum.value > budget.maxItems { return Err(Limit); }
      totals := totals.(ipmaEntries := sum.value);
      r := CountAssociations(start, end, idSize, width, entries);
    }

    method ReadAssociationHeader(h: Header) returns (r: Result<(nat, nat, nat), Error>)
      requires Placed(bytes, h)
      ensures r.Err? ==> AssociationsAt(bytes, h).None?
      ensures r.Ok? ==> h.bodyStart + 8 <= h.bodyEnd && r.value.1 in {1, 2}
      ensures r.Ok? ==> AssociationsAt(bytes, h) == Associated(r.value.2,
        AssociationEntries(bytes, h.bodyStart + 8, h.bodyEnd, r.value.0, r.value.1, r.value.2))
    {
      var version := ReadU8(h.bodyStart, h.bodyEnd);
      if version.Err? || version.value > 1 { return Err(Malformed); }
      var flags := ReadU8(h.bodyStart + 3, h.bodyEnd);
      if flags.Err? { return Err(Malformed); }
      var width := if flags.value % 2 == 1 then 2 else 1;
      var entryCount := ReadU32(h.bodyStart + 4, h.bodyEnd);
      if entryCount.Err? { return Err(Malformed); }
      return Ok((if version.value < 1 then 2 else 4, width, entryCount.value));
    }

    method CountAssociations(start: nat, end: nat, idSize: nat, width: nat, entries: nat) returns (r: Result<(), Error>)
      requires start <= end <= |bytes| <= MAX_SLICE && width in {1, 2}
      requires totals.ipmaAssociations <= budget.maxAssociations <= U32_MAX
      modifies this`totals
      ensures r.Ok? <==> CountFits(AssociationEntries(bytes, start, end, idSize, width, entries),
                                   old(totals).ipmaAssociations, budget.maxAssociations)
      ensures r.Ok? ==> totals == old(totals).(ipmaAssociations :=
        old(totals).ipmaAssociations + AssociationEntries(bytes, start, end, idSize, width, entries).value)
    {
      var offset := start;
      ghost var all := AssociationEntries(bytes, start, end, idSize, width, entries);
      ghost var goal := CountFits(all, totals.ipmaAssociations, budget.maxAssociations);
      ghost var before, rest := totals, all;
      for i := 0 to entries
        invariant start <= offset <= end
        invariant before.ipmaAssociations <= totals.ipmaAssociations <= budget.maxAssociations
        invariant totals == before.(ipmaAssociations := totals.ipmaAssociations)
        invariant rest == AssociationEntries(bytes, offset, end, idSize, width, entries - i)
        invariant goal <==> CountFits(rest, totals.ipmaAssociations, budget.maxAssociations)
        invariant goal ==> totals.ipmaAssociations + rest.value == before.ipmaAssociations + all.value
      {
        var entry := ReadAssociations(offset, end, idSize, width);
        if entry.Err? { return Err(Malformed); }
        var (associations, next) := entry.value;
        var count := CheckedAdd(totals.ipmaAssociations, associations, U32_MAX);
        rest := AssociationEntries(bytes, next, end, idSize, width, entries - i - 1);
        if count.None? || count.value > budget.maxAssociations { return Err(Limit); }
        totals := totals.(ipmaAssociations := count.value);
        offset := next;
      }
      return Ok(());
    }

    /** One entry: its association count and where the next entry starts. */
    method ReadAssociations(offset: nat, end: nat, idSize: nat, width: nat) returns (r: Result<(nat, nat), Error>)
      requires offset <= end <= |bytes| <= MAX_SLICE && width in {1, 2}
      ensures r.Ok? ==> Number(bytes, offset + idSize, 1, end) == Some(r.value.0)
      ensures r.Ok? ==> offset <= r.value.1 == offset + idSize + 1 + r.value.0 * width <= end
      ensures r.Err? ==>
        var count := Number(bytes, offset + idSize, 1, end);
        count.None? || offset + idSize + 1 + count.value * width > end
    {
      var at := Advance(offset, idSize, end);
      if at.Err? { return Err(Malformed); }
      var associations := ReadU8(at.value, end);
      if associations.Err? { return Err(Malformed); }
      var next := Advance(at.value + 1, associations.value * width, end);
      if next.Err? { return Err(Malformed); }
      return Ok((associations.value, next.value));
    }
  }

  /** A count that parses and fits on top of what was counted before. */
  ghost predicate CountFits(count: Option<nat>, before: nat, limit: nat) {
    count.Some? && before + count.value <= limit
  }

  lemma StepsAhead(i: nat, count: nat, stride: nat)
    requires i < count
    ensures i * stride + stride == (i + 1) * stride <= count * stride
  {
    MultiplyMonotone(i + 1, count, stride);
  }

  lemma {:induction false} ExtentSumMonotone(bytes: seq<byte>, l: Layout, at: nat, i: nat, count: nat)
    requires i <= count
    ensures ExtentSum(bytes, l, at, i) <= ExtentSum(bytes, l, at, count)
  {
    if i < count { ExtentSumMonotone(bytes, l, at, i, count - 1); }
  }

  lemma {:induction false} RecordsCount(bytes: seq<byte>, l: Layout, at: nat, end: nat, count: nat)
    ensures var batch := Records(bytes, l, at, end, count); batch.Some? ==> |batch.value.records| == count
    decreases count
  {
    if count > 0 && RecordAt(bytes, l, at, end).Some? {
      RecordsCount(bytes, l, RecordAt(bytes, l, at, end).value.next, end, count - 1);
    }
  }

  /** Decides acceptance of a file in one pass that stops at the first violation. */
  method Preflight(bytes: seq<byte>, budget: Budget) returns (r: Result<(), Error>)
    requires |bytes| <= MAX_SLICE && MachineBudget(budget)
    ensures r.Ok? <==> Acceptable(bytes, budget)
  {
    var walk := new Walk(bytes, budget);
    r := walk.Run();
  }
}
