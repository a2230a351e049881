/** The structural preflight of a binary property list. */
module BinaryPlist {
  import opened Prelude
  import opened ObjectGraph

  datatype Limits = Limits(
    maxPlistObjects: nat,
    maxExpandedObjects: nat,
    maxExpandedBytes: nat,
    maxDepth: nat)

  /** Every limit is a `usize`. */
  predicate MachineLimits(limits: Limits) {
    limits.maxPlistObjects <= USIZE_MAX && limits.maxExpandedObjects <= USIZE_MAX &&
    limits.maxExpandedBytes <= USIZE_MAX && limits.maxDepth < USIZE_MAX
  }

  /** `PlannedObjects` and `ExpandedObjects` are the early and the late rejection by node count. */
  datatype Error =
    | Metadata | ObjectCount | ExpandedObjects | PlannedObjects | ExpandedMemory | NestingDepth

  /** What the trailer and the offset table establish: where each object starts. */
  datatype Plist = Plist(
    bytes: seq<byte>, tableOffset: nat, referenceSize: nat, offsets: seq<nat>, root: nat)

  ghost predicate WellPlaced(p: Plist) {
    p.tableOffset + 32 <= |p.bytes| <= MAX_SLICE && 1 <= p.referenceSize <= 8 &&
    p.root < |p.offsets| &&
    forall i :: 0 <= i < |p.offsets| ==> 8 <= p.offsets[i] < p.tableOffset
  }

  // ---------------------------------------------------------------- format

  const MAGIC: seq<byte> := [98, 112, 108, 105, 115, 116, 48, 48]

  datatype Trailer = Trailer(offsetSize: nat, referenceSize: nat, count: nat, root: nat, table: nat)

  ghost function TrailerOf(bytes: seq<byte>): Trailer
    requires |bytes| >= 40
  {
    var t := |bytes| - 32;
    Trailer(bytes[t + 6], bytes[t + 7], Field(bytes, t + 8, 8), Field(bytes, t + 16, 8), Field(bytes, t + 24, 8))
  }

  ghost predicate TrailerOk(bytes: seq<byte>, limits: Limits)
    requires |bytes| >= 40
  {
    var t := TrailerOf(bytes);
    1 <= t.offsetSize <= 8 && 1 <= t.referenceSize <= 8 &&
    0 < t.count <= limits.maxPlistObjects && t.root < t.count &&
    8 <= t.table && t.table + t.count * t.offsetSize == |bytes| - 32
  }

  /** The layout a byte string declares, if its header, trailer and offset table are valid. */
  ghost function Layout(bytes: seq<byte>, limits: Limits): Option<Plist> {
    if |bytes| < 40 || bytes[..8] != MAGIC || !TrailerOk(bytes, limits) then None else
    var t := TrailerOf(bytes);
    var offsets := Table(bytes, t.table, t.offsetSize, t.count);
    if forall i :: 0 <= i < t.count ==> 8 <= offsets[i] < t.table
    then Some(Plist(bytes, t.table, t.referenceSize, offsets, t.root)) else None
  }

  /** A length and the start of the payload it describes, for objects that carry a count. */
  ghost function Extent(p: Plist, offset: nat, info: nat): Option<(nat, nat)>
    requires offset < |p.bytes|
  {
    if info < 15 then Some((info, offset + 1))
    else if offset + 2 > p.tableOffset || p.tableOffset > |p.bytes| then None
    else
      var marker: int := p.bytes[offset + 1];
      if marker / 16 != 1 || marker % 16 > 3 then None
      else
        var width := Pow2(marker % 16);
        if offset + 2 + width > p.tableOffset then None
        else Some((Field(p.bytes, offset + 2, width), offset + 2 + width))
  }

  function Pow2(n: nat): (r: nat)
    ensures r >= 1
  {
    if n == 0 then 1 else 2 * Pow2(n - 1)
  }

  ghost predicate InRange(p: Plist, refs: seq<nat>) {
    forall i :: 0 <= i < |refs| ==> refs[i] < |p.offsets|
  }

  /** The object a reference denotes; absent when it is malformed or leaves the object area. */
  ghost function Decode(p: Plist, reference: nat): (o: Option<Object>)
    requires WellPlaced(p) && reference < |p.offsets|
    ensures o.Some? ==> o.value.cost >= 64 && InRange(p, o.value.children)
  {
    var offset := p.offsets[reference];
    var kind := p.bytes[offset] / 16;
    var info := p.bytes[offset] % 16;
    if kind == 0 then
      if info == 0 || info == 8 || info == 9 then Some(Object(64, [])) else None
    else if kind == 1 || kind == 2 then
      if offset + 1 + Pow2(info) <= p.tableOffset then Some(Object(64, [])) else None
    else if kind == 3 then
      if info == 3 && offset + 9 <= p.tableOffset then Some(Object(64, [])) else None
    else if 4 <= kind <= 6 then
      var extent := Extent(p, offset, info);
      if extent.None? then None else
      var (length, start) := extent.value;
      var stored := if kind == 6 then 2 * length else length;
      var expanded := if kind == 6 then 3 * length else length;
      if start + stored <= p.tableOffset then Some(Object(64 + expanded, [])) else None
    else if kind == 8 then
      if offset + 2 + info <= p.tableOffset then Some(Object(64, [])) else None
    else if kind == 10 || kind == 12 || kind == 13 then
      Collection(p, Extent(p, offset, info), if kind == 13 then 2 else 1)
    else None
  }

  /** A collection with `each` references per element. */
  ghost function Collection(p: Plist, extent: Option<(nat, nat)>, each: nat): (o: Option<Object>)
    ensures o.Some? ==> o.value.cost >= 64 && InRange(p, o.value.children)
  {
    if extent.None? then None else
    var (length, start) := extent.value;
    var count := length * each;
    if start + count * p.referenceSize > p.tableOffset then None else
    var refs := Table(p.bytes, start, p.referenceSize, count);
    if InRange(p, refs) then Some(Object(64 + 16 * count, refs)) else None
  }

  lemma DecodesCollection(p: Plist, reference: nat, kind: nat, info: nat)
    requires WellPlaced(p) && reference < |p.offsets|
    requires var m := p.bytes[p.offsets[reference]]; kind == m / 16 && info == m % 16
    requires kind == 10 || kind == 12 || kind == 13
    ensures Decode(p, reference) == Collection(p, Extent(p, p.offsets[reference], info), if kind == 13 then 2 else 1)
  {
    hide Collection, Extent;
  }

  /** Every object of the file, as the walk is entitled to see it. */
  ghost function Objects(p: Plist): (g: Graph)
    requires WellPlaced(p)
    ensures |g| == |p.offsets|
    ensures forall i :: 0 <= i < |g| && g[i].Some? ==> g[i].value.cost >= 64
  {
    seq(|p.offsets|, i requires 0 <= i < |p.offsets| => Decode(p, i))
  }

  ghost function CeilingsOf(limits: Limits): Ceilings {
    Ceilings(limits.maxExpandedObjects, limits.maxDepth, limits.maxExpandedBytes)
  }

  lemma LayoutWellPlaced(bytes: seq<byte>, limits: Limits)
    requires |bytes| <= MAX_SLICE
    ensures Layout(bytes, limits).Some? ==> WellPlaced(Layout(bytes, limits).value)
  {
  }

  /** The whole promise: a valid layout whose root expands to a finite tree inside every limit. */
  ghost predicate Acceptable(bytes: seq<byte>, limits: Limits)
    requires |bytes| <= MAX_SLICE
  {
    LayoutWellPlaced(bytes, limits);
    Layout(bytes, limits).Some? &&
    var p := Layout(bytes, limits).value;
    exists t :: Expansion(Objects(p), p.root, t, CeilingsOf(limits))
  }

  // --------------------------------------------------------------- readers

  method ReadBe(bytes: seq<byte>, start: nat, length: nat) returns (r: Result<nat, Error>)
    requires |bytes| <= MAX_SLICE && start <= USIZE_MAX && length <= 8
    ensures r.Ok? <==> start + length <= |bytes|
    ensures r.Ok? ==> r.value == Field(bytes, start, length) <= U64_MAX
    ensures r.Err? ==> r.error == Metadata
  {
    var end := CheckedAdd(start, length, USIZE_MAX);
    if end.None? || end.value > |bytes| { return Err(Metadata); }
    hide Field;
    var value: nat := 0;
    FieldNothing(bytes, start);
    for i := 0 to length
      invariant value == Field(bytes, start, i) <= U64_MAX
    {
      FieldNext(bytes, start, i);
      var next := CheckedAdd(value * 256 % (U64_MAX + 1), bytes[start + i], U64_MAX);
      if next.None? { return Err(Metadata); }
      value := next.value;
    }
    return Ok(value);
  }

  lemma FieldNothing(bytes: seq<byte>, start: nat)
    ensures Field(bytes, start, 0) == 0
  {
  }

  /** Eight bytes or fewer never pass 64 bits, so shifting one more in loses nothing. */
  lemma FieldNext(bytes: seq<byte>, start: nat, i: nat)
    requires i < 8 && start + i < |bytes|
    ensures Field(bytes, start, i + 1) == 256 * Field(bytes, start, i) + bytes[start + i] <= U64_MAX
  {
    FieldBound(bytes, start, i + 1);
    Pow256Monotone(i + 1, 8);
    Pow256Small();
  }

  method CheckedRange(start: nat, length: nat, end: nat) returns (r: Result<(), Error>)
    requires end <= USIZE_MAX
    ensures r.Ok? <==> start + length <= end
    ensures r.Err? ==> r.error == Metadata
  {
    var stop := CheckedAdd(start, length, USIZE_MAX);
    if stop.None? || stop.value > end { return Err(Metadata); }
    return Ok(());
  }

  method ChargeExpandedBytes(total: nat, amount: nat, limits: Limits) returns (r: Result<nat, Error>)
    requires MachineLimits(limits)
    ensures r.Ok? <==> total + amount <= limits.maxExpandedBytes
    ensures r.Ok? ==> r.value == total + amount
    ensures r.Err? ==> r.error == ExpandedMemory
  {
    var sum := CheckedAdd(total, amount, USIZE_MAX);
    if sum.None? || sum.value > limits.maxExpandedBytes { return Err(ExpandedMemory); }
    return Ok(sum.value);
  }

  method ObjectLength(p: Plist, offset: nat, info: nat) returns (r: Result<(nat, nat), Error>)
    requires WellPlaced(p) && 8 <= offset < p.tableOffset && info < 16
    ensures r.Ok? <==> Extent(p, offset, info).Some?
    ensures r.Ok? ==> r.value == Extent(p, offset, info).value && r.value.0 <= USIZE_MAX
    ensures r.Err? ==> r.error == Metadata
  {
    if info < 15 { return Ok((info, offset + 1)); }
    var inArea := CheckedRange(offset + 1, 1, p.tableOffset);
    if inArea.Err? { return Err(inArea.error); }
    var marker: int := p.bytes[offset + 1];
    if marker / 16 != 1 || marker % 16 > 3 { return Err(Metadata); }
    var width := Pow2(marker % 16);
    assert width <= 8 by { assert Pow2(3) == 8 && Pow2(2) == 4; }
    var length := ReadBe(p.bytes, offset + 2, width);
    if length.Err? { return Err(Metadata); }
    inArea := CheckedRange(offset + 2, width, p.tableOffset);
    if inArea.Err? { return Err(inArea.error); }
    return Ok((length.value, offset + 2 + width));
  }

  method ReadLayout(bytes: seq<byte>, limits: Limits) returns (r: Result<Plist, Error>)
    requires |bytes| <= MAX_SLICE && MachineLimits(limits)
    ensures r.Ok? <==> Layout(bytes, limits).Some?
    ensures r.Ok? ==> r.value == Layout(bytes, limits).value
    ensures r.Err? ==> r.error in {Metadata, ObjectCount}
  {
    if |bytes| < 40 || bytes[..8] != MAGIC { return Err(Metadata); }
    var trailer := ReadTrailer(bytes, limits);
    if trailer.Err? { return Err(trailer.error); }
    var Trailer(offsetSize, referenceSize, count, root, table) := trailer.value;
    var offsets := ReadOffsets(bytes, table, offsetSize, count);
    if offsets.Err? { return Err(offsets.error); }
    return Ok(Plist(bytes, table, referenceSize, offsets.value, root));
  }

  method ReadTrailer(bytes: seq<byte>, limits: Limits) returns (r: Result<Trailer, Error>)
    requires 40 <= |bytes| <= MAX_SLICE && MachineLimits(limits)
    ensures r.Ok? <==> TrailerOk(bytes, limits)
    ensures r.Ok? ==> r.value == TrailerOf(bytes)
    ensures r.Err? ==> r.error in {Metadata, ObjectCount}
  {
    var trailer := |bytes| - 32;
    var offsetSize: int := bytes[trailer + 6];
    var referenceSize: int := bytes[trailer + 7];
    if !(1 <= offsetSize <= 8) || !(1 <= referenceSize <= 8) { return Err(Metadata); }
    var objectCount := ReadBe(bytes, trailer + 8, 8);
    var root := ReadBe(bytes, trailer + 16, 8);
    var tableOffset := ReadBe(bytes, trailer + 24, 8);
    if objectCount.Err? || root.Err? || tableOffset.Err? { return Err(Metadata); }
    var count, table := objectCount.value, tableOffset.value;
    if count == 0 || count > limits.maxPlistObjects { return Err(ObjectCount); }
    if root.value >= count { return Err(Metadata); }
    var tableBytes := CheckedMul(count, offsetSize, USIZE_MAX);
    if tableBytes.None? { return Err(Metadata); }
    if table < 8 || CheckedAdd(table, tableBytes.value, USIZE_MAX) != Some(trailer) { return Err(Metadata); }
    return Ok(Trailer(offsetSize, referenceSize, count, root.value, table));
  }

  /** A field of a table ends where the table does or before. */
  lemma FieldInside(index: nat, count: nat, size: nat)
    requires index < count
    ensures 0 <= index * size && index * size + size <= count * size
  {
    MultiplyMonotone(index + 1, count, size);
  }

  method ReadOffsets(bytes: seq<byte>, table: nat, size: nat, count: nat) returns (r: Result<seq<nat>, Error>)
    requires table + count * size <= |bytes| <= MAX_SLICE && 1 <= size <= 8
    ensures r.Ok? <==> forall i :: 0 <= i < count ==> 8 <= Table(bytes, table, size, count)[i] < table
    ensures r.Ok? ==> r.value == Table(bytes, table, size, count)
    ensures r.Err? ==> r.error == Metadata
  {
    hide Field;
    ghost var expected := Table(bytes, table, size, count);
    var offsets: seq<nat> := [];
    for index := 0 to count
      invariant offsets == expected[..index]
      invariant forall i :: 0 <= i < index ==> 8 <= expected[i] < table
    {
      FieldInside(index, count, size);
      var offset := ReadBe(bytes, table + index * size, size);
      if offset.Err? { return Err(Metadata); }
      assert offset.value == expected[index];
      if !(8 <= offset.value < table) { return Err(Metadata); }
      offsets := offsets + [offset.value];
    }
    return Ok(offsets);
  }

  // -------------------------------------------------------------- worklist

  /** What one object adds: its whole charge so far and the references to follow. */
  datatype Step = Step(charged: nat, pushed: seq<nat>)

  /** Reads one object; `charged` already covers its fixed 64 bytes. */
  method Inspect(p: Plist, slot: Slot, expanded: nat, pending: nat, charged: nat, limits: Limits)
    returns (r: Result<Step, Error>)
    requires WellPlaced(p) && MachineLimits(limits) && slot.reference < |p.offsets|
    requires expanded + pending <= limits.maxExpandedObjects && 64 <= charged <= limits.maxExpandedBytes
    ensures r.Ok? ==> charged <= r.value.charged && InRange(p, r.value.pushed)
    ensures r.Ok? ==> Objects(p)[slot.reference] == Some(Object(r.value.charged - charged + 64, r.value.pushed))
    ensures r.Ok? ==> r.value.charged <= limits.maxExpandedBytes
    ensures r.Ok? ==> expanded + pending + |r.value.pushed| <= limits.maxExpandedObjects
    ensures r.Err? && Objects(p)[slot.reference].Some? ==>
      var o := Objects(p)[slot.reference].value;
      charged - 64 + o.cost > limits.maxExpandedBytes ||
      expanded + pending + |o.children| > limits.maxExpandedObjects
    ensures r != Err(ExpandedObjects)
  {
    var offset := p.offsets[slot.reference];
    var marker: int := p.bytes[offset];
    var kind, info := marker / 16, marker % 16;
    if kind == 0 {
      if info != 0 && info != 8 && info != 9 { return Err(Metadata); }
      return Ok(Step(charged, []));
    } else if kind == 1 || kind == 2 {
      var size := Pow2(info);
      var range := CheckedRange(offset + 1, size, p.tableOffset);
      if range.Err? { return Err(range.error); }
      return Ok(Step(charged, []));
    } else if kind == 3 {
      if info != 3 { return Err(Metadata); }
      var range := CheckedRange(offset + 1, 8, p.tableOffset);
      if range.Err? { return Err(range.error); }
      return Ok(Step(charged, []));
    } else if 4 <= kind <= 6 {
      r := InspectData(p, slot.reference, kind, info, charged, limits);
    } else if kind == 8 {
      var range := CheckedRange(offset + 1, info + 1, p.tableOffset);
      if range.Err? { return Err(range.error); }
      return Ok(Step(charged, []));
    } else if kind == 10 || kind == 12 || kind == 13 {
      r := InspectCollection(p, slot.reference, kind, info, expanded, pending, charged, limits);
    } else {
      return Err(Metadata);
    }
  }

  method InspectData(p: Plist, reference: nat, kind: nat, info: nat, charged: nat, limits: Limits)
    returns (r: Result<Step, Error>)
    requires WellPlaced(p) && MachineLimits(limits) && reference < |p.offsets|
    requires var m := p.bytes[p.offsets[reference]]; kind == m / 16 && info == m % 16
    requires 4 <= kind <= 6 && 64 <= charged <= limits.maxExpandedBytes
    ensures r.Ok? ==> r.value.charged <= limits.maxExpandedBytes && r.value.pushed == []
    ensures r.Ok? ==> charged <= r.value.charged
    ensures r.Ok? ==> Decode(p, reference) == Some(Object(r.value.charged - charged + 64, []))
    ensures r.Err? && Decode(p, reference).Some? ==>
      charged - 64 + Decode(p, reference).value.cost > limits.maxExpandedBytes
    ensures r != Err(ExpandedObjects)
  {
    var extent := ObjectLength(p, p.offsets[reference], info);
    if extent.Err? { return Err(extent.error); }
    var (length, start) := extent.value;
    var unit := if kind == 6 then 2 else 1;
    var size := CheckedMul(length, unit, USIZE_MAX);
    if size.None? { return Err(Metadata); }
    var range := CheckedRange(start, size.value, p.tableOffset);
    if range.Err? { return Err(range.error); }
    var expandedSize := if kind == 6 then CheckedMul(length, 3, USIZE_MAX) else Some(length);
    if expandedSize.None? { return Err(ExpandedMemory); }
    var total := ChargeExpandedBytes(charged, expandedSize.value, limits);
    if total.Err? { return Err(total.error); }
    return Ok(Step(total.value, []));
  }

  method InspectCollection(p: Plist, reference: nat, kind: nat, info: nat, expanded: nat, pending: nat,
                           charged: nat, limits: Limits) returns (r: Result<Step, Error>)
    requires WellPlaced(p) && MachineLimits(limits) && reference < |p.offsets|
    requires var m := p.bytes[p.offsets[reference]]; kind == m / 16 && info == m % 16
    requires kind == 10 || kind == 12 || kind == 13
    requires expanded + pending <= limits.maxExpandedObjects && 64 <= charged <= limits.maxExpandedBytes
    ensures r.Ok? ==> charged <= r.value.charged
    ensures r.Ok? ==> Decode(p, reference) == Some(Object(r.value.charged - charged + 64, r.value.pushed))
    ensures r.Ok? ==> r.value.charged <= limits.maxExpandedBytes
    ensures r.Ok? ==> expanded + pending + |r.value.pushed| <= limits.maxExpandedObjects
    ensures r.Err? && Decode(p, reference).Some? ==>
      var o := Decode(p, reference).value;
      charged - 64 + o.cost > limits.maxExpandedBytes ||
      expanded + pending + |o.children| > limits.maxExpandedObjects
    ensures r != Err(ExpandedObjects)
  {
    hide Decode, Extent, Field, Pow2, InRange;
    DecodesCollection(p, reference, kind, info);
    var extent := ObjectLength(p, p.offsets[reference], info);
    if extent.Err? { return Err(extent.error); }
    var (length, start) := extent.value;
    var references := if kind == 13 then CheckedMul(length, 2, USIZE_MAX) else Some(length);
    if references.None? { return Err(Metadata); }
    var count := references.value;
    var size := CheckedMul(count, p.referenceSize, USIZE_MAX);
    if size.None? { return Err(Metadata); }
    var range := CheckedRange(start, size.value, p.tableOffset);
    if range.Err? { return Err(range.error); }
    var collectionBytes := CheckedMul(count, 16, USIZE_MAX);
    if collectionBytes.None? { return Err(ExpandedMemory); }
    var total := ChargeExpandedBytes(charged, collectionBytes.value, limits);
    if total.Err? { return Err(total.error); }
    var planned := CheckedAdd(expanded + pending, count, USIZE_MAX);
    if planned.None? || planned.value > limits.maxExpandedObjects { return Err(PlannedObjects); }
    var pushed := ReadReferences(p, start, count);
    if pushed.Err? { return Err(pushed.error); }
    return Ok(Step(total.value, pushed.value));
  }

  method ReadReferences(p: Plist, start: nat, count: nat) returns (r: Result<seq<nat>, Error>)
    requires WellPlaced(p) && start + count * p.referenceSize <= p.tableOffset
    ensures r.Ok? <==> InRange(p, Table(p.bytes, start, p.referenceSize, count))
    ensures r.Ok? ==> r.value == Table(p.bytes, start, p.referenceSize, count)
    ensures r.Err? ==> r.error == Metadata
  {
    hide Field;
    ghost var expected := Table(p.bytes, start, p.referenceSize, count);
    var pushed: seq<nat> := [];
    for index := 0 to count
      invariant pushed == expected[..index] && InRange(p, expected[..index])
    {
      FieldInside(index, count, p.referenceSize);
      var child := ReadBe(p.bytes, start + index * p.referenceSize, p.referenceSize);
      if child.Err? { return Err(Metadata); }
      assert child.value == expected[index];
      if child.value >= |p.offsets| { return Err(Metadata); }
      pushed := pushed + [child.value];
    }
    assert expected[..count] == expected;
    return Ok(pushed);
  }

  /**
   * Walks the object graph with an explicit stack.
   *
   * Nothing about the graph is assumed: it may be cyclic, and a shared object
   * is expanded once per reference to it. `peak` is the largest number of expanded and pending
   * objects there ever was.
   */
  method Expand(p: Plist, limits: Limits) returns (r: Result<(), Error>, ghost peak: nat)
    requires WellPlaced(p) && MachineLimits(limits)
    ensures peak <= Max(limits.maxExpandedObjects, 1)
    ensures r.Ok? <==> exists t :: Expansion(Objects(p), p.root, t, CeilingsOf(limits))
    ensures r == Err(ExpandedObjects) ==> limits.maxExpandedObjects == 0
  {
    hide Decode, Fits, Objects, Slots;
    var stack := [Slot(p.root, 1)];
    var expanded: nat, charged: nat := 0, 0;
    ghost var g, c := Objects(p), CeilingsOf(limits);
    ghost var goal := Fits(g, stack, 0, 0, c);
    peak := 1;
    RootFits(g, p.root, c);
    while stack != []
      invariant Pending(p, stack) && charged <= limits.maxExpandedBytes
      invariant limits.maxExpandedObjects >= 1 ==> expanded + |stack| <= limits.maxExpandedObjects
      invariant limits.maxExpandedObjects == 0 ==> expanded == 0
      invariant expanded + |stack| <= peak <= Max(limits.maxExpandedObjects, 1)
      invariant Fits(g, stack, expanded, charged, c) <==> goal
      decreases limits.maxExpandedObjects - expanded
    {
      var slot := stack[|stack| - 1];
      ghost var rest := stack[..|stack| - 1];
      assert stack == rest + [slot];
      FitsStep(g, rest, slot, expanded, charged, c);
      if goal { FitsStepRoom(g, rest, slot, expanded, charged, c); }
      stack := stack[..|stack| - 1];
      expanded := expanded + 1;
      if expanded > limits.maxExpandedObjects { return Err(ExpandedObjects), peak; }
      var base := ChargeExpandedBytes(charged, 64, limits);
      if base.Err? { return Err(base.error), peak; }
      if slot.depth > limits.maxDepth { return Err(NestingDepth), peak; }
      var step := Inspect(p, slot, expanded, |stack|, base.value, limits);
      if step.Err? { return Err(step.error), peak; }
      charged := step.value.charged;
      stack := Push(p, stack, step.value.pushed, slot.depth + 1);
      peak := Max(peak, expanded + |stack|);
    }
    NothingFits(g, expanded, charged, c);
    return Ok(()), peak;
  }

  method Push(p: Plist, stack: seq<Slot>, references: seq<nat>, depth: nat) returns (r: seq<Slot>)
    requires Pending(p, stack) && InRange(p, references)
    ensures r == stack + Slots(references, depth) && Pending(p, r)
  {
    r := stack;
    for index := 0 to |references|
      invariant r == stack + Slots(references, depth)[..index]
    {
      r := r + [Slot(references[index], depth)];
    }
  }

  ghost predicate Pending(p: Plist, stack: seq<Slot>) {
    forall i :: 0 <= i < |stack| ==> stack[i].reference < |p.offsets|
  }

  method Preflight(bytes: seq<byte>, limits: Limits) returns (r: Result<(), Error>)
    requires |bytes| <= MAX_SLICE && MachineLimits(limits)
    ensures r.Ok? <==> Acceptable(bytes, limits)
    ensures r == Err(ExpandedObjects) ==> limits.maxExpandedObjects == 0
  {
    LayoutWellPlaced(bytes, limits);
    var layout := ReadLayout(bytes, limits);
    if layout.Err? { return Err(layout.error); }
    ghost var peak;
    r, peak := Expand(layout.value, limits);
  }

  /**
   * What acceptance means for the graph: nothing reachable is malformed, no reference chain returns
   * to itself, and the one finite expansion that then exists respects every ceiling.
   */
  lemma AcceptableIff(bytes: seq<byte>, limits: Limits)
    requires |bytes| <= MAX_SLICE && Layout(bytes, limits).Some?
    ensures WellPlaced(Layout(bytes, limits).value)
    ensures var p, c := Layout(bytes, limits).value, CeilingsOf(limits); var g := Objects(p);
      Acceptable(bytes, limits) <==>
        AllPresent(g, p.root) && !Cyclic(g, p.root) &&
        forall t: Tree :: t.reference == p.root && Unfolds(g, t) ==> Expansion(g, p.root, t, c)
  {
    LayoutWellPlaced(bytes, limits);
    var p, c := Layout(bytes, limits).value, CeilingsOf(limits);
    var g := Objects(p);
    UnfoldsIffAcyclic(g, p.root);
    forall t: Tree, u: Tree | Unfolds(g, t) && Unfolds(g, u) && t.reference == u.reference ensures t == u {
      UnfoldingUnique(g, t, u);
    }
  }
}
