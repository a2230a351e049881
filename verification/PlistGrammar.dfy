/** The reader of binary property lists reads exactly what can be written. */
module PlistGrammar {
  import opened Prelude
  import opened ByteWriting
  import opened ObjectGraph
  import opened PlistWriting
  import B = BinaryPlist

  lemma {:induction false} SamePower(n: nat)
    ensures TwoTo(n) == B.Pow2(n)
  {
    if n > 0 { SamePower(n - 1); }
  }

  lemma SmallPowers()
    ensures B.Pow2(0) == 1 && B.Pow2(1) == 2 && B.Pow2(2) == 4 && B.Pow2(3) == 8
    ensures TwoTo(0) == 1 && TwoTo(1) == 2 && TwoTo(2) == 4 && TwoTo(3) == 8
  {
    assert B.Pow2(2) == 4 && TwoTo(2) == 4;
  }

  // -------------------------------------------------------------------- counts

  /** A marker with its count stands at `at`, and the object it belongs to ends within the object area. */
  lemma CountRead(p: B.Plist, at: nat, kind: nat, n: nat, count: Count)
    requires kind < 16 && LegalCount(n, count) && p.tableOffset <= |p.bytes|
    requires Holds(p.bytes, at, Marker(kind, n, count)) && at + |Marker(kind, n, count)| <= p.tableOffset
    ensures at < |p.bytes| && p.bytes[at] / 16 == kind
    ensures B.Extent(p, at, p.bytes[at] % 16) == Some((n, at + |Marker(kind, n, count)|))
  {
    hide Field, Big;
    match count {
      case Inline =>
        assert p.bytes[at..at + 1][0] == 16 * kind + n;
      case Extended(exponent) =>
        SmallPowers();
        var width := TwoTo(exponent);
        HoldsSplit(p.bytes, at, [16 * kind + 15, 16 + exponent], Big(n, width));
        assert p.bytes[at..at + 2] == [16 * kind + 15, 16 + exponent];
        assert p.bytes[at] == p.bytes[at..at + 2][0] && p.bytes[at + 1] == p.bytes[at..at + 2][1];
        FieldIff(p.bytes, at + 2, n, width);
    }
  }

  lemma CountFound(p: B.Plist, at: nat) returns (count: Count)
    requires at < p.tableOffset <= |p.bytes| && B.Extent(p, at, p.bytes[at] % 16).Some?
    ensures var (n, start) := B.Extent(p, at, p.bytes[at] % 16).value; var kind := p.bytes[at] / 16;
      LegalCount(n, count) && Holds(p.bytes, at, Marker(kind, n, count)) && at + |Marker(kind, n, count)| == start &&
      start <= p.tableOffset
  {
    hide Field, Big;
    var (n, start) := B.Extent(p, at, p.bytes[at] % 16).value;
    var kind := p.bytes[at] / 16;
    if p.bytes[at] % 16 < 15 {
      count := Inline;
      assert p.bytes[at..at + 1] == [16 * kind + n];
    } else {
      var exponent := p.bytes[at + 1] % 16;
      count := Extended(exponent);
      SmallPowers();
      FieldWritten(p.bytes, at + 2, TwoTo(exponent));
      HoldsSlice(p.bytes, at + 2, start);
      assert p.bytes[at..at + 2] == [16 * kind + 15, 16 + exponent];
      HoldsSplit(p.bytes, at, [16 * kind + 15, 16 + exponent], Big(n, TwoTo(exponent)));
    }
  }

  // -------------------------------------------------------------------- objects

  /** `v` is written at `at`, ends within the object area, and refers only to objects of the table. */
  ghost predicate Stands(p: B.Plist, at: nat, v: Value) {
    Legal(v) && Holds(p.bytes, at, Write(v, p.referenceSize)) && at + |Write(v, p.referenceSize)| <= p.tableOffset &&
    AllBelow(References(v), Pow256(p.referenceSize)) && B.InRange(p, References(v))
  }

  lemma FirstByte(bytes: seq<byte>, at: nat, b: byte, rest: seq<byte>)
    ensures Holds(bytes, at, [b] + rest) <==> at < |bytes| && bytes[at] == b && Holds(bytes, at + 1, rest)
  {
    HoldsSplit(bytes, at, [b], rest);
    if at < |bytes| { assert bytes[at..at + 1] == [bytes[at]]; }
  }

  lemma ValueRead(p: B.Plist, reference: nat, v: Value)
    requires B.WellPlaced(p) && reference < |p.offsets| && Stands(p, p.offsets[reference], v)
    ensures B.Decode(p, reference) == Some(Meaning(v))
  {
    hide Field, Holds, Big, B.Extent, Marker;
    var at := p.offsets[reference];
    match v {
      case Data(count, bytes) => PayloadRead(p, at, 0x4, |bytes|, count, bytes);
      case Text(count, bytes) => PayloadRead(p, at, 0x5, |bytes|, count, bytes);
      case Utf16Text(count, units, bytes) => PayloadRead(p, at, 0x6, units, count, bytes);
      case List(count, references) => ReferencesRead(p, at, 0xA, |references|, count, references);
      case Set(count, references) => ReferencesRead(p, at, 0xC, |references|, count, references);
      case Dictionary(count, keys, values) => ReferencesRead(p, at, 0xD, |keys|, count, keys + values);
      case _ => ScalarRead(p, reference, v);
    }
  }

  lemma ScalarRead(p: B.Plist, reference: nat, v: Value)
    requires B.WellPlaced(p) && reference < |p.offsets| && Stands(p, p.offsets[reference], v)
    requires v.Null? || v.Boolean? || v.Number? || v.Date? || v.Uid?
    ensures B.Decode(p, reference) == Some(Meaning(v))
  {
    hide Field, Holds, B.Extent, B.Collection;
    var at := p.offsets[reference];
    match v {
      case Null =>
        FirstByte(p.bytes, at, 0x00, []);
        assert [0x00] + [] == [0x00];
      case Boolean(value) =>
        var b: byte := if value then 0x09 else 0x08;
        FirstByte(p.bytes, at, b, []);
        assert [b] + [] == [b];
      case Number(fraction, exponent, bytes) =>
        SamePower(exponent);
        FirstByte(p.bytes, at, 16 * (if fraction then 2 else 1) + exponent, bytes);
      case Date(bytes) => FirstByte(p.bytes, at, 0x33, bytes);
      case Uid(bytes) => FirstByte(p.bytes, at, 0x80 + |bytes| - 1, bytes);
    }
  }

  lemma PayloadRead(p: B.Plist, at: nat, kind: nat, n: nat, count: Count, bytes: seq<byte>)
    requires kind < 16 && LegalCount(n, count) && p.tableOffset <= |p.bytes|
    requires Holds(p.bytes, at, Marker(kind, n, count) + bytes)
    requires at + |Marker(kind, n, count)| + |bytes| <= p.tableOffset
    ensures at < |p.bytes| && p.bytes[at] / 16 == kind
    ensures B.Extent(p, at, p.bytes[at] % 16) == Some((n, at + |Marker(kind, n, count)|))
  {
    hide Holds, Marker;
    HoldsSplit(p.bytes, at, Marker(kind, n, count), bytes);
    CountRead(p, at, kind, n, count);
  }

  lemma ReferencesRead(p: B.Plist, at: nat, kind: nat, n: nat, count: Count, references: seq<nat>)
    requires kind < 16 && LegalCount(n, count) && p.tableOffset <= |p.bytes| && p.referenceSize <= 8
    requires Holds(p.bytes, at, Marker(kind, n, count) + Numbers(references, p.referenceSize))
    requires at + |Marker(kind, n, count)| + |Numbers(references, p.referenceSize)| <= p.tableOffset
    requires AllBelow(references, Pow256(p.referenceSize)) && B.InRange(p, references)
    requires |references| == n * (if kind == 0xD then 2 else 1)
    ensures at < |p.bytes| && p.bytes[at] / 16 == kind
    ensures B.Collection(p, B.Extent(p, at, p.bytes[at] % 16), if kind == 0xD then 2 else 1) ==
      Some(Object(64 + 16 * |references|, references))
  {
    hide Holds, Marker, Field, Big, Numbers, B.Extent, LegalCount, AllBelow;
    var start := at + |Marker(kind, n, count)|;
    HoldsSplit(p.bytes, at, Marker(kind, n, count), Numbers(references, p.referenceSize));
    CountRead(p, at, kind, n, count);
    NumbersSize(references, p.referenceSize);
    NumbersRead(p.bytes, start, references, p.referenceSize);
  }

  lemma ValueFound(p: B.Plist, reference: nat) returns (v: Value)
    requires B.WellPlaced(p) && reference < |p.offsets| && B.Decode(p, reference).Some?
    ensures Stands(p, p.offsets[reference], v)
  {
    hide B.Extent, B.Collection, Stands;
    var at := p.offsets[reference];
    var kind := p.bytes[at] / 16;
    if 4 <= kind <= 6 {
      v := PayloadFound(p, at);
    } else if kind in {10, 12, 13} {
      v := CollectionFound(p, at);
    } else {
      v := ScalarFound(p, at);
    }
  }

  lemma ScalarFound(p: B.Plist, at: nat) returns (v: Value)
    requires B.WellPlaced(p) && at < p.tableOffset
    requires var kind, info := p.bytes[at] / 16, p.bytes[at] % 16;
      || (kind == 0 && info in {0, 8, 9}) || (kind == 3 && info == 3 && at + 9 <= p.tableOffset)
      || ((kind == 1 || kind == 2) && at + 1 + B.Pow2(info) <= p.tableOffset)
      || (kind == 8 && at + 2 + info <= p.tableOffset)
    ensures Stands(p, at, v)
  {
    hide Holds, AllBelow;
    NoneBelow(Pow256(p.referenceSize));
    var kind, info := p.bytes[at] / 16, p.bytes[at] % 16;
    if kind == 0 {
      v := if info == 0 then Null else Boolean(info == 9);
      FirstByte(p.bytes, at, info, []);
      HoldsNothing(p.bytes, at + 1);
      assert [info] + [] == [info];
    } else if kind == 3 {
      v := Date(p.bytes[at + 1..at + 9]);
      HoldsSlice(p.bytes, at + 1, at + 9);
      FirstByte(p.bytes, at, 0x33, v.bytes);
    } else if kind == 8 {
      v := Uid(p.bytes[at + 1..at + 2 + info]);
      HoldsSlice(p.bytes, at + 1, at + 2 + info);
      FirstByte(p.bytes, at, 0x80 + info, v.bytes);
    } else {
      SamePower(info);
      v := Number(kind == 2, info, p.bytes[at + 1..at + 1 + TwoTo(info)]);
      HoldsSlice(p.bytes, at + 1, at + 1 + TwoTo(info));
      FirstByte(p.bytes, at, 16 * kind + info, v.bytes);
    }
  }

  lemma PayloadFound(p: B.Plist, at: nat) returns (v: Value)
    requires B.WellPlaced(p) && at < p.tableOffset
    requires var kind, extent := p.bytes[at] / 16, B.Extent(p, at, p.bytes[at] % 16);
      4 <= kind <= 6 && extent.Some? &&
      extent.value.1 + (if kind == 6 then 2 * extent.value.0 else extent.value.0) <= p.tableOffset
    ensures Stands(p, at, v)
  {
    hide Field, Holds, Big, B.Extent, Marker, AllBelow;
    NoneBelow(Pow256(p.referenceSize));
    var kind := p.bytes[at] / 16;
    var (n, start) := B.Extent(p, at, p.bytes[at] % 16).value;
    var count := CountFound(p, at);
    var size := if kind == 6 then 2 * n else n;
    var bytes := p.bytes[start..start + size];
    v := if kind == 4 then Data(count, bytes) else if kind == 5 then Text(count, bytes)
         else Utf16Text(count, n, bytes);
    HoldsSlice(p.bytes, start, start + size);
    HoldsSplit(p.bytes, at, Marker(kind, n, count), bytes);
  }

  lemma NoneBelow(bound: nat)
    ensures AllBelow([], bound)
  {
  }

  lemma CollectionFound(p: B.Plist, at: nat) returns (v: Value)
    requires B.WellPlaced(p) && at < p.tableOffset
    requires var kind := p.bytes[at] / 16;
      kind in {10, 12, 13} && B.Collection(p, B.Extent(p, at, p.bytes[at] % 16), if kind == 13 then 2 else 1).Some?
    ensures Stands(p, at, v)
  {
    hide Field, Holds, Big, B.Extent, Marker, Numbers, Table, AllBelow;
    var kind := p.bytes[at] / 16;
    var (n, start) := B.Extent(p, at, p.bytes[at] % 16).value;
    var count := CountFound(p, at);
    var each := if kind == 13 then 2 else 1;
    var references := Table(p.bytes, start, p.referenceSize, n * each);
    NumbersFound(p.bytes, start, p.referenceSize, n * each);
    HoldsSplit(p.bytes, at, Marker(kind, n, count), Numbers(references, p.referenceSize));
    if kind == 10 {
      v := List(count, references);
    } else if kind == 12 {
      v := Set(count, references);
    } else {
      v := Dictionary(count, references[..n], references[n..]);
      assert references[..n] + references[n..] == references;
    }
  }

  /** An object decodes if and only if it is the writing of a value, and then to what that value means. */
  lemma DecodesIff(p: B.Plist, reference: nat, o: Object)
    requires B.WellPlaced(p) && reference < |p.offsets|
    ensures B.Decode(p, reference) == Some(o) <==>
      exists v :: Stands(p, p.offsets[reference], v) && Meaning(v) == o
  {
    hide B.Decode, Stands, Meaning;
    if B.Decode(p, reference) == Some(o) {
      var v := ValueFound(p, reference);
      ValueRead(p, reference, v);
    }
    if v :| Stands(p, p.offsets[reference], v) && Meaning(v) == o {
      ValueRead(p, reference, v);
    }
  }

  // ----------------------------------------------------------------------- file

  /** The places of the parts of a file. */
  lemma FileParts(bytes: seq<byte>, f: Frame)
    requires LegalFrame(f) && |bytes| == |WriteFile(f)|
    ensures var table := 8 + |f.objects|; var t := table + |Numbers(f.offsets, f.offsetSize)|;
      && |WriteFile(f)| == t + 32
      && (bytes == WriteFile(f) <==>
          && Holds(bytes, 0, Ascii("bplist00")) && Holds(bytes, 8, f.objects)
          && Holds(bytes, table, Numbers(f.offsets, f.offsetSize)) && TrailerStands(bytes, t, f))
  {
    hide Holds, Big, Numbers, Ascii;
    var table := 8 + |f.objects|;
    var numbers := Numbers(f.offsets, f.offsetSize);
    var t := table + |numbers|;
    var sizes := [f.offsetSize, f.referenceSize];
    var trailer := f.unused + sizes + Big(|f.offsets|, 8) + Big(f.root, 8) + Big(8 + |f.objects|, 8);
    HoldsFour(bytes, 0, Ascii("bplist00"), f.objects, numbers, trailer);
    HoldsSplit(bytes, t, f.unused + sizes + Big(|f.offsets|, 8) + Big(f.root, 8), Big(8 + |f.objects|, 8));
    HoldsFour(bytes, t, f.unused, sizes, Big(|f.offsets|, 8), Big(f.root, 8));
    WholeIff(bytes, WriteFile(f));
  }

  /** The trailer of `f` stands at `t`. */
  ghost predicate TrailerStands(bytes: seq<byte>, t: nat, f: Frame) {
    && Holds(bytes, t, f.unused) && Holds(bytes, t + |f.unused|, [f.offsetSize, f.referenceSize])
    && Holds(bytes, t + |f.unused| + 2, Big(|f.offsets|, 8)) && Holds(bytes, t + |f.unused| + 10, Big(f.root, 8))
    && Holds(bytes, t + |f.unused| + 18, Big(8 + |f.objects|, 8))
  }

  lemma WholeIff(bytes: seq<byte>, part: seq<byte>)
    requires |bytes| == |part|
    ensures Holds(bytes, 0, part) <==> bytes == part
  {
    assert bytes[0..|part|] == bytes;
  }

  /** What the reader of the layout makes of a frame. */
  ghost function LayoutOf(f: Frame): B.Plist {
    B.Plist(WriteFile(f), 8 + |f.objects|, f.referenceSize, f.offsets, f.root)
  }

  lemma Magic()
    ensures Ascii("bplist00") == B.MAGIC
  {
  }

  lemma TwoBytes(bytes: seq<byte>, at: nat, a: byte, b: byte)
    ensures Holds(bytes, at, [a, b]) <==> at + 2 <= |bytes| && bytes[at] == a && bytes[at + 1] == b
  {
    if at + 2 <= |bytes| { assert bytes[at..at + 2] == [bytes[at], bytes[at + 1]]; }
  }

  lemma FileRead(f: Frame, limits: B.Limits)
    requires LegalFrame(f) && |WriteFile(f)| <= MAX_SLICE && |f.offsets| <= limits.maxPlistObjects
    ensures B.Layout(WriteFile(f), limits) == Some(LayoutOf(f))
  {
    hide Field, Holds, Big, Numbers, Ascii, WriteFile;
    var bytes := WriteFile(f);
    var table := 8 + |f.objects|;
    var t := table + |Numbers(f.offsets, f.offsetSize)|;
    FileParts(bytes, f);
    Magic();
    HoldsAll(bytes, 0, 8, Ascii("bplist00"));
    Pow256Small();
    NumbersSize(f.offsets, f.offsetSize);
    AtLeast(|f.offsets|, f.offsetSize);
    TwoBytes(bytes, t + 6, f.offsetSize, f.referenceSize);
    FieldIff(bytes, t + 8, |f.offsets|, 8);
    FieldIff(bytes, t + 16, f.root, 8);
    FieldIff(bytes, t + 24, table, 8);
    NumbersRead(bytes, table, f.offsets, f.offsetSize);
  }

  lemma AtLeast(count: nat, width: nat)
    requires width >= 1
    ensures count <= count * width
  {
    MultiplyMonotone(1, width, count);
  }

  lemma FileFound(bytes: seq<byte>, limits: B.Limits) returns (f: Frame)
    requires |bytes| <= MAX_SLICE && B.Layout(bytes, limits).Some?
    ensures LegalFrame(f) && WriteFile(f) == bytes && |f.offsets| <= limits.maxPlistObjects
    ensures LayoutOf(f) == B.Layout(bytes, limits).value
  {
    hide Field, Holds, Big, Numbers, Ascii, WriteFile;
    var p := B.Layout(bytes, limits).value;
    var t := |bytes| - 32;
    f := Frame(bytes[8..p.tableOffset], p.offsets, bytes[t + 6], bytes[t + 7], p.root, bytes[t..t + 6]);
    Magic();
    Pow256Small();
    HoldsSlice(bytes, 0, 8);
    assert bytes[..8] == bytes[0..8];
    HoldsSlice(bytes, 8, p.tableOffset);
    NumbersFound(bytes, p.tableOffset, f.offsetSize, |p.offsets|);
    HoldsSlice(bytes, t, t + 6);
    TwoBytes(bytes, t + 6, f.offsetSize, f.referenceSize);
    FieldWritten(bytes, t + 8, 8);
    FieldWritten(bytes, t + 16, 8);
    FieldWritten(bytes, t + 24, 8);
    FieldIff(bytes, t + 8, |f.offsets|, 8);
    FieldIff(bytes, t + 16, f.root, 8);
    FieldIff(bytes, t + 24, p.tableOffset, 8);
    SizeOfFile(f);
    FileParts(bytes, f);
  }

  lemma SizeOfFile(f: Frame)
    requires LegalFrame(f)
    ensures |WriteFile(f)| == 8 + |f.objects| + |Numbers(f.offsets, f.offsetSize)| + 32
  {
    hide Big, Numbers, Ascii;
  }

  /** A layout is found if and only if the file is the writing of a legal frame, and then it is that one. */
  lemma LayoutIff(bytes: seq<byte>, limits: B.Limits, p: B.Plist)
    requires |bytes| <= MAX_SLICE
    ensures B.Layout(bytes, limits) == Some(p) <==>
      exists f :: LegalFrame(f) && WriteFile(f) == bytes && |f.offsets| <= limits.maxPlistObjects && LayoutOf(f) == p
  {
    hide B.Layout, LegalFrame, WriteFile, LayoutOf;
    if B.Layout(bytes, limits) == Some(p) {
      var f := FileFound(bytes, limits);
    }
    if f :| LegalFrame(f) && WriteFile(f) == bytes && |f.offsets| <= limits.maxPlistObjects && LayoutOf(f) == p {
      FileRead(f, limits);
    }
  }
}
