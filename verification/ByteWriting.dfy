/** Writing what the readers of Prelude read: big-endian numbers, and parts of a buffer. */
module ByteWriting {
  import opened Prelude

  /** The `width` low bytes of `n`, most significant first. */
  ghost function Big(n: nat, width: nat): (s: seq<byte>)
    ensures |s| == width
    decreases width
  {
    if width == 0 then [] else Big(n / 256, width - 1) + [n % 256]
  }

  /** `part` stands at `at`. */
  ghost predicate Holds(bytes: seq<byte>, at: nat, part: seq<byte>) {
    at + |part| <= |bytes| && bytes[at..at + |part|] == part
  }

  lemma HoldsWhole(bytes: seq<byte>)
    ensures Holds(bytes, 0, bytes)
  {
  }

  /** Two parts stand one after the other exactly when each stands in its place. */
  lemma HoldsSplit(bytes: seq<byte>, at: nat, a: seq<byte>, b: seq<byte>)
    ensures Holds(bytes, at, a + b) <==> Holds(bytes, at, a) && Holds(bytes, at + |a|, b)
  {
    if at + |a| + |b| <= |bytes| {
      var whole := bytes[at..at + |a| + |b|];
      assert whole == bytes[at..at + |a|] + bytes[at + |a|..at + |a| + |b|];
      assert (a + b)[..|a|] == a && (a + b)[|a|..] == b;
      assert whole[..|a|] == bytes[at..at + |a|] && whole[|a|..] == bytes[at + |a|..at + |a| + |b|];
    }
  }

  lemma HoldsThree(bytes: seq<byte>, at: nat, a: seq<byte>, b: seq<byte>, c: seq<byte>)
    ensures Holds(bytes, at, a + b + c) <==>
      Holds(bytes, at, a) && Holds(bytes, at + |a|, b) && Holds(bytes, at + |a| + |b|, c)
  {
    hide Holds;
    HoldsSplit(bytes, at, a + b, c);
    HoldsSplit(bytes, at, a, b);
  }

  lemma HoldsFour(bytes: seq<byte>, at: nat, a: seq<byte>, b: seq<byte>, c: seq<byte>, d: seq<byte>)
    ensures Holds(bytes, at, a + b + c + d) <==>
      Holds(bytes, at, a) && Holds(bytes, at + |a|, b) && Holds(bytes, at + |a| + |b|, c) &&
      Holds(bytes, at + |a| + |b| + |c|, d)
  {
    hide Holds;
    HoldsSplit(bytes, at, a + b + c, d);
    HoldsThree(bytes, at, a, b, c);
  }

  lemma HoldsSix(
    bytes: seq<byte>, at: nat, a: seq<byte>, b: seq<byte>, c: seq<byte>, d: seq<byte>, e: seq<byte>, f: seq<byte>)
    ensures Holds(bytes, at, a + b + c + d + e + f) <==>
      Holds(bytes, at, a) && Holds(bytes, at + |a|, b) && Holds(bytes, at + |a| + |b|, c) &&
      Holds(bytes, at + |a| + |b| + |c|, d) && Holds(bytes, at + |a| + |b| + |c| + |d|, e) &&
      Holds(bytes, at + |a| + |b| + |c| + |d| + |e|, f)
  {
    hide Holds;
    HoldsSplit(bytes, at, a + b + c + d + e, f);
    HoldsSplit(bytes, at, a + b + c + d, e);
    HoldsFour(bytes, at, a, b, c, d);
  }

  /** The parts fill a buffer that holds them from its start to its end. */
  lemma HoldsAll(bytes: seq<byte>, at: nat, end: nat, part: seq<byte>)
    requires Holds(bytes, at, part) && at + |part| == end
    ensures end <= |bytes| && bytes[at..end] == part
  {
  }

  lemma HoldsFits(bytes: seq<byte>, at: nat, part: seq<byte>)
    ensures Holds(bytes, at, part) ==> at + |part| <= |bytes|
  {
  }

  lemma HoldsNothing(bytes: seq<byte>, at: nat)
    ensures Holds(bytes, at, []) <==> at <= |bytes|
  {
  }

  lemma HoldsSlice(bytes: seq<byte>, from: nat, to: nat)
    requires from <= to <= |bytes|
    ensures Holds(bytes, from, bytes[from..to])
  {
  }

  /** A field reads `n` exactly when the bytes of `n` stand there. */
  lemma {:induction false} FieldIff(bytes: seq<byte>, at: nat, n: nat, width: nat)
    requires at + width <= |bytes| && n < Pow256(width)
    ensures Field(bytes, at, width) == n <==> Holds(bytes, at, Big(n, width))
  {
    if width > 0 {
      FieldIff(bytes, at, n / 256, width - 1);
      HoldsSplit(bytes, at, Big(n / 256, width - 1), [n % 256]);
      assert Holds(bytes, at + width - 1, [n % 256]) <==> bytes[at + width - 1] == n % 256;
    }
  }

  /** The bytes of a field are those of its number. */
  lemma FieldWritten(bytes: seq<byte>, at: nat, width: nat)
    requires at + width <= |bytes|
    ensures Field(bytes, at, width) < Pow256(width)
    ensures Big(Field(bytes, at, width), width) == bytes[at..at + width]
  {
    FieldBound(bytes, at, width);
    FieldIff(bytes, at, Field(bytes, at, width), width);
  }

  /** One byte is its own number. */
  lemma FieldOne(bytes: seq<byte>, at: nat)
    requires at < |bytes|
    ensures Field(bytes, at, 1) == bytes[at]
  {
    assert Field(bytes, at, 0) == 0;
  }

  /** A four-character code as a number. */
  function Code(name: string): (n: nat)
    requires |name| == 4 && forall i :: 0 <= i < 4 ==> name[i] < 256 as char
    ensures n <= U32_MAX
  {
    0x100_0000 * (name[0] as int) + 0x1_0000 * (name[1] as int) + 0x100 * (name[2] as int) + name[3] as int
  }

  /** Characters of one byte each. */
  ghost function Ascii(text: string): (s: seq<byte>)
    requires forall i :: 0 <= i < |text| ==> text[i] < 256 as char
    ensures |s| == |text|
  {
    seq(|text|, i requires 0 <= i < |text| => text[i] as int)
  }

  // ------------------------------------------------------------------- tables

  /** Numbers of `width` bytes each, one after the other. */
  ghost function Numbers(ns: seq<nat>, width: nat): seq<byte> {
    if ns == [] then [] else Big(ns[0], width) + Numbers(ns[1..], width)
  }

  ghost predicate AllBelow(ns: seq<nat>, bound: nat) { forall i :: 0 <= i < |ns| ==> ns[i] < bound }

  lemma OneMore(count: nat, width: nat)
    ensures (count + 1) * width == width + count * width
  {
  }

  lemma NotNegative(a: nat, b: nat)
    ensures a * b >= 0
  {
  }

  lemma {:induction false} NumbersSize(ns: seq<nat>, width: nat)
    ensures |Numbers(ns, width)| == |ns| * width
  {
    if ns != [] {
      NumbersSize(ns[1..], width);
      OneMore(|ns| - 1, width);
    }
  }

  /** A table is read from where it was written. */
  lemma {:induction false} NumbersRead(bytes: seq<byte>, at: nat, ns: seq<nat>, width: nat)
    requires AllBelow(ns, Pow256(width)) && Holds(bytes, at, Numbers(ns, width))
    ensures Table(bytes, at, width, |ns|) == ns
    decreases |ns|
  {
    hide Field, Holds, Big;
    if ns != [] {
      HoldsSplit(bytes, at, Big(ns[0], width), Numbers(ns[1..], width));
      HoldsFits(bytes, at, Big(ns[0], width));
      FieldIff(bytes, at, ns[0], width);
      NumbersRead(bytes, at + width, ns[1..], width);
      TableFront(bytes, at, width, |ns|);
    }
  }

  lemma TableFront(bytes: seq<byte>, at: nat, width: nat, count: nat)
    requires count > 0
    ensures Table(bytes, at, width, count) == [Field(bytes, at, width)] + Table(bytes, at + width, width, count - 1)
  {
    hide Field;
    var rest := Table(bytes, at + width, width, count - 1);
    assert 0 * width == 0;
    forall i | 0 < i < count ensures Table(bytes, at, width, count)[i] == rest[i - 1] {
      OneMore(i - 1, width);
    }
  }

  /** What a table reads is what stands there. */
  lemma {:induction false} NumbersFound(bytes: seq<byte>, at: nat, width: nat, count: nat)
    requires at + count * width <= |bytes|
    ensures var ns := Table(bytes, at, width, count);
      AllBelow(ns, Pow256(width)) && Holds(bytes, at, Numbers(ns, width)) && |Numbers(ns, width)| == count * width
    decreases count
  {
    hide Field, Holds, Big;
    var ns := Table(bytes, at, width, count);
    NumbersSize(ns, width);
    if count == 0 {
      HoldsNothing(bytes, at);
    } else {
      OneMore(count - 1, width);
      NotNegative(count - 1, width);
      TableFront(bytes, at, width, count);
      NumbersFound(bytes, at + width, width, count - 1);
      FieldWritten(bytes, at, width);
      HoldsSlice(bytes, at, at + width);
      assert ns[1..] == Table(bytes, at + width, width, count - 1);
      HoldsSplit(bytes, at, Big(ns[0], width), Numbers(ns[1..], width));
    }
  }
}
