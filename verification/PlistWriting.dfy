/** How a binary property list is written: every object, the offset table and the trailer. */
module PlistWriting {
  import opened Prelude
  import opened ByteWriting
  import opened ObjectGraph

  /** A count below fifteen stands in the marker; any count can stand behind it in 1, 2, 4 or 8 bytes. */
  datatype Count = Inline | Extended(exponent: nat)

  datatype Value =
    | Null
    | Boolean(value: bool)
    | Number(fraction: bool, exponent: nat, bytes: seq<byte>)
    | Date(bytes: seq<byte>)
    | Data(count: Count, bytes: seq<byte>)
    | Text(count: Count, bytes: seq<byte>)
    | Utf16Text(count: Count, units: nat, bytes: seq<byte>)
    | Uid(bytes: seq<byte>)
    | List(count: Count, references: seq<nat>)
    | Set(count: Count, references: seq<nat>)
    | Dictionary(count: Count, keys: seq<nat>, values: seq<nat>)

  ghost function TwoTo(n: nat): (p: nat)
    ensures p >= 1
  {
    if n == 0 then 1 else TwoTo(n - 1) + TwoTo(n - 1)
  }

  /** The type in the high half of the marker, then the count. */
  ghost function Marker(kind: nat, n: nat, count: Count): seq<byte>
    requires kind < 16 && LegalCount(n, count)
  {
    match count
    case Inline => [16 * kind + n]
    case Extended(exponent) => [16 * kind + 15, 16 + exponent] + Big(n, TwoTo(exponent))
  }

  ghost predicate LegalCount(n: nat, count: Count) {
    match count
    case Inline => n < 15
    case Extended(exponent) => exponent <= 3 && n < Pow256(TwoTo(exponent))
  }

  ghost function Write(v: Value, width: nat): seq<byte>
    requires Legal(v)
  {
    match v
    case Null => [0x00]
    case Boolean(value) => [if value then 0x09 else 0x08]
    case Number(fraction, exponent, bytes) => [16 * (if fraction then 2 else 1) + exponent] + bytes
    case Date(bytes) => [0x33] + bytes
    case Data(count, bytes) => Marker(0x4, |bytes|, count) + bytes
    case Text(count, bytes) => Marker(0x5, |bytes|, count) + bytes
    case Utf16Text(count, units, bytes) => Marker(0x6, units, count) + bytes
    case Uid(bytes) => [0x80 + |bytes| - 1] + bytes
    case List(count, references) => Marker(0xA, |references|, count) + Numbers(references, width)
    case Set(count, references) => Marker(0xC, |references|, count) + Numbers(references, width)
    case Dictionary(count, keys, values) => Marker(0xD, |keys|, count) + Numbers(keys + values, width)
  }

  ghost predicate Legal(v: Value) {
    match v
    case Number(_, exponent, bytes) => exponent < 16 && |bytes| == TwoTo(exponent)
    case Date(bytes) => |bytes| == 8
    case Data(count, bytes) => LegalCount(|bytes|, count)
    case Text(count, bytes) => LegalCount(|bytes|, count)
    case Utf16Text(count, units, bytes) => LegalCount(units, count) && |bytes| == 2 * units
    case Uid(bytes) => 1 <= |bytes| <= 16
    case List(count, references) => LegalCount(|references|, count)
    case Set(count, references) => LegalCount(|references|, count)
    case Dictionary(count, keys, values) => LegalCount(|keys|, count) && |keys| == |values|
    case _ => true
  }

  ghost function References(v: Value): seq<nat> {
    match v
    case List(_, references) => references
    case Set(_, references) => references
    case Dictionary(_, keys, values) => keys + values
    case _ => []
  }

  /** A node costs 64 bytes; text and data their decoded size, three bytes a UTF-16 unit; a reference 16 bytes. */
  ghost function Cost(v: Value): nat {
    64 +
    match v
    case Data(_, bytes) => |bytes|
    case Text(_, bytes) => |bytes|
    case Utf16Text(_, units, _) => 3 * units
    case _ => 16 * |References(v)|
  }

  ghost function Meaning(v: Value): Object { Object(Cost(v), References(v)) }

  // --------------------------------------------------------------------- file

  /** What a file holds beside its objects. */
  datatype Frame = Frame(
    objects: seq<byte>, offsets: seq<nat>, offsetSize: byte, referenceSize: byte, root: nat, unused: seq<byte>)

  /** Magic and objects, the offset table, then the trailer of 32 bytes. */
  ghost function WriteFile(f: Frame): seq<byte> {
    Ascii("bplist00") + f.objects + Numbers(f.offsets, f.offsetSize) +
    (f.unused + [f.offsetSize, f.referenceSize] +
     Big(|f.offsets|, 8) + Big(f.root, 8) + Big(8 + |f.objects|, 8))
  }

  ghost predicate LegalFrame(f: Frame) {
    |f.unused| == 6 && 1 <= f.offsetSize <= 8 && 1 <= f.referenceSize <= 8 && f.root < |f.offsets| &&
    forall i :: 0 <= i < |f.offsets| ==> 8 <= f.offsets[i] < 8 + |f.objects| && f.offsets[i] < Pow256(f.offsetSize)
  }
}
