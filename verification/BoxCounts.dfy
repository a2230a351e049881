/**
 * What a written container adds up to, counted over its boxes one by one, and the ceilings this puts on
 * the whole file.
 */
module BoxCounts {
  import opened Prelude
  import opened ByteWriting
  import opened BoxTree
  import opened BoxWriting
  import opened BoxGrammar
  import F = BoxFormat

  /** Every box of a file, outer before inner, in the order of the file. */
  ghost function Every(nodes: seq<Node>): seq<Node> {
    if nodes == [] then [] else [nodes[0]] + EveryInside(nodes[0]) + Every(nodes[1..])
  }

  ghost function EveryInside(n: Node): seq<Node> {
    match n.content
    case Region(_, children) => Every(children)
    case ItemInformation(_, _, children) => Every(children)
    case Descriptions(_, children, _) => Every(children)
    case _ => []
  }

  /** No box stands more than `levels` deep. */
  ghost predicate Shallow(nodes: seq<Node>, levels: int) {
    nodes != [] ==> levels >= 1 && ShallowInside(nodes[0], levels - 1) && Shallow(nodes[1..], levels)
  }

  ghost predicate ShallowInside(n: Node, levels: int) {
    match n.content
    case Region(_, children) => Shallow(children, levels)
    case ItemInformation(_, _, children) => Shallow(children, levels)
    case Descriptions(_, children, _) => Shallow(children, levels)
    case _ => true
  }

  // ------------------------------------------------------------------ one box

  ghost function Items(n: Node): nat { if n.content.Entry? then 1 else 0 }

  ghost function LocationRecords(n: Node): nat {
    if n.content.ItemLocations? then |n.content.records| else 0
  }

  /** The destinations of all lists of an item or track reference box. */
  ghost function Destinations(n: Node): nat {
    if n.content.ItemReferences? || n.content.TrackReferences? then Targets(n.content.lists) else 0
  }

  ghost function AssociatedItems(n: Node): nat {
    if n.content.PropertyAssociations? then |n.content.entries| else 0
  }

  ghost function AssociatedProperties(n: Node): nat {
    if n.content.PropertyAssociations? then Properties(n.content.entries) else 0
  }

  /** Entries the library loads at once: everything in the old layout, later what is not a picture. */
  ghost predicate LoadsAtOnce(n: Node, id: nat) {
    n.content.Entry? && n.content.id == id && (n.content.version <= 1 || !IsPicture(n.content.itemKind))
  }

  // ------------------------------------------------------------------ all boxes

  ghost function Total(all: seq<Node>, f: Node -> nat): nat {
    if all == [] then 0 else f(all[0]) + Total(all[1..], f)
  }

  ghost function AllExtents(all: seq<Node>): seq<Extent> {
    if all == [] then []
    else (if all[0].content.ItemLocations? then Extents(all[0].content.records) else []) + AllExtents(all[1..])
  }

  /** The largest number of extents of any location record. */
  ghost function MostExtents(all: seq<Node>): nat {
    if all == [] then 0
    else Max(if all[0].content.ItemLocations? then Widest(all[0].content.records) else 0, MostExtents(all[1..]))
  }

  /** The items loaded at once, each once however often it is declared. */
  ghost function LoadedAtOnce(all: seq<Node>): set<nat> {
    set n | n in all && n.content.Entry? && LoadsAtOnce(n, n.content.id) :: n.content.id
  }

  /** The last file type box, if there is one, decides. */
  ghost function LastFileType(all: seq<Node>): Option<bool> {
    if all == [] then None
    else
      var n := all[|all| - 1];
      if n.content.Brands?
      then Some(SequenceFile(n.content.major, n.content.brands))
      else LastFileType(all[..|all| - 1])
  }

  ghost predicate Occurs(all: seq<Node>, kind: nat) { exists n :: n in all && n.head.kind == kind }

  lemma {:induction false} SumConcatenated(a: seq<Node>, b: seq<Node>, f: Node -> nat)
    ensures Total(a + b, f) == Total(a, f) + Total(b, f)
  {
    if a == [] {
      assert a + b == b;
    } else {
      assert (a + b)[1..] == a[1..] + b;
      SumConcatenated(a[1..], b, f);
    }
  }

  lemma {:induction false} ExtentsConcatenated(a: seq<Node>, b: seq<Node>)
    ensures AllExtents(a + b) == AllExtents(a) + AllExtents(b)
    ensures MostExtents(a + b) == Max(MostExtents(a), MostExtents(b))
  {
    if a == [] {
      assert a + b == b;
    } else {
      assert (a + b)[1..] == a[1..] + b;
      ExtentsConcatenated(a[1..], b);
    }
  }

  lemma {:induction false} FileTypeConcatenated(a: seq<Node>, b: seq<Node>)
    ensures LastFileType(a + b) == if LastFileType(b).Some? then LastFileType(b) else LastFileType(a)
  {
    if b == [] {
      assert a + b == a;
    } else {
      assert (a + b)[..|a + b| - 1] == a + b[..|b| - 1];
      FileTypeConcatenated(a, b[..|b| - 1]);
    }
  }

  // ------------------------------------------------------------------- totals

  /** A summary that counts exactly what stands in `all`. */
  ghost predicate Counts(s: Summary, all: seq<Node>) {
    && s.boxes == |all|
    && s.items == Total(all, Items)
    && s.locations == Total(all, LocationRecords)
    && s.references == Total(all, Destinations)
    && s.entries == Total(all, AssociatedItems)
    && s.associations == Total(all, AssociatedProperties)
    && s.widest == MostExtents(all)
    && s.eager == LoadedAtOnce(all)
    && s.extents == AllExtents(all)
    && s.meta == Occurs(all, Code("meta"))
    && s.mini == Occurs(all, Code("mini"))
    && s.brand == LastFileType(all)
  }

  lemma CountsNothing()
    ensures Counts(ZERO, [])
  {
  }

  lemma CountsJoin(s: Summary, t: Summary, a: seq<Node>, b: seq<Node>)
    requires Counts(s, a) && Counts(t, b)
    ensures Counts(Join(s, t), a + b)
  {
    hide Code, Total, AllExtents, MostExtents, LastFileType, LoadsAtOnce, Items, LocationRecords, Destinations;
    hide AssociatedItems, AssociatedProperties;
    SumConcatenated(a, b, Items);
    SumConcatenated(a, b, LocationRecords);
    SumConcatenated(a, b, Destinations);
    SumConcatenated(a, b, AssociatedItems);
    SumConcatenated(a, b, AssociatedProperties);
    ExtentsConcatenated(a, b);
    FileTypeConcatenated(a, b);
    assert LoadedAtOnce(a + b) == LoadedAtOnce(a) + LoadedAtOnce(b);
  }

  lemma CountsOne(n: Node)
    requires Fits(n.head.kind, n.content)
    ensures Counts(Join(Unit(), Own(PayloadOf(n.head.kind, n.content))), [n])
  {
    hide Fits, Code, Join, Own, Unit, PayloadOf, Total, AllExtents, MostExtents, LastFileType;
    OwnNumbers(n);
    OwnMarks(n);
    SingleSum(n, Items);
    SingleSum(n, LocationRecords);
    SingleSum(n, Destinations);
    SingleSum(n, AssociatedItems);
    SingleSum(n, AssociatedProperties);
    SingleExtents(n);
    SingleFileType(n);
    assert n in [n] && forall m :: m in [n] ==> m == n;
    assert LoadedAtOnce([n]) == if n.content.Entry? && LoadsAtOnce(n, n.content.id) then {n.content.id} else {};
  }

  lemma OwnNumbers(n: Node)
    ensures var s := Join(Unit(), Own(PayloadOf(n.head.kind, n.content)));
      && s.boxes == 1 && s.items == Items(n) && s.locations == LocationRecords(n) && s.references == Destinations(n)
      && s.entries == AssociatedItems(n) && s.associations == AssociatedProperties(n)
      && s.widest == (if n.content.ItemLocations? then Widest(n.content.records) else 0)
      && s.extents == (if n.content.ItemLocations? then Extents(n.content.records) else [])
  {
    hide Code, IsPicture, SequenceFile, Extents, Widest, Targets, Properties;
    assert n.content.ItemLocations? ==> [] + Extents(n.content.records) == Extents(n.content.records);
  }

  lemma OwnMarks(n: Node)
    requires Fits(n.head.kind, n.content)
    ensures var s := Join(Unit(), Own(PayloadOf(n.head.kind, n.content)));
      && s.eager == (if n.content.Entry? && LoadsAtOnce(n, n.content.id) then {n.content.id} else {})
      && s.meta == (n.head.kind == Code("meta")) && s.mini == (n.head.kind == Code("mini"))
      && s.brand == if n.content.Brands? then Some(SequenceFile(n.content.major, n.content.brands)) else None
  {
    hide Fits, Code, IsPicture, SequenceFile, Extents, Widest, Targets, Properties;
    Marks(n.head.kind, n.content);
  }

  lemma SingleSum(n: Node, f: Node -> nat)
    ensures Total([n], f) == f(n)
  {
    assert [n][1..] == [];
  }

  lemma SingleExtents(n: Node)
    ensures AllExtents([n]) == if n.content.ItemLocations? then Extents(n.content.records) else []
    ensures MostExtents([n]) == if n.content.ItemLocations? then Widest(n.content.records) else 0
  {
    assert [n][1..] == [];
  }

  lemma SingleFileType(n: Node)
    ensures LastFileType([n]) == if n.content.Brands?
      then Some(SequenceFile(n.content.major, n.content.brands))
      else None
  {
    hide IsSequence;
    assert [n][..0] == [];
  }

  lemma Marks(kind: nat, c: Content)
    requires Fits(kind, c)
    ensures kind == Code("meta") ==> c.Region?
    ensures kind == Code("mini") ==> c.Other?
    ensures Code("meta") != Code("mini")
  {
  }

  lemma {:induction false} TotalsOf(nodes: seq<Node>)
    requires LegalAll(nodes)
    ensures Counts(SumAll(Trees(nodes)), Every(nodes))
    decreases nodes
  {
    hide Counts, Join, Own, PayloadOf, Legal, LegalContent;
    if nodes == [] {
      CountsNothing();
    } else {
      var n := nodes[0];
      assert Legal(n);
      HeadLegal(n);
      TotalsInside(n);
      TotalsOf(nodes[1..]);
      CountsOne(n);
      var own := Join(Unit(), Own(PayloadOf(n.head.kind, n.content)));
      CountsJoin(own, SumAll(Inside(n.content)), [n], EveryInside(n));
      CountsJoin(Sum(TreeOf(n)), SumAll(Trees(nodes[1..])), [n] + EveryInside(n), Every(nodes[1..]));
    }
  }

  lemma {:induction false} TotalsInside(n: Node)
    requires LegalContent(n.content)
    ensures Counts(SumAll(Inside(n.content)), EveryInside(n))
    decreases n
  {
    hide Counts, Join;
    match n.content {
      case Region(_, children) => TotalsOf(children);
      case ItemInformation(_, _, children) => TotalsOf(children);
      case Descriptions(_, children, _) => TotalsOf(children);
      case _ => CountsNothing();
    }
  }

  lemma {:induction false} LevelsOf(nodes: seq<Node>, levels: int)
    ensures Shallow(nodes, levels) <==> nodes == [] || HeightAll(Trees(nodes)) <= levels
    decreases nodes
  {
    if nodes != [] {
      if levels >= 1 { LevelsInside(nodes[0], levels - 1); }
      LevelsOf(nodes[1..], levels);
    }
  }

  lemma {:induction false} LevelsInside(n: Node, levels: int)
    requires levels >= 0
    ensures ShallowInside(n, levels) <==> HeightAll(Inside(n.content)) <= levels
    decreases n
  {
    match n.content {
      case Region(_, children) => LevelsOf(children, levels);
      case ItemInformation(_, _, children) => LevelsOf(children, levels);
      case Descriptions(_, children, _) => LevelsOf(children, levels);
      case _ =>
    }
  }

  /**
   * A written file is accepted if and only if its boxes, counted one by one, respect every ceiling, and
   * the items loaded at once, each by its largest location record, fit in memory.
   */
  lemma AcceptedIff(nodes: seq<Node>, budget: Budget)
    requires LegalAll(nodes) && |WriteAll(nodes)| <= MAX_SLICE
    ensures var all := Every(nodes);
      F.Acceptable(WriteAll(nodes), budget) <==>
        && Shallow(nodes, budget.maxDepth + 1) && |all| <= budget.maxBoxes
        && Total(all, Items) <= budget.maxItems && Total(all, LocationRecords) <= budget.maxItems
        && Total(all, Destinations) <= budget.maxItems && Total(all, AssociatedItems) <= budget.maxItems
        && Total(all, AssociatedProperties) <= budget.maxAssociations && MostExtents(all) <= budget.maxExtents
        && |LoadedAtOnce(all)| <= budget.maxMetadataItems
        && (Occurs(all, Code("meta")) || Occurs(all, Code("mini")) || LastFileType(all) == Some(true))
        && Charge(LoadedAtOnce(all), AllExtents(all)) <= budget.maxMetadataBytes
  {
    hide Total, Items, LocationRecords, Destinations, AssociatedItems, AssociatedProperties, Charge, Shallow;
    hide SumAll, Trees, WriteAll, Every, LegalAll, HeightAll, Code, Occurs, LoadedAtOnce, AllExtents, MostExtents;
    WrittenIsRead(nodes);
    TotalsOf(nodes);
    LevelsOf(nodes, budget.maxDepth + 1);
    if nodes == [] { NoHeight(); }
  }

  lemma NoHeight()
    ensures HeightAll(Trees([])) == 0
  {
  }
}
