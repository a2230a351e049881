/** The box tree of a container and what its boxes add up to. */
module BoxTree {
  import opened Prelude

  /** Aggregate ceilings, each a `u32` or `u64` of the caller. */
  datatype Budget = Budget(
    maxItems: nat,
    maxAssociations: nat,
    maxMetadataItems: nat,
    maxMetadataBytes: nat,
    maxBoxes: nat,
    maxDepth: nat,
    maxExtents: nat)

  predicate MachineBudget(b: Budget) {
    b.maxItems <= U32_MAX && b.maxAssociations <= U32_MAX && b.maxMetadataItems <= U32_MAX &&
    b.maxMetadataBytes <= U64_MAX && b.maxBoxes <= U32_MAX && b.maxDepth <= U32_MAX && b.maxExtents <= U32_MAX
  }

  /** One item location record: the extent bytes it declares for an item. */
  datatype Extent = Extent(id: nat, bytes: nat)

  /** What a box declares itself, apart from its children. */
  datatype Payload =
    | Plain
    | Metadata
    | Minimised
    | FileType(sequence: bool)
    | Item(id: nat, eager: bool)
    | Locations(records: seq<Extent>, widest: nat)
    | References(count: nat)
    | Associations(entries: nat, associations: nat)

  datatype Box = Box(payload: Payload, children: seq<Box>)

  /** Running totals over boxes, in the order a walk meets them. */
  datatype Summary = Summary(
    boxes: nat,
    items: nat,
    locations: nat,
    references: nat,
    entries: nat,
    associations: nat,
    widest: nat,
    eager: set<nat>,
    extents: seq<Extent>,
    meta: bool,
    mini: bool,
    brand: Option<bool>)

  const ZERO := Summary(0, 0, 0, 0, 0, 0, 0, {}, [], false, false, None)

  /** Counts add, widths take the maximum, item identifiers unite, and the last file type wins. */
  ghost function Join(a: Summary, b: Summary): Summary {
    Summary(
      a.boxes + b.boxes,
      a.items + b.items,
      a.locations + b.locations,
      a.references + b.references,
      a.entries + b.entries,
      a.associations + b.associations,
      Max(a.widest, b.widest),
      a.eager + b.eager,
      a.extents + b.extents,
      a.meta || b.meta,
      a.mini || b.mini,
      if b.brand.Some? then b.brand else a.brand)
  }

  ghost function Own(p: Payload): Summary {
    match p
    case Plain => ZERO
    case Metadata => ZERO.(meta := true)
    case Minimised => ZERO.(mini := true)
    case FileType(sequence) => ZERO.(brand := Some(sequence))
    case Item(id, eager) => ZERO.(items := 1, eager := if eager then {id} else {})
    case Locations(records, widest) => ZERO.(locations := |records|, widest := widest, extents := records)
    case References(count) => ZERO.(references := count)
    case Associations(entries, associations) => ZERO.(entries := entries, associations := associations)
  }

  ghost function Unit(): Summary { ZERO.(boxes := 1) }

  ghost function Sum(b: Box): Summary {
    Join(Join(Unit(), Own(b.payload)), SumAll(b.children))
  }

  ghost function SumAll(bs: seq<Box>): Summary {
    if bs == [] then ZERO else Join(Sum(bs[0]), SumAll(bs[1..]))
  }

  ghost function Height(b: Box): nat { 1 + HeightAll(b.children) }

  ghost function HeightAll(bs: seq<Box>): nat {
    if bs == [] then 0 else Max(Height(bs[0]), HeightAll(bs[1..]))
  }

  /** The counters are inside the budget. */
  ghost predicate Within(s: Summary, b: Budget) {
    s.boxes <= b.maxBoxes && s.items <= b.maxItems && s.locations <= b.maxItems &&
    s.references <= b.maxItems && s.entries <= b.maxItems && s.associations <= b.maxAssociations &&
    s.widest <= b.maxExtents && |s.eager| <= b.maxMetadataItems
  }

  lemma JoinAssociative(a: Summary, b: Summary, c: Summary)
    ensures Join(Join(a, b), c) == Join(a, Join(b, c))
  {
    assert (a.extents + b.extents) + c.extents == a.extents + (b.extents + c.extents);
    assert (a.eager + b.eager) + c.eager == a.eager + (b.eager + c.eager);
  }

  lemma JoinZero(a: Summary)
    ensures Join(a, ZERO) == a && Join(ZERO, a) == a
  {
    assert a.extents + [] == a.extents && [] + a.extents == a.extents;
    assert a.eager + {} == a.eager && {} + a.eager == a.eager;
  }

  lemma WithinMonotone(a: Summary, b: Summary, budget: Budget)
    requires Within(Join(a, b), budget)
    ensures Within(a, budget)
  {
    SubsetCard(a.eager, a.eager + b.eager);
  }

  lemma {:induction false} SubsetCard(a: set<nat>, b: set<nat>)
    requires a <= b
    ensures |a| <= |b|
  {
    if x :| x in a { SubsetCard(a - {x}, b - {x}); }
  }

  /** Adding a leaf that parses keeps the totals inside the budget. */
  ghost predicate Adds(before: Summary, payload: Option<Payload>, budget: Budget) {
    payload.Some? && Within(Join(before, Own(payload.value)), budget)
  }

  /** What adding each kind of leaf means for the running totals. */
  lemma AddPlain(s: Summary, budget: Budget)
    ensures Join(s, Own(Plain)) == s
    ensures Adds(s, Some(Plain), budget) <==> Within(s, budget)
  {
    JoinZero(s);
  }

  lemma AddMark(s: Summary, p: Payload, budget: Budget)
    requires p.Metadata? || p.Minimised? || p.FileType?
    ensures Join(s, Own(p)) ==
      match p
      case Metadata => s.(meta := true)
      case Minimised => s.(mini := true)
      case FileType(sequence) => s.(brand := Some(sequence))
    ensures Adds(s, Some(p), budget) <==> Within(s, budget)
  {
    JoinZero(s);
  }

  lemma AddItem(s: Summary, id: nat, eager: bool, budget: Budget)
    requires Within(s, budget)
    ensures Join(s, Own(Item(id, eager))) ==
      s.(items := s.items + 1, eager := if eager then s.eager + {id} else s.eager)
    ensures Adds(s, Some(Item(id, eager)), budget) <==>
      s.items + 1 <= budget.maxItems &&
      (eager && id !in s.eager ==> |s.eager| + 1 <= budget.maxMetadataItems)
  {
    JoinZero(s);
    if id in s.eager { assert s.eager + {id} == s.eager; }
  }

  lemma AddLocations(s: Summary, records: seq<Extent>, widest: nat, budget: Budget)
    requires Within(s, budget)
    ensures Join(s, Own(Locations(records, widest))) ==
      s.(locations := s.locations + |records|, widest := Max(s.widest, widest), extents := s.extents + records)
    ensures Adds(s, Some(Locations(records, widest)), budget) <==>
      s.locations + |records| <= budget.maxItems && widest <= budget.maxExtents
  {
    JoinZero(s);
  }

  lemma AddReferences(s: Summary, count: nat, budget: Budget)
    requires Within(s, budget)
    ensures Join(s, Own(References(count))) == s.(references := s.references + count)
    ensures Adds(s, Some(References(count)), budget) <==> s.references + count <= budget.maxItems
  {
    JoinZero(s);
  }

  lemma AddAssociations(s: Summary, entries: nat, associations: nat, budget: Budget)
    requires Within(s, budget)
    ensures Join(s, Own(Associations(entries, associations))) ==
      s.(entries := s.entries + entries, associations := s.associations + associations)
    ensures Adds(s, Some(Associations(entries, associations)), budget) <==>
      s.entries + entries <= budget.maxItems && s.associations + associations <= budget.maxAssociations
  {
    JoinZero(s);
  }

  /** A region that parses, stays shallow, and keeps the running totals inside the budget. */
  ghost predicate Completes(s: Summary, parsed: Option<seq<Box>>, depth: nat, budget: Budget) {
    parsed.Some? && depth + HeightAll(parsed.value) <= budget.maxDepth + 1 &&
    Within(Join(s, SumAll(parsed.value)), budget)
  }

  ghost predicate CompletesBox(s: Summary, parsed: Option<Box>, depth: nat, budget: Budget) {
    parsed.Some? && depth + Height(parsed.value) <= budget.maxDepth + 1 &&
    Within(Join(s, Sum(parsed.value)), budget)
  }

  /** A region completes exactly when its first box does and the rest completes after it. */
  lemma CompletesCons(s: Summary, head: Box, tail: seq<Box>, depth: nat, budget: Budget)
    ensures Completes(s, Some([head] + tail), depth, budget) <==>
      CompletesBox(s, Some(head), depth, budget) && depth <= budget.maxDepth + 1 &&
      Completes(Join(s, Sum(head)), Some(tail), depth, budget)
    ensures Join(s, SumAll([head] + tail)) == Join(Join(s, Sum(head)), SumAll(tail))
  {
    assert ([head] + tail)[1..] == tail;
    JoinAssociative(s, Sum(head), SumAll(tail));
    if Within(Join(Join(s, Sum(head)), SumAll(tail)), budget) {
      WithinMonotone(Join(s, Sum(head)), SumAll(tail), budget);
    }
  }

  /** A box completes exactly when it is not too deep, its own part fits, and its children complete after it. */
  lemma CompletesNode(s: Summary, b: Box, depth: nat, budget: Budget)
    ensures CompletesBox(s, Some(b), depth, budget) <==>
      depth <= budget.maxDepth && Within(Join(s, Unit()), budget) &&
      Within(Join(Join(s, Unit()), Own(b.payload)), budget) &&
      Completes(Join(Join(s, Unit()), Own(b.payload)), Some(b.children), depth + 1, budget)
    ensures Join(s, Sum(b)) == Join(Join(Join(s, Unit()), Own(b.payload)), SumAll(b.children))
  {
    var own := Own(b.payload);
    JoinAssociative(s, Join(Unit(), own), SumAll(b.children));
    JoinAssociative(s, Unit(), own);
    var before := Join(Join(s, Unit()), own);
    if Within(Join(before, SumAll(b.children)), budget) {
      WithinMonotone(before, SumAll(b.children), budget);
      WithinMonotone(Join(s, Unit()), own, budget);
    }
  }

  lemma CompletesLeaf(s: Summary, b: Box, depth: nat, budget: Budget)
    requires b.children == []
    ensures CompletesBox(s, Some(b), depth, budget) <==>
      depth <= budget.maxDepth && Within(Join(s, Unit()), budget) &&
      Within(Join(Join(s, Unit()), Own(b.payload)), budget)
    ensures Join(s, Sum(b)) == Join(Join(s, Unit()), Own(b.payload))
  {
    CompletesNode(s, b, depth, budget);
    CompletesNothing(Join(Join(s, Unit()), Own(b.payload)), depth + 1, budget);
  }

  lemma CompletesNothing(s: Summary, depth: nat, budget: Budget)
    ensures Completes(s, Some([]), depth, budget) <==> depth <= budget.maxDepth + 1 && Within(s, budget)
    ensures Join(s, SumAll([])) == s
  {
    JoinZero(s);
  }

  // -------------------------------------------------- eager-load byte charge

  /** The largest extent any location record declares for an item. */
  ghost function Largest(extents: seq<Extent>, id: nat): nat {
    if extents == [] then 0
    else
      var last := extents[|extents| - 1];
      var before := Largest(extents[..|extents| - 1], id);
      if last.id == id then Max(before, last.bytes) else before
  }

  /** The bytes of a set of items, each charged its largest record once. */
  ghost function Charge(ids: set<nat>, extents: seq<Extent>): nat {
    if ids == {} then 0 else
    var id :| id in ids;
    Largest(extents, id) + Charge(ids - {id}, extents)
  }

  lemma ChargeNothing(extents: seq<Extent>)
    ensures Charge({}, extents) == 0
  {
  }

  lemma {:induction false} ChargeSplit(ids: set<nat>, extents: seq<Extent>, id: nat)
    requires id in ids
    ensures Charge(ids, extents) == Largest(extents, id) + Charge(ids - {id}, extents)
  {
    var picked :| picked in ids &&
      Charge(ids, extents) == Largest(extents, picked) + Charge(ids - {picked}, extents);
    if picked != id {
      ChargeSplit(ids - {picked}, extents, id);
      ChargeSplit(ids - {id}, extents, picked);
      assert ids - {picked} - {id} == ids - {id} - {picked};
    }
  }

  /** The largest record is at least every record of the item, and is one of them unless there is none. */
  lemma {:induction false} LargestIsMaximum(extents: seq<Extent>, id: nat)
    ensures forall e :: e in extents && e.id == id ==> e.bytes <= Largest(extents, id)
    ensures Largest(extents, id) > 0 ==> Extent(id, Largest(extents, id)) in extents
  {
    if extents != [] {
      LargestIsMaximum(extents[..|extents| - 1], id);
      assert extents == extents[..|extents| - 1] + [extents[|extents| - 1]];
    }
  }

  lemma {:induction false} LargestConcat(a: seq<Extent>, b: seq<Extent>, id: nat)
    ensures Largest(a + b, id) == Max(Largest(a, id), Largest(b, id))
  {
    if b == [] {
      assert a + b == a;
    } else {
      assert (a + b)[..|a + b| - 1] == a + b[..|b| - 1];
      LargestConcat(a, b[..|b| - 1], id);
    }
  }

  /** More items, each with a record at least as large, are charged at least as much. */
  lemma {:induction false} ChargeMonotone(ids: set<nat>, more: set<nat>, less: seq<Extent>, extents: seq<Extent>)
    requires ids <= more && forall id :: Largest(less, id) <= Largest(extents, id)
    ensures Charge(ids, less) <= Charge(more, extents)
    decreases |ids|
  {
    hide Charge, Largest;
    ChargeNothing(less);
    if id :| id in ids {
      ChargeSplit(ids, less, id);
      ChargeSplit(more, extents, id);
      ChargeMonotone(ids - {id}, more - {id}, less, extents);
    }
  }

  /** Declaring more records, wherever they stand, or more eager items never lowers the charge. */
  lemma DecoysNeverLowerTheCharge(
    ids: set<nat>, more: set<nat>, before: seq<Extent>, decoys: seq<Extent>, after: seq<Extent>)
    ensures Charge(ids + more, before + (decoys + after)) >= Charge(ids, before + after)
  {
    hide Charge, Largest;
    forall id ensures Largest(before + after, id) <= Largest(before + (decoys + after), id) {
      LargestConcat(before, after, id);
      LargestConcat(decoys, after, id);
      LargestConcat(before, decoys + after, id);
    }
    ChargeMonotone(ids, ids + more, before + after, before + (decoys + after));
  }

  // ---------------------------------------------------------- whole-file law

  /** There is metadata, or a shape that needs none. */
  ghost predicate Announced(s: Summary) { s.meta || s.mini || s.brand == Some(true) }

  /**
   * What a whole file must satisfy: bounded nesting, every sum inside its ceiling, metadata where
   * the parser needs it, and a bounded eager load.
   */
  ghost predicate Affordable(top: seq<Box>, budget: Budget) {
    var s := SumAll(top);
    HeightAll(top) <= budget.maxDepth + 1 && Within(s, budget) && Announced(s) &&
    Charge(s.eager, s.extents) <= budget.maxMetadataBytes
  }

  /** A fresh walk: nothing counted, and no sequence brand seen. */
  const START: Summary := ZERO.(brand := Some(false))

  /** A fresh walk adds nothing of its own to the totals of the file. */
  lemma AffordableFromStart(top: seq<Box>, budget: Budget)
    ensures Affordable(top, budget) <==>
      Completes(START, Some(top), 0, budget) &&
      var t := Join(START, SumAll(top));
      Announced(t) && Charge(t.eager, t.extents) <= budget.maxMetadataBytes
  {
    hide Charge, SumAll, HeightAll;
    var s := SumAll(top);
    StartJoin(s);
  }

  lemma StartJoin(s: Summary)
    ensures Join(START, s) == s.(brand := if s.brand.Some? then s.brand else Some(false))
  {
    JoinZero(s);
  }

  lemma {:induction false} SumConcat(a: seq<Box>, b: seq<Box>)
    ensures SumAll(a + b) == Join(SumAll(a), SumAll(b))
  {
    if a == [] {
      assert a + b == b;
      JoinZero(SumAll(b));
    } else {
      assert (a + b)[1..] == a[1..] + b;
      SumConcat(a[1..], b);
      JoinAssociative(Sum(a[0]), SumAll(a[1..]), SumAll(b));
    }
  }

  // ---------------------------------------------------------------- insertion

  /** Every total of `a` is at most that of `b`. */
  ghost predicate Below(a: Summary, b: Summary) {
    a.boxes <= b.boxes && a.items <= b.items && a.locations <= b.locations && a.references <= b.references &&
    a.entries <= b.entries && a.associations <= b.associations && a.widest <= b.widest && a.eager <= b.eager &&
    forall id :: Largest(a.extents, id) <= Largest(b.extents, id)
  }

  lemma JoinBelow(a: Summary, b: Summary, c: Summary, d: Summary)
    requires Below(a, b) && Below(c, d)
    ensures Below(Join(a, c), Join(b, d))
  {
    hide Largest;
    forall id ensures Largest(a.extents + c.extents, id) <= Largest(b.extents + d.extents, id) {
      LargestConcat(a.extents, c.extents, id);
      LargestConcat(b.extents, d.extents, id);
    }
  }

  lemma BelowCosts(a: Summary, b: Summary, budget: Budget)
    requires Below(a, b)
    ensures Within(b, budget) ==> Within(a, budget)
    ensures Charge(a.eager, a.extents) <= Charge(b.eager, b.extents)
  {
    hide Charge, Largest;
    SubsetCard(a.eager, b.eager);
    ChargeMonotone(a.eager, b.eager, a.extents, b.extents);
  }

  /** `large` is `small` with boxes inserted, at any depth: before, between or after its boxes, or inside them. */
  ghost predicate Embeds(small: seq<Box>, large: seq<Box>)
    decreases large
  {
    if large == [] then small == []
    else
      Embeds(small, large[1..]) ||
      (small != [] && small[0].payload == large[0].payload &&
       Embeds(small[0].children, large[0].children) && Embeds(small[1..], large[1..]))
  }

  lemma {:induction false} EmbedsItself(a: seq<Box>)
    ensures Embeds(a, a)
    decreases a
  {
    if a != [] {
      EmbedsItself(a[0].children);
      EmbedsItself(a[1..]);
    }
  }

  /** Boxes put between the boxes of a region are an insertion. */
  lemma {:induction false} InsertionEmbeds(a: seq<Box>, extra: seq<Box>, b: seq<Box>)
    ensures Embeds(a + b, a + (extra + b))
    decreases |a| + |extra|
  {
    var large := a + (extra + b);
    if a != [] {
      assert (a + b)[1..] == a[1..] + b && large[1..] == a[1..] + (extra + b);
      EmbedsItself(a[0].children);
      InsertionEmbeds(a[1..], extra, b);
    } else if extra != [] {
      assert large[1..] == a + (extra[1..] + b);
      InsertionEmbeds(a, extra[1..], b);
    } else {
      assert a + b == large;
      EmbedsItself(large);
    }
  }

  lemma {:induction false} EmbeddedBelow(small: seq<Box>, large: seq<Box>)
    requires Embeds(small, large)
    ensures Below(SumAll(small), SumAll(large))
    decreases large
  {
    hide Largest, Below, Join;
    if large == [] {
      BelowItself(SumAll(small));
    } else if Embeds(small, large[1..]) {
      EmbeddedBelow(small, large[1..]);
      NothingBelow(Sum(large[0]));
      JoinBelow(ZERO, Sum(large[0]), SumAll(small), SumAll(large[1..]));
      JoinZero(SumAll(small));
    } else {
      EmbeddedBelow(small[0].children, large[0].children);
      EmbeddedBelow(small[1..], large[1..]);
      var own := Join(Unit(), Own(small[0].payload));
      BelowItself(own);
      JoinBelow(own, own, SumAll(small[0].children), SumAll(large[0].children));
      JoinBelow(Sum(small[0]), Sum(large[0]), SumAll(small[1..]), SumAll(large[1..]));
    }
  }

  lemma BelowItself(a: Summary)
    ensures Below(a, a)
  {
  }

  lemma NothingBelow(a: Summary)
    ensures Below(ZERO, a)
  {
  }

  lemma {:induction false} EmbeddedHeight(small: seq<Box>, large: seq<Box>)
    requires Embeds(small, large)
    ensures HeightAll(small) <= HeightAll(large)
    decreases large
  {
    if large != [] {
      if Embeds(small, large[1..]) {
        EmbeddedHeight(small, large[1..]);
      } else {
        EmbeddedHeight(small[0].children, large[0].children);
        EmbeddedHeight(small[1..], large[1..]);
      }
    }
  }

  /**
   * No ceiling can be evaded by inserting boxes anywhere in the tree: when the larger file is affordable,
   * the one without the insertions exceeds none of its bounds, and is affordable exactly when it still
   * announces its metadata by itself.
   */
  lemma InsertedBoxesEvadeNothing(small: seq<Box>, large: seq<Box>, budget: Budget)
    requires Embeds(small, large)
    ensures HeightAll(small) <= HeightAll(large)
    ensures Within(SumAll(large), budget) ==> Within(SumAll(small), budget)
    ensures var s, t := SumAll(small), SumAll(large); Charge(s.eager, s.extents) <= Charge(t.eager, t.extents)
    ensures Affordable(large, budget) ==> (Affordable(small, budget) <==> Announced(SumAll(small)))
  {
    hide SumAll, Charge, Within, Below, HeightAll, Embeds, Announced;
    EmbeddedHeight(small, large);
    EmbeddedBelow(small, large);
    BelowCosts(SumAll(small), SumAll(large), budget);
  }
}
