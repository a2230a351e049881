/**
 * The strict scanner for the Exec key (Desktop Entry Specification, section 7), against a two-level
 * grammar: string escapes first, then separated arguments that are quoted or bare.
 */
module ExecLine {
  import opened Prelude

  /** A decoded character, and whether a string escape produced it. */
  datatype Unit = Unit(character: char, escaped: bool)

  // ------------------------------------------------------ level one: escapes

  /** What a string escape letter stands for. */
  function Unescape(letter: char): Option<char> {
    if letter == 's' then Some(' ')
    else if letter == 'n' then Some('\n')
    else if letter == 't' then Some('\t')
    else if letter == 'r' then Some('\r')
    else if letter == '\\' then Some('\\')
    else None
  }

  /** `text` spells `u`: the character itself, or a backslash and the letter for it. */
  ghost predicate Spells(text: string, u: Unit) {
    if u.escaped
    then |text| == 2 && text[0] == '\\' && Unescape(text[1]) == Some(u.character)
    else text == [u.character] && u.character != '\\'
  }

  /** `raw` spells `units` one after another. */
  ghost predicate SpellsAll(raw: string, units: seq<Unit>)
    decreases |units|
  {
    if units == [] then raw == ""
    else
      var n := if units[0].escaped then 2 else 1;
      n <= |raw| && Spells(raw[..n], units[0]) && SpellsAll(raw[n..], units[1..])
  }

  predicate Printable(raw: string) {
    forall i :: 0 <= i < |raw| ==> ' ' <= raw[i] <= '~'
  }

  // --------------------------------------------------- level two: arguments

  predicate IsSeparator(c: char) { c == ' ' || c == '\t' || c == '\n' || c == '\r' }

  predicate IsUnquotedReserved(c: char) { c in "'\\><~|&;$*?#()`" }

  predicate IsQuotable(c: char) { c in "\"`$\\" }

  const QUOTE: Unit := Unit('"', false)
  const ESCAPE: Unit := Unit('\\', true)

  /** An element inside quotes: a plain character, or a backslash before one that needs it. */
  datatype Part = Bare(unit: Unit) | Escaped(unit: Unit)

  datatype Item = Blank(unit: Unit) | Word(text: seq<Unit>) | Quoted(parts: seq<Part>)

  ghost predicate ValidPart(p: Part) {
    match p
    case Bare(u) => u != QUOTE && u != ESCAPE && u.character != '`' && u.character != '$'
    case Escaped(u) => IsQuotable(u.character)
  }

  ghost predicate ValidItem(item: Item) {
    match item
    case Blank(u) => IsSeparator(u.character)
    case Word(text) =>
      text != [] && forall i :: 0 <= i < |text| ==> Plain(text[i])
    case Quoted(parts) => forall i :: 0 <= i < |parts| ==> ValidPart(parts[i])
  }

  /** A character that may stand in a bare word. */
  predicate Plain(u: Unit) {
    !IsSeparator(u.character) && u.character != '"' && !IsUnquotedReserved(u.character)
  }

  ghost function RenderPart(p: Part): seq<Unit> {
    match p
    case Bare(u) => [u]
    case Escaped(u) => [ESCAPE, u]
  }

  ghost function RenderParts(parts: seq<Part>): seq<Unit> {
    if parts == [] then [] else RenderPart(parts[0]) + RenderParts(parts[1..])
  }

  ghost function Render(item: Item): seq<Unit> {
    match item
    case Blank(u) => [u]
    case Word(text) => text
    case Quoted(parts) => [QUOTE] + RenderParts(parts) + [QUOTE]
  }

  ghost function RenderAll(items: seq<Item>): seq<Unit> {
    if items == [] then [] else Render(items[0]) + RenderAll(items[1..])
  }

  /** Arguments are set apart: after a word or a quoted argument comes a separator or the end. */
  ghost predicate ValidItems(items: seq<Item>) {
    items != [] ==>
      ValidItem(items[0]) && ValidItems(items[1..]) &&
      (|items| > 1 && !items[0].Blank? ==> items[1].Blank?)
  }

  ghost predicate Derives(items: seq<Item>, units: seq<Unit>) {
    ValidItems(items) && RenderAll(items) == units
  }

  ghost predicate Parses(units: seq<Unit>) {
    exists items :: Derives(items, units)
  }

  /** The language of the Exec key. */
  ghost predicate InLanguage(raw: string) {
    Printable(raw) && exists units :: SpellsAll(raw, units) && Parses(units)
  }

  // ------------------------------------------------------------ first argument

  /** Whether `rest` may follow a word or a quoted argument. */
  predicate Apart(rest: seq<Unit>) { rest == [] || IsSeparator(rest[0].character) }

  /** Units up to and including the closing quote, after an opening one. */
  function QuotedLength(s: seq<Unit>): (n: Option<nat>)
    ensures n.Some? ==> 1 <= n.value <= |s|
  {
    if s == [] then None
    else if s[0] == QUOTE then Some(1)
    else if s[0] == ESCAPE then
      if |s| < 2 || !IsQuotable(s[1].character) then None else Plus(2, QuotedLength(s[2..]))
    else if s[0].character == '`' || s[0].character == '$' then None
    else Plus(1, QuotedLength(s[1..]))
  }

  function Plus(k: nat, n: Option<nat>): Option<nat> { if n.Some? then Some(k + n.value) else None }

  lemma {:induction false} QuotedComplete(parts: seq<Part>, rest: seq<Unit>)
    requires forall i :: 0 <= i < |parts| ==> ValidPart(parts[i])
    ensures QuotedLength(RenderParts(parts) + [QUOTE] + rest) == Some(|RenderParts(parts)| + 1)
  {
    var s := RenderParts(parts) + [QUOTE] + rest;
    if parts != [] {
      var tail := RenderParts(parts[1..]) + [QUOTE] + rest;
      QuotedComplete(parts[1..], rest);
      assert s[|RenderPart(parts[0])|..] == tail;
    }
  }

  lemma {:induction false} QuotedSound(s: seq<Unit>) returns (parts: seq<Part>)
    requires QuotedLength(s).Some?
    ensures forall i :: 0 <= i < |parts| ==> ValidPart(parts[i])
    ensures RenderParts(parts) + [QUOTE] == s[..QuotedLength(s).value]
    decreases |s|
  {
    hide IsQuotable;
    var n := QuotedLength(s).value;
    if s[0] == QUOTE {
      parts := [];
    } else {
      var part := if s[0] == ESCAPE then Escaped(s[1]) else Bare(s[0]);
      var k := |RenderPart(part)|;
      var tail := QuotedSound(s[k..]);
      parts := [part] + tail;
      assert parts[1..] == tail;
      assert s[..n] == s[..k] + s[k..][..n - k];
      assert s[..k] == RenderPart(part);
    }
  }

  function WordLength(s: seq<Unit>): (n: nat)
    ensures n <= |s| && Apart(s[n..])
    ensures forall i :: 0 <= i < n ==> !IsSeparator(s[i].character)
  {
    if s == [] || IsSeparator(s[0].character) then 0 else 1 + WordLength(s[1..])
  }

  lemma ParsesEnd()
    ensures Parses([])
  {
    assert Derives([], []);
  }

  /** An argument or separator at the front is read the same way in every derivation. */
  lemma ParsesFront(item: Item, rest: seq<Unit>)
    requires ValidItem(item) && (!item.Blank? ==> Apart(rest))
    ensures Parses(rest) ==> Parses(Render(item) + rest)
  {
    if items :| Derives(items, rest) {
      var longer := [item] + items;
      assert longer[1..] == items;
      if items != [] && !item.Blank? { FrontIsBlank(items); }
      assert Derives(longer, Render(item) + rest);
    }
  }

  /** Items before which an argument may end start with a separator. */
  lemma FrontIsBlank(items: seq<Item>)
    requires ValidItems(items) && items != [] && Apart(RenderAll(items))
    ensures items[0].Blank?
  {
    var units := RenderAll(items);
    assert units[0] == Render(items[0])[0];
  }

  lemma ParsesBlank(s: seq<Unit>)
    requires s != [] && IsSeparator(s[0].character)
    ensures Parses(s) <==> Parses(s[1..])
  {
    assert s == Render(Blank(s[0])) + s[1..];
    ParsesFront(Blank(s[0]), s[1..]);
    if items :| Derives(items, s) {
      FrontIsBlank(items);
      assert s[1..] == RenderAll(items[1..]);
      assert Derives(items[1..], s[1..]);
    }
  }

  /** What is left after the first item of a derivation. */
  lemma Remainder(items: seq<Item>, s: seq<Unit>)
    requires Derives(items, s) && items != [] && !items[0].Blank?
    ensures var n := |Render(items[0])|;
      n <= |s| && s[..n] == Render(items[0]) && Apart(s[n..]) && Parses(s[n..])
  {
    var n := |Render(items[0])|;
    assert s[n..] == RenderAll(items[1..]) && s[..n] == Render(items[0]);
    assert Derives(items[1..], s[n..]);
    if |items| > 1 { assert s[n..][0] == Render(items[1])[0]; }
  }

  lemma Derivation(s: seq<Unit>) returns (items: seq<Item>)
    requires Parses(s)
    ensures Derives(items, s)
  {
    items :| Derives(items, s);
  }

  lemma ParsesQuoted(s: seq<Unit>)
    requires s != [] && s[0] == QUOTE
    ensures Parses(s) <==>
      QuotedLength(s[1..]).Some? &&
      var n := 1 + QuotedLength(s[1..]).value;
      Apart(s[n..]) && Parses(s[n..])
  {
    hide Parses, Derives, QuotedLength, Apart, ValidPart, RenderParts;
    if QuotedLength(s[1..]).Some? {
      var n := 1 + QuotedLength(s[1..]).value;
      var parts := QuotedSound(s[1..]);
      var item := Quoted(parts);
      assert Render(item) == [QUOTE] + (RenderParts(parts) + [QUOTE]);
      assert s == Render(item) + s[n..];
      if Apart(s[n..]) { ParsesFront(item, s[n..]); }
    }
    if Parses(s) {
      var items := Derivation(s);
      QuotedFront(items, s);
    }
  }

  lemma QuotedFront(items: seq<Item>, s: seq<Unit>)
    requires Derives(items, s) && s != [] && s[0] == QUOTE
    ensures QuotedLength(s[1..]).Some?
    ensures var n := 1 + QuotedLength(s[1..]).value; Apart(s[n..]) && Parses(s[n..])
  {
    hide Parses, Derives, QuotedLength, Apart, ValidPart, RenderParts;
    OpensQuoted(items, s);
    Remainder(items, s);
    var n := |Render(items[0])|;
    var inner := RenderParts(items[0].parts) + [QUOTE];
    QuotedComplete(items[0].parts, s[n..]);
    assert s[..n] == [QUOTE] + inner;
    assert s[1..] == inner + s[n..];
  }

  /** Only a quoted argument starts with a quote. */
  lemma OpensQuoted(items: seq<Item>, s: seq<Unit>)
    requires Derives(items, s) && s != [] && s[0] == QUOTE
    ensures items != [] && items[0].Quoted? && ValidItem(items[0])
  {
    assert s[0] == Render(items[0])[0];
  }

  lemma ParsesWord(s: seq<Unit>)
    requires s != [] && s[0] != QUOTE && !IsSeparator(s[0].character)
    ensures var n := WordLength(s);
      Parses(s) <==> (forall i :: 0 <= i < n ==> Plain(s[i])) && Parses(s[n..])
  {
    var n := WordLength(s);
    if forall i :: 0 <= i < n ==> Plain(s[i]) {
      assert s == Render(Word(s[..n])) + s[n..];
      ParsesFront(Word(s[..n]), s[n..]);
    }
    if items :| Derives(items, s) {
      WordFront(items, s);
    }
  }

  lemma WordFront(items: seq<Item>, s: seq<Unit>)
    requires Derives(items, s) && s != [] && s[0] != QUOTE && !IsSeparator(s[0].character)
    ensures var n := WordLength(s); (forall i :: 0 <= i < n ==> Plain(s[i])) && Parses(s[n..])
  {
    assert Render(items[0])[0] == s[0];
    assert items[0].Word?;
    Remainder(items, s);
    var k := |items[0].text|;
    assert forall i :: 0 <= i < k ==> s[i] == s[..k][i];
    WordEnds(s, k);
  }

  lemma {:induction false} WordEnds(s: seq<Unit>, k: nat)
    requires k <= |s| && Apart(s[k..]) && forall i :: 0 <= i < k ==> !IsSeparator(s[i].character)
    ensures WordLength(s) == k
  {
    if k > 0 { WordEnds(s[1..], k - 1); }
  }

  // ----------------------------------------------------------------- the scanner

  /** The units a raw value spells, read from the front. */
  ghost function Decoded(raw: string): Option<seq<Unit>>
    decreases |raw|
  {
    if raw == "" then Some([])
    else if raw[0] != '\\' then Then(Unit(raw[0], false), Decoded(raw[1..]))
    else if |raw| < 2 || Unescape(raw[1]).None? then None
    else Then(Unit(Unescape(raw[1]).value, true), Decoded(raw[2..]))
  }

  ghost function Then(u: Unit, rest: Option<seq<Unit>>): Option<seq<Unit>> {
    if rest.None? then None else Some([u] + rest.value)
  }

  /** A raw value spells at most one sequence of units. */
  lemma {:induction false} DecodedIff(raw: string, units: seq<Unit>)
    ensures SpellsAll(raw, units) <==> Decoded(raw) == Some(units)
    decreases |units|
  {
    if units == [] {
      if raw != "" { DecodedNotEmpty(raw); }
    } else {
      var n := if units[0].escaped then 2 else 1;
      if n <= |raw| { DecodedIff(raw[n..], units[1..]); }
      assert units == [units[0]] + units[1..];
    }
  }

  lemma DecodedNotEmpty(raw: string)
    requires raw != ""
    ensures Decoded(raw) != Some([])
  {
  }

  method StrictExec(raw: string) returns (ok: bool)
    ensures ok <==> InLanguage(raw)
  {
    if !Printable(raw) { return false; }
    forall units ensures SpellsAll(raw, units) <==> Decoded(raw) == Some(units) { DecodedIff(raw, units); }
    var units := Decode(raw);
    if units.None? { return false; }
    ok := Scan(units.value);
  }

  method Decode(raw: string) returns (r: Option<seq<Unit>>)
    ensures r == Decoded(raw)
  {
    var units: seq<Unit> := [];
    var index := 0;
    assert raw[0..] == raw;
    PrefixedNothing(Decoded(raw));
    while index < |raw|
      invariant index <= |raw|
      invariant Decoded(raw) == Prefixed(units, Decoded(raw[index..]))
    {
      ghost var rest := raw[index..];
      if raw[index] != '\\' {
        assert rest[1..] == raw[index + 1..];
        PrefixedThen(units, Unit(raw[index], false), Decoded(rest[1..]));
        units := units + [Unit(raw[index], false)];
        index := index + 1;
      } else {
        if index + 1 == |raw| { return None; }
        var escaped := Unescape(raw[index + 1]);
        if escaped.None? { return None; }
        assert rest[2..] == raw[index + 2..];
        PrefixedThen(units, Unit(escaped.value, true), Decoded(rest[2..]));
        units := units + [Unit(escaped.value, true)];
        index := index + 2;
      }
    }
    assert raw[|raw|..] == "" && units + [] == units;
    return Some(units);
  }

  lemma PrefixedNothing(rest: Option<seq<Unit>>)
    ensures Prefixed([], rest) == rest
  {
    if rest.Some? { assert [] + rest.value == rest.value; }
  }

  lemma PrefixedThen(front: seq<Unit>, u: Unit, rest: Option<seq<Unit>>)
    ensures Prefixed(front, Then(u, rest)) == Prefixed(front + [u], rest)
  {
    if rest.Some? { assert front + ([u] + rest.value) == (front + [u]) + rest.value; }
  }

  ghost function Prefixed(front: seq<Unit>, rest: Option<seq<Unit>>): Option<seq<Unit>> {
    if rest.None? then None else Some(front + rest.value)
  }

  /** Scans the units argument by argument; every loop moves the index forward. */
  method Scan(units: seq<Unit>) returns (ok: bool)
    ensures ok <==> Parses(units)
  {
    hide Parses, QuotedLength, WordLength, Plain;
    var index := 0;
    assert units[0..] == units;
    while index < |units|
      invariant index <= |units|
      invariant Parses(units) <==> Parses(units[index..])
      decreases |units| - index
    {
      var start := index;
      while index < |units| && IsSeparator(units[index].character)
        invariant start <= index <= |units|
        invariant Parses(units) <==> Parses(units[index..])
      {
        ParsesBlank(units[index..]);
        assert units[index..][1..] == units[index + 1..];
        index := index + 1;
      }
      if index == |units| { break; }
      ghost var rest := units[index..];
      if units[index] == QUOTE {
        ParsesQuoted(rest);
        var end := ScanQuoted(units, index + 1);
        assert rest[1..] == units[index + 1..];
        if end.None? { return false; }
        assert rest[end.value - index..] == units[end.value..];
        if end.value < |units| && !IsSeparator(units[end.value].character) { return false; }
        index := end.value;
      } else {
        ParsesWord(rest);
        var end := ScanWord(units, index);
        if end.None? { return false; }
        assert rest[end.value - index..] == units[end.value..];
        index := end.value;
      }
    }
    assert units[|units|..] == [];
    ParsesEnd();
    return true;
  }

  /** The index after the closing quote, if the quoted argument is well formed. */
  method ScanQuoted(units: seq<Unit>, start: nat) returns (r: Option<nat>)
    requires start <= |units|
    ensures r == Plus(start, QuotedLength(units[start..]))
  {
    hide QuotedLength, IsQuotable;
    var index := start;
    while index < |units| && units[index] != QUOTE
      invariant start <= index <= |units|
      invariant Plus(start, QuotedLength(units[start..])) == Plus(index, QuotedLength(units[index..]))
    {
      QuotedHere(units, index);
      var Unit(character, escaped) := units[index];
      if character == '\\' && escaped {
        index := index + 1;
        if index == |units| || !IsQuotable(units[index].character) { return None; }
      } else if character == '`' || character == '$' {
        return None;
      }
      index := index + 1;
    }
    QuotedHere(units, index);
    if index == |units| { return None; }
    return Some(index + 1);
  }

  /** What the unit at `index`, inside a quoted argument, means for where the argument ends. */
  lemma QuotedHere(units: seq<Unit>, index: nat)
    requires index <= |units|
    ensures var r := QuotedLength(units[index..]);
      if index == |units| then r.None?
      else if units[index] == QUOTE then r == Some(1)
      else if units[index] == ESCAPE then
        if index + 1 < |units| && IsQuotable(units[index + 1].character)
        then r == Plus(2, QuotedLength(units[index + 2..])) else r.None?
      else if units[index].character == '`' || units[index].character == '$' then r.None?
      else r == Plus(1, QuotedLength(units[index + 1..]))
  {
    hide IsQuotable;
    var rest := units[index..];
    if index < |units| { assert rest[1..] == units[index + 1..]; }
    if index + 1 < |units| { assert rest[2..] == units[index + 2..]; }
  }

  /** The index after a bare word, if every character in it may stand bare. */
  method ScanWord(units: seq<Unit>, start: nat) returns (r: Option<nat>)
    requires start < |units| && !IsSeparator(units[start].character)
    ensures var n := WordLength(units[start..]);
      r == if forall i :: 0 <= i < n ==> Plain(units[start..][i]) then Some(start + n) else None
    ensures r.Some? ==> r.value > start
  {
    hide IsUnquotedReserved, IsSeparator, WordLength;
    var index := start;
    while index < |units| && !IsSeparator(units[index].character)
      invariant start <= index <= |units|
      invariant forall i :: start <= i < index ==> Plain(units[i])
    {
      var character := units[index].character;
      if character == '"' || IsUnquotedReserved(character) {
        WordRefused(units, start, index);
        return None;
      }
      index := index + 1;
    }
    WordFound(units, start, index);
    return Some(index);
  }

  lemma WordRefused(units: seq<Unit>, start: nat, index: nat)
    requires start <= index < |units| && !Plain(units[index]) && !IsSeparator(units[index].character)
    requires forall i :: start <= i < index ==> Plain(units[i])
    ensures var s := units[start..]; exists i :: 0 <= i < WordLength(s) && !Plain(s[i])
  {
    hide IsUnquotedReserved, IsSeparator, WordLength;
    WordReaches(units[start..], index - start);
    assert !Plain(units[start..][index - start]);
  }

  lemma WordFound(units: seq<Unit>, start: nat, index: nat)
    requires start <= index <= |units| && Apart(units[index..]) && forall i :: start <= i < index ==> Plain(units[i])
    ensures var s := units[start..];
      WordLength(s) == index - start && forall i :: 0 <= i < index - start ==> Plain(s[i])
  {
    hide IsUnquotedReserved, IsSeparator, WordLength;
    assert units[start..][index - start..] == units[index..];
    WordEnds(units[start..], index - start);
  }

  lemma {:induction false} WordReaches(s: seq<Unit>, k: nat)
    requires k < |s| && forall i :: 0 <= i <= k ==> !IsSeparator(s[i].character)
    ensures WordLength(s) > k
  {
    if k > 0 { WordReaches(s[1..], k - 1); }
  }
}
