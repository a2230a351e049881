/** How an Exec key is written (Desktop Entry Specification, section 7), and which lines are refused. */
module ExecWriting {
  import opened Prelude
  import opened ExecLine

  // ------------------------------------------------------------------- writing

  /**
   * Inside quotes a backslash goes before a quote, backtick, dollar sign or backslash; and every
   * backslash of the argument level is doubled at the string level.
   */
  ghost function WriteCharacter(c: char): string {
    if c == '\\' then "\\\\\\\\"
    else if c == '"' || c == '`' || c == '$' then "\\\\" + [c]
    else [c]
  }

  ghost function WriteText(argument: string): string {
    if argument == "" then "" else WriteCharacter(argument[0]) + WriteText(argument[1..])
  }

  ghost function WriteArgument(argument: string): string { "\"" + WriteText(argument) + "\"" }

  ghost function WriteLine(arguments: seq<string>): string {
    if arguments == [] then ""
    else WriteArgument(arguments[0]) + if |arguments| == 1 then "" else " " + WriteLine(arguments[1..])
  }

  // ------------------------------------------------------------------- accepted

  ghost function PartOf(c: char): Part {
    if c == '\\' then Escaped(Unit(c, true))
    else if c == '"' || c == '`' || c == '$' then Escaped(Unit(c, false))
    else Bare(Unit(c, false))
  }

  ghost function PartsOf(argument: string): seq<Part> {
    if argument == "" then [] else [PartOf(argument[0])] + PartsOf(argument[1..])
  }

  ghost function ItemsOf(arguments: seq<string>): seq<Item> {
    if arguments == [] then []
    else
      [Quoted(PartsOf(arguments[0]))] +
      if |arguments| == 1 then [] else [Blank(Unit(' ', false))] + ItemsOf(arguments[1..])
  }

  lemma {:induction false} SpellsConcat(a: string, b: string, u: seq<Unit>, v: seq<Unit>)
    requires SpellsAll(a, u) && SpellsAll(b, v)
    ensures SpellsAll(a + b, u + v)
    decreases |u|
  {
    if u == [] {
      assert a + b == b && u + v == v;
    } else {
      var n := if u[0].escaped then 2 else 1;
      assert (a + b)[..n] == a[..n] && (a + b)[n..] == a[n..] + b && (u + v)[1..] == u[1..] + v;
      SpellsConcat(a[n..], b, u[1..], v);
    }
  }

  lemma SpellsOne(c: char)
    requires c != '\\'
    ensures SpellsAll([c], [Unit(c, false)])
  {
    assert [c][1..] == "" && [Unit(c, false)][1..] == [];
  }

  lemma SpellsBackslash()
    ensures SpellsAll("\\\\", [ESCAPE])
  {
    assert "\\\\"[2..] == "" && [ESCAPE][1..] == [];
  }

  lemma CharacterSpelled(c: char)
    ensures SpellsAll(WriteCharacter(c), RenderPart(PartOf(c))) && ValidPart(PartOf(c))
  {
    SpellsBackslash();
    if c == '\\' {
      SpellsConcat("\\\\", "\\\\", [ESCAPE], [ESCAPE]);
      assert "\\\\" + "\\\\" == "\\\\\\\\" && [ESCAPE] + [ESCAPE] == [ESCAPE, ESCAPE];
    } else {
      SpellsOne(c);
      SpellsConcat("\\\\", [c], [ESCAPE], [Unit(c, false)]);
      assert [ESCAPE] + [Unit(c, false)] == [ESCAPE, Unit(c, false)];
    }
  }

  lemma {:induction false} TextSpelled(argument: string)
    ensures SpellsAll(WriteText(argument), RenderParts(PartsOf(argument)))
    ensures forall i :: 0 <= i < |PartsOf(argument)| ==> ValidPart(PartsOf(argument)[i])
  {
    hide WriteCharacter, RenderPart, PartOf, ValidPart;
    if argument != "" {
      CharacterSpelled(argument[0]);
      TextSpelled(argument[1..]);
      SpellsConcat(WriteCharacter(argument[0]), WriteText(argument[1..]),
                   RenderPart(PartOf(argument[0])), RenderParts(PartsOf(argument[1..])));
      assert PartsOf(argument)[1..] == PartsOf(argument[1..]);
    }
  }

  lemma ArgumentSpelled(argument: string)
    ensures SpellsAll(WriteArgument(argument), Render(Quoted(PartsOf(argument))))
    ensures ValidItem(Quoted(PartsOf(argument)))
  {
    hide WriteText, RenderParts, PartsOf;
    TextSpelled(argument);
    SpellsOne('"');
    var text, parts := WriteText(argument), RenderParts(PartsOf(argument));
    SpellsConcat("\"", text, [QUOTE], parts);
    SpellsConcat("\"" + text, "\"", [QUOTE] + parts, [QUOTE]);
  }

  lemma {:induction false} LineSpelled(arguments: seq<string>)
    ensures SpellsAll(WriteLine(arguments), RenderAll(ItemsOf(arguments))) && ValidItems(ItemsOf(arguments))
    decreases |arguments|
  {
    hide WriteArgument, Render, PartsOf, ValidItem, SpellsAll;
    SpellsNothing();
    if arguments != [] {
      ArgumentSpelled(arguments[0]);
      var first := Quoted(PartsOf(arguments[0]));
      assert [first][1..] == [] && RenderAll([]) == [];
      if |arguments| == 1 {
        assert ItemsOf(arguments) == [first] && Render(first) + [] == Render(first);
        assert WriteLine(arguments) == WriteArgument(arguments[0]) + "";
        assert WriteArgument(arguments[0]) + "" == WriteArgument(arguments[0]);
      } else {
        var rest := ItemsOf(arguments[1..]);
        LineSpelled(arguments[1..]);
        SpellsOne(' ');
        BlankItem();
        var line := " " + WriteLine(arguments[1..]);
        SpellsConcat(" ", WriteLine(arguments[1..]), [Unit(' ', false)], RenderAll(rest));
        SpellsConcat(WriteArgument(arguments[0]), line, Render(first), [Unit(' ', false)] + RenderAll(rest));
        var tail := [Blank(Unit(' ', false))] + rest;
        assert tail[1..] == rest && RenderAll(tail) == [Unit(' ', false)] + RenderAll(rest);
        assert ItemsOf(arguments) == [first] + tail && ([first] + tail)[1..] == tail;
        assert ValidItems(tail);
      }
    }
  }

  lemma SpellsNothing()
    ensures SpellsAll("", [])
  {
  }

  lemma BlankItem()
    ensures ValidItem(Blank(Unit(' ', false))) && Render(Blank(Unit(' ', false))) == [Unit(' ', false)]
  {
  }

  lemma {:induction false} LinePrintable(arguments: seq<string>)
    requires forall i :: 0 <= i < |arguments| ==> Printable(arguments[i])
    ensures Printable(WriteLine(arguments))
    decreases |arguments|
  {
    if arguments != [] {
      TextPrintable(arguments[0]);
      LinePrintable(arguments[1..]);
    }
  }

  lemma {:induction false} TextPrintable(argument: string)
    requires Printable(argument)
    ensures Printable(WriteText(argument))
  {
    if argument != "" {
      TextPrintable(argument[1..]);
      assert Printable(WriteCharacter(argument[0]));
    }
  }

  /** Whatever printable arguments a line is written from, it is accepted. */
  lemma WrittenIsAccepted(arguments: seq<string>)
    requires forall i :: 0 <= i < |arguments| ==> Printable(arguments[i])
    ensures InLanguage(WriteLine(arguments))
  {
    hide SpellsAll, RenderAll, ValidItems, ItemsOf, WriteLine;
    LinePrintable(arguments);
    LineSpelled(arguments);
    assert Derives(ItemsOf(arguments), RenderAll(ItemsOf(arguments)));
  }

  // --------------------------------------------------------------------- bare words

  /** The units of a text without backslashes. */
  ghost function Units(text: string): seq<Unit> {
    if text == "" then [] else [Unit(text[0], false)] + Units(text[1..])
  }

  lemma {:induction false} UnitsSpelled(text: string)
    requires forall i :: 0 <= i < |text| ==> text[i] != '\\'
    ensures SpellsAll(text, Units(text)) && |Units(text)| == |text|
    ensures forall i :: 0 <= i < |text| ==> Units(text)[i] == Unit(text[i], false)
  {
    if text != "" {
      UnitsSpelled(text[1..]);
      assert text[..1] == [text[0]];
      assert Units(text)[1..] == Units(text[1..]);
    }
  }

  /** A text without backslashes spells its own characters and nothing else. */
  lemma OnlyUnits(text: string)
    requires forall i :: 0 <= i < |text| ==> text[i] != '\\'
    ensures InLanguage(text) <==> Printable(text) && Parses(Units(text))
  {
    hide SpellsAll, Parses, Units;
    UnitsSpelled(text);
    DecodedIff(text, Units(text));
    if units :| SpellsAll(text, units) && Parses(units) { DecodedIff(text, units); }
  }

  /** The characters that have to be quoted. */
  const RESERVED: string := " \"'><~|&;$*?#()`"

  /**
   * A single bare word is accepted if and only if every character is printable and none is reserved:
   * no quotes, no redirection, no control operators, wildcards, comments, variables or substitutions.
   */
  lemma BareWordIff(word: string)
    requires word != "" && forall i :: 0 <= i < |word| ==> word[i] != '\\' && word[i] != ' ' && word[i] != '"'
    ensures InLanguage(word) <==> Printable(word) && forall i :: 0 <= i < |word| ==> word[i] !in RESERVED
  {
    hide SpellsAll, Parses, Units, WordLength;
    OnlyUnits(word);
    UnitsSpelled(word);
    if Printable(word) {
      var units := Units(word);
      forall i | 0 <= i < |word|
        ensures !IsSeparator(units[i].character) && (Plain(units[i]) <==> word[i] !in RESERVED)
      {
        PlainIff(word[i]);
      }
      assert units[|units|..] == [];
      WordEnds(units, |units|);
      ParsesWord(units);
      ParsesEnd();
    }
  }

  lemma PlainIff(c: char)
    requires ' ' <= c <= '~' && c != '\\'
    ensures Plain(Unit(c, false)) <==> c !in RESERVED
  {
  }

  /** Inside quotes everything printable may stand but backticks and dollar signs without a backslash. */
  lemma QuotedTextIff(text: string)
    requires forall i :: 0 <= i < |text| ==> text[i] != '\\' && text[i] != '"'
    ensures InLanguage("\"" + text + "\"") <==>
      Printable(text) && forall i :: 0 <= i < |text| ==> text[i] != '`' && text[i] != '$'
  {
    hide SpellsAll, Parses, Units, QuotedLength;
    var line := "\"" + text + "\"";
    OnlyUnits(line);
    UnitsSpelled(line);
    var units := Units(line);
    var inner := units[1..];
    assert units[0] == QUOTE;
    PlainQuoted(inner, |text|);
    ParsesQuoted(units);
    ParsesEnd();
    assert units[|units|..] == [];
    assert forall i :: 0 <= i < |text| ==> inner[i] == Unit(text[i], false) && line[i + 1] == text[i];
    assert Printable(line) <==> Printable(text);
  }

  lemma {:induction false} PlainQuoted(s: seq<Unit>, n: nat)
    requires |s| == n + 1 && s[n] == QUOTE
    requires forall i :: 0 <= i < n ==> s[i] != QUOTE && s[i] != ESCAPE
    ensures QuotedLength(s) ==
      if forall i :: 0 <= i < n ==> s[i].character != '`' && s[i].character != '$' then Some(n + 1) else None
  {
    if n > 0 { PlainQuoted(s[1..], n - 1); }
  }
}
