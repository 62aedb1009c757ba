/**
 * Hover: what the server says about the word under the cursor. The word is
 * tried against the language tables first and against the document's own
 * symbols last; the first stage that knows it answers.
 */
module Hover {
  import opened Common
  import opened Text
  import opened Dicts
  import opened Language
  import opened Scanner
  import opened Symbols
  import opened Document

  /** The hover text, as the data it is formatted from. */
  datatype HoverInfo =
    | CommandHover(entry: Entry)                    // the word is a command name
    | AbbreviationHover(entry: Entry)               // the word is a command abbreviation
    | FunctionHover(entry: Entry)                   // `$` and an intrinsic function name
    | SpecialVariableHover(entry: Entry)            // `$` and a special variable name
    | SsvnHover(entry: Entry)                       // `^$` and an SSVN name
    | LabelHover(name: string, definition: LabelDef)
    | GlobalHover(name: string, lines: seq<nat>)    // the first ten lines that reference it
    | LocalHover(name: string, lines: seq<nat>)

  /** The number of referencing lines a hover shows. */
  const SHOWN_LINES: nat := 10

  /** The cascade of checks applied to a non-empty word. */
  function HoverWord(lang: Tables, t: SymbolTable, word: string): Option<HoverInfo>
  {
    var up := UpperString(word);
    var command := FindEntry(lang.commands, NameColumn, up);
    var abbreviation := FindEntry(lang.commands, AbbrevColumn, up);
    var intrinsic := FindEntry(lang.functions, NameColumn, up);
    var special := FindEntry(lang.specialVariables, NameColumn, up);
    var ssvn := FindEntry(lang.ssvns, NameColumn, up);
    if command.Some? then Some(CommandHover(lang.commands[command.value]))
    else if abbreviation.Some? then Some(AbbreviationHover(lang.commands[abbreviation.value]))
    else if StartsWith(word, "$") && intrinsic.Some? then Some(FunctionHover(lang.functions[intrinsic.value]))
    else if StartsWith(word, "$") && special.Some? then Some(SpecialVariableHover(lang.specialVariables[special.value]))
    else if StartsWith(word, "^$") && ssvn.Some? then Some(SsvnHover(lang.ssvns[ssvn.value]))
    else if word in t.labels.entries then Some(LabelHover(word, t.labels.entries[word]))
    else if StartsWith(word, "^") && word[1..] in t.globals.entries then
      Some(GlobalHover(word, Take(t.globals.entries[word[1..]], SHOWN_LINES)))
    else if word in t.variables.entries then Some(LocalHover(word, Take(t.variables.entries[word], SHOWN_LINES)))
    else None
  }

  /** Hover at `(line, character)`: nothing without a word there. */
  function HoverAt(lang: Tables, lines: seq<string>, t: SymbolTable, line: nat, character: nat): Option<HoverInfo>
  {
    match WordAt(lines, line, character)
    case None => None
    case Some(word) => if word == [] then None else HoverWord(lang, t, word)
  }

  // ---------------------------------------------------------------------
  // The order of the cascade
  // ---------------------------------------------------------------------

  /** There is no hover exactly when every stage misses. */
  lemma HoverNone(lang: Tables, t: SymbolTable, word: string)
    ensures HoverWord(lang, t, word).None? <==>
      var up := UpperString(word);
      && (forall j :: 0 <= j < |lang.commands| ==> lang.commands[j].name != up && lang.commands[j].abbrev != up)
      && (StartsWith(word, "$") ==>
            && (forall j :: 0 <= j < |lang.functions| ==> lang.functions[j].name != up)
            && (forall j :: 0 <= j < |lang.specialVariables| ==> lang.specialVariables[j].name != up))
      && (StartsWith(word, "^$") ==> forall j :: 0 <= j < |lang.ssvns| ==> lang.ssvns[j].name != up)
      && word !in t.labels.entries
      && (StartsWith(word, "^") ==> word[1..] !in t.globals.entries)
      && word !in t.variables.entries
  {
  }

  /** A command name, in any case, wins over every other meaning of the word, a label of that name included. */
  lemma CommandWins(lang: Tables, t: SymbolTable, word: string, j: nat)
    requires j < |lang.commands| && lang.commands[j].name == UpperString(word)
    ensures var h := HoverWord(lang, t, word);
      h.Some? && h.value.CommandHover? && h.value.entry.name == UpperString(word)
  {
  }

  /** A word that is no command name but is an abbreviation finds the first command with that abbreviation. */
  lemma AbbreviationFindsFirst(lang: Tables, t: SymbolTable, word: string, j: nat)
    requires forall i :: 0 <= i < |lang.commands| ==> lang.commands[i].name != UpperString(word)
    requires j < |lang.commands| && lang.commands[j].abbrev == UpperString(word)
    requires forall i :: 0 <= i < j ==> lang.commands[i].abbrev != UpperString(word)
    ensures HoverWord(lang, t, word) == Some(AbbreviationHover(lang.commands[j]))
  {
    FirstWithAbbrev(lang.commands, UpperString(word), j);
  }

  /** `h` is HALT (not HANG, which shares the abbreviation), in whatever document. */
  lemma HoverOnH(lang: Tables, t: SymbolTable)
    requires lang.commands == COMMANDS
    ensures HoverWord(lang, t, "h") == Some(AbbreviationHover(COMMANDS[6])) && COMMANDS[6].name == "HALT"
  {
    CommandNames();
    EarlierAbbreviations();
    assert UpperString("h") == "H";
    AbbreviationFindsFirst(lang, t, "h", 6);
    HaltAndHang();
  }

  /** `g` is GOTO. */
  lemma HoverOnG(lang: Tables, t: SymbolTable)
    requires lang.commands == COMMANDS
    ensures HoverWord(lang, t, "g") == Some(AbbreviationHover(COMMANDS[5])) && COMMANDS[5].name == "GOTO"
  {
    CommandNames();
    EarlierAbbreviations();
    assert UpperString("g") == "G";
    AbbreviationFindsFirst(lang, t, "g", 5);
    HaltAndHang();
  }

  // ---------------------------------------------------------------------
  // The document's own symbols
  // ---------------------------------------------------------------------

  /** No command stage answers for a word that does not start with a letter. */
  lemma CommandsMiss(lang: Tables, word: string)
    requires Lettered(lang.commands)
    requires |word| > 0 && !IsLetter(word[0])
    ensures var up := UpperString(word);
      FindEntry(lang.commands, NameColumn, up).None? && FindEntry(lang.commands, AbbrevColumn, up).None?
  {
    var up := UpperString(word);
    assert up[0] == word[0];
    forall j | 0 <= j < |lang.commands|
      ensures lang.commands[j].name != up && lang.commands[j].abbrev != up
    {
      assert lang.commands[j].name[0] != up[0];
      assert lang.commands[j].abbrev[0] != up[0];
    }
  }

  /**
   * Hovering over `^` and the name of a global shows the global with the
   * first ten lines of its list: no table, and no label, can claim such a
   * word.
   */
  lemma HoverOnGlobal(lang: Tables, t: SymbolTable, g: string)
    requires Lettered(lang.commands) && WellShaped(t)
    requires g in t.globals.entries
    ensures HoverWord(lang, t, ['^'] + g) == Some(GlobalHover(['^'] + g, Take(t.globals.entries[g], SHOWN_LINES)))
  {
    var w := ['^'] + g;
    CommandsMiss(lang, w);
    assert w[1..] == g;
    assert w[1] == g[0];
    assert !IsName(w);
  }

  /**
   * Hovering over a label whose name is no command name or abbreviation
   * shows the label's definition.
   */
  lemma HoverOnLabel(lang: Tables, t: SymbolTable, x: string)
    requires WellShaped(t) && x in t.labels.entries
    requires forall j :: 0 <= j < |lang.commands| ==>
      lang.commands[j].name != UpperString(x) && lang.commands[j].abbrev != UpperString(x)
    ensures HoverWord(lang, t, x) == Some(LabelHover(x, t.labels.entries[x]))
  {
    assert IsName(x);
  }

  /**
   * Hovering over a local variable that is no label, command name or
   * abbreviation shows the first ten lines of its list.
   */
  lemma HoverOnLocal(lang: Tables, t: SymbolTable, x: string)
    requires WellShaped(t) && x in t.variables.entries && x !in t.labels.entries
    requires forall j :: 0 <= j < |lang.commands| ==>
      lang.commands[j].name != UpperString(x) && lang.commands[j].abbrev != UpperString(x)
    ensures HoverWord(lang, t, x) == Some(LocalHover(x, Take(t.variables.entries[x], SHOWN_LINES)))
  {
    assert IsIdentifier(x);
  }
}
