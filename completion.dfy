/**
 * Completion: which of the three kinds of suggestion the text before the
 * cursor asks for, and the items each kind offers, in the order the
 * server lists them.
 */
module Completion {
  import opened Common
  import opened Text
  import opened Dicts
  import opened Language
  import opened Symbols

  // LSP CompletionItemKind values used by the server
  const FUNCTION_KIND: nat := 3
  const VARIABLE_KIND: nat := 6
  const LABEL_KIND: nat := 12
  const KEYWORD_KIND: nat := 14

  /** The `detail` text of an item, as the data it is formatted from. */
  datatype Detail =
    | TableDetail(abbrev: string, desc: string)     // "(abbrev) desc"
    | CommandDetail(command: string, desc: string)  // "command - desc"
    | LabelDetail(definition: LabelDef)             // "Label at line n(params)"
    | GlobalDetail                                  // "Global variable"
    | LocalDetail                                   // "Local variable"

  /** An item: its label, kind, detail and the optional insertText and documentation fields. */
  datatype CompletionItem = CompletionItem(
    text: string,
    kind: nat,
    detail: Detail,
    insertText: Option<string>,
    documentation: Option<string>)

  datatype Branch = DollarBranch | CaretBranch | CommandBranch

  /** `s` without its first character; empty when `s` is. */
  function Tail(s: string): string
  {
    if s == [] then [] else s[1..]
  }

  /**
   * Functions and special variables are wanted when the prefix holds a
   * word and either ends in `$` once trailing whitespace is dropped, or has
   * a `$` in its last word. A blank prefix never wants them, whatever else
   * holds: the blank test governs both alternatives.
   */
  predicate WantsDollar(prefix: string)
  {
    var toks := Tokens(prefix);
    if toks != [] then EndsWith(RStrip(prefix), '$') || '$' in toks[|toks| - 1] else false
  }

  /**
   * Globals are wanted when the prefix ends in `^` once trailing whitespace
   * is dropped, or holds a `^` with no `$` after its last `^`.
   */
  predicate WantsCaret(prefix: string)
  {
    var parts := Split(prefix, '^');
    EndsWith(RStrip(prefix), '^') || ('^' in prefix && '$' !in parts[|parts| - 1])
  }

  /** The `if` / `elif` / `else` that picks the kind of completion. */
  function Classify(prefix: string): Branch
  {
    if WantsDollar(prefix) then DollarBranch
    else if WantsCaret(prefix) then CaretBranch
    else CommandBranch
  }

  // ---------------------------------------------------------------------
  // The items, one list per loop of the handler
  // ---------------------------------------------------------------------

  /** An intrinsic function, special variable or SSVN, inserted without its first character. */
  function TableItem(e: Entry, kind: nat): CompletionItem
  {
    CompletionItem(e.name, kind, TableDetail(e.abbrev, e.desc), Some(Tail(e.name)), Some(e.desc))
  }

  function TableItems(table: seq<Entry>, kind: nat): seq<CompletionItem>
  {
    seq(|table|, i requires 0 <= i < |table| => TableItem(table[i], kind))
  }

  /** A command under its full name, then under its abbreviation. */
  function CommandPair(c: Entry): seq<CompletionItem>
  {
    [ CompletionItem(c.name, KEYWORD_KIND, TableDetail(c.abbrev, c.desc), None, Some(c.desc)),
      CompletionItem(c.abbrev, KEYWORD_KIND, CommandDetail(c.name, c.desc), None, Some(c.desc)) ]
  }

  /** The pairs of all commands: item `2i + h` is half `h` of the pair of command `i`. */
  function CommandItems(table: seq<Entry>): seq<CompletionItem>
  {
    seq(2 * |table|, i requires 0 <= i < 2 * |table| => CommandPair(table[i / 2])[i % 2])
  }

  function LabelItem(name: string, d: LabelDef): CompletionItem
  {
    CompletionItem(name, LABEL_KIND, LabelDetail(d), None, None)
  }

  /** One item per label, in dictionary order. */
  function LabelItems(labels: Dict<LabelDef>): seq<CompletionItem>
    requires labels.Valid()
  {
    seq(|labels.keys|, i requires 0 <= i < |labels.keys| =>
      assert labels.keys[i] in labels.keys;
      LabelItem(labels.keys[i], labels.entries[labels.keys[i]]))
  }

  function GlobalItem(g: string): CompletionItem
  {
    CompletionItem(['^'] + g, VARIABLE_KIND, GlobalDetail, Some(g), None)
  }

  function GlobalItems(names: seq<string>): seq<CompletionItem>
  {
    seq(|names|, i requires 0 <= i < |names| => GlobalItem(names[i]))
  }

  function LocalItem(v: string): CompletionItem
  {
    CompletionItem(v, VARIABLE_KIND, LocalDetail, None, None)
  }

  function LocalItems(names: seq<string>): seq<CompletionItem>
  {
    seq(|names|, i requires 0 <= i < |names| => LocalItem(names[i]))
  }

  /** What each branch offers for a document whose tables are `t`. */
  function BranchItems(lang: Tables, b: Branch, t: SymbolTable): seq<CompletionItem>
    requires t.labels.Valid()
  {
    match b
    case DollarBranch => TableItems(lang.functions, FUNCTION_KIND) + TableItems(lang.specialVariables, VARIABLE_KIND)
    case CaretBranch => TableItems(lang.ssvns, VARIABLE_KIND) + GlobalItems(t.globals.keys)
    case CommandBranch => CommandItems(lang.commands) + LabelItems(t.labels) + LocalItems(t.variables.keys)
  }

  /** The completion list at `(line, character)`: empty past the last line, else the branch the prefix picks. */
  function Complete(lang: Tables, lines: seq<string>, t: SymbolTable, line: nat, character: nat): seq<CompletionItem>
    requires t.labels.Valid()
  {
    if line >= |lines| then [] else BranchItems(lang, Classify(Take(lines[line], character)), t)
  }

  // ---------------------------------------------------------------------
  // Which branch
  // ---------------------------------------------------------------------

  /** A blank prefix asks for commands: the conditional expression makes an empty `split()` false. */
  lemma BlankPrefixGivesCommands(prefix: string)
    requires forall k :: 0 <= k < |prefix| ==> IsSpace(prefix[k])
    ensures Classify(prefix) == CommandBranch
  {
    assert TrailingStart(prefix) == 0;
    assert RStrip(prefix) == [];
    TokensEmpty(prefix);
    assert forall k :: 0 <= k < |prefix| ==> prefix[k] != '^';
  }

  /** A prefix that ends in `$`, white space aside, asks for functions and special variables. */
  lemma TrailingDollarGivesFunctions(prefix: string)
    requires EndsWith(RStrip(prefix), '$')
    ensures Classify(prefix) == DollarBranch
  {
    TokensEmpty(prefix);
  }

  /** A prefix with a `^` and no `$` anywhere asks for SSVNs and globals. */
  lemma CaretWithoutDollarGivesGlobals(prefix: string)
    requires '^' in prefix && '$' !in prefix
    ensures Classify(prefix) == CaretBranch
  {
    var n := TrailingStart(prefix);
    if n > 0 {
      assert prefix[n - 1] in prefix;
    }
    assert !EndsWith(RStrip(prefix), '$');
    TokensKeepOut(prefix, '$');
    SplitKeepsOut(prefix, '^', '$');
  }

  // ---------------------------------------------------------------------
  // What each branch offers
  // ---------------------------------------------------------------------

  /**
   * The `$` branch offers every intrinsic function, then every special
   * variable, each inserting its name without the leading `$` (which every
   * name of the MUMPS tables has, by `DollarNames`).
   */
  lemma DollarCompletion(lang: Tables, t: SymbolTable)
    requires t.labels.Valid()
    requires Sigiled(lang.functions, '$') && Sigiled(lang.specialVariables, '$')
    ensures var items := BranchItems(lang, DollarBranch, t);
      var f := lang.functions;
      var v := lang.specialVariables;
      && |items| == |f| + |v|
      && (forall i :: 0 <= i < |f| ==> items[i] == TableItem(f[i], FUNCTION_KIND))
      && (forall i :: 0 <= i < |v| ==> items[|f| + i] == TableItem(v[i], VARIABLE_KIND))
      && (forall i :: 0 <= i < |items| ==>
            |items[i].text| > 1 && items[i].text[0] == '$' && items[i].insertText == Some(items[i].text[1..]))
  {
  }

  /**
   * The `^` branch offers every SSVN, then every global of the document in dictionary
   * order, which for a parsed document is the order the globals are first
   * seen (`Symbols.KeysInFirstSeenOrder`).
   */
  lemma CaretCompletion(lang: Tables, t: SymbolTable)
    requires t.labels.Valid()
    ensures var items := BranchItems(lang, CaretBranch, t);
      var s := lang.ssvns;
      && |items| == |s| + |t.globals.keys|
      && (forall i :: 0 <= i < |s| ==> items[i] == TableItem(s[i], VARIABLE_KIND))
      && (forall i :: 0 <= i < |t.globals.keys| ==>
            items[|s| + i].text == ['^'] + t.globals.keys[i] &&
            items[|s| + i].insertText == Some(t.globals.keys[i]))
  {
  }

  /** Command `i` is listed at `2i` under its name and at `2i + 1` under its abbreviation. */
  lemma CommandItemsAt(cs: seq<Entry>)
    ensures |CommandItems(cs)| == 2 * |cs|
    ensures forall i :: 0 <= i < |cs| ==>
      CommandItems(cs)[2 * i] == CommandPair(cs[i])[0] && CommandItems(cs)[2 * i + 1] == CommandPair(cs[i])[1]
  {
    forall i | 0 <= i < |cs|
      ensures CommandItems(cs)[2 * i] == CommandPair(cs[i])[0] && CommandItems(cs)[2 * i + 1] == CommandPair(cs[i])[1]
    {
      assert (2 * i) / 2 == i && (2 * i) % 2 == 0;
      assert (2 * i + 1) / 2 == i && (2 * i + 1) % 2 == 1;
    }
  }

  /**
   * The command branch offers each command twice (full name, then
   * abbreviation), then every label with its definition, then every local
   * variable.
   */
  lemma CommandCompletion(lang: Tables, t: SymbolTable)
    requires t.labels.Valid()
    ensures var items := BranchItems(lang, CommandBranch, t);
      var cs := lang.commands;
      var c := 2 * |cs|;
      var l := |t.labels.keys|;
      && |items| == c + l + |t.variables.keys|
      && (forall i :: 0 <= i < |cs| ==>
            && items[2 * i] == CompletionItem(cs[i].name, KEYWORD_KIND, TableDetail(cs[i].abbrev, cs[i].desc), None, Some(cs[i].desc))
            && items[2 * i + 1] == CompletionItem(cs[i].abbrev, KEYWORD_KIND, CommandDetail(cs[i].name, cs[i].desc), None, Some(cs[i].desc)))
      && (forall i :: 0 <= i < l ==>
            t.labels.keys[i] in t.labels.entries &&
            items[c + i] == LabelItem(t.labels.keys[i], t.labels.entries[t.labels.keys[i]]))
      && (forall i :: 0 <= i < |t.variables.keys| ==> items[c + l + i] == LocalItem(t.variables.keys[i]))
  {
    var cs := CommandItems(lang.commands);
    var ls := LabelItems(t.labels);
    var vs := LocalItems(t.variables.keys);
    CommandItemsAt(lang.commands);
    assert forall i :: 0 <= i < |cs| ==> (cs + ls + vs)[i] == cs[i];
  }
}
