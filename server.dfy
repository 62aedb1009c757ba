/**
 * The language server: the map of open documents, updated by the
 * didOpen / didChange / didClose notifications, and the five request
 * handlers, each answering from the document its URI names.
 */
module Server {
  import opened Common
  import opened Dicts
  import opened Language
  import opened Scanner
  import opened Symbols
  import opened Document
  import opened Completion
  import opened Hover
  import opened Navigation
  import opened Outline

  class LanguageServer {
    /** The command, function, special-variable and SSVN tables the handlers consult. */
    const language: Tables
    /** `self.documents`: the open documents by URI. */
    var documents: map<string, MumpsDocument>

    /** Each document is filed under its own URI, and its tables list every key once. */
    ghost predicate Valid()
      reads this, documents.Values
    {
      forall u :: u in documents ==> documents[u].uri == u && documents[u].Table().Valid()
    }

    constructor ()
      ensures language == MUMPS
      ensures documents == map[] && Valid()
    {
      language := MUMPS;
      documents := map[];
    }

    // -------------------------------------------------------------------
    // Notifications
    // -------------------------------------------------------------------

    /** didOpen: a new document, parsed from `text`, replaces any entry for `uri`. */
    method HandleDidOpen(uri: string, text: string)
      requires Valid()
      modifies this
      ensures Valid()
      ensures uri in documents && fresh(documents[uri])
      ensures documents[uri].content == text && documents[uri].Valid()
      ensures documents == old(documents)[uri := documents[uri]]
    {
      var doc := new MumpsDocument(uri, text);
      documents := documents[uri := doc];
    }

    /**
     * didChange: full synchronisation, so the first change, if there is
     * one, carries the whole new text (a change without a text counts as
     * empty); with no change the documents are left as they are.
     */
    method HandleDidChange(uri: string, changes: seq<Option<string>>)
      requires Valid()
      modifies this
      ensures Valid()
      ensures changes == [] ==> documents == old(documents)
      ensures changes != [] ==>
        && uri in documents && fresh(documents[uri])
        && documents[uri].content == TextOf(changes[0]) && documents[uri].Valid()
        && documents == old(documents)[uri := documents[uri]]
    {
      if changes != [] {
        var text := TextOf(changes[0]);
        HandleDidOpen(uri, text);
      }
    }

    /** didClose: the entry for `uri`, if any, is removed and no other. */
    method HandleDidClose(uri: string)
      requires Valid()
      modifies this
      ensures Valid()
      ensures uri !in documents
      ensures documents == old(documents) - {uri}
    {
      if uri in documents {
        documents := documents - {uri};
      }
    }

    // -------------------------------------------------------------------
    // Requests
    // -------------------------------------------------------------------

    /** Completion: nothing for an unknown document, else the branch the text before the cursor picks. */
    method HandleCompletion(uri: string, line: nat, character: nat) returns (items: seq<CompletionItem>)
      requires Valid()
      ensures uri !in documents ==> items == []
      ensures uri in documents ==>
        var doc := documents[uri];
        items == Complete(language, doc.lines, doc.Table(), line, character)
    {
      if uri !in documents {
        return [];
      }
      var doc := documents[uri];
      if line >= |doc.lines| {
        return [];
      }
      var prefix := Take(doc.lines[line], character);
      items := CompletePrefix(language, prefix, doc.labels, doc.variables, doc.globals);
    }

    /** Hover: nothing for an unknown document, else the cascade on the word under the cursor. */
    method HandleHover(uri: string, line: nat, character: nat) returns (info: Option<HoverInfo>)
      requires Valid()
      ensures uri !in documents ==> info == None
      ensures uri in documents ==>
        var doc := documents[uri];
        info == HoverAt(language, doc.lines, doc.Table(), line, character)
    {
      if uri !in documents {
        return None;
      }
      var doc := documents[uri];
      var word := doc.GetWordAtPosition(line, character);
      if word.None? || word.value == [] {
        return None;
      }
      info := HoverWord(language, doc.Table(), word.value);
    }

    /** Definition: nothing for an unknown document, else the definition of the word under the cursor. */
    method HandleDefinition(uri: string, line: nat, character: nat) returns (loc: Option<Location>)
      requires Valid()
      ensures uri !in documents ==> loc == None
      ensures uri in documents ==>
        var doc := documents[uri];
        loc == Definition(uri, doc.lines, doc.Table(), line, character)
    {
      if uri !in documents {
        return None;
      }
      var doc := documents[uri];
      var word := doc.GetWordAtPosition(line, character);
      if word.None? || word.value == [] {
        return None;
      }
      var r := DefinitionOf(doc.Table(), word.value);
      loc := if r.None? then None else Some(Location(uri, r.value));
    }

    /** References: nothing for an unknown document, else the three searches in turn. */
    method HandleReferences(uri: string, line: nat, character: nat) returns (refs: seq<Location>)
      requires Valid()
      ensures uri !in documents ==> refs == []
      ensures uri in documents ==>
        var doc := documents[uri];
        refs == References(uri, doc.lines, doc.Table(), line, character)
    {
      if uri !in documents {
        return [];
      }
      var doc := documents[uri];
      var word := doc.GetWordAtPosition(line, character);
      if word.None? || word.value == [] {
        return [];
      }
      var w := word.value;
      ghost var t := doc.Table();
      ghost var lines := doc.lines;
      refs := [];
      if w in doc.labels.entries {
        refs := AppendMatches(refs, uri, WholeWord(w), doc.lines);
      }
      ghost var a := if w in t.labels.entries then MatchesIn(uri, WholeWord(w), lines, |lines|) else [];
      assert refs == a;
      if w in doc.variables.entries {
        refs := AppendMatches(refs, uri, LocalRef(w), doc.lines);
      }
      ghost var b := if w in t.variables.entries then MatchesIn(uri, LocalRef(w), lines, |lines|) else [];
      assert refs == a + b;
      var g := GlobalWord(w);
      if g in doc.globals.entries {
        refs := AppendMatches(refs, uri, GlobalRef(g), doc.lines);
      }
      assert refs == ReferencesOf(uri, lines, t, w);
    }

    /** Document symbols: nothing for an unknown document, else its labels, then its referenced globals. */
    method HandleDocumentSymbol(uri: string) returns (symbols: seq<DocumentSymbol>)
      requires Valid()
      ensures uri !in documents ==> symbols == []
      ensures uri in documents ==> symbols == DocumentSymbols(documents[uri].Table())
    {
      if uri !in documents {
        return [];
      }
      var doc := documents[uri];
      symbols := AppendLabelSymbols([], doc.labels);
      symbols := AppendGlobalSymbols(symbols, doc.globals);
    }
  }

  /** `changes[0].get('text', '')` */
  function TextOf(change: Option<string>): string
  {
    if change.Some? then change.value else []
  }

  // ---------------------------------------------------------------------
  // The loops of the handlers
  // ---------------------------------------------------------------------

  /** The `if` / `elif` / `else` of the completion handler, each branch a run of loops. */
  method CompletePrefix(lang: Tables, prefix: string, labels: Dict<LabelDef>, variables: Dict<seq<nat>>, globals: Dict<seq<nat>>)
    returns (items: seq<CompletionItem>)
    requires labels.Valid()
    ensures items == BranchItems(lang, Classify(prefix), SymbolTable(labels, variables, globals))
  {
    if WantsDollar(prefix) {
      items := AppendTableItems([], lang.functions, FUNCTION_KIND);
      items := AppendTableItems(items, lang.specialVariables, VARIABLE_KIND);
    } else if WantsCaret(prefix) {
      items := AppendTableItems([], lang.ssvns, VARIABLE_KIND);
      items := AppendGlobalItems(items, globals.keys);
    } else {
      items := AppendCommandItems([], lang.commands);
      items := AppendLabelItems(items, labels);
      items := AppendLocalItems(items, variables.keys);
    }
  }

  /** One item per table entry, appended in table order. */
  method AppendTableItems(items: seq<CompletionItem>, table: seq<Entry>, kind: nat) returns (r: seq<CompletionItem>)
    ensures r == items + TableItems(table, kind)
  {
    r := items;
    for i := 0 to |table|
      invariant r == items + TableItems(table[..i], kind)
    {
      assert TableItems(table[..i + 1], kind) == TableItems(table[..i], kind) + [TableItem(table[i], kind)];
      r := r + [TableItem(table[i], kind)];
    }
    assert table[..|table|] == table;
  }

  /** Two items per command: its name, then its abbreviation. */
  method AppendCommandItems(items: seq<CompletionItem>, table: seq<Entry>) returns (r: seq<CompletionItem>)
    ensures r == items + CommandItems(table)
  {
    r := items;
    for i := 0 to |table|
      invariant r == items + CommandItems(table[..i])
    {
      var c := table[i];
      assert CommandItems(table[..i + 1]) == CommandItems(table[..i]) + CommandPair(c);
      r := r + [CompletionItem(c.name, KEYWORD_KIND, TableDetail(c.abbrev, c.desc), None, Some(c.desc))];
      r := r + [CompletionItem(c.abbrev, KEYWORD_KIND, CommandDetail(c.name, c.desc), None, Some(c.desc))];
    }
    assert table[..|table|] == table;
  }

  /** One item per label, in dictionary order. */
  method AppendLabelItems(items: seq<CompletionItem>, labels: Dict<LabelDef>) returns (r: seq<CompletionItem>)
    requires labels.Valid()
    ensures r == items + LabelItems(labels)
  {
    r := items;
    for i := 0 to |labels.keys|
      invariant |r| == |items| + i
      invariant forall k :: 0 <= k < |items| ==> r[k] == items[k]
      invariant forall k :: 0 <= k < i ==> r[|items| + k] == LabelItems(labels)[k]
    {
      var name := labels.keys[i];
      assert name in labels.keys;
      r := r + [LabelItem(name, labels.entries[name])];
    }
  }

  /** One item per global name, `^` in front. */
  method AppendGlobalItems(items: seq<CompletionItem>, names: seq<string>) returns (r: seq<CompletionItem>)
    ensures r == items + GlobalItems(names)
  {
    r := items;
    for i := 0 to |names|
      invariant r == items + GlobalItems(names[..i])
    {
      assert GlobalItems(names[..i + 1]) == GlobalItems(names[..i]) + [GlobalItem(names[i])];
      r := r + [GlobalItem(names[i])];
    }
    assert names[..|names|] == names;
  }

  /** One item per local variable name. */
  method AppendLocalItems(items: seq<CompletionItem>, names: seq<string>) returns (r: seq<CompletionItem>)
    ensures r == items + LocalItems(names)
  {
    r := items;
    for i := 0 to |names|
      invariant r == items + LocalItems(names[..i])
    {
      assert LocalItems(names[..i + 1]) == LocalItems(names[..i]) + [LocalItem(names[i])];
      r := r + [LocalItem(names[i])];
    }
    assert names[..|names|] == names;
  }

  /** For every line in order, every match of `p` on it, left to right. */
  method AppendMatches(refs: seq<Location>, uri: string, p: RefPattern, lines: seq<string>) returns (r: seq<Location>)
    ensures r == refs + MatchesIn(uri, p, lines, |lines|)
  {
    r := refs;
    for n := 0 to |lines|
      invariant r == refs + MatchesIn(uri, p, lines, n)
    {
      var starts := FindAll(p, lines[n], 0);
      ghost var before := r;
      r := AppendLocations(r, uri, p, n, starts);
      calc {
        r;
        before + LocationsOn(uri, p, n, starts);
        (refs + MatchesIn(uri, p, lines, n)) + LocationsOn(uri, p, n, starts);
        refs + (MatchesIn(uri, p, lines, n) + LocationsOn(uri, p, n, starts));
        refs + MatchesIn(uri, p, lines, n + 1);
      }
    }
  }

  /** The matches of one line, spanning `p.Length()` characters from each start. */
  method AppendLocations(refs: seq<Location>, uri: string, p: RefPattern, n: nat, starts: seq<nat>) returns (r: seq<Location>)
    ensures r == refs + LocationsOn(uri, p, n, starts)
  {
    r := refs;
    for k := 0 to |starts|
      invariant r == refs + LocationsOn(uri, p, n, starts[..k])
    {
      assert LocationsOn(uri, p, n, starts[..k + 1])
        == LocationsOn(uri, p, n, starts[..k]) + [Location(uri, Range(n, starts[k], n, starts[k] + p.Length()))];
      r := r + [Location(uri, Range(n, starts[k], n, starts[k] + p.Length()))];
    }
    assert starts[..|starts|] == starts;
  }

  /** One symbol per label, in dictionary order. */
  method AppendLabelSymbols(symbols: seq<DocumentSymbol>, labels: Dict<LabelDef>) returns (r: seq<DocumentSymbol>)
    requires labels.Valid()
    ensures r == symbols + LabelSymbols(labels)
  {
    r := symbols;
    for i := 0 to |labels.keys|
      invariant |r| == |symbols| + i
      invariant forall k :: 0 <= k < |symbols| ==> r[k] == symbols[k]
      invariant forall k :: 0 <= k < i ==> r[|symbols| + k] == LabelSymbols(labels)[k]
    {
      var name := labels.keys[i];
      assert name in labels.keys;
      r := r + [LabelSymbol(name, labels.entries[name])];
    }
  }

  /** One symbol per global whose list is not empty, at its first line. */
  method AppendGlobalSymbols(symbols: seq<DocumentSymbol>, globals: Dict<seq<nat>>) returns (r: seq<DocumentSymbol>)
    requires globals.Valid()
    ensures r == symbols + GlobalSymbols(globals, |globals.keys|)
  {
    r := symbols;
    for i := 0 to |globals.keys|
      invariant r == symbols + GlobalSymbols(globals, i)
    {
      var name := globals.keys[i];
      assert name in globals.keys;
      var ls := globals.entries[name];
      if ls != [] {
        r := r + [GlobalSymbol(name, ls[0])];
      }
    }
  }
}
