/**
 * Document symbols: the outline of a document, its labels first and then
 * its globals, each placed on a line of the document.
 */
module Outline {
  import opened Common
  import opened Text
  import opened Dicts
  import opened Scanner
  import opened LineScan
  import opened Occurrences
  import opened Symbols
  import opened Navigation

  // LSP SymbolKind values used by the server
  const FUNCTION_SYMBOL: nat := 12
  const VARIABLE_SYMBOL: nat := 13

  /**
   * A symbol: its name (a label's parameters are kept apart from its
   * name), its kind and its range, which is also its selection range.
   */
  datatype DocumentSymbol = DocumentSymbol(name: string, params: Option<seq<string>>, kind: nat, range: Range)

  function LabelSymbol(name: string, d: LabelDef): DocumentSymbol
  {
    DocumentSymbol(name, d.params, FUNCTION_SYMBOL, Range(d.line, 0, d.line, |name|))
  }

  /** One symbol per label, in dictionary order, spanning the label's name on its line. */
  function LabelSymbols(labels: Dict<LabelDef>): seq<DocumentSymbol>
    requires labels.Valid()
  {
    seq(|labels.keys|, i requires 0 <= i < |labels.keys| =>
      assert labels.keys[i] in labels.keys;
      LabelSymbol(labels.keys[i], labels.entries[labels.keys[i]]))
  }

  /**
   * A global placed on the first line of its list, at columns 0 to the
   * width of `^` and the name, whatever that line holds there.
   */
  function GlobalSymbol(name: string, first: nat): DocumentSymbol
  {
    DocumentSymbol(['^'] + name, None, VARIABLE_SYMBOL, Range(first, 0, first, |name| + 1))
  }

  /** The symbols of the first `m` globals, skipping a global whose list is empty. */
  function GlobalSymbols(globals: Dict<seq<nat>>, m: nat): seq<DocumentSymbol>
    requires globals.Valid() && m <= |globals.keys|
  {
    if m == 0 then []
    else
      var name := globals.keys[m - 1];
      assert name in globals.keys;
      var ls := globals.entries[name];
      GlobalSymbols(globals, m - 1) + (if ls != [] then [GlobalSymbol(name, ls[0])] else [])
  }

  function DocumentSymbols(t: SymbolTable): seq<DocumentSymbol>
    requires t.labels.Valid() && t.globals.Valid()
  {
    LabelSymbols(t.labels) + GlobalSymbols(t.globals, |t.globals.keys|)
  }

  /** Every line list of the table is non-empty. */
  ghost predicate ListsNonEmpty(globals: Dict<seq<nat>>)
  {
    forall x :: x in globals.entries ==> globals.entries[x] != []
  }

  /** Extraction never leaves an empty list. */
  lemma ExtractListsNonEmpty(lines: seq<string>)
    ensures ListsNonEmpty(Extract(lines).globals)
  {
    forall x | x in Extract(lines).globals.entries
      ensures Extract(lines).globals.entries[x] != []
    {
      FirstLineIsFirstOccurrence(GlobalKind, lines, x);
    }
  }

  /** When no list is empty, every global gets a symbol, in dictionary order. */
  lemma {:induction false} GlobalSymbolsAt(globals: Dict<seq<nat>>, m: nat)
    requires globals.Valid() && m <= |globals.keys| && ListsNonEmpty(globals)
    ensures |GlobalSymbols(globals, m)| == m
    ensures forall i :: 0 <= i < m ==>
      globals.keys[i] in globals.entries && globals.entries[globals.keys[i]] != [] &&
      GlobalSymbols(globals, m)[i] == GlobalSymbol(globals.keys[i], globals.entries[globals.keys[i]][0])
  {
    if m > 0 {
      GlobalSymbolsAt(globals, m - 1);
      var name := globals.keys[m - 1];
      assert name in globals.keys;
    }
  }

  /** Each label gets a symbol, in dictionary order. */
  lemma LabelSymbolsAt(labels: Dict<LabelDef>)
    requires labels.Valid()
    ensures |LabelSymbols(labels)| == |labels.keys|
    ensures forall i :: 0 <= i < |labels.keys| ==>
      labels.keys[i] in labels.entries &&
      LabelSymbols(labels)[i] == LabelSymbol(labels.keys[i], labels.entries[labels.keys[i]])
  {
    forall i | 0 <= i < |labels.keys|
      ensures labels.keys[i] in labels.entries
    {
      assert labels.keys[i] in labels.keys;
    }
  }

  /**
   * `s` is the symbol of label `x`: it spans the label's name at the start
   * of a line of `lines` that defines `x` with the symbol's parameters.
   */
  ghost predicate MarksLabel(lines: seq<string>, s: DocumentSymbol, x: string)
  {
    && s.name == x && s.kind == FUNCTION_SYMBOL
    && s.range.startLine == s.range.endLine < |lines|
    && s.range.startChar == 0 && s.range.endChar == |x|
    && LabelOn(lines[s.range.startLine]) == Some(LabelMatch(x, s.params))
  }

  /**
   * `s` is the symbol of global `g`: it sits on the first line of `lines`
   * whose code references `^g`, at columns 0 to `|g| + 1` (the width of
   * `^g`), wherever on that line `^g` occurs.
   */
  ghost predicate MarksGlobal(lines: seq<string>, s: DocumentSymbol, g: string)
  {
    && s.name == ['^'] + g && s.kind == VARIABLE_SYMBOL && s.params == None
    && s.range.startLine == s.range.endLine < |lines|
    && s.range.startChar == 0 && s.range.endChar == |g| + 1
    && g in GlobalsOn(lines[s.range.startLine])
    && forall j :: 0 <= j < s.range.startLine ==> g !in GlobalsOn(lines[j])
  }

  /**
   * The outline lists each label, in dictionary order, then each global
   * whose list is not empty, in dictionary order (for a parsed document,
   * the order the globals are first seen: `OutlineGlobalNames`).
   */
  lemma OutlineOrder(t: SymbolTable)
    requires t.labels.Valid() && t.globals.Valid() && ListsNonEmpty(t.globals)
    ensures var symbols := DocumentSymbols(t);
      var l := |t.labels.keys|;
      && |symbols| == l + |t.globals.keys|
      && (forall i :: 0 <= i < l ==>
            t.labels.keys[i] in t.labels.entries &&
            symbols[i] == LabelSymbol(t.labels.keys[i], t.labels.entries[t.labels.keys[i]]))
      && (forall i :: 0 <= i < |t.globals.keys| ==>
            t.globals.keys[i] in t.globals.entries && t.globals.entries[t.globals.keys[i]] != [] &&
            symbols[l + i] == GlobalSymbol(t.globals.keys[i], t.globals.entries[t.globals.keys[i]][0]))
  {
    var ls := LabelSymbols(t.labels);
    var gs := GlobalSymbols(t.globals, |t.globals.keys|);
    var symbols := DocumentSymbols(t);
    assert symbols == ls + gs;
    LabelSymbolsAt(t.labels);
    GlobalSymbolsAt(t.globals, |t.globals.keys|);
    assert |symbols| == |t.labels.keys| + |t.globals.keys|;
    forall i | 0 <= i < |t.labels.keys|
      ensures symbols[i] == LabelSymbol(t.labels.keys[i], t.labels.entries[t.labels.keys[i]])
    {
      assert symbols[i] == ls[i];
    }
    forall i | 0 <= i < |t.globals.keys|
      ensures symbols[|t.labels.keys| + i] == GlobalSymbol(t.globals.keys[i], t.globals.entries[t.globals.keys[i]][0])
    {
      assert symbols[|ls| + i] == gs[i];
    }
  }

  /** With the globals' keys listed by first line, the global symbols come in line order. */
  lemma GlobalSymbolsByLine(t: SymbolTable)
    requires t.labels.Valid() && t.globals.Valid() && ListsNonEmpty(t.globals)
    requires KeysByFirstLine(t.globals)
    ensures var symbols := DocumentSymbols(t);
      forall i, j :: |t.labels.keys| <= i < j < |symbols| ==> symbols[i].range.startLine <= symbols[j].range.startLine
  {
    var symbols := DocumentSymbols(t);
    var l := |t.labels.keys|;
    var g := t.globals;
    OutlineOrder(t);
    forall i, j | l <= i < j < |symbols|
      ensures symbols[i].range.startLine <= symbols[j].range.startLine
    {
      var a, b := i - l, j - l;
      assert FirstLineNoLater(g, g.keys[a], g.keys[b]);
      assert symbols[l + a].range.startLine == Lines(g, g.keys[a])[0];
      assert symbols[l + b].range.startLine == Lines(g, g.keys[b])[0];
    }
  }

  /**
   * In the outline of a document, the globals are ordered by the line each
   * is first seen on: each global's symbol sits on a line no later than the
   * next one's.
   */
  lemma OutlineGlobalsFirstSeen(lines: seq<string>)
    ensures Extract(lines).Valid()
    ensures var t := Extract(lines);
      var symbols := DocumentSymbols(t);
      forall i, j :: |t.labels.keys| <= i < j < |symbols| ==> symbols[i].range.startLine <= symbols[j].range.startLine
  {
    var t := Extract(lines);
    ExtractValid(lines);
    ExtractListsNonEmpty(lines);
    KeysOrderedByFirstLine(GlobalKind, lines);
    assert TableOf(GlobalKind, t) == t.globals;
    GlobalSymbolsByLine(t);
  }

  /** After the labels, symbol `i` is named `^` and global key `i`. */
  lemma GlobalSymbolNames(t: SymbolTable)
    requires t.labels.Valid() && t.globals.Valid() && ListsNonEmpty(t.globals)
    ensures var symbols := DocumentSymbols(t);
      && |symbols| == |t.labels.keys| + |t.globals.keys|
      && forall i :: 0 <= i < |t.globals.keys| ==> symbols[|t.labels.keys| + i].name == ['^'] + t.globals.keys[i]
  {
    var symbols := DocumentSymbols(t);
    OutlineOrder(t);
    forall i | 0 <= i < |t.globals.keys|
      ensures symbols[|t.labels.keys| + i].name == ['^'] + t.globals.keys[i]
    {
      assert t.globals.keys[i] in t.globals.entries && t.globals.entries[t.globals.keys[i]] != [];
    }
  }

  /** After the labels, the outline holds one symbol per name of `names`, named `^` and that name. */
  ghost predicate GlobalsNamed(t: SymbolTable, names: seq<string>)
  {
    && t.labels.Valid() && t.globals.Valid()
    && var symbols := DocumentSymbols(t);
      && |symbols| == |t.labels.keys| + |names|
      && forall i :: 0 <= i < |names| ==> symbols[|t.labels.keys| + i].name == ['^'] + names[i]
  }

  /** Parsing from empty tables leaves no global with an empty list. */
  lemma ParsedListsNonEmpty(info: seq<LineSymbols>, m: nat)
    requires m <= |info|
    ensures ListsNonEmpty(ParseFrom(EmptyTable(), info, m).globals)
  {
    var g0 := TableOf(GlobalKind, EmptyTable());
    assert g0.Valid() && g0.keys == [];
    ParseFromTable(GlobalKind, EmptyTable(), info, m);
    RecordAllSeenInOrder(g0, PerLine(GlobalKind, info), m);
    assert TableOf(GlobalKind, ParseFrom(EmptyTable(), info, m)) == ParseFrom(EmptyTable(), info, m).globals;
  }

  /** Parsing from empty tables gives an outline naming the globals in the order first met. */
  lemma ParsedGlobalNames(info: seq<LineSymbols>, m: nat)
    requires m <= |info|
    ensures GlobalsNamed(ParseFrom(EmptyTable(), info, m), FirstSeen([], Flatten(PerLine(GlobalKind, info), m)))
  {
    var t := ParseFrom(EmptyTable(), info, m);
    ParseFromValid(EmptyTable(), info, m);
    ParsedListsNonEmpty(info, m);
    ParseFromKeyList(GlobalKind, info, m);
    assert TableOf(GlobalKind, t) == t.globals;
    GlobalSymbolNames(t);
  }

  /**
   * The outline of a document names, after its labels, each global of the
   * document once, in the order the globals are first seen.
   */
  lemma OutlineGlobalNames(lines: seq<string>)
    ensures GlobalsNamed(Extract(lines), FirstSeen([], Flatten(NamesPerLine(GlobalKind, lines), |lines|)))
  {
    ParsedGlobalNames(ScanAll(lines), |lines|);
  }

  /** The symbol of a label of a document spans its name on the line that defines it last. */
  lemma LabelSymbolMarks(lines: seq<string>, x: string)
    requires x in Extract(lines).labels.entries
    ensures MarksLabel(lines, LabelSymbol(x, Extract(lines).labels.entries[x]), x)
  {
    LabelsAreLastDefinitions(lines, x);
  }

  /**
   * The symbol of a global of a document sits on the first line that
   * references it, at columns 0 to the width of `^` and its name.
   */
  lemma GlobalSymbolMarks(lines: seq<string>, g: string)
    requires g in Extract(lines).globals.entries
    ensures Extract(lines).globals.entries[g] != []
    ensures MarksGlobal(lines, GlobalSymbol(g, Extract(lines).globals.entries[g][0]), g)
  {
    FirstLineIsFirstOccurrence(GlobalKind, lines, g);
  }

  /**
   * The columns are fixed, not those of the reference: on ` S ^X` the
   * symbol of `X` covers ` S`, the two characters before `^X`.
   */
  lemma GlobalColumnsFixed()
    ensures var line := " S ^X";
      && MarksGlobal([line], GlobalSymbol("X", 0), "X")
      && line[0..2] == " S" && line[2..4] != "^X"
  {
    var line := " S ^X";
    assert CodePart(line) == line;
    assert GlobalMatchAt(line, 3) == Some(5);
    assert GlobalScan(line, 5) == [];
    assert GlobalScan(line, 3) == [Span(3, 5)];
    assert GlobalMatchAt(line, 2) == None && GlobalMatchAt(line, 1) == None && GlobalMatchAt(line, 0) == None;
    assert GlobalScan(line, 0) == [Span(3, 5)];
    assert line[4..5] == "X";
    assert GlobalsOn(line) == ["X"];
  }
}
