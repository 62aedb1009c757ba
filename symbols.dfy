/**
 * The symbol tables of one MUMPS document and the line-by-line extraction
 * that fills them: a label at the start of a line is recorded with its line
 * number and formal parameters (a later definition replaces an earlier one),
 * and every occurrence of a local or global variable in the code part of a
 * line appends that line's number to the variable's list.
 *
 * The extraction is stated over what each line contributes (`LineSymbols`),
 * so that its properties hold whatever the scanners find.
 */
module Symbols {
  import opened Common
  import opened Dicts
  import opened Occurrences
  import opened Scanner
  import opened LineScan
  import Language

  /** `(line_num, params)`: where a label is defined and its formal parameters. */
  datatype LabelDef = LabelDef(line: nat, params: Option<seq<string>>)

  /** The three dictionaries a parsed document holds. */
  datatype SymbolTable = SymbolTable(
    labels: Dict<LabelDef>,
    variables: Dict<seq<nat>>,
    globals: Dict<seq<nat>>)
  {
    ghost predicate Valid()
    {
      labels.Valid() && variables.Valid() && globals.Valid()
    }
  }

  function EmptyTable(): (t: SymbolTable)
    ensures t.Valid()
  {
    SymbolTable(Empty(), Empty(), Empty())
  }

  /** What one line contributes: its label, its local names and its global names. */
  datatype LineSymbols = LineSymbols(labelMatch: Option<LabelMatch>, locals: seq<string>, globals: seq<string>)

  function Scan(line: string): LineSymbols
  {
    LineSymbols(LabelOn(line), LocalsOn(line), GlobalsOn(line))
  }

  /** What each line of a document contributes. */
  function ScanAll(lines: seq<string>): (info: seq<LineSymbols>)
    ensures |info| == |lines|
    ensures forall j :: 0 <= j < |lines| ==> info[j] == Scan(lines[j])
  {
    seq(|lines|, j requires 0 <= j < |lines| => Scan(lines[j]))
  }

  // ---------------------------------------------------------------------
  // Building the tables
  // ---------------------------------------------------------------------

  /** A label found on line `n` is assigned its definition, replacing an earlier one. */
  function PutLabel(labels: Dict<LabelDef>, n: nat, found: Option<LabelMatch>): Dict<LabelDef>
  {
    match found
    case Some(m) => labels.Put(m.name, LabelDef(n, m.params))
    case None => labels
  }

  /** Everything line `n` contributes to the tables: its label first, then its locals, then its globals. */
  function ParseLine(t: SymbolTable, n: nat, s: LineSymbols): SymbolTable
  {
    SymbolTable(PutLabel(t.labels, n, s.labelMatch), Record(t.variables, s.locals, n), Record(t.globals, s.globals, n))
  }

  /** The tables after the first `m` lines have been parsed, starting from `t`. */
  function ParseFrom(t: SymbolTable, info: seq<LineSymbols>, m: nat): SymbolTable
    requires m <= |info|
  {
    if m == 0 then t else ParseLine(ParseFrom(t, info, m - 1), m - 1, info[m - 1])
  }

  /** The tables of a freshly parsed document. */
  function Extract(lines: seq<string>): SymbolTable
  {
    ParseFrom(EmptyTable(), ScanAll(lines), |lines|)
  }

  /** Parsing keeps every key of the three tables listed once. */
  lemma {:induction false} ParseFromValid(t: SymbolTable, info: seq<LineSymbols>, m: nat)
    requires m <= |info| && t.Valid()
    ensures ParseFrom(t, info, m).Valid()
  {
    if m > 0 {
      var before := ParseFrom(t, info, m - 1);
      ParseFromValid(t, info, m - 1);
      var s := info[m - 1];
      if s.labelMatch.Some? {
        PutValid(before.labels, s.labelMatch.value.name, LabelDef(m - 1, s.labelMatch.value.params));
      }
      RecordValid(before.variables, s.locals, m - 1);
      RecordValid(before.globals, s.globals, m - 1);
    }
  }

  lemma ExtractValid(lines: seq<string>)
    ensures Extract(lines).Valid()
  {
    ParseFromValid(EmptyTable(), ScanAll(lines), |lines|);
  }

  // ---------------------------------------------------------------------
  // Reference definitions: what the tables must hold
  // ---------------------------------------------------------------------

  datatype SymbolKind = LocalKind | GlobalKind

  function NamesOf(kind: SymbolKind, s: LineSymbols): seq<string>
  {
    match kind
    case LocalKind => s.locals
    case GlobalKind => s.globals
  }

  function TableOf(kind: SymbolKind, t: SymbolTable): Dict<seq<nat>>
  {
    match kind
    case LocalKind => t.variables
    case GlobalKind => t.globals
  }

  /** The names of one kind that line `line` contributes. */
  function NamesOn(kind: SymbolKind, line: string): seq<string>
  {
    NamesOf(kind, Scan(line))
  }

  /** The names of one kind, line by line. */
  function PerLine(kind: SymbolKind, info: seq<LineSymbols>): (r: seq<seq<string>>)
    ensures |r| == |info|
    ensures forall j :: 0 <= j < |info| ==> r[j] == NamesOf(kind, info[j])
  {
    seq(|info|, j requires 0 <= j < |info| => NamesOf(kind, info[j]))
  }

  /** The line defines label `x`. */
  predicate Defines(s: LineSymbols, x: string)
  {
    s.labelMatch.Some? && s.labelMatch.value.name == x
  }

  /** The last of the first `m` lines that defines label `x`. */
  function LastDefinition(info: seq<LineSymbols>, m: nat, x: string): (r: Option<nat>)
    requires m <= |info|
    ensures r.Some? ==> r.value < m && Defines(info[r.value], x)
    ensures r.Some? ==> forall j :: r.value < j < m ==> !Defines(info[j], x)
    ensures r.None? ==> forall j :: 0 <= j < m ==> !Defines(info[j], x)
  {
    if m == 0 then None
    else if Defines(info[m - 1], x) then Some(m - 1)
    else LastDefinition(info, m - 1, x)
  }

  // ---------------------------------------------------------------------
  // Properties of the construction
  // ---------------------------------------------------------------------

  /** Parsing fills the table of each kind from that kind's names alone. */
  lemma {:induction false} ParseFromTable(kind: SymbolKind, t: SymbolTable, info: seq<LineSymbols>, m: nat)
    requires m <= |info|
    ensures TableOf(kind, ParseFrom(t, info, m)) == RecordAll(TableOf(kind, t), PerLine(kind, info), m)
  {
    if m > 0 {
      ParseFromTable(kind, t, info, m - 1);
    }
  }

  /** The label table holds, for each label, its last definition. */
  lemma {:induction false} LabelTableExact(t: SymbolTable, info: seq<LineSymbols>, m: nat, x: string)
    requires m <= |info|
    ensures ParseFrom(t, info, m).labels.Get(x) ==
      match LastDefinition(info, m, x)
      case None => t.labels.Get(x)
      case Some(j) => Some(LabelDef(j, info[j].labelMatch.value.params))
  {
    if m > 0 {
      LabelTableExact(t, info, m - 1, x);
    }
  }

  // ---------------------------------------------------------------------
  // Properties of a parsed document
  // ---------------------------------------------------------------------

  /** A variable's list is its reference list, and it is a key when that list is not empty. */
  lemma ExtractLines(kind: SymbolKind, lines: seq<string>, x: string)
    ensures Lines(TableOf(kind, Extract(lines)), x) == Refs(PerLine(kind, ScanAll(lines)), |lines|, x)
    ensures x in TableOf(kind, Extract(lines)).entries <==> Refs(PerLine(kind, ScanAll(lines)), |lines|, x) != []
  {
    ParseFromTable(kind, EmptyTable(), ScanAll(lines), |lines|);
    RecordAllLines(TableOf(kind, EmptyTable()), PerLine(kind, ScanAll(lines)), |lines|, x);
    RecordAllKeys(TableOf(kind, EmptyTable()), PerLine(kind, ScanAll(lines)), |lines|, x);
    assert Lines(TableOf(kind, EmptyTable()), x) == [];
  }

  /** Each variable's list is in non-decreasing line order. */
  lemma LineListsSorted(kind: SymbolKind, lines: seq<string>, x: string)
    ensures NonDecreasing(Lines(TableOf(kind, Extract(lines)), x))
  {
    ExtractLines(kind, lines, x);
    RefsSorted(PerLine(kind, ScanAll(lines)), |lines|, x);
  }

  /** Each variable's list holds line `j` once per occurrence of the variable on line `j`, and nothing else. */
  lemma LineListsCount(kind: SymbolKind, lines: seq<string>, x: string, j: nat)
    ensures Count(Lines(TableOf(kind, Extract(lines)), x), j) ==
      if j < |lines| then Count(NamesOn(kind, lines[j]), x) else 0
  {
    ExtractLines(kind, lines, x);
    RefsCount(PerLine(kind, ScanAll(lines)), |lines|, x, j);
  }

  /** A name is a key exactly when it occurs on some line. */
  lemma KeysOccur(kind: SymbolKind, lines: seq<string>, x: string)
    ensures x in TableOf(kind, Extract(lines)).entries <==>
      exists j :: 0 <= j < |lines| && x in NamesOn(kind, lines[j])
  {
    var perLine := PerLine(kind, ScanAll(lines));
    ExtractLines(kind, lines, x);
    RefsNonEmpty(perLine, |lines|, x);
    assert forall j :: 0 <= j < |lines| ==> perLine[j] == NamesOn(kind, lines[j]);
  }

  /** Parsing from an empty table lists the keys by the first line of their lists. */
  lemma ParseFromKeyOrder(kind: SymbolKind, info: seq<LineSymbols>, m: nat)
    requires m <= |info|
    ensures KeysByFirstLine(TableOf(kind, ParseFrom(EmptyTable(), info, m)))
  {
    var d0 := TableOf(kind, EmptyTable());
    assert d0.Valid() && d0.keys == [];
    ParseFromTable(kind, EmptyTable(), info, m);
    RecordAllKeyOrder(d0, PerLine(kind, info), m);
  }

  /**
   * The keys are ordered by the line each name is first seen on: a key
   * listed earlier has a first line (its first occurrence) no later than
   * any key listed after it.
   */
  lemma KeysOrderedByFirstLine(kind: SymbolKind, lines: seq<string>)
    ensures KeysByFirstLine(TableOf(kind, Extract(lines)))
  {
    ParseFromKeyOrder(kind, ScanAll(lines), |lines|);
  }

  /** The names of one kind on each line of a document, left to right. */
  function NamesPerLine(kind: SymbolKind, lines: seq<string>): seq<seq<string>>
  {
    PerLine(kind, ScanAll(lines))
  }

  /** Entry `j` holds the names of line `j`. */
  lemma NamesPerLineAt(kind: SymbolKind, lines: seq<string>)
    ensures |NamesPerLine(kind, lines)| == |lines|
    ensures forall j :: 0 <= j < |lines| ==> NamesPerLine(kind, lines)[j] == NamesOn(kind, lines[j])
  {
  }

  /** Parsing from empty tables lists each kind's names in the order they are first met. */
  lemma ParseFromKeyList(kind: SymbolKind, info: seq<LineSymbols>, m: nat)
    requires m <= |info|
    ensures TableOf(kind, ParseFrom(EmptyTable(), info, m)).keys == FirstSeen([], Flatten(PerLine(kind, info), m))
  {
    var d0 := TableOf(kind, EmptyTable());
    assert d0.Valid() && d0.keys == [];
    ParseFromTable(kind, EmptyTable(), info, m);
    RecordAllKeyList(d0, PerLine(kind, info), m);
  }

  /**
   * The keys are exactly the document's names of that kind, de-duplicated
   * in the order they are first seen, line by line and left to right
   * within a line.
   */
  lemma KeysInFirstSeenOrder(kind: SymbolKind, lines: seq<string>)
    ensures TableOf(kind, Extract(lines)).keys == FirstSeen([], Flatten(NamesPerLine(kind, lines), |lines|))
  {
    ParseFromKeyList(kind, ScanAll(lines), |lines|);
  }

  /** The first line of a variable's list is the first line it occurs on. */
  lemma FirstLineIsFirstOccurrence(kind: SymbolKind, lines: seq<string>, x: string)
    requires x in TableOf(kind, Extract(lines)).entries
    ensures var xs := Lines(TableOf(kind, Extract(lines)), x);
      && xs != [] && xs[0] < |lines| && x in NamesOn(kind, lines[xs[0]])
      && forall j :: 0 <= j < xs[0] ==> x !in NamesOn(kind, lines[j])
  {
    var perLine := PerLine(kind, ScanAll(lines));
    ExtractLines(kind, lines, x);
    RefsFirst(perLine, |lines|, x);
    assert forall j :: 0 <= j < |lines| ==> perLine[j] == NamesOn(kind, lines[j]);
  }

  /** Local keys are identifiers other than the skipped command letters; global keys are names. */
  lemma KeyShapes(lines: seq<string>, x: string)
    ensures x in Extract(lines).variables.entries ==> IsIdentifier(x) && !Language.IsCommandLetter(x)
    ensures x in Extract(lines).globals.entries ==> IsName(x)
    ensures x in Extract(lines).labels.entries ==> IsName(x)
  {
    KeysOccur(LocalKind, lines, x);
    KeysOccur(GlobalKind, lines, x);
    if x in Extract(lines).labels.entries {
      LabelsAreLastDefinitions(lines, x);
    }
  }

  /** Label and global keys are names; local keys are identifiers other than the skipped command letters. */
  ghost predicate WellShaped(t: SymbolTable)
  {
    && (forall x :: x in t.labels.entries ==> IsName(x))
    && (forall x :: x in t.variables.entries ==> IsIdentifier(x) && !Language.IsCommandLetter(x))
    && (forall x :: x in t.globals.entries ==> IsName(x))
  }

  lemma ExtractWellShaped(lines: seq<string>)
    ensures WellShaped(Extract(lines))
  {
    forall x | true
      ensures x in Extract(lines).labels.entries ==> IsName(x)
      ensures x in Extract(lines).variables.entries ==> IsIdentifier(x) && !Language.IsCommandLetter(x)
      ensures x in Extract(lines).globals.entries ==> IsName(x)
    {
      KeyShapes(lines, x);
    }
  }

  /** Every line in a variable's list is a line of the document that names the variable. */
  lemma ListedLinesReference(kind: SymbolKind, lines: seq<string>, x: string)
    ensures var xs := Lines(TableOf(kind, Extract(lines)), x);
      forall k :: 0 <= k < |xs| ==> xs[k] < |lines| && x in NamesOn(kind, lines[xs[k]])
  {
    var perLine := PerLine(kind, ScanAll(lines));
    ExtractLines(kind, lines, x);
    RefsMembers(perLine, |lines|, x);
    assert forall j :: 0 <= j < |lines| ==> perLine[j] == NamesOn(kind, lines[j]);
  }


  /** A label is a key exactly when some line defines it. */
  lemma LabelKeys(lines: seq<string>, x: string)
    ensures x in Extract(lines).labels.entries <==> exists j :: 0 <= j < |lines| && Defines(Scan(lines[j]), x)
  {
    var info := ScanAll(lines);
    LabelTableExact(EmptyTable(), info, |lines|, x);
    assert forall j :: 0 <= j < |lines| ==> info[j] == Scan(lines[j]);
  }

  /** A label's entry is its last definition: the line defines it, with those parameters, and no later line does. */
  lemma LabelsAreLastDefinitions(lines: seq<string>, x: string)
    requires x in Extract(lines).labels.entries
    ensures var d := Extract(lines).labels.entries[x];
      && d.line < |lines| && LabelOn(lines[d.line]) == Some(LabelMatch(x, d.params))
      && forall j :: d.line < j < |lines| ==> !Defines(Scan(lines[j]), x)
    ensures IsName(x)
  {
    var info := ScanAll(lines);
    LabelTableExact(EmptyTable(), info, |lines|, x);
    assert forall j :: 0 <= j < |lines| ==> info[j] == Scan(lines[j]);
  }

  /** When two lines define the same label, the later one is kept. */
  lemma LaterDefinitionWins(lines: seq<string>, x: string, j1: nat, j2: nat)
    requires j1 < j2 < |lines|
    requires Defines(Scan(lines[j1]), x) && Defines(Scan(lines[j2]), x)
    ensures x in Extract(lines).labels.entries
    ensures Extract(lines).labels.entries[x].line != j1
  {
    LabelKeys(lines, x);
    LabelsAreLastDefinitions(lines, x);
  }
}
