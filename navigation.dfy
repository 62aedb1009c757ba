/**
 * Go to definition and find references: where a word under the cursor is
 * defined, and every place the document mentions it.
 */
module Navigation {
  import opened Common
  import opened Text
  import opened Dicts
  import opened Scanner
  import opened LineScan
  import opened Symbols
  import opened Document

  /** An LSP range: a start and an end position, each a line and a character. */
  datatype Range = Range(startLine: nat, startChar: nat, endLine: nat, endChar: nat)

  datatype Location = Location(uri: string, range: Range)

  // ---------------------------------------------------------------------
  // Go to definition
  // ---------------------------------------------------------------------

  /**
   * A label goes to the start of the line that defines it, spanning the
   * word; a local variable goes to the start of the first line in its list.
   */
  function DefinitionOf(t: SymbolTable, word: string): Option<Range>
  {
    if word in t.labels.entries then
      var n := t.labels.entries[word].line;
      Some(Range(n, 0, n, |word|))
    else if word in t.variables.entries && t.variables.entries[word] != [] then
      var n := t.variables.entries[word][0];
      Some(Range(n, 0, n, 0))
    else None
  }

  function Definition(uri: string, lines: seq<string>, t: SymbolTable, line: nat, character: nat): Option<Location>
  {
    match WordAt(lines, line, character)
    case None => None
    case Some(word) =>
      if word == [] then None
      else match DefinitionOf(t, word)
        case None => None
        case Some(r) => Some(Location(uri, r))
  }

  /**
   * The definition of a label covers the label's name at the start of the
   * last line that defines it.
   */
  lemma DefinitionOfLabel(lines: seq<string>, x: string)
    requires x in Extract(lines).labels.entries
    ensures DefinitionOf(Extract(lines), x).Some?
    ensures var r := DefinitionOf(Extract(lines), x).value;
      && r.startLine == r.endLine < |lines| && r.startChar == 0 && r.endChar == |x|
      && LabelOn(lines[r.startLine]).Some? && LabelOn(lines[r.startLine]).value.name == x
      && lines[r.startLine][..|x|] == x
      && forall j :: r.startLine < j < |lines| ==> !Defines(Scan(lines[j]), x)
  {
    LabelsAreLastDefinitions(lines, x);
  }

  /**
   * The definition of a local variable that is not also a label is the
   * start of the first line on which it occurs.
   */
  lemma DefinitionOfVariable(lines: seq<string>, x: string)
    requires x in Extract(lines).variables.entries && x !in Extract(lines).labels.entries
    ensures DefinitionOf(Extract(lines), x).Some?
    ensures var r := DefinitionOf(Extract(lines), x).value;
      && r.startLine == r.endLine < |lines| && r.startChar == 0 && r.endChar == 0
      && x in LocalsOn(lines[r.startLine])
      && forall j :: 0 <= j < r.startLine ==> x !in LocalsOn(lines[j])
  {
    FirstLineIsFirstOccurrence(LocalKind, lines, x);
  }

  /** A word that is neither a label nor a local variable of the document has no definition. */
  lemma NoDefinition(t: SymbolTable, word: string)
    ensures DefinitionOf(t, word).None? <==>
      word !in t.labels.entries && (word !in t.variables.entries || t.variables.entries[word] == [])
  {
  }

  // ---------------------------------------------------------------------
  // Find references
  // ---------------------------------------------------------------------

  /** The locations of the matches of `p` that start at `starts` on line `n`. */
  function LocationsOn(uri: string, p: RefPattern, n: nat, starts: seq<nat>): seq<Location>
  {
    seq(|starts|, k requires 0 <= k < |starts| => Location(uri, Range(n, starts[k], n, starts[k] + p.Length())))
  }

  /** `for line_num, line in enumerate(lines): for match in pattern.finditer(line)`, over the first `m` lines. */
  function MatchesIn(uri: string, p: RefPattern, lines: seq<string>, m: nat): seq<Location>
    requires m <= |lines|
  {
    if m == 0 then [] else MatchesIn(uri, p, lines, m - 1) + LocationsOn(uri, p, m - 1, FindAll(p, lines[m - 1], 0))
  }

  /** `word[1:] if word.startswith('^') else word` */
  function GlobalWord(word: string): string
  {
    if StartsWith(word, "^") then word[1..] else word
  }

  /** The three searches, each run when the word (or, for globals, the word without `^`) is a key. */
  function ReferencesOf(uri: string, lines: seq<string>, t: SymbolTable, word: string): seq<Location>
  {
    var g := GlobalWord(word);
    (if word in t.labels.entries then MatchesIn(uri, WholeWord(word), lines, |lines|) else [])
    + (if word in t.variables.entries then MatchesIn(uri, LocalRef(word), lines, |lines|) else [])
    + (if g in t.globals.entries then MatchesIn(uri, GlobalRef(g), lines, |lines|) else [])
  }

  function References(uri: string, lines: seq<string>, t: SymbolTable, line: nat, character: nat): seq<Location>
  {
    match WordAt(lines, line, character)
    case None => []
    case Some(word) => if word == [] then [] else ReferencesOf(uri, lines, t, word)
  }

  /** Every location reported for `p` is a match of `p`, spanning the match, on one of the first `m` lines. */
  lemma {:induction false} MatchesSound(uri: string, p: RefPattern, lines: seq<string>, m: nat)
    requires m <= |lines|
    ensures forall k :: 0 <= k < |MatchesIn(uri, p, lines, m)| ==>
      var loc := MatchesIn(uri, p, lines, m)[k];
      && loc.uri == uri
      && loc.range.startLine == loc.range.endLine < m
      && MatchesAt(p, lines[loc.range.startLine], loc.range.startChar)
      && loc.range.endChar == loc.range.startChar + p.Length()
  {
    if m > 0 {
      MatchesSound(uri, p, lines, m - 1);
      FindAllSound(p, lines[m - 1], 0);
      var before := MatchesIn(uri, p, lines, m - 1);
      var here := LocationsOn(uri, p, m - 1, FindAll(p, lines[m - 1], 0));
      assert forall k :: 0 <= k < |before| ==> (before + here)[k] == before[k];
      assert forall k :: 0 <= k < |here| ==> (before + here)[|before| + k] == here[k];
    }
  }

  /** A reported start gives a location spanning the match. */
  lemma LocationsOnHas(uri: string, p: RefPattern, n: nat, starts: seq<nat>, c: nat)
    requires c in starts
    ensures Location(uri, Range(n, c, n, c + p.Length())) in LocationsOn(uri, p, n, starts)
  {
    var k :| 0 <= k < |starts| && starts[k] == c;
    assert LocationsOn(uri, p, n, starts)[k] == Location(uri, Range(n, c, n, c + p.Length()));
  }

  /** Every match of a well-formed pattern on one of the first `m` lines is reported. */
  lemma {:induction false} MatchesComplete(uri: string, p: RefPattern, lines: seq<string>, m: nat, j: nat, c: nat)
    requires WellFormed(p) && j < m <= |lines| && MatchesAt(p, lines[j], c)
    ensures Location(uri, Range(j, c, j, c + p.Length())) in MatchesIn(uri, p, lines, m)
  {
    var before := MatchesIn(uri, p, lines, m - 1);
    var here := LocationsOn(uri, p, m - 1, FindAll(p, lines[m - 1], 0));
    assert MatchesIn(uri, p, lines, m) == before + here;
    if j < m - 1 {
      MatchesComplete(uri, p, lines, m - 1, j, c);
    } else {
      FindAllComplete(p, lines[m - 1], 0, c);
      LocationsOnHas(uri, p, m - 1, FindAll(p, lines[m - 1], 0), c);
    }
  }

  /**
   * Every reference is a match, on its line, of the pattern of one of the
   * searches that ran for the word.
   */
  lemma ReferencesSound(uri: string, lines: seq<string>, t: SymbolTable, word: string)
    ensures forall k :: 0 <= k < |ReferencesOf(uri, lines, t, word)| ==>
      var loc := ReferencesOf(uri, lines, t, word)[k];
      var n := loc.range.startLine;
      && loc.uri == uri && n == loc.range.endLine < |lines|
      && ((word in t.labels.entries && MatchesAt(WholeWord(word), lines[n], loc.range.startChar))
          || (word in t.variables.entries && MatchesAt(LocalRef(word), lines[n], loc.range.startChar))
          || (GlobalWord(word) in t.globals.entries && MatchesAt(GlobalRef(GlobalWord(word)), lines[n], loc.range.startChar)))
  {
    var g := GlobalWord(word);
    var a := if word in t.labels.entries then MatchesIn(uri, WholeWord(word), lines, |lines|) else [];
    var b := if word in t.variables.entries then MatchesIn(uri, LocalRef(word), lines, |lines|) else [];
    var c := if g in t.globals.entries then MatchesIn(uri, GlobalRef(g), lines, |lines|) else [];
    MatchesSound(uri, WholeWord(word), lines, |lines|);
    MatchesSound(uri, LocalRef(word), lines, |lines|);
    MatchesSound(uri, GlobalRef(g), lines, |lines|);
    var all := a + b + c;
    forall k | 0 <= k < |all|
      ensures
        var loc := all[k];
        var n := loc.range.startLine;
        && loc.uri == uri && n == loc.range.endLine < |lines|
        && ((word in t.labels.entries && MatchesAt(WholeWord(word), lines[n], loc.range.startChar))
            || (word in t.variables.entries && MatchesAt(LocalRef(word), lines[n], loc.range.startChar))
            || (g in t.globals.entries && MatchesAt(GlobalRef(g), lines[n], loc.range.startChar)))
    {
      if k < |a| {
        assert all[k] == a[k];
      } else if k < |a| + |b| {
        assert all[k] == b[k - |a|];
      } else {
        assert all[k] == c[k - |a| - |b|];
      }
    }
  }

  /**
   * For a label of the document, every whole-word occurrence of its name on
   * any line is reported.
   */
  lemma LabelReferencesComplete(uri: string, lines: seq<string>, t: SymbolTable, word: string, j: nat, c: nat)
    requires WellShaped(t) && word in t.labels.entries
    requires j < |lines| && MatchesAt(WholeWord(word), lines[j], c)
    ensures Location(uri, Range(j, c, j, c + |word|)) in ReferencesOf(uri, lines, t, word)
  {
    assert WellFormed(WholeWord(word));
    var a := MatchesIn(uri, WholeWord(word), lines, |lines|);
    MatchesComplete(uri, WholeWord(word), lines, |lines|, j, c);
    assert Location(uri, Range(j, c, j, c + |word|)) in a;
  }

  /**
   * For a local variable of the document, every occurrence not preceded by
   * a letter and ending at a word boundary is reported.
   */
  lemma VariableReferencesComplete(uri: string, lines: seq<string>, t: SymbolTable, word: string, j: nat, c: nat)
    requires WellShaped(t) && word in t.variables.entries
    requires j < |lines| && MatchesAt(LocalRef(word), lines[j], c)
    ensures Location(uri, Range(j, c, j, c + |word|)) in ReferencesOf(uri, lines, t, word)
  {
    MatchesComplete(uri, LocalRef(word), lines, |lines|, j, c);
    var a := if word in t.labels.entries then MatchesIn(uri, WholeWord(word), lines, |lines|) else [];
    var b := MatchesIn(uri, LocalRef(word), lines, |lines|);
    var g := GlobalWord(word);
    var rest := if g in t.globals.entries then MatchesIn(uri, GlobalRef(g), lines, |lines|) else [];
    assert ReferencesOf(uri, lines, t, word) == a + b + rest;
  }

  /**
   * For a global of the document, hovering over `^name` or `name` reports
   * every `^name` that ends at a word boundary, spanning the `^`.
   */
  lemma GlobalReferencesComplete(uri: string, lines: seq<string>, t: SymbolTable, word: string, j: nat, c: nat)
    requires WellShaped(t) && GlobalWord(word) in t.globals.entries
    requires j < |lines| && MatchesAt(GlobalRef(GlobalWord(word)), lines[j], c)
    ensures Location(uri, Range(j, c, j, c + |GlobalWord(word)| + 1)) in ReferencesOf(uri, lines, t, word)
  {
    assert WellFormed(GlobalRef(GlobalWord(word)));
    MatchesComplete(uri, GlobalRef(GlobalWord(word)), lines, |lines|, j, c);
  }

  /**
   * `\b` before a `%` needs a word character in front of it, so a label
   * whose name starts with `%` is never found at the start of a line or
   * after white space.
   */
  lemma PercentLabelAfterSpace(line: string, x: string, c: nat)
    requires |x| > 0 && x[0] == '%'
    requires c == 0 || (c <= |line| && c > 0 && IsSpace(line[c - 1]))
    ensures !MatchesAt(WholeWord(x), line, c)
  {
    if c + |x| <= |line| && line[c..c + |x|] == x {
      assert line[c] == line[c..c + |x|][0];
      assert !Boundary(line, c);
    }
  }
}
