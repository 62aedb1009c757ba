/**
 * One open MUMPS document: its text, its lines and the three symbol tables
 * that parsing fills in place, plus the lookup of the word under the
 * cursor.
 */
module Document {
  import opened Common
  import opened Text
  import opened Dicts
  import opened Scanner
  import opened LineScan
  import opened Occurrences
  import opened Symbols
  import opened Language

  // ---------------------------------------------------------------------
  // The word under the cursor
  // ---------------------------------------------------------------------

  /** `c.isalnum() or c in '$^%'` */
  predicate IsWordLike(c: char)
  {
    IsAlnum(c) || c in "$^%"
  }

  /** Where the run of word-like characters that ends at `c` begins. */
  function WordStart(text: string, c: nat): (s: nat)
    requires c <= |text|
    ensures s <= c
    ensures forall k :: s <= k < c ==> IsWordLike(text[k])
    ensures s == 0 || !IsWordLike(text[s - 1])
  {
    if c > 0 && IsWordLike(text[c - 1]) then WordStart(text, c - 1) else c
  }

  /** Where the run of word-like characters that starts at `c` ends. */
  function WordEnd(text: string, c: nat): (e: nat)
    requires c <= |text|
    ensures c <= e <= |text|
    ensures forall k :: c <= k < e ==> IsWordLike(text[k])
    ensures e == |text| || !IsWordLike(text[e])
    decreases |text| - c
  {
    if c < |text| && IsWordLike(text[c]) then WordEnd(text, c + 1) else c
  }

  /** The word at `(line, character)`, as the two-pointer scan finds it. */
  function WordAt(lines: seq<string>, line: nat, character: nat): (w: Option<string>)
    ensures w.None? <==>
      || line >= |lines|
      || character >= |lines[line]|
      || (!IsWordLike(lines[line][character]) && (character == 0 || !IsWordLike(lines[line][character - 1])))
    ensures w.Some? ==> w.value != []
  {
    if line >= |lines| then None
    else
      var text := lines[line];
      if character >= |text| then None
      else
        var s := WordStart(text, character);
        var e := WordEnd(text, character);
        if s < e then Some(text[s..e]) else None
  }

  /** The word found is a maximal run of word-like characters that touches the cursor. */
  lemma WordAtSpan(lines: seq<string>, line: nat, character: nat)
    requires WordAt(lines, line, character).Some?
    ensures var text := lines[line];
      exists s: nat, e: nat ::
        && s <= character <= e <= |text|
        && WordAt(lines, line, character).value == text[s..e]
        && (forall k :: s <= k < e ==> IsWordLike(text[k]))
        && (s == 0 || !IsWordLike(text[s - 1]))
        && (e == |text| || !IsWordLike(text[e]))
  {
    var text := lines[line];
    var s := WordStart(text, character);
    var e := WordEnd(text, character);
    assert WordAt(lines, line, character).value == text[s..e];
  }

  // ---------------------------------------------------------------------
  // The document
  // ---------------------------------------------------------------------

  class MumpsDocument {
    const uri: string
    const content: string
    const lines: seq<string>
    var labels: Dict<LabelDef>
    var variables: Dict<seq<nat>>
    var globals: Dict<seq<nat>>

    function Table(): SymbolTable
      reads this
    {
      SymbolTable(labels, variables, globals)
    }

    /** The lines are the text split on newlines, and the tables are what extraction gives for them. */
    ghost predicate Valid()
      reads this
    {
      lines == Split(content, '\n') && Table() == Extract(lines)
    }

    constructor (uri: string, content: string)
      ensures this.uri == uri && this.content == content
      ensures Valid() && Table().Valid()
    {
      this.uri := uri;
      this.content := content;
      lines := Split(content, '\n');
      labels := Empty();
      variables := Empty();
      globals := Empty();
      new;
      Parse(ScanAll(lines));
      ExtractValid(lines);
    }

    /**
     * Scans every line in order, recording its label, then its locals, then
     * its globals; `info` is what each line contributes.
     */
    method Parse(ghost info: seq<LineSymbols>)
      requires |info| == |lines|
      requires forall j {:trigger Scan(lines[j])} :: 0 <= j < |lines| ==> info[j] == Scan(lines[j])
      modifies this
      ensures Table() == ParseFrom(old(Table()), info, |lines|)
    {
      ghost var start := Table();
      for n := 0 to |lines|
        invariant Table() == ParseFrom(start, info, n)
      {
        ParseLine(lines[n], n, info[n]);
      }
    }

    /** The body of the parsing loop for line `n`, whose contribution is `s`. */
    method ParseLine(line: string, n: nat, ghost s: LineSymbols)
      requires s == Scan(line)
      modifies this
      ensures Table() == Symbols.ParseLine(old(Table()), n, s)
    {
      RecordLabel(line, n);
      var code := CodePart(line);
      RecordLocals(code, n);
      RecordGlobals(code, n);
    }

    /** A line that may start with a label records the label's line and parameters, replacing an earlier entry. */
    method RecordLabel(line: string, n: nat)
      modifies this
      ensures variables == old(variables) && globals == old(globals)
      ensures labels == PutLabel(old(labels), n, LabelOn(line))
    {
      if |line| > 0 && !IsSpace(line[0]) && line[0] != ';' {
        var m := MatchLabel(line);
        if m.Some? {
          labels := labels.Put(m.value.name, LabelDef(n, m.value.params));
        }
      }
    }

    /** The loop over the local-variable matches of one line's code, skipping command letters. */
    method RecordLocals(code: string, n: nat)
      modifies this
      ensures labels == old(labels) && globals == old(globals)
      ensures variables == Record(old(variables), Kept(LocalNames(code)), n)
    {
      var locals := LocalNames(code);
      ghost var kept: seq<string> := [];
      for k := 0 to |locals|
        invariant labels == old(labels) && globals == old(globals)
        invariant kept == Kept(locals[..k])
        invariant variables == Record(old(variables), kept, n)
      {
        var name := locals[k];
        KeptStep(locals, k);
        if IsCommandLetter(name) {
          continue;
        }
        RecordStep(old(variables), kept, name, n);
        AppendVariable(name, n);
        kept := kept + [name];
      }
      assert locals[..|locals|] == locals;
    }

    /** The loop over the global-variable matches of one line's code. */
    method RecordGlobals(code: string, n: nat)
      modifies this
      ensures labels == old(labels) && variables == old(variables)
      ensures globals == Record(old(globals), GlobalNames(code), n)
    {
      var names := GlobalNames(code);
      for k := 0 to |names|
        invariant labels == old(labels) && variables == old(variables)
        invariant globals == Record(old(globals), names[..k], n)
      {
        var name := names[k];
        assert names[..k + 1] == names[..k] + [name];
        RecordStep(old(globals), names[..k], name, n);
        AppendGlobal(name, n);
      }
      assert names[..|names|] == names;
    }

    /** `if name not in self.variables: self.variables[name] = []`, then the append. */
    method AppendVariable(name: string, n: nat)
      modifies this
      ensures labels == old(labels) && globals == old(globals)
      ensures variables == Append(old(variables), name, n)
    {
      if name !in variables.entries {
        variables := variables.Put(name, []);
      }
      variables := variables.Put(name, variables.entries[name] + [n]);
    }

    /** `if name not in self.globals: self.globals[name] = []`, then the append. */
    method AppendGlobal(name: string, n: nat)
      modifies this
      ensures labels == old(labels) && variables == old(variables)
      ensures globals == Append(old(globals), name, n)
    {
      if name !in globals.entries {
        globals := globals.Put(name, []);
      }
      globals := globals.Put(name, globals.entries[name] + [n]);
    }

    /** Widens left, then right, over word-like characters around the cursor. */
    method GetWordAtPosition(line: nat, character: nat) returns (word: Option<string>)
      ensures word == WordAt(lines, line, character)
    {
      if line >= |lines| {
        return None;
      }
      var text := lines[line];
      if character >= |text| {
        return None;
      }
      var start: nat := character;
      while start > 0 && IsWordLike(text[start - 1])
        invariant start <= character
        invariant WordStart(text, start) == WordStart(text, character)
      {
        start := start - 1;
      }
      var end := character;
      while end < |text| && IsWordLike(text[end])
        invariant character <= end <= |text|
        invariant WordEnd(text, end) == WordEnd(text, character)
        decreases |text| - end
      {
        end := end + 1;
      }
      word := if start < end then Some(text[start..end]) else None;
    }
  }

  /** One more name: `Kept` of a longer prefix. */
  lemma KeptStep(names: seq<string>, k: nat)
    requires k < |names|
    ensures Kept(names[..k + 1]) == Kept(names[..k]) + (if IsCommandLetter(names[k]) then [] else [names[k]])
  {
    assert names[..k + 1][..k] == names[..k];
  }

  /** One more name: `Record` of a longer list. */
  lemma RecordStep(d: Dict<seq<nat>>, names: seq<string>, name: string, n: nat)
    ensures Record(d, names + [name], n) == Append(Record(d, names, n), name, n)
  {
    assert (names + [name])[..|names|] == names;
  }
}
