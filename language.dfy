/**
 * The four constant tables of the MUMPS language (ANSI X11.1): commands,
 * intrinsic functions, special variables and structured system variables,
 * each an ordered list of (name, abbreviation, description). Order matters:
 * hover resolves an abbreviation to the first command that has it, and
 * completion lists the entries in this order.
 */
module Language {
  import opened Common
  import opened Text

  datatype Entry = Entry(name: string, abbrev: string, desc: string)

  const COMMANDS: seq<Entry> := [
    Entry("BREAK", "B", "Breakpoint for debugging"),
    Entry("CLOSE", "C", "Close a device"),
    Entry("DO", "D", "Execute a routine or subroutine"),
    Entry("ELSE", "E", "Alternative execution path"),
    Entry("FOR", "F", "Iteration control"),
    Entry("GOTO", "G", "Transfer control (controversial since 1966)"),
    Entry("HALT", "H", "Terminate execution"),
    Entry("HANG", "H", "Suspend execution for specified seconds"),
    Entry("IF", "I", "Conditional execution"),
    Entry("JOB", "J", "Start a background process"),
    Entry("KILL", "K", "Remove variables from memory"),
    Entry("LOCK", "L", "Control concurrent access"),
    Entry("MERGE", "M", "Copy data structures"),
    Entry("NEW", "N", "Create new variable scope"),
    Entry("OPEN", "O", "Open a device"),
    Entry("QUIT", "Q", "Return from routine"),
    Entry("READ", "R", "Read from device"),
    Entry("SET", "S", "Assign values"),
    Entry("TCOMMIT", "TC", "Commit transaction"),
    Entry("TRESTART", "TRE", "Restart transaction"),
    Entry("TROLLBACK", "TRO", "Rollback transaction"),
    Entry("TSTART", "TS", "Start transaction"),
    Entry("USE", "U", "Select device for I/O"),
    Entry("VIEW", "V", "Implementation-specific operations"),
    Entry("WRITE", "W", "Write to device"),
    Entry("XECUTE", "X", "Execute string as code (exciting!)")
  ]

  const FUNCTIONS: seq<Entry> := [
    Entry("$ASCII", "$A", "Get ASCII value of character"),
    Entry("$CHAR", "$C", "Get character from ASCII value"),
    Entry("$DATA", "$D", "Check if variable exists"),
    Entry("$EXTRACT", "$E", "Extract substring"),
    Entry("$FIND", "$F", "Find substring position"),
    Entry("$FNUMBER", "$FN", "Format number"),
    Entry("$GET", "$G", "Get value with default"),
    Entry("$JUSTIFY", "$J", "Right-justify string"),
    Entry("$LENGTH", "$L", "Get string/list length"),
    Entry("$NAME", "$NA", "Get variable name reference"),
    Entry("$NEXT", "$N", "Get next subscript (deprecated)"),
    Entry("$ORDER", "$O", "Get next subscript in sequence"),
    Entry("$PIECE", "$P", "Extract delimited piece (the workhorse)"),
    Entry("$QLENGTH", "$QL", "Get subscript count"),
    Entry("$QSUBSCRIPT", "$QS", "Get specific subscript"),
    Entry("$QUERY", "$Q", "Get next node reference"),
    Entry("$RANDOM", "$R", "Generate random number"),
    Entry("$REVERSE", "$RE", "Reverse string"),
    Entry("$SELECT", "$S", "Conditional expression"),
    Entry("$STACK", "$ST", "Get stack information"),
    Entry("$TEXT", "$T", "Get routine source line"),
    Entry("$TRANSLATE", "$TR", "Character translation"),
    Entry("$VIEW", "$V", "Implementation-specific function")
  ]

  const SPECIAL_VARIABLES: seq<Entry> := [
    Entry("$DEVICE", "$D", "Device status"),
    Entry("$ECODE", "$EC", "Error codes"),
    Entry("$ESTACK", "$ES", "Error stack level"),
    Entry("$ETRAP", "$ET", "Error trap"),
    Entry("$HOROLOG", "$H", "Date/time since Dec 31, 1840"),
    Entry("$IO", "$I", "Current I/O device"),
    Entry("$JOB", "$J", "Process identifier"),
    Entry("$KEY", "$K", "Terminator from last READ"),
    Entry("$PRINCIPAL", "$P", "Principal device"),
    Entry("$QUIT", "$Q", "Quit context flag"),
    Entry("$REFERENCE", "$R", "Last global reference"),
    Entry("$STACK", "$ST", "Stack level"),
    Entry("$STORAGE", "$S", "Available storage"),
    Entry("$SYSTEM", "$SY", "System identifier"),
    Entry("$TEST", "$T", "Result of last IF"),
    Entry("$TLEVEL", "$TL", "Transaction level"),
    Entry("$TRESTART", "$TR", "Transaction restart count"),
    Entry("$X", "$X", "Horizontal cursor position"),
    Entry("$Y", "$Y", "Vertical cursor position")
  ]

  const SSVNS: seq<Entry> := [
    Entry("^$CHARACTER", "^$C", "Character set information"),
    Entry("^$DEVICE", "^$D", "Device information"),
    Entry("^$GLOBAL", "^$G", "Global directory"),
    Entry("^$JOB", "^$J", "Job information"),
    Entry("^$LOCK", "^$L", "Lock information"),
    Entry("^$ROUTINE", "^$R", "Routine information"),
    Entry("^$SYSTEM", "^$S", "System information")
  ]
  /** The four tables together, as the handlers consult them. */
  datatype Tables = Tables(
    commands: seq<Entry>,
    functions: seq<Entry>,
    specialVariables: seq<Entry>,
    ssvns: seq<Entry>)

  const MUMPS: Tables := Tables(COMMANDS, FUNCTIONS, SPECIAL_VARIABLES, SSVNS)

  /** Every name is `sigil` followed by at least one more character. */
  ghost predicate Sigiled(table: seq<Entry>, sigil: char)
  {
    forall i :: 0 <= i < |table| ==> |table[i].name| > 1 && table[i].name[0] == sigil
  }

  /** Every name and abbreviation starts with a letter. */
  ghost predicate Lettered(table: seq<Entry>)
  {
    forall i :: 0 <= i < |table| ==>
      |table[i].name| > 0 && IsLetter(table[i].name[0]) && |table[i].abbrev| > 0 && IsLetter(table[i].abbrev[0])
  }

  /** The upper-cased local names that the extractor never records as local variables. */
  const SKIPPED_LETTERS: seq<string> :=
    ["B", "C", "D", "E", "F", "G", "H", "I", "J", "K", "L", "M", "N", "O", "Q", "R", "S", "U", "V", "W", "X"]

  predicate IsCommandLetter(name: string)
  {
    UpperString(name) in SKIPPED_LETTERS
  }

  /** Which column of a table a lookup consults. */
  datatype Column = NameColumn | AbbrevColumn

  function Key(e: Entry, c: Column): string
  {
    match c
    case NameColumn => e.name
    case AbbrevColumn => e.abbrev
  }

  /**
   * Position of the first entry whose `c` column is `key`: with the name
   * column, the lookup `key in TABLE` / `TABLE[key]`; with the abbreviation
   * column, the scan over `TABLE.items()` that stops at the first hit.
   */
  function FindEntry(table: seq<Entry>, c: Column, key: string): (r: Option<nat>)
    ensures r.Some? ==> r.value < |table| && Key(table[r.value], c) == key
    ensures r.Some? ==> forall j :: 0 <= j < r.value ==> Key(table[j], c) != key
    ensures r.None? ==> forall j :: 0 <= j < |table| ==> Key(table[j], c) != key
  {
    if table == [] then None
    else if Key(table[0], c) == key then Some(0)
    else match FindEntry(table[1..], c, key)
      case None => None
      case Some(i) => Some(i + 1)
  }

  /** The skipped local names are exactly the one-letter names whose upper case is listed. */
  lemma CommandLetterIsOneLetter(name: string)
    ensures IsCommandLetter(name) <==> |name| == 1 && [Upper(name[0])] in SKIPPED_LETTERS
  {
    if |name| == 1 {
      assert UpperString(name) == [Upper(name[0])];
    }
  }

  /** The scan stops at the first entry with the abbreviation. */
  lemma FirstWithAbbrev(table: seq<Entry>, abbrev: string, k: nat)
    requires k < |table| && table[k].abbrev == abbrev
    requires forall j :: 0 <= j < k ==> table[j].abbrev != abbrev
    ensures FindEntry(table, AbbrevColumn, abbrev) == Some(k)
  {
  }

  /** None of the first six commands is abbreviated `H`, and none of the first five `G`. */
  lemma EarlierAbbreviations()
    ensures forall j :: 0 <= j < 6 ==> COMMANDS[j].abbrev != "H"
    ensures forall j :: 0 <= j < 5 ==> COMMANDS[j].abbrev != "G"
  {
    assert COMMANDS[0].abbrev == "B";
    assert COMMANDS[1].abbrev == "C";
    assert COMMANDS[2].abbrev == "D";
    assert COMMANDS[3].abbrev == "E";
    assert COMMANDS[4].abbrev == "F";
    assert COMMANDS[5].abbrev == "G";
  }

  /**
   * `H` is the abbreviation of both HALT and HANG; the scan finds HALT, the
   * first of them.
   */
  lemma AbbreviationHIsHalt()
    ensures FindEntry(COMMANDS, AbbrevColumn, "H") == Some(6)
  {
    EarlierAbbreviations();
    assert COMMANDS[6].abbrev == "H";
    FirstWithAbbrev(COMMANDS, "H", 6);
  }

  /** `G` finds GOTO. */
  lemma AbbreviationGIsGoto()
    ensures FindEntry(COMMANDS, AbbrevColumn, "G") == Some(5)
  {
    EarlierAbbreviations();
    assert COMMANDS[5].abbrev == "G";
    FirstWithAbbrev(COMMANDS, "G", 5);
  }

  lemma HaltAndHang()
    ensures COMMANDS[5].name == "GOTO" && COMMANDS[6].name == "HALT"
    ensures COMMANDS[7].name == "HANG" && COMMANDS[7].abbrev == "H"
  {
  }

  /** Every intrinsic function and special variable name is `$` followed by at least one letter. */
  lemma DollarNames()
    ensures Sigiled(FUNCTIONS, '$') && Sigiled(SPECIAL_VARIABLES, '$')
  {
    FunctionNames();
    SpecialVariableNames();
  }

  lemma FunctionNames()
    ensures Sigiled(FUNCTIONS, '$')
  {
  }

  lemma SpecialVariableNames()
    ensures Sigiled(SPECIAL_VARIABLES, '$')
  {
  }

  /** Every SSVN name is `^$` followed by at least one letter. */
  lemma SsvnNames()
    ensures forall i :: 0 <= i < |SSVNS| ==> |SSVNS[i].name| > 2 && SSVNS[i].name[..2] == "^$"
  {
  }

  /** Command names and abbreviations are words: they start with a letter; no name is a single letter. */
  lemma CommandNames()
    ensures Lettered(COMMANDS)
    ensures forall i :: 0 <= i < |COMMANDS| ==> |COMMANDS[i].name| > 1
  {
    CommandsLettered();
    CommandNamesLong();
  }

  lemma CommandsLettered()
    ensures Lettered(COMMANDS)
  {
  }

  lemma CommandNamesLong()
    ensures forall i :: 0 <= i < |COMMANDS| ==> |COMMANDS[i].name| > 1
  {
  }
}
