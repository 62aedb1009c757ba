# MUMPS language server, modelled in Dafny

This project models the core of a Language Server Protocol server for MUMPS (the M language, ANSI X11.1), which lives in `server/mumps_server.py`. It covers four parts.

- **The language tables.** These are the commands, intrinsic functions, special variables and structured system variables (SSVNs). Each table is an ordered list of name, abbreviation and description.
- **`MUMPSDocument`.** This class splits a document into lines and parses it into three dictionaries, filled in place:
  - the labels, each with the line that defines it and its parameters;
  - the local variables, each with its list of lines;
  - the global variables, each with its list of lines.

  The class also finds the word under the cursor.
- **The request handlers:**
  - completion, with its three branches (`$`, `^`, commands);
  - hover, a cascade of lookups;
  - go to definition;
  - find references, using whole-word searches;
  - document symbols.
- **The notifications.** didOpen, didChange and didClose maintain the map of open documents.

The parsing loop, the word scan, the handler loops and the notifications are imperative Dafny:

- `Document.MumpsDocument` is a class whose methods update its dictionaries.
- `Server.LanguageServer` is a class whose methods replace its map of documents.

Each method is proved against a specification function:

- `Symbols.Extract` for parsing;
- `Completion.Complete` for completion;
- `Hover.HoverAt` for hover;
- `Navigation.Definition` for go to definition;
- `Navigation.References` for find references;
- `Outline.DocumentSymbols` for document symbols.

Lemmas then state what those functions promise.

- **Parsing:**
  - a label's entry is its last definition;
  - every variable's line list has one entry per occurrence and is non-decreasing;
  - the first line in a list is the first occurrence;
  - text after `;` contributes nothing;
  - the single-letter command abbreviations are never recorded as variables.
- **Hover:**
  - the cascade answers in its order, so `h` is HALT and not HANG, and `g` is GOTO;
  - it answers nothing exactly when every stage misses.
- **Completion:** its branches are exclusive, and each lists what the source lists, in the source's order.
- **Find references:** the search reports exactly the matches of its pattern.

Python's regular expressions are written as scanners with the same matching behaviour:

- the label pattern;
- the local and global variable patterns that `finditer` runs over a line's code;
- the `\b…\b`, `(?<![A-Za-z])…\b` and `\^…\b` reference patterns.

Python dictionaries are modelled as `Dicts.Dict`, which is a key sequence in insertion order plus a map. As in Python, assigning to an existing key keeps its position.

One consequence of the source's patterns is stated as a lemma, `Navigation.PercentLabelAfterSpace`. `\b` needs a word character on one side, so a label whose name starts with `%` is never found at the start of a line or after white space.

## Model

| member | source | states |
|---|---|---|
| Language.FindEntry | server/mumps_server.py:395-406 | A lookup by name (`name in TABLE`) or by abbreviation (the scan over the command table) finds the first entry with that key, and finds none exactly when no entry has it. |
| Language.CommandLetterIsOneLetter | server/mumps_server.py:166-169 | A local name is skipped exactly when it is one letter whose upper case is in the skip list. |
| Language.FirstWithAbbrev | server/mumps_server.py:405-406 | When entry `k` has the abbreviation and no earlier entry does, the scan returns `k`. |
| Language.EarlierAbbreviations | server/mumps_server.py:24-32 | None of the first six commands is abbreviated `H`, and none of the first five is abbreviated `G`. |
| Language.AbbreviationHIsHalt | server/mumps_server.py:24-32 | `H` is shared by HALT and HANG, and the abbreviation scan resolves it to HALT, the earlier of the two. |
| Language.AbbreviationGIsGoto | server/mumps_server.py:24-32 | The abbreviation `G` resolves to GOTO. |
| Language.HaltAndHang | server/mumps_server.py:30-32 | GOTO, HALT and HANG sit at positions 5, 6 and 7, and HANG's abbreviation is `H`. |
| Language.DollarNames | server/mumps_server.py:55-103 | Every intrinsic function and special variable name is `$` followed by at least one more character. |
| Language.SsvnNames | server/mumps_server.py:106-114 | Every SSVN name starts with `^$` and has at least one more character. |
| Language.CommandNames | server/mumps_server.py:24-51 | Every command name and abbreviation starts with a letter, and no command name is a single letter. |
| Scanner.CodePart | server/mumps_server.py:160 | The code part is the text before the first `;`: it holds no `;`, is a prefix of the line, and is followed by `;` when shorter than the line. |
| Scanner.MatchLabel | server/mumps_server.py:141 | A label match is the longest name (`%?[A-Za-z][A-Za-z0-9]*`) that prefixes the line. There is no match exactly when no prefix of the line is a name. |
| Scanner.LocalMatchAt | server/mumps_server.py:143 | The local pattern matches at `i` with the end it reports, and does not match at all when it reports none. |
| Scanner.LocalScanSound | server/mumps_server.py:163-164 | Every span `finditer` yields is a match of the local pattern. |
| Scanner.LocalScanOrdered | server/mumps_server.py:163 | Local matches come left to right and do not overlap. |
| Scanner.LocalScanCovers | server/mumps_server.py:163 | A position where the local pattern matches is reported, or lies inside an earlier match. |
| Scanner.LocalNames | server/mumps_server.py:163-164 | Every local name found is an identifier `[A-Za-z][A-Za-z0-9]*`. |
| Scanner.GlobalMatchAt | server/mumps_server.py:145 | The global pattern `\^(%?[A-Za-z][A-Za-z0-9]*)` matches at `i` with the end it reports, and does not match when it reports none. |
| Scanner.GlobalScanSound | server/mumps_server.py:175-176 | Every span yielded is a match of the global pattern. |
| Scanner.GlobalScanOrdered | server/mumps_server.py:175 | Global matches come left to right and do not overlap. |
| Scanner.GlobalScanFinds | server/mumps_server.py:175 | Every `^` at which the global pattern matches starts a reported match. |
| Scanner.GlobalNames | server/mumps_server.py:175-176 | Every global name found is a name `%?[A-Za-z][A-Za-z0-9]*`, without the `^`. |
| Scanner.FindAllSound | server/mumps_server.py:537-539 | Every start that `finditer` reports is a match of the reference pattern. |
| Scanner.FindAllDisjoint | server/mumps_server.py:537-539 | Each reported match starts after the previous one ends. |
| Scanner.NoOverlap | server/mumps_server.py:537-566 | Two matches of a searched name never overlap. |
| Scanner.FindAllComplete | server/mumps_server.py:537-566 | Every position where the pattern matches is reported. |
| LineScan.LabelOn | server/mumps_server.py:149-151 | A label is only found on a non-empty line that starts with neither white space nor `;`. The label's name is a name that prefixes the line. |
| LineScan.LocalsOn | server/mumps_server.py:160-169 | The locals a line contributes are identifiers, and never a skipped command letter. |
| LineScan.GlobalsOn | server/mumps_server.py:160-176 | The globals a line contributes are names. |
| LineScan.KeptCount | server/mumps_server.py:163-172 | Skipping removes every occurrence of a command letter and keeps every occurrence of any other name. |
| LineScan.CommentIgnored | server/mumps_server.py:159-160 | Text after the first `;` changes neither the locals nor the globals of a line. |
| LineScan.NoLabelWithoutName | server/mumps_server.py:149 | A blank line, or one starting with white space or `;`, defines no label. |
| LineScan.ParamsNeedParen | server/mumps_server.py:141-156 | A label not followed by `(` has no parameter list. |
| LineScan.ParamsEmptyOrUnclosed | server/mumps_server.py:141-155 | A name followed by one character and then `)`, as in `LABEL()`, or by a `(` that is never closed, gives no parameter list. |
| LineScan.ParamsRoundTrip | server/mumps_server.py:141-157 | Parsing `name(p1,...,pn)` gives back `name` and the parameters, provided the parameters are stripped and free of `,` and `)`. |
| LineScan.LabelWithGroup | server/mumps_server.py:141-156 | A name followed by a parenthesised group yields that name, and the group split on `,` and stripped. |
| LineScan.ParenGroup | server/mumps_server.py:141-156 | The optional group captures up to the first `)`, and `if params_str:` turns an empty capture into no list. |
| LineScan.StripSplitJoin | server/mumps_server.py:156 | Splitting joined parameters on `,` and stripping each gives them back. |
| LineScan.NameIsMaximal | server/mumps_server.py:141 | When a non-alphanumeric follows a name, the label pattern takes exactly that name. |
| Occurrences.AppendLines | server/mumps_server.py:170-172 | Appending line `n` for `x` extends `x`'s list by `n`, adds `x` as a key, and leaves every other list alone. |
| Occurrences.RecordLines | server/mumps_server.py:163-179 | Recording a line's names appends that line to a name's list once per occurrence. |
| Occurrences.RecordKeys | server/mumps_server.py:170-171 | After recording, a name is a key exactly when it was one before or occurs on the line. |
| Occurrences.RecordValid | server/mumps_server.py:170-172 | Recording keeps every key listed exactly once. |
| Occurrences.RefsSorted | server/mumps_server.py:147-172 | The reference list is non-decreasing, and all its lines are below `m`. |
| Occurrences.RefsCount | server/mumps_server.py:147-172 | Line `j` appears in the reference list once per occurrence of the name on line `j`. |
| Occurrences.AppendSeenInOrder | server/mumps_server.py:170-172 | Appending line `n` keeps every list non-empty and starting no later than `n`, and keeps earlier keys starting no later than later keys. |
| Occurrences.RecordSeenInOrder | server/mumps_server.py:174-179 | Recording the names of line `n` keeps the keys ordered by the first line of their lists. |
| Occurrences.RecordAllSeenInOrder | server/mumps_server.py:147-179 | Recording lines into an empty dictionary keeps the keys ordered by the first line of their lists. |
| Occurrences.RecordAllKeyOrder | server/mumps_server.py:147-179 | In a dictionary filled from empty, each key listed earlier has a first line no later than any key listed after it. |
| Occurrences.FirstSeenMembers | server/mumps_server.py:170-179 | A name is listed by the first-seen de-duplication exactly when it was a key already or occurs among the names. |
| Occurrences.FirstSeenDistinct | server/mumps_server.py:170-179 | The first-seen de-duplication keeps the old keys as a prefix and lists no name twice. |
| Occurrences.FirstSeenConcat | server/mumps_server.py:163-179 | De-duplicating two runs of names in turn is de-duplicating them at once. |
| Occurrences.RecordKeyList | server/mumps_server.py:170-179 | Recording a line's names adds each new name as a key, after the old keys, in the order first met. |
| Occurrences.RecordAllKeyList | server/mumps_server.py:147-179 | Recording lines keeps the keys distinct and lists them as the first-seen de-duplication of all names, line after line. |
| Symbols.ParseFromValid | server/mumps_server.py:147-179 | Parsing keeps each of the three dictionaries' keys listed exactly once. |
| Symbols.ExtractValid | server/mumps_server.py:129-136 | A freshly parsed document's dictionaries list each key once. |
| Symbols.LastDefinition | server/mumps_server.py:157 | The line found defines the label, and no later line does; none is found exactly when no line defines it. |
| Symbols.ParseFromTable | server/mumps_server.py:147-179 | The variable and global dictionaries are each filled from their own kind of names alone. |
| Symbols.LabelTableExact | server/mumps_server.py:149-157 | Each label's entry is its last definition, with that line's parameters. |
| Symbols.ExtractLines | server/mumps_server.py:147-179 | A variable's or global's list is its reference list, and the name is a key exactly when that list is non-empty. |
| Symbols.LineListsSorted | server/mumps_server.py:147-179 | Every line list is in non-decreasing line order. |
| Symbols.LineListsCount | server/mumps_server.py:163-179 | A line list holds line `j` once per occurrence of the name on line `j`, and holds no other line. |
| Symbols.KeysOccur | server/mumps_server.py:163-179 | A name is a key exactly when some line's code contains it. |
| Symbols.FirstLineIsFirstOccurrence | server/mumps_server.py:170-179 | The first entry of a list is the first line that names the variable. |
| Symbols.ParseFromKeyOrder | server/mumps_server.py:147-179 | Parsing from empty tables lists the variables and the globals by the first line of their lists. |
| Symbols.ParseFromKeyList | server/mumps_server.py:147-179 | Parsing from empty tables lists each kind's keys as the first-seen de-duplication of that kind's names. |
| Symbols.NamesPerLineAt | server/mumps_server.py:158-179 | Entry `j` of the per-line names is what the scanners find on line `j`. |
| Symbols.KeysOrderedByFirstLine | server/mumps_server.py:147-179 | A parsed document's variables, and its globals, are ordered by the line each is first seen on. |
| Symbols.KeysInFirstSeenOrder | server/mumps_server.py:147-179 | A parsed document's variable keys, and its global keys, are exactly its names of that kind de-duplicated in the order first seen, line by line and left to right in a line. |
| Symbols.KeyShapes | server/mumps_server.py:141-176 | Label and global keys are names. Local keys are identifiers other than the skipped command letters. |
| Symbols.ExtractWellShaped | server/mumps_server.py:141-176 | A parsed document's keys all have the shapes of their kind. |
| Symbols.ListedLinesReference | server/mumps_server.py:163-179 | Every line in a list is a line of the document that names the variable. |
| Symbols.LabelKeys | server/mumps_server.py:149-157 | A label is a key exactly when some line defines it. |
| Symbols.LabelsAreLastDefinitions | server/mumps_server.py:149-157 | A label's entry points at a line that defines it with the recorded parameters, and no later line defines it. |
| Symbols.LaterDefinitionWins | server/mumps_server.py:157 | When two lines define the same label, the earlier line is not the one kept. |
| Document.WordAt | server/mumps_server.py:181-199 | No word is found exactly when the position is past the line or its text, or when neither the character at the cursor nor the one before it is word-like. A word found is never empty. |
| Document.WordAtSpan | server/mumps_server.py:190-199 | The word is a maximal run of characters from `[A-Za-z0-9$^%]` that touches the cursor. |
| Document.MumpsDocument.constructor | server/mumps_server.py:129-136 | The lines are the content split on newlines, and the dictionaries are what parsing the lines gives. |
| Document.MumpsDocument.Parse | server/mumps_server.py:138-179 | The loop over lines leaves the dictionaries equal to the specification of parsing every line in order. |
| Document.MumpsDocument.ParseLine | server/mumps_server.py:148-179 | One line records its label, then its locals, then its globals. |
| Document.MumpsDocument.RecordLabel | server/mumps_server.py:149-157 | A line's label replaces any earlier entry for that name, and nothing else changes. |
| Document.MumpsDocument.RecordLocals | server/mumps_server.py:163-172 | Each non-skipped local match appends the line to that name's list, in match order. |
| Document.MumpsDocument.RecordGlobals | server/mumps_server.py:175-179 | Each global match appends the line to that name's list, in match order. |
| Document.MumpsDocument.AppendVariable | server/mumps_server.py:170-172 | Creates an empty list for a new name, then appends the line. |
| Document.MumpsDocument.AppendGlobal | server/mumps_server.py:177-179 | Creates an empty list for a new global, then appends the line. |
| Document.MumpsDocument.GetWordAtPosition | server/mumps_server.py:181-199 | The two widening loops return the word that `Document.WordAt` specifies. |
| Completion.BlankPrefixGivesCommands | server/mumps_server.py:305-343 | A blank prefix never selects the `$` branch or the `^` branch, so it gets command completion. |
| Completion.TrailingDollarGivesFunctions | server/mumps_server.py:305 | A prefix ending in `$`, white space aside, gets function and special-variable completion. |
| Completion.CaretWithoutDollarGivesGlobals | server/mumps_server.py:305-324 | A prefix with a `^` and no `$` gets SSVN and global completion. |
| Completion.DollarCompletion | server/mumps_server.py:305-322 | The `$` branch lists every function, then every special variable. Each item inserts its name without the leading `$`. |
| Completion.CaretCompletion | server/mumps_server.py:324-341 | The `^` branch lists every SSVN, then every global of the document as `^name` inserting `name`. |
| Completion.CommandItemsAt | server/mumps_server.py:345-358 | Command `i` is item `2i` under its name and item `2i+1` under its abbreviation. |
| Completion.CommandCompletion | server/mumps_server.py:343-375 | The command branch lists two items per command, then one per label with its definition, then one per local variable, in dictionary order. |
| Hover.HoverNone | server/mumps_server.py:392-480 | There is no hover exactly when every stage of the cascade misses. |
| Hover.CommandWins | server/mumps_server.py:395-402 | A command name, in any case, wins over every later stage, including a label of the same name. |
| Hover.AbbreviationFindsFirst | server/mumps_server.py:404-412 | A word that is not a command name but is an abbreviation shows the first command with that abbreviation. |
| Hover.HoverOnH | server/mumps_server.py:404-412 | Hovering over `h` shows HALT, not HANG. |
| Hover.HoverOnG | server/mumps_server.py:404-412 | Hovering over `g` shows GOTO. |
| Hover.CommandsMiss | server/mumps_server.py:395-412 | A word that does not start with a letter is neither a command name nor an abbreviation. |
| Hover.HoverOnGlobal | server/mumps_server.py:458-468 | `^name` of a document global shows that global with the first ten lines of its list. |
| Hover.HoverOnLabel | server/mumps_server.py:447-456 | A label that is not a command name or abbreviation shows its definition. |
| Hover.HoverOnLocal | server/mumps_server.py:470-478 | A local variable that is not a label, command name or abbreviation shows the first ten lines of its list. |
| Navigation.DefinitionOfLabel | server/mumps_server.py:495-505 | A label's definition spans its name at the start of the last line that defines it. |
| Navigation.DefinitionOfVariable | server/mumps_server.py:507-515 | A local variable's definition is the start of the first line it occurs on. |
| Navigation.NoDefinition | server/mumps_server.py:495-517 | There is no definition exactly when the word is not a label and not a local variable with a non-empty list. |
| Navigation.MatchesSound | server/mumps_server.py:538-547 | Every location reported is a match of the pattern on a document line, spanning the match. |
| Navigation.MatchesComplete | server/mumps_server.py:538-547 | Every match on every line is reported. |
| Navigation.ReferencesSound | server/mumps_server.py:533-575 | Every reference is a match of one of the searches that ran for the word. |
| Navigation.LabelReferencesComplete | server/mumps_server.py:535-547 | Every whole-word occurrence of a label's name is reported. |
| Navigation.VariableReferencesComplete | server/mumps_server.py:549-560 | Every occurrence of a local variable that has no letter before it and ends at a word boundary is reported. |
| Navigation.GlobalReferencesComplete | server/mumps_server.py:562-573 | Every `^name` of a global that ends at a boundary is reported, spanning the `^`. This holds whether the cursor word has the `^` or not. |
| Navigation.PercentLabelAfterSpace | server/mumps_server.py:537 | A label starting with `%` is never found at the start of a line or after white space. |
| Outline.ExtractListsNonEmpty | server/mumps_server.py:177-179 | No global of a parsed document has an empty list, so the `if lines:` filter drops nothing. |
| Outline.GlobalSymbolsAt | server/mumps_server.py:603-616 | When no list is empty, global `i` gets symbol `i`, placed on the first line of its list. |
| Outline.LabelSymbolsAt | server/mumps_server.py:586-601 | Label `i` of the dictionary gets symbol `i`, built from its definition. |
| Outline.OutlineOrder | server/mumps_server.py:586-616 | The outline lists every label in dictionary order, then every global in dictionary order, each global on the first line of its list. |
| Outline.GlobalSymbolsByLine | server/mumps_server.py:603-616 | When the globals are keyed by first line, their symbols come in non-decreasing line order. |
| Outline.OutlineGlobalsFirstSeen | server/mumps_server.py:603-616 | In a parsed document's outline, the globals are ordered by the line each is first seen on, so their lines never decrease. |
| Outline.GlobalSymbolNames | server/mumps_server.py:603-616 | When no list is empty, the symbols after the labels are named `^` and each global key in turn. |
| Outline.ParsedListsNonEmpty | server/mumps_server.py:170-179 | Parsing from empty tables leaves no global with an empty list. |
| Outline.ParsedGlobalNames | server/mumps_server.py:586-616 | Parsing from empty tables gives an outline whose global symbols are the first-seen de-duplication of the global names. |
| Outline.OutlineGlobalNames | server/mumps_server.py:586-616 | A document's outline names, after its labels, each of its globals once, in the exact order the globals are first seen. |
| Outline.LabelSymbolMarks | server/mumps_server.py:587-601 | A label's symbol spans its name at the start of the line that defines it, and carries its parameters. |
| Outline.GlobalSymbolMarks | server/mumps_server.py:603-616 | A global's symbol is named `^` and the name and sits on the first line whose code references it, at columns 0 to the width of `^` and the name, whatever that line holds there. |
| Outline.GlobalColumnsFixed | server/mumps_server.py:608-615 | On the line ` S ^X` the symbol of `X` covers columns 0 to 2, which hold ` S` rather than `^X`. |
| Server.LanguageServer.constructor | server/mumps_server.py:210-212 | The server starts with no open documents and the MUMPS tables. |
| Server.LanguageServer.HandleDidOpen | server/mumps_server.py:620-624 | The entry for the URI is replaced by a new document parsed from the text. Every other entry is kept and no other URI is added. |
| Server.LanguageServer.HandleDidChange | server/mumps_server.py:626-633 | With no change, the documents are untouched. Otherwise the first change's text, or empty text, replaces the entry for the URI, and no other entry changes or is added. |
| Server.LanguageServer.HandleDidClose | server/mumps_server.py:635-639 | Exactly the entry for the URI is removed, if present. |
| Server.LanguageServer.HandleCompletion | server/mumps_server.py:284-377 | Returns nothing for an unknown document. Otherwise returns `Completion.Complete` for the document's lines and dictionaries. |
| Server.LanguageServer.HandleHover | server/mumps_server.py:379-390 | Returns nothing for an unknown document or without a word. Otherwise returns `Hover.HoverAt`. |
| Server.LanguageServer.HandleDefinition | server/mumps_server.py:482-517 | Returns nothing for an unknown document. Otherwise returns `Navigation.Definition`. |
| Server.LanguageServer.HandleReferences | server/mumps_server.py:519-575 | Returns nothing for an unknown document. Otherwise returns the three searches of `Navigation.References`, in order. |
| Server.LanguageServer.HandleDocumentSymbol | server/mumps_server.py:577-618 | Returns nothing for an unknown document. Otherwise returns `Outline.DocumentSymbols` for its dictionaries. |
| Server.CompletePrefix | server/mumps_server.py:305-375 | The `if`/`elif`/`else` of completion yields the items of the branch the prefix selects. |
| Server.AppendTableItems | server/mumps_server.py:307-322 | The loop over a table appends one item per entry, in table order. |
| Server.AppendCommandItems | server/mumps_server.py:345-358 | The loop over commands appends each command's pair of items. |
| Server.AppendLabelItems | server/mumps_server.py:361-367 | The loop over labels appends one item per label, in dictionary order. |
| Server.AppendGlobalItems | server/mumps_server.py:335-341 | The loop over globals appends `^name` for each, in dictionary order. |
| Server.AppendLocalItems | server/mumps_server.py:370-375 | The loop over locals appends one item per local variable. |
| Server.AppendMatches | server/mumps_server.py:538-547 | The loop over lines appends every match of the pattern, line by line. |
| Server.AppendLocations | server/mumps_server.py:539-547 | The loop over one line's matches appends a location for each, left to right. |
| Server.AppendLabelSymbols | server/mumps_server.py:587-601 | The loop over labels appends one symbol per label. |
| Server.AppendGlobalSymbols | server/mumps_server.py:603-616 | The loop over globals appends a symbol for each global with a non-empty list. |

## Left out

- Reading and writing LSP messages (`read_message`, `send_message`, `send_response`, `send_error`) and the `run` loop, including its routing of method names, are not modelled. They are I/O. Each handler is modelled with the request fields it reads as parameters.
- `handle_initialize` is not modelled. It returns a constant capability record.
- Malformed requests are not modelled. A missing `textDocument`, `uri` or `position` key raises an exception that the run loop turns into an error response. The handlers here take well-formed parameters.
- Markdown and detail strings are not built. Hover results, completion details and symbol names are tagged data holding the values they are formatted from. Examples are `LabelDetail(definition)` for "Label at line n(params)", and `LabelSymbol` with its parameters kept apart from the name.
- The workspace index, and any file other than `server/mumps_server.py`, are not part of this model.
- Only ASCII is modelled. Python's `str.isalnum`, `str.isspace`, `str.upper` and `\w` also accept other Unicode characters, so `Text` models their ASCII behaviour only.
- Server.LanguageServer.Valid: does not state that every open document still holds the tables parsing gives for its text. It is stated only at construction (`Document.MumpsDocument.constructor`) and for the entry a notification creates (`HandleDidOpen`, `HandleDidChange`). No server method may modify a document, because every method's frame is the server alone, so the property persists. Stating it for the whole map proved too costly for the solver.
- Server.LanguageServer.HandleDidChange: models `contentChanges` as a list of optional texts. Only the first change is read, as in full-synchronisation mode. A change without a `text` key counts as empty text.
