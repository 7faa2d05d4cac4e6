# vscode-terraform: the symbol index and its providers, in Dafny

This project models the core of the Terraform extension for Visual Studio
Code: the in-memory index that holds the external indexer's result for each
Terraform file of the workspace and derives from it

- a table from symbol name to every declared symbol of that name,
- a per-file list of symbols (the document outline),
- a per-file list of resolved references (use site, declaration), and
- a reverse table from target identifier to every use site,

together with the queries built on it (go to definition, find references,
document and workspace symbols), the rename and completion providers that use
those queries, the conversion of the indexer's 1-based locations into editor
ranges, the deprecated `formatVarsOnSave` setting, and the rules deciding
when a document is formatted.

Files:

- `wrappers.dfy` — `Option`, for `null`/`undefined` results and optional
  arguments.
- `jsarray.dfy` — `Array.prototype.indexOf`, `String.prototype.endsWith` and
  `toLowerCase`.
- `jsmap.dfy` — a JavaScript `Map` as an association list in insertion order
  (`get`, `has`, `set`, `delete`). `set` on a present key replaces the value
  where it stands; a new key goes at the end. Iteration order, and so every
  "first match" and every result order, follows from this.
- `editor.dfy` — URIs, positions, ranges (`contains` is inclusive at both
  ends), locations, text edits, symbol kinds and documents.
- `parser.dfy` — the indexer's records and `toRange`/`toLocation`.
- `helpers.dfy` — `first` and `isTerraformDocument`.
- `symbols.dfy` — symbol types, `toKind`, `toType`, `matchingType` and the
  symbol built for a declared block.
- `index_tables.dfy` — every table the index rebuilds, written as a function
  of the per-file store, and the lemmas saying what each table holds.
- `index.dfy` — class `Index`: its five maps as fields, the rebuild loops
  proved equal to those functions, and the queries.
- `rename.dfy`, `completion.dfy`, `configuration.dfy`, `format.dfy` — the
  providers and settings.

The class keeps two ghost fields. `referenceStore` is the store as it was at
the last reference rebuild. `indexed` is every file ever stored. `Valid()`
ties the tables to them. This is needed because the code keeps stale tables
on purpose or by accident:

- `update` rebuilds only the symbol tables, so the reference tables describe
  the store of the last `deleteUri`.
- `rebuildSymbols` never clears the per-file symbol table, so a deleted
  file's outline stays available.

Behaviour reproduced as the code has it:

- `findTargetLocation` reports failure with `null`, but its caller tests for
  `undefined`. The "Cannot find reference" branch is therefore never taken.
  An unresolved group still produces references, with an absent target.
- A group is resolved only if its map key is a symbol name, but its target
  is looked up by the group's `Name` field.
- `findDefinition` returns that absent target as "no definition".

Where the declared types and the code disagree, the model follows the code.
The `IndexResult` interface in `src/parser.ts` declares only the variables,
resources and outputs lists. The index reads seven lists: variables, default
providers, providers, resources, data resources, modules, outputs. The model's
`IndexResult` has all seven.

## Model

| member | source | states |
|---|---|---|
| `Symbols.ToKind` | src/index.ts:45-56 | a symbol type has the `Null` kind exactly when it is `Unknown` |
| `Symbols.ToKindInjective` | src/index.ts:45-56 | distinct symbol types are shown as distinct editor kinds |
| `Symbols.ToType` | src/index.ts:58-69 | a known type is returned only when the lower-cased string is its keyword; `Unknown` only when the lower-cased string is no keyword |
| `Symbols.ToTypeIgnoresCase` | src/index.ts:58-69 | a type string and its lower-case form give the same type |
| `Symbols.ToTypeOfTypeName` | src/index.ts:58-69 | each of the six keywords gives back its own type |
| `Symbols.MatchingType` | src/index.ts:39-43 | with no filter every symbol passes; with a filter exactly the symbols whose type is listed |
| `Symbols.NewSymbol` | src/index.ts:34-37 | a symbol carries the section's name, the type, its kind, and the file location of the section's range |
| `JsArray.IndexOf` | src/index.ts:42 | -1 exactly when the element is absent; otherwise the index of its first occurrence |
| `Parser.ToRange` | src/parser.ts:51-55 | the range starts at (line-1, column-1) and stays on that line; without a length it ends at `Number.MAX_VALUE`, with one it is exactly that wide |
| `Parser.ToRangeContains` | src/parser.ts:51-55 | a range with a length contains exactly the positions of its line from the start column to start column + length |
| `Parser.ToRangeOpenContains` | src/parser.ts:51-55 | a range without a length contains the rest of its line |
| `Parser.FileUri` | src/parser.ts:59 | the URI starts with `file:///` and ends with the path; a path already starting with `/` shares that slash, any other gets one inserted |
| `Parser.ToLocation` | src/parser.ts:57-66 | the location is in the supplied URI, else in the file URI of the indexer's file name; its range is `toRange` with the supplied length |
| `Helpers.IsTerraformDocument` | src/helpers.ts:3-9 | false for any other language; for Terraform, true exactly when the file name ends with `.tf` or `.tfvars` |
| `Helpers.First` | src/helpers.ts:11-17 | element 0 of a non-empty sequence; the given default, `null` when omitted, for an empty one |
| `IndexTables.SectionSymbolsAt` | src/index.ts:161-167 | one symbol per section, in section order, each made from its section with the section type's kind and the file's location |
| `IndexTables.FileSymbols` | src/index.ts:157-167 | a file has one symbol per declared block of the seven categories |
| `IndexTables.FileSymbolsInFile` | src/index.ts:157-167 | a file's symbols all lie in that file |
| `IndexTables.Named` | src/index.ts:177-181 | the symbols with a given name, each kept, none added |
| `IndexTables.WithSymbolsLookup` | src/index.ts:175-183 | adding symbols extends each name's list by exactly the added symbols of that name, in order, and creates no empty list |
| `IndexTables.SymbolTableLookup` | src/index.ts:154-183 | after a rebuild each name maps to exactly the stored symbols of that name, in store then category order; an undeclared name has no entry |
| `IndexTables.SymbolTableEntries` | src/index.ts:154-183 | the rebuilt table has each name once, and every entry is the non-empty list of the store's symbols of that name |
| `IndexTables.SymbolTablePermutesSymbols` | src/index.ts:154-183 | the table's lists together hold every stored symbol exactly as often as the store declares it |
| `IndexTables.SelectSound` | src/index.ts:138-145 | the search keeps only symbols whose name matches and whose type passes the filter |
| `IndexTables.SelectionMembers` | src/index.ts:138-145 | any arrangement of the search result holds exactly the symbols that pass |
| `IndexTables.SelectCount` | src/index.ts:141-142 | the search keeps every passing symbol as often as it occurs, and drops the others |
| `IndexTables.SearchPermutesSymbols` | src/index.ts:138-145 | searching the rebuilt table yields each stored symbol that passes, as often as the store declares it |
| `IndexTables.FindTargetLocation` | src/index.ts:235-250 | a found target is the location of a symbol with that name and type; an undeclared name finds nothing |
| `IndexTables.FirstMatch` | src/index.ts:245-249 | the location of the first symbol with the name and type, or nothing when none has both |
| `IndexTables.FindTargetIsFirstMatch` | src/index.ts:235-250 | against a rebuilt table, resolution finds the first stored symbol, in file and category order, with the name and type |
| `IndexTables.FileReferenceTargets` | src/index.ts:197-213 | each reference a file produces starts in that file, and a resolved one points at a stored symbol's declaration |
| `IndexTables.RecordLocationsLookup` | src/index.ts:217-222 | a file's groups append, under each key that is a symbol name, the locations of that key's groups in group order; other keys are untouched |
| `IndexTables.ReverseTableLookup` | src/index.ts:185-229 | after a rebuild an identifier has an entry exactly when it is a symbol name used as a group key, holding all its groups' locations across files in store order |
| `IndexTables.FindReferencesLookup` | src/index.ts:114-120 | looking an identifier up in a rebuilt reverse table gives all its uses when some stored symbol has that name, and nothing otherwise |
| `IndexTables.FileReferenceTableLookup` | src/index.ts:185-229 | after a rebuild a file has a reference list exactly when its groups produced a reference, and the list is those references |
| `IndexTables.AbsentFileHasNoReferences` | src/index.ts:122-128 | a file no longer stored has no reference list and no use site in the reverse table |
| `IndexTables.DocumentSymbolsLookup` | src/index.ts:154-173 | after a rebuild a stored file's outline is its current symbols, and any other file keeps what it had |
| `IndexTables.RebuildDocumentSymbolsIdempotent` | src/index.ts:154-173 | rebuilding the outlines twice without a store change gives the same outlines |
| `IndexTables.FirstContaining` | src/index.ts:106 | the index of the first reference whose source range contains the position, or nothing when none does |
| `SymbolIndex.Index.constructor` | src/index.ts:72-77 | a new index has five empty maps |
| `SymbolIndex.Index.Update` | src/index.ts:147-152 | the file's result is set in the store and the symbol tables rebuilt; the reference tables are unchanged |
| `SymbolIndex.Index.UpdateKeepsConsistent` | src/index.ts:147-152 | setting a file's result and rebuilding the symbol tables keeps the tables consistent with the store, the reference tables describing the earlier store |
| `SymbolIndex.Index.DeleteUri` | src/index.ts:122-128 | the file leaves the store, all tables are rebuilt, it has no references and is no use site; its outline is kept |
| `SymbolIndex.Index.RebuildSymbols` | src/index.ts:154-173 | the name table is rebuilt from empty over the store; each stored file's outline is overwritten and no other entry is touched |
| `SymbolIndex.Index.IndexFileSymbols` | src/index.ts:156-171 | one stored file's symbols are added to the name table and become its outline |
| `SymbolIndex.Index.AddSymbols` | src/index.ts:175-183 | each symbol is appended to its name's list, or starts a new one |
| `SymbolIndex.Index.RebuildReferences` | src/index.ts:185-229 | both reference tables are cleared and refilled from the store against the current name table |
| `SymbolIndex.Index.ResolveFileReferences` | src/index.ts:188-226 | one stored file's groups are resolved: its references are returned and each valid key's locations recorded in the reverse table; nothing else changes |
| `SymbolIndex.Index.ValidTargetIsDeclared` | src/index.ts:231-233 | a key is a valid target exactly when some stored symbol has that name |
| `SymbolIndex.Index.FindDefinition` | src/index.ts:100-112 | nothing for a file without references or a position no source contains; otherwise exactly the target of the first reference containing the position: a found target comes from that reference, and that reference's target is always the one returned |
| `SymbolIndex.Index.DefinitionIsDeclared` | src/index.ts:100-112 | a found definition is in a file indexed at the last reference rebuild and is a stored symbol's declaration |
| `SymbolIndex.Index.FindReferences` | src/index.ts:114-120 | an identifier without an entry in the reverse table gives no locations |
| `SymbolIndex.Index.FindReferencesIsLocationsTo` | src/index.ts:114-120 | all uses of the identifier at the last reference rebuild when some symbol then had that name; an unknown identifier gives none |
| `SymbolIndex.Index.GetDocumentSymbols` | src/index.ts:130-136 | a file without an outline entry has no symbols |
| `SymbolIndex.Index.DocumentSymbolsAreCurrent` | src/index.ts:130-136 | a stored file's current symbols; nothing for a file never stored |
| `SymbolIndex.Index.GetSymbolsSelects` | src/index.ts:138-145 | only symbols whose name matches and whose type is listed |
| `SymbolIndex.Index.GetSymbolsPermutesSelection` | src/index.ts:138-145 | every stored symbol that passes, as often as it is declared, and no other |
| `Rename.NameRange` | src/providers/rename.ts:17-23 | the replaced range is on the reference's line, starts 4 columns in, and is as wide as the old name |
| `Rename.ProvideRenameEdits` | src/providers/rename.ts:5-28 | no edit without a word or without references; otherwise the word and then each reference, in order and in its own file, are replaced by the new name; only a declared name is renamed |
| `Completion.LinePrefix` | src/providers/completion.ts:28-29 | the text before the cursor is the start of its line, clamped to the line's length |
| `Completion.VariableItems` | src/providers/completion.ts:8-16 | one item per variable, labelled with its name; with the prefix flag each inserts `var.<name>` at the cursor |
| `Completion.OutputItems` | src/providers/completion.ts:20-24 | one item per output, labelled with its name, without an edit |
| `Completion.GetVariables` | src/providers/completion.ts:7-16 | one item per variable symbol found, labelled with its name |
| `Completion.GetOutputs` | src/providers/completion.ts:19-25 | one item per output symbol found, labelled with its name, without an edit |
| `Completion.CompletionItems` | src/providers/completion.ts:27-40 | after `var.` the variables without edits; after `${` the variables inserting `var.<name>`, then the outputs; otherwise nothing |
| `Completion.ProvideCompletionItems` | src/providers/completion.ts:27-40 | the items are chosen by the text before the cursor from the index's variable and output symbols |
| `Completion.VariablesAreDeclared` | src/providers/completion.ts:8 | the variables searched are exactly the variables declared in stored files |
| `Completion.OutputsAreDeclared` | src/providers/completion.ts:20 | the outputs searched are exactly the outputs declared in stored files |
| `Completion.VarItemsNameVariables` | src/providers/completion.ts:31-32 | after `var.` every label is a variable's name, and every variable's name is a label |
| `Completion.VarCompletionOffersDeclaredVariables` | src/providers/completion.ts:31-32 | after `var.` every label names a declared variable, and every declared variable is offered |
| `Configuration.IgnoreOnSave` | src/configuration.ts:46-49 | existing entries keep their order; `.tfvars` is appended at the end only when the deprecated setting is not true and it is missing |
| `Configuration.IgnoreOnSaveIdempotent` | src/configuration.ts:46-49 | applying the rewrite again changes nothing |
| `Configuration.IgnoreOnSaveAddsOnce` | src/configuration.ts:46-48 | `.tfvars` is never listed twice by the rewrite |
| `Configuration.GetConfiguration` | src/configuration.ts:28-52 | every field is copied from the raw settings; the shared format section's on-save list is rewritten in place, nothing else of it changes |
| `Format.EndsWithEach` | src/format.ts:56-58 | for each extension, whether the file name ends with it |
| `Format.IsFormatEnabled` | src/format.ts:42-59 | false unless `enable` is true; true off save; on save false unless `formatOnSave` is true, and then true exactly when no ignored extension ends the file name |
| `Format.ProvideDocumentFormattingEdits` | src/format.ts:62-80 | no edits when formatting is disabled or `fmt` failed; otherwise one edit replacing the whole document |
| `Format.FormattingEditProvider.constructor` | src/format.ts:9 | no document is marked at first |
| `Format.FormattingEditProvider.OnSave` | src/format.ts:11-40 | a non-Terraform or marked document is left alone; otherwise the run ends as enablement, editor, `fmt` and save decide; a failed save leaves the document marked |
| `Format.FormattingEditProvider.OnSaveUnmarkingAlways` | src/format.ts:11-40 | as `OnSave`, but the mark is always removed, so a document not ignored before is not ignored after |
| `Format.FailedSaveIgnoresLaterSaves` | src/format.ts:29-34 | a failed save followed by a save of the same document: the second is ignored |
| `Format.FailedSaveThenSaveUnmarkingAlways` | src/format.ts:29-34 | with the mark always removed, the save after a failed one is formatted and saved |

## Left out

- The editor and workspace plumbing of the index (`updateUri`, `updateDocument`, `createWorkspaceWatcher`, `initializeIndex`): they open documents, run the external indexer and subscribe to events. The model starts from an indexer result already in hand.
- `Parser.parseIndex` is a bare JSON cast; `IndexResult` is modelled as the parsed record. The version check and `Type` back-filling that the parser tests expect are not in the code and are not modelled.
- Diagnostics (`createDiagnostic`, `updateDiagnostics`) and the unreachable "Cannot find reference" branch, which would push parse errors: they produce editor output only and the rebuild never reaches them.
- `src/process.ts`, `src/missingtool.ts`, `src/providers.ts` and the one-line providers that forward to the index: process spawning, a prompt, registration.
- The `terraform fmt` call, its output handling and ANSI stripping: `fmt`'s outcome, the full document range and the save's outcome are parameters of the formatting members.
- The ordering of asynchronous steps. Index updates and the on-save run are modelled as if each ran to completion before the next begins. With overlapping runs, the code gives no ordering guarantee.
- `String.prototype.match` in the symbol search is a pattern-matching parameter of `GetSymbols`. Completion passes no pattern, which matches every name, and is modelled as the predicate that accepts every name.
- `toLowerCase` is modelled for ASCII letters only. For the six keywords `toType` compares against, full Unicode lower-casing gives the same results: the only other characters that lower-case to ASCII letters are the Kelvin sign (to `k`, in no keyword) and the dotted capital I (to two characters).
- Iteration over a group object with `for..in` puts integer-like keys first, in numeric order. The model iterates the groups in the order the indexer's result lists them.
- `Completion.LinePrefix`: the editor counts `Position.character` in UTF-16 code units, but the model counts characters (Unicode scalar values). On a line with a character above U+FFFF before the cursor, the model's prefix is longer than `getText`'s. For example, on the line `😀${x` at character 3, the source's prefix is `😀$` and the model's is `😀${`.
- `Rename.NameRange`: the width of the replaced name is its length in characters, not the UTF-16 `length` the source uses. The two differ for names with characters above U+FFFF.
- `Number.MAX_VALUE` is the exact integer value of the largest double; positions are unbounded naturals, so no floating-point rounding is modelled.
- `Uri.parse(uri.toString())` is taken to give back the same URI, and a URI is modelled as its string. `Uri.file` is modelled only for its `file://` prefix and leading slash; no percent-encoding is modelled.
- `vscode.Range` swaps a start after its end; the ranges built here never have one, since lines and columns are at least 1, a length is never negative, and a JavaScript column cannot exceed `Number.MAX_VALUE`.
- `Symbols.NewSymbol`: `vscode.SymbolInformation` throws on an empty name, and names come unchecked from the external indexer (src/index.ts:35). The model builds a symbol for every name. It does not model the throw, which would stop `rebuildSymbols` part-way and leave the name table half rebuilt.
- Arrays handed out by the index are shared with its tables in the code, so a caller could change them; the model returns values.
- `toCompletionKind` is imported from `src/helpers.ts`, but that file does not define it; completion items keep the symbol's kind.
- `Configuration.GetConfiguration`: the settings object is modelled with the format section shared between the raw and the returned settings, as the code uses it. Whether the editor hands out that section as a fresh or a frozen object is outside the model.

## Findings

| source | as written | input that shows it | evidently intended | confidence | as-written member | corrected member |
|---|---|---|---|---|---|---|
| src/format.ts:29-38 | a document is marked before its own save and unmarked only in the success continuation; when `document.save()` rejects, the `catch` leaves it marked, and the guard at line 12 then ignores every later save of it | a Terraform document with format-on-save enabled, `fmt` succeeding and the save promise rejecting, then saved again | the mark suppresses only the save the provider itself triggers, so it is removed however that save ends | medium, not executed (it depends on the save promise rejecting rather than resolving to false) | `Format.FailedSaveIgnoresLaterSaves` | `Format.FormattingEditProvider.OnSaveUnmarkingAlways` |
