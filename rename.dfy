/** Renaming a variable: the word under the cursor is replaced, and so is
    every reference to it, just past the `var.` prefix of the reference. */
module Rename {
  import opened Wrappers
  import Editor
  import opened SymbolIndex

  /** The length of the `var.` prefix that precedes a variable's name at a
      reference. */
  const VarPrefixLength: nat := 4

  /** One replacement of a workspace edit: a text edit in the file `uri`. */
  datatype Replacement = Replacement(uri: Editor.Uri, edit: Editor.TextEdit)

  /** The range a reference's name occupies: on the reference's start line,
      right after the prefix, as wide as the old name. */
  function NameRange(reference: Editor.Location, word: string): (r: Editor.Range)
    ensures r.IsSingleLine() && r.start.line == reference.range.start.line
    ensures r.start.character == reference.range.start.character + VarPrefixLength
    ensures r.end.character - r.start.character == |word|
  {
    var start := reference.range.start;
    Editor.Range(Editor.Position(start.line, start.character + VarPrefixLength),
                 Editor.Position(start.line, start.character + VarPrefixLength + |word|))
  }

  /** The rename edits for the word `word` found at `wordRange` in the
      document `documentUri` (no word range: no word at the position).
      Nothing is renamed when there is no word or nothing refers to it;
      otherwise the word itself is replaced first, then each reference in
      its own file, all by `newName`. */
  method ProvideRenameEdits(index: Index, documentUri: Editor.Uri, wordRange: Option<Editor.Range>, word: string, newName: string)
    returns (edit: Option<seq<Replacement>>)
    ensures wordRange.None? ==> edit.None?
    ensures wordRange.Some? && index.FindReferences(word) == [] ==> edit.None?
    ensures wordRange.Some? && index.FindReferences(word) != [] ==>
      var references := index.FindReferences(word);
      && edit.Some?
      && |edit.value| == 1 + |references|
      && edit.value[0] == Replacement(documentUri, Editor.TextEdit(wordRange.value, newName))
      && (forall i :: 0 <= i < |references| ==>
            edit.value[i + 1] == Replacement(references[i].uri, Editor.TextEdit(NameRange(references[i], word), newName)))
    ensures edit.Some? && index.Valid() ==>
      exists s :: s in IndexTables.AllSymbols(index.referenceStore) && s.name == word
  {
    if wordRange.None? {
      return None;
    }
    var references := index.FindReferences(word);
    if index.Valid() {
      index.FindReferencesIsLocationsTo(word);
    }
    if |references| == 0 {
      return None;
    }
    var replacements := [Replacement(documentUri, Editor.TextEdit(wordRange.value, newName))];
    var i := 0;
    while i < |references|
      invariant 0 <= i <= |references|
      invariant |replacements| == 1 + i
      invariant replacements[0] == Replacement(documentUri, Editor.TextEdit(wordRange.value, newName))
      invariant forall j :: 0 <= j < i ==>
        replacements[j + 1] == Replacement(references[j].uri, Editor.TextEdit(NameRange(references[j], word), newName))
    {
      var location := references[i];
      replacements := replacements + [Replacement(location.uri, Editor.TextEdit(NameRange(location, word), newName))];
      i := i + 1;
    }
    return Some(replacements);
  }
}
