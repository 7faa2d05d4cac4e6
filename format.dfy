/** Formatting with `terraform fmt`: when formatting is enabled, the edits
    of an explicit format request, and the format-and-save run on save. */
module Format {
  import opened Wrappers
  import opened JsString
  import JsArray
  import Editor
  import opened Helpers

  /** The `terraform.format` settings section as read; each flag may be
      unset. */
  datatype FormatSection = FormatSection(enable: Option<bool>, formatOnSave: Option<bool>, ignoreExtensionsOnSave: seq<string>)

  /** For each extension, whether `fileName` ends with it. */
  function EndsWithEach(fileName: string, extensions: seq<string>): (r: seq<bool>)
    ensures |r| == |extensions|
    ensures forall i :: 0 <= i < |r| ==> r[i] == EndsWith(fileName, extensions[i])
  {
    if extensions == [] then [] else [EndsWith(fileName, extensions[0])] + EndsWithEach(fileName, extensions[1..])
  }

  /** Formatting needs `enable` to be true; on save it also needs
      `formatOnSave` to be true and the file name to end with none of the
      extensions ignored on save. */
  function IsFormatEnabled(document: Editor.TextDocument, config: FormatSection, onSave: bool): (r: bool)
    ensures config.enable != Some(true) ==> !r
    ensures config.enable == Some(true) && !onSave ==> r
    ensures onSave && config.formatOnSave != Some(true) ==> !r
    ensures config.enable == Some(true) && onSave && config.formatOnSave == Some(true) ==>
      (r <==> forall ext :: ext in config.ignoreExtensionsOnSave ==> !EndsWith(document.fileName, ext))
  {
    if config.enable != Some(true) then false
    else if !onSave then true
    else if config.formatOnSave != Some(true) then false
    else
      var matches := EndsWithEach(document.fileName, config.ignoreExtensionsOnSave);
      assert forall ext :: ext in config.ignoreExtensionsOnSave && EndsWith(document.fileName, ext) ==> true in matches by {
        forall ext | ext in config.ignoreExtensionsOnSave && EndsWith(document.fileName, ext) ensures true in matches {
          var i :| 0 <= i < |config.ignoreExtensionsOnSave| && config.ignoreExtensionsOnSave[i] == ext;
          assert matches[i];
        }
      }
      JsArray.IndexOf(matches, true) == -1
  }

  /** The edits of a format request on a document whose full range is
      `fullRange`, given what `terraform fmt` produced (nothing when it
      failed): none when formatting is disabled or failed, otherwise one
      edit replacing the whole document by the formatted text. */
  function ProvideDocumentFormattingEdits(document: Editor.TextDocument, config: FormatSection, fullRange: Editor.Range,
                                          formatted: Option<string>): (r: seq<Editor.TextEdit>)
    ensures !IsFormatEnabled(document, config, false) ==> r == []
    ensures formatted.None? ==> r == []
    ensures IsFormatEnabled(document, config, false) && formatted.Some? ==> r == [Editor.TextEdit(fullRange, formatted.value)]
  {
    if !IsFormatEnabled(document, config, false) then []
    else match formatted
      case None => []
      case Some(text) => [Editor.TextEdit(fullRange, text)]
  }

  /** How saving the document ended: saved, not saved, or the save failed
      with an error. */
  datatype SaveResult = Saved | NotSaved | SaveError

  /** How an on-save run ended. */
  datatype SaveOutcome =
    | Ignored          // not a Terraform document, or this save is the run's own
    | NotFormatted     // formatting on save is disabled, or another document is active
    | NoActiveEditor   // formatting is enabled but no editor is active: the run stops with an error
    | FormatFailed     // `terraform fmt` failed
    | SaveFailed       // the formatted document could not be saved
    | Completed        // formatted, and the save finished

  class FormattingEditProvider {
    /** Documents whose next save is the provider's own and is not to be
        formatted again. */
    var ignoreNextSave: set<Editor.TextDocument>

    constructor ()
      ensures ignoreNextSave == {}
    {
      ignoreNextSave := {};
    }

    /** A save of `document` is left alone. */
    predicate ShouldIgnoreSave(document: Editor.TextDocument)
      reads this
    {
      !IsTerraformDocument(document) || document in ignoreNextSave
    }

    /** `onSave`, with the editor and the external steps as parameters: the
        active editor's document (none without an active editor), what
        `terraform fmt` produced (nothing when it failed), and how the save
        ended. The document is marked before its own save and unmarked once
        that save has finished; a save that fails with an error leaves it
        marked. */
    method OnSave(document: Editor.TextDocument, config: FormatSection, activeDocument: Option<Editor.TextDocument>,
                  formatted: Option<string>, save: SaveResult)
      returns (outcome: SaveOutcome)
      modifies this
      ensures old(ShouldIgnoreSave(document)) ==> outcome == Ignored
      ensures !old(ShouldIgnoreSave(document)) ==>
        outcome == (if !IsFormatEnabled(document, config, true) then NotFormatted
                    else if activeDocument.None? then NoActiveEditor
                    else if activeDocument.value != document then NotFormatted
                    else if formatted.None? then FormatFailed
                    else if save == SaveError then SaveFailed
                    else Completed)
      ensures outcome == SaveFailed ==> ignoreNextSave == old(ignoreNextSave) + {document}
      ensures outcome != SaveFailed ==> ignoreNextSave == old(ignoreNextSave)
    {
      if !IsTerraformDocument(document) || document in ignoreNextSave {
        return Ignored;
      }
      if !IsFormatEnabled(document, config, true) {
        return NotFormatted;
      }
      if activeDocument.None? {
        return NoActiveEditor;
      }
      if activeDocument.value != document {
        return NotFormatted;
      }
      if formatted.None? {
        return FormatFailed;
      }
      ignoreNextSave := ignoreNextSave + {document};
      if save == SaveError {
        return SaveFailed;
      }
      ignoreNextSave := ignoreNextSave - {document};
      return Completed;
    }

    /** `onSave` with the mark removed whether or not the save succeeds. */
    method OnSaveUnmarkingAlways(document: Editor.TextDocument, config: FormatSection, activeDocument: Option<Editor.TextDocument>,
                                 formatted: Option<string>, save: SaveResult)
      returns (outcome: SaveOutcome)
      modifies this
      ensures old(ShouldIgnoreSave(document)) ==> outcome == Ignored
      ensures !old(ShouldIgnoreSave(document)) ==>
        outcome == (if !IsFormatEnabled(document, config, true) then NotFormatted
                    else if activeDocument.None? then NoActiveEditor
                    else if activeDocument.value != document then NotFormatted
                    else if formatted.None? then FormatFailed
                    else if save == SaveError then SaveFailed
                    else Completed)
      ensures ignoreNextSave == old(ignoreNextSave)
      ensures !old(ShouldIgnoreSave(document)) ==> !ShouldIgnoreSave(document)
    {
      if !IsTerraformDocument(document) || document in ignoreNextSave {
        return Ignored;
      }
      if !IsFormatEnabled(document, config, true) {
        return NotFormatted;
      }
      if activeDocument.None? {
        return NoActiveEditor;
      }
      if activeDocument.value != document {
        return NotFormatted;
      }
      if formatted.None? {
        return FormatFailed;
      }
      ignoreNextSave := ignoreNextSave + {document};
      if save == SaveError {
        outcome := SaveFailed;
      } else {
        outcome := Completed;
      }
      ignoreNextSave := ignoreNextSave - {document};
    }
  }

  /** A save that fails with an error leaves the document marked, so every
      later save of it is ignored and it is never formatted on save again. */
  method FailedSaveIgnoresLaterSaves() returns (first: SaveOutcome, second: SaveOutcome)
    ensures first == SaveFailed && second == Ignored
  {
    var provider := new FormattingEditProvider();
    var document := new Editor.TextDocument(Editor.Uri("file:///main.tf"), "terraform", "/main.tf");
    var config := FormatSection(Some(true), Some(true), []);
    assert EndsWith(document.fileName, ".tf");
    first := provider.OnSave(document, config, Some(document), Some("formatted"), SaveError);
    second := provider.OnSave(document, config, Some(document), Some("formatted"), Saved);
  }

  /** With the mark always removed, the save after a failed one is formatted
      and saved again. */
  method FailedSaveThenSaveUnmarkingAlways() returns (first: SaveOutcome, second: SaveOutcome)
    ensures first == SaveFailed && second == Completed
  {
    var provider := new FormattingEditProvider();
    var document := new Editor.TextDocument(Editor.Uri("file:///main.tf"), "terraform", "/main.tf");
    var config := FormatSection(Some(true), Some(true), []);
    assert EndsWith(document.fileName, ".tf");
    first := provider.OnSaveUnmarkingAlways(document, config, Some(document), Some("formatted"), SaveError);
    second := provider.OnSaveUnmarkingAlways(document, config, Some(document), Some("formatted"), Saved);
  }
}
