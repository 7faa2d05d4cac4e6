/** The editor API values the extension exchanges with the editor: URIs,
    positions, ranges, locations, text edits, symbol kinds and documents. */
module Editor {

  /** A resource identifier, held as its string form: parsing a URI string
      and printing it back gives the same string. */
  datatype Uri = Uri(text: string)

  /** A zero-based line and character offset. */
  datatype Position = Position(line: nat, character: nat)

  /** `Position.isBefore`: strictly earlier in (line, character) order. */
  predicate IsBefore(a: Position, b: Position) {
    a.line < b.line || (a.line == b.line && a.character < b.character)
  }

  datatype Range = Range(start: Position, end: Position) {

    /** `Range.contains` for a position: inclusive at both ends. */
    predicate Contains(p: Position) {
      !IsBefore(p, start) && !IsBefore(end, p)
    }

    /** The range lies on one line. */
    predicate IsSingleLine() {
      start.line == end.line
    }
  }

  datatype Location = Location(uri: Uri, range: Range)

  /** A replacement of the text in `range` by `newText`. */
  datatype TextEdit = TextEdit(range: Range, newText: string)

  /** The symbol kinds the editor shows in its outline and symbol search. */
  datatype SymbolKind = Variable | Object | Constant | Module | Property | Namespace | Null

  /** An open text document. The editor hands out one object per open
      document, so documents are compared by identity. */
  class TextDocument {
    const uri: Uri
    const languageId: string
    const fileName: string

    constructor (uri: Uri, languageId: string, fileName: string)
      ensures this.uri == uri && this.languageId == languageId && this.fileName == fileName
    {
      this.uri := uri;
      this.languageId := languageId;
      this.fileName := fileName;
    }
  }
}
