/** The records produced by the external indexer for one file, and the
    conversion of its 1-based locations to editor ranges and locations. */
module Parser {
  import opened Wrappers
  import Editor

  /** Lines and columns reported by the indexer start at 1. */
  type OneBased = n: int | n >= 1 witness 1

  /** `Number.MAX_VALUE`, the largest finite double, as the exact integer
      (2^53 - 1) * 2^971. Used as the open end of a range of unknown length. */
  const MaxValue: nat := 0xfffffffffffff800000000000000000000000000000000000000000000000000000000000000000000000000000000000000000000000000000000000000000000000000000000000000000000000000000000000000000000000000000000000000000000000000000000000000000000000000000000000000000000000000

  /** A position in a source file as the indexer reports it. */
  datatype Location = Location(filename: string, offset: int, line: OneBased, column: OneBased)

  datatype ParseError = ParseError(message: string, location: Location)

  /** A declared block (variable, provider, resource, data source, module,
      output): its name and where it is declared. */
  datatype Section = Section(name: string, location: Location)

  /** A group of uses of one identifier within a file: the name used, the
      declared kind of its target, and every place it is used. */
  datatype Reference = Reference(name: string, refType: string, locations: seq<Location>)

  /** The indexer's result for one file. `references` is keyed by target
      identifier, in the order the keys occur in the result. */
  datatype IndexResult = IndexResult(
    errors: seq<ParseError>,
    variables: seq<Section>,
    defaultProviders: seq<Section>,
    providers: seq<Section>,
    resources: seq<Section>,
    dataResources: seq<Section>,
    modules: seq<Section>,
    outputs: seq<Section>,
    references: seq<(string, Reference)>)

  /** The single-line range starting at `location`; its end is `length`
      characters further on, or the open-ended sentinel without a length. */
  function ToRange(location: Location, length: Option<nat> := None): (r: Editor.Range)
    ensures r.start == Editor.Position(location.line - 1, location.column - 1)
    ensures r.IsSingleLine()
    ensures length.None? ==> r.end.character == MaxValue
    ensures length.Some? ==> r.end.character == r.start.character + length.value
  {
    var endColumn := if length.None? then MaxValue else location.column - 1 + length.value;
    Editor.Range(Editor.Position(location.line - 1, location.column - 1),
                 Editor.Position(location.line - 1, endColumn))
  }

  /** `Uri.file`: the file URI of an absolute path. The URI starts with
      `file:///` and ends with the path, and a path that already starts with
      `/` shares that slash with the prefix. */
  function FileUri(path: string): (u: Editor.Uri)
    ensures |u.text| >= 8 && u.text[..8] == "file:///"
    ensures |path| <= |u.text| && u.text[|u.text| - |path|..] == path
    ensures |u.text| == if |path| > 0 && path[0] == '/' then 7 + |path| else 8 + |path|
  {
    Editor.Uri("file://" + (if |path| > 0 && path[0] == '/' then path else "/" + path))
  }

  /** The editor location of `location`, in `uri` when one is supplied and
      otherwise in the file the indexer named. */
  function ToLocation(location: Location, uri: Option<Editor.Uri> := None, length: Option<nat> := None): (r: Editor.Location)
    ensures uri.Some? ==> r.uri == uri.value
    ensures uri.None? ==> r.uri == FileUri(location.filename)
    ensures r.range == ToRange(location, length)
  {
    var u := if uri.None? then FileUri(location.filename) else uri.value;
    Editor.Location(u, ToRange(location, length))
  }

  /** A range built with a length covers exactly the `length + 1` inclusive
      caret positions from the start column on the start line. */
  lemma ToRangeContains(location: Location, length: nat, p: Editor.Position)
    ensures ToRange(location, Some(length)).Contains(p) <==>
      p.line == location.line - 1 && location.column - 1 <= p.character <= location.column - 1 + length
  {
  }

  /** Without a length the range covers the rest of the start line. */
  lemma ToRangeOpenContains(location: Location, p: Editor.Position)
    ensures ToRange(location).Contains(p) <==>
      p.line == location.line - 1 && location.column - 1 <= p.character <= MaxValue
  {
  }
}
