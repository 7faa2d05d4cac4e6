/** The index's symbols: the kind of block a symbol comes from, its mapping
    to the editor's symbol kinds and from the indexer's type strings. */
module Symbols {
  import opened Wrappers
  import opened JsString
  import JsArray
  import Editor
  import Parser

  datatype SymbolType = Variable | Resource | Data | Module | Output | Provider | Unknown

  /** A declared symbol: its name, editor kind, declaration location and the
      kind of block it comes from. */
  datatype Symbol = Symbol(name: string, kind: Editor.SymbolKind, location: Editor.Location, symbolType: SymbolType)

  /** The editor kind shown for a symbol type; `Unknown` has none. */
  function ToKind(t: SymbolType): (k: Editor.SymbolKind)
    ensures k == Editor.SymbolKind.Null <==> t == Unknown
  {
    match t
    case Variable => Editor.SymbolKind.Variable
    case Resource => Editor.SymbolKind.Object
    case Data => Editor.SymbolKind.Constant
    case Module => Editor.SymbolKind.Module
    case Output => Editor.SymbolKind.Property
    case Provider => Editor.SymbolKind.Namespace
    case Unknown => Editor.SymbolKind.Null
  }

  /** Distinct symbol types are shown as distinct editor kinds. */
  lemma ToKindInjective(a: SymbolType, b: SymbolType)
    requires ToKind(a) == ToKind(b)
    ensures a == b
  {
  }

  /** The lower-case block keyword of a known symbol type. */
  function TypeName(t: SymbolType): string
    requires t != Unknown
  {
    match t
    case Variable => "variable"
    case Resource => "resource"
    case Data => "data"
    case Module => "module"
    case Output => "output"
    case Provider => "provider"
  }

  /** The symbol type a lower-case keyword names; any other string is
      `Unknown`. */
  function KeywordType(lower: string): (t: SymbolType)
    ensures t != Unknown ==> lower == TypeName(t)
  {
    if lower == "variable" then Variable
    else if lower == "resource" then Resource
    else if lower == "data" then Data
    else if lower == "module" then Module
    else if lower == "output" then Output
    else if lower == "provider" then Provider
    else Unknown
  }

  /** The symbol type named by the indexer's type string, ignoring case;
      any other string is `Unknown`. */
  function ToType(s: string): (t: SymbolType)
    ensures t != Unknown ==> ToLower(s) == TypeName(t)
    ensures t == Unknown ==> forall k :: k != Unknown ==> ToLower(s) != TypeName(k)
  {
    KeywordType(ToLower(s))
  }

  /** A type string and its lower-case form name the same type. */
  lemma ToTypeIgnoresCase(s: string)
    ensures ToType(ToLower(s)) == ToType(s)
  {
    ToLowerIdempotent(s);
  }

  /** Every known type is recovered from its keyword. */
  lemma ToTypeOfTypeName(t: SymbolType)
    requires t != Unknown
    ensures ToType(TypeName(t)) == t
  {
    TypeNameIsLower(t);
  }

  /** The keywords are already lower case. */
  lemma TypeNameIsLower(t: SymbolType)
    requires t != Unknown
    ensures ToLower(TypeName(t)) == TypeName(t)
  {
    var name := TypeName(t);
    assert forall i :: 0 <= i < |name| ==> 'a' <= name[i] <= 'z';
    ToLowerKeepsLower(name);
  }

  /** A symbol passes a type filter when there is no filter or its type is
      listed. */
  predicate MatchingType(symbol: Symbol, types: Option<seq<SymbolType>>)
    ensures MatchingType(symbol, types) <==> types.None? || symbol.symbolType in types.value
  {
    types.None? || JsArray.IndexOf(types.value, symbol.symbolType) != -1
  }

  /** The symbol for a declared block of type `t` in the file `uri`. */
  function NewSymbol(uri: Editor.Uri, t: SymbolType, section: Parser.Section): (s: Symbol)
    ensures s.name == section.name && s.symbolType == t && s.kind == ToKind(t)
    ensures s.location == Editor.Location(uri, Parser.ToRange(section.location))
  {
    Symbol(section.name, ToKind(t), Editor.Location(uri, Parser.ToRange(section.location)), t)
  }
}
