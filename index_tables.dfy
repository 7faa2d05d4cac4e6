/** What the index derives from its per-file store, stated as functions of
    the store: the name-to-symbols table, each file's flattened symbol list,
    and the two reference tables. The `SymbolIndex.Index` class rebuilds its
    fields by loops proved equal to these functions; the lemmas here say
    what the tables contain. */
module IndexTables {
  import opened Wrappers
  import opened JsMap
  import Editor
  import Parser
  import opened Symbols

  /** The per-file store: file URI string to the indexer's result. */
  type Store = seq<(string, Parser.IndexResult)>

  /** Symbol name to every symbol of that name. */
  type SymbolTable = seq<(string, seq<Symbol>)>

  /** A use of an identifier and the declaration it resolved to; the target
      is absent when the name is declared but not with the requested type. */
  datatype Reference = Reference(source: Editor.Location, target: Option<Editor.Location>)

  // ---------------------------------------------------------------------
  // Symbols of one file and of the whole store

  /** One symbol of type `t` per section, in order. */
  function SectionSymbols(uri: Editor.Uri, t: SymbolType, sections: seq<Parser.Section>): (r: seq<Symbol>)
    ensures |r| == |sections|
  {
    if sections == [] then [] else [NewSymbol(uri, t, sections[0])] + SectionSymbols(uri, t, sections[1..])
  }

  /** The symbol at each position is the one made from the section there. */
  lemma {:induction false} SectionSymbolsAt(uri: Editor.Uri, t: SymbolType, sections: seq<Parser.Section>)
    ensures forall i :: 0 <= i < |sections| ==> SectionSymbols(uri, t, sections)[i] == NewSymbol(uri, t, sections[i])
  {
    if sections != [] {
      SectionSymbolsAt(uri, t, sections[1..]);
    }
  }

  /** A file's symbols: variables, default providers, providers, resources,
      data sources, modules, outputs, each in the indexer's order. */
  function FileSymbols(uriString: string, result: Parser.IndexResult): (r: seq<Symbol>)
    ensures |r| == |result.variables| + |result.defaultProviders| + |result.providers| + |result.resources|
                   + |result.dataResources| + |result.modules| + |result.outputs|
  {
    var uri := Editor.Uri(uriString);
    SectionSymbols(uri, Variable, result.variables)
    + SectionSymbols(uri, Provider, result.defaultProviders)
    + SectionSymbols(uri, Provider, result.providers)
    + SectionSymbols(uri, Resource, result.resources)
    + SectionSymbols(uri, Data, result.dataResources)
    + SectionSymbols(uri, Module, result.modules)
    + SectionSymbols(uri, Output, result.outputs)
  }

  /** Every symbol of a file lies in that file. */
  lemma FileSymbolsInFile(uriString: string, result: Parser.IndexResult)
    ensures forall s :: s in FileSymbols(uriString, result) ==> s.location.uri == Editor.Uri(uriString)
  {
    var uri := Editor.Uri(uriString);
    SectionSymbolsAt(uri, Variable, result.variables);
    SectionSymbolsAt(uri, Provider, result.defaultProviders);
    SectionSymbolsAt(uri, Provider, result.providers);
    SectionSymbolsAt(uri, Resource, result.resources);
    SectionSymbolsAt(uri, Data, result.dataResources);
    SectionSymbolsAt(uri, Module, result.modules);
    SectionSymbolsAt(uri, Output, result.outputs);
  }

  /** Every symbol of the store, file by file in store order. */
  function AllSymbols(store: Store): seq<Symbol>
  {
    if store == [] then []
    else AllSymbols(store[..|store| - 1]) + FileSymbols(store[|store| - 1].0, store[|store| - 1].1)
  }

  /** The symbols of `s` named `name`, in order. */
  function Named(s: seq<Symbol>, name: string): (r: seq<Symbol>)
    ensures forall x :: x in r ==> x in s && x.name == name
    ensures forall x :: x in s && x.name == name ==> x in r
  {
    if s == [] then []
    else if s[0].name == name then [s[0]] + Named(s[1..], name)
    else Named(s[1..], name)
  }

  /** Some symbol has the name exactly when the selection by name is not
      empty. */
  lemma NamedNonEmpty(s: seq<Symbol>, name: string)
    ensures Named(s, name) != [] <==> exists x :: x in s && x.name == name
  {
    if Named(s, name) != [] {
      assert Named(s, name)[0] in Named(s, name);
    }
  }

  lemma {:induction false} NamedAppend(a: seq<Symbol>, b: seq<Symbol>, name: string)
    ensures Named(a + b, name) == Named(a, name) + Named(b, name)
  {
    if a != [] {
      assert (a + b)[0] == a[0] && (a + b)[1..] == a[1..] + b;
      NamedAppend(a[1..], b, name);
    } else {
      assert a + b == b;
    }
  }

  /** Every symbol of the store lies in a file of the store. */
  lemma {:induction false} AllSymbolsInStoredFiles(store: Store, s: Symbol)
    requires s in AllSymbols(store)
    ensures Has(store, s.location.uri.text)
  {
    var n := |store| - 1;
    var prefix := store[..n];
    assert store == prefix + [store[n]];
    GetAppend(prefix, store[n].0, store[n].1, s.location.uri.text);
    if s in AllSymbols(prefix) {
      AllSymbolsInStoredFiles(prefix, s);
    } else {
      FileSymbolsInFile(store[n].0, store[n].1);
    }
  }

  // ---------------------------------------------------------------------
  // The name table

  /** Adds one symbol under its name: appended to the name's list, or a new
      one-element list for a new name. */
  function WithSymbol(table: SymbolTable, symbol: Symbol): SymbolTable
  {
    match Get(table, symbol.name)
    case Some(list) => Set(table, symbol.name, list + [symbol])
    case None => Set(table, symbol.name, [symbol])
  }

  /** Adds the symbols one after the other. */
  function WithSymbols(table: SymbolTable, symbols: seq<Symbol>): SymbolTable
  {
    if symbols == [] then table
    else WithSymbol(WithSymbols(table, symbols[..|symbols| - 1]), symbols[|symbols| - 1])
  }

  /** The name table built from an empty table, file by file. */
  function BuildSymbolTable(store: Store): SymbolTable
  {
    if store == [] then []
    else WithSymbols(BuildSymbolTable(store[..|store| - 1]), FileSymbols(store[|store| - 1].0, store[|store| - 1].1))
  }

  /** An optional list extended by more elements; an absent list stays absent
      when there is nothing to add. */
  function Extend(list: Option<seq<Symbol>>, more: seq<Symbol>): Option<seq<Symbol>>
  {
    match list
    case Some(w) => Some(w + more)
    case None => if more == [] then None else Some(more)
  }

  lemma WithSymbolLookup(table: SymbolTable, symbol: Symbol, name: string)
    ensures Get(WithSymbol(table, symbol), name) == if symbol.name == name then Extend(Get(table, name), [symbol]) else Get(table, name)
  {
    match Get(table, symbol.name)
    case Some(list) => SetLookup(table, symbol.name, list + [symbol], name);
    case None => SetLookup(table, symbol.name, [symbol], name);
  }

  lemma {:induction false} WithSymbolsLookup(table: SymbolTable, symbols: seq<Symbol>, name: string)
    ensures Get(WithSymbols(table, symbols), name) == Extend(Get(table, name), Named(symbols, name))
  {
    if symbols != [] {
      var n := |symbols| - 1;
      var prefix, x := symbols[..n], symbols[n];
      assert symbols == prefix + [x];
      WithSymbolsLookup(table, prefix, name);
      NamedAppend(prefix, [x], name);
      var before := WithSymbols(table, prefix);
      assert WithSymbols(table, symbols) == WithSymbol(before, x);
      assert Named([x], name) == if x.name == name then [x] else [];
      WithSymbolLookup(before, x, name);
      if x.name == name {
        ExtendTwice(Get(table, name), Named(prefix, name), [x]);
      } else {
        assert Named(symbols, name) == Named(prefix, name) + [];
        assert Named(prefix, name) + [] == Named(prefix, name);
      }
    } else if Get(table, name).Some? {
      assert Get(table, name).value + [] == Get(table, name).value;
    }
  }

  lemma ExtendTwice(list: Option<seq<Symbol>>, a: seq<Symbol>, b: seq<Symbol>)
    ensures Extend(Extend(list, a), b) == Extend(list, a + b)
  {
    if list.Some? {
      assert list.value + a + b == list.value + (a + b);
    } else if a == [] {
      assert a + b == b;
    } else {
      assert a + b != [];
    }
  }

  /** After a rebuild, each name maps to exactly the store's symbols of that
      name, in store and category order, and a name no stored file declares
      has no entry (so no entry is an empty list). */
  lemma {:induction false} SymbolTableLookup(store: Store, name: string)
    ensures Get(BuildSymbolTable(store), name) ==
      if Named(AllSymbols(store), name) == [] then None else Some(Named(AllSymbols(store), name))
  {
    if store != [] {
      var n := |store| - 1;
      var prefix := store[..n];
      var symbols := FileSymbols(store[n].0, store[n].1);
      var before := BuildSymbolTable(prefix);
      assert BuildSymbolTable(store) == WithSymbols(before, symbols);
      assert AllSymbols(store) == AllSymbols(prefix) + symbols;
      SymbolTableLookup(prefix, name);
      WithSymbolsLookup(before, symbols, name);
      NamedAppend(AllSymbols(prefix), symbols, name);
      var a, b := Named(AllSymbols(prefix), name), Named(symbols, name);
      if a == [] {
        assert a + b == b;
      } else {
        assert |a + b| > 0;
      }
    }
  }

  lemma {:induction false} WithSymbolsKeepsKeysDistinct(table: SymbolTable, symbols: seq<Symbol>)
    requires DistinctKeys(table)
    ensures DistinctKeys(WithSymbols(table, symbols))
  {
    if symbols != [] {
      var n := |symbols| - 1;
      WithSymbolsKeepsKeysDistinct(table, symbols[..n]);
      var t := WithSymbols(table, symbols[..n]);
      match Get(t, symbols[n].name)
      case Some(list) => SetKeepsKeysDistinct(t, symbols[n].name, list + [symbols[n]]);
      case None => SetKeepsKeysDistinct(t, symbols[n].name, [symbols[n]]);
    }
  }

  /** The name table is a map: each name is a key once, and every entry holds
      the non-empty list of the store's symbols of that name. */
  lemma {:induction false} SymbolTableEntries(store: Store)
    ensures DistinctKeys(BuildSymbolTable(store))
    ensures forall i :: 0 <= i < |BuildSymbolTable(store)| ==>
      BuildSymbolTable(store)[i].1 == Named(AllSymbols(store), BuildSymbolTable(store)[i].0) &&
      BuildSymbolTable(store)[i].1 != []
  {
    var table := BuildSymbolTable(store);
    if store != [] {
      var n := |store| - 1;
      SymbolTableEntries(store[..n]);
      WithSymbolsKeepsKeysDistinct(BuildSymbolTable(store[..n]), FileSymbols(store[n].0, store[n].1));
    }
    forall i | 0 <= i < |table|
      ensures table[i].1 == Named(AllSymbols(store), table[i].0) && table[i].1 != []
    {
      GetAt(table, i);
      SymbolTableLookup(store, table[i].0);
    }
  }

  // ---------------------------------------------------------------------
  // All values of the table, as the symbol search iterates them

  /** The lists of a table, concatenated in key order. */
  function Flatten(table: SymbolTable): seq<Symbol>
  {
    if table == [] then [] else table[0].1 + Flatten(table[1..])
  }

  lemma {:induction false} SetFlattenNew(table: SymbolTable, name: string, list: seq<Symbol>)
    requires !Has(table, name)
    ensures Flatten(Set(table, name, list)) == Flatten(table) + list
  {
    if table == [] {
      assert Flatten(Set(table, name, list)) == list + Flatten([]);
      assert list + [] == list;
    } else {
      var rest := table[1..];
      assert Get(table, name) == Get(rest, name);
      SetFlattenNew(rest, name, list);
      var r := Set(table, name, list);
      assert r == [table[0]] + Set(rest, name, list);
      assert r[0] == table[0] && r[1..] == Set(rest, name, list);
      assert Flatten(r) == table[0].1 + (Flatten(rest) + list);
      assert table[0].1 + (Flatten(rest) + list) == (table[0].1 + Flatten(rest)) + list;
    }
  }

  lemma {:induction false} SetFlattenReplace(table: SymbolTable, name: string, list: seq<Symbol>, x: Symbol)
    requires Has(table, name)
    ensures multiset(Flatten(Set(table, name, list)))[x] + multiset(Get(table, name).value)[x]
            == multiset(Flatten(table))[x] + multiset(list)[x]
  {
    var head, rest := table[0], table[1..];
    var r := Set(table, name, list);
    var f := Flatten(rest);
    assert Flatten(table) == head.1 + f;
    if head.0 == name {
      assert r == [(name, list)] + rest;
      assert Flatten(r) == list + f;
    } else {
      SetFlattenReplace(rest, name, list, x);
      var r' := Set(rest, name, list);
      assert r == [head] + r';
      assert Flatten(r) == head.1 + Flatten(r');
    }
  }

  lemma {:induction false} WithSymbolsCount(table: SymbolTable, symbols: seq<Symbol>, x: Symbol)
    ensures multiset(Flatten(WithSymbols(table, symbols)))[x] == multiset(Flatten(table))[x] + multiset(symbols)[x]
  {
    if symbols != [] {
      var n := |symbols| - 1;
      var prefix, y := symbols[..n], symbols[n];
      assert symbols == prefix + [y];
      WithSymbolsCount(table, prefix, x);
      var t := WithSymbols(table, prefix);
      assert WithSymbols(table, symbols) == WithSymbol(t, y);
      match Get(t, y.name)
      case Some(list) =>
        assert WithSymbol(t, y) == Set(t, y.name, list + [y]);
        SetFlattenReplace(t, y.name, list + [y], x);
      case None =>
        assert WithSymbol(t, y) == Set(t, y.name, [y]);
        SetFlattenNew(t, y.name, [y]);
    }
  }

  lemma {:induction false} SymbolTableCount(store: Store, x: Symbol)
    ensures multiset(Flatten(BuildSymbolTable(store)))[x] == multiset(AllSymbols(store))[x]
  {
    if store != [] {
      var n := |store| - 1;
      var symbols := FileSymbols(store[n].0, store[n].1);
      SymbolTableCount(store[..n], x);
      WithSymbolsCount(BuildSymbolTable(store[..n]), symbols, x);
      assert AllSymbols(store) == AllSymbols(store[..n]) + symbols;
    }
  }

  /** The table's lists together hold each stored symbol exactly as often as
      the store declares it. */
  lemma SymbolTablePermutesSymbols(store: Store)
    ensures multiset(Flatten(BuildSymbolTable(store))) == multiset(AllSymbols(store))
  {
    forall x ensures multiset(Flatten(BuildSymbolTable(store)))[x] == multiset(AllSymbols(store))[x] {
      SymbolTableCount(store, x);
    }
  }

  // ---------------------------------------------------------------------
  // Symbol search

  /** A symbol passes the search when its name matches and its type passes
      the filter. */
  predicate Selected(s: Symbol, matches: string -> bool, types: Option<seq<SymbolType>>) {
    matches(s.name) && MatchingType(s, types)
  }

  /** The symbols of `s` that pass the search, in order. */
  function Select(s: seq<Symbol>, matches: string -> bool, types: Option<seq<SymbolType>>): seq<Symbol>
  {
    if s == [] then []
    else if Selected(s[0], matches, types) then [s[0]] + Select(s[1..], matches, types)
    else Select(s[1..], matches, types)
  }

  /** Selection keeps only passing elements of `s`. */
  lemma SelectSound(s: seq<Symbol>, matches: string -> bool, types: Option<seq<SymbolType>>)
    ensures forall x :: x in Select(s, matches, types) ==> x in s && Selected(x, matches, types)
  {
    forall x | x in Select(s, matches, types) ensures x in s && Selected(x, matches, types) {
      SelectCount(s, matches, types, x);
    }
  }

  /** Selection keeps every passing element as often as it occurs. */
  lemma {:induction false} SelectCount(s: seq<Symbol>, matches: string -> bool, types: Option<seq<SymbolType>>, x: Symbol)
    ensures multiset(Select(s, matches, types))[x] == if Selected(x, matches, types) then multiset(s)[x] else 0
  {
    if s != [] {
      assert s == [s[0]] + s[1..];
      SelectCount(s[1..], matches, types, x);
    }
  }

  /** Any arrangement of the selection holds exactly the passing elements
      of `s`. */
  lemma SelectionMembers(s: seq<Symbol>, found: seq<Symbol>, matches: string -> bool, types: Option<seq<SymbolType>>)
    requires multiset(found) == multiset(Select(s, matches, types))
    ensures forall x :: x in found <==> x in s && Selected(x, matches, types)
  {
    forall x ensures x in found <==> x in s && Selected(x, matches, types) {
      SelectCount(s, matches, types, x);
      assert x in found <==> multiset(found)[x] > 0;
      assert x in s <==> multiset(s)[x] > 0;
    }
  }

  lemma SelectPermutation(a: seq<Symbol>, b: seq<Symbol>, matches: string -> bool, types: Option<seq<SymbolType>>)
    requires multiset(a) == multiset(b)
    ensures multiset(Select(a, matches, types)) == multiset(Select(b, matches, types))
  {
    forall x ensures multiset(Select(a, matches, types))[x] == multiset(Select(b, matches, types))[x] {
      SelectCount(a, matches, types, x);
      SelectCount(b, matches, types, x);
    }
  }

  /** Searching the rebuilt table finds each stored symbol that passes, as
      often as the store declares it. */
  lemma SearchPermutesSymbols(store: Store, matches: string -> bool, types: Option<seq<SymbolType>>)
    ensures multiset(Select(Flatten(BuildSymbolTable(store)), matches, types)) == multiset(Select(AllSymbols(store), matches, types))
  {
    SymbolTablePermutesSymbols(store);
    SelectPermutation(Flatten(BuildSymbolTable(store)), AllSymbols(store), matches, types);
  }

  // ---------------------------------------------------------------------
  // Resolving a reference

  /** The symbols of `s` of type `t`, in order. */
  function OfType(s: seq<Symbol>, t: SymbolType): (r: seq<Symbol>)
    ensures forall x :: x in r ==> x in s && x.symbolType == t
  {
    if s == [] then []
    else if s[0].symbolType == t then [s[0]] + OfType(s[1..], t)
    else OfType(s[1..], t)
  }

  /** The declaration a reference to `id` of type `t` resolves to: the
      location of the first symbol named `id` of that type in the table. */
  function FindTargetLocation(table: SymbolTable, id: string, t: SymbolType): (r: Option<Editor.Location>)
    ensures r.Some? ==> Has(table, id) && exists s :: s in Get(table, id).value && s.symbolType == t && s.location == r.value
    ensures !Has(table, id) ==> r.None?
  {
    if !Has(table, id) then None
    else
      var symbols := Get(table, id).value;
      if |symbols| == 0 then None
      else
        var matching := OfType(symbols, t);
        if |matching| == 0 then None
        else
          assert matching[0] in matching;
          Some(matching[0].location)
  }

  /** Reference definition: the location of the first symbol in `s` with
      this name and type. */
  function FirstMatch(s: seq<Symbol>, id: string, t: SymbolType): (r: Option<Editor.Location>)
    ensures r.None? ==> forall i :: 0 <= i < |s| ==> !(s[i].name == id && s[i].symbolType == t)
    ensures r.Some? ==>
      exists i :: 0 <= i < |s| && s[i].name == id && s[i].symbolType == t && s[i].location == r.value &&
                  (forall j :: 0 <= j < i ==> !(s[j].name == id && s[j].symbolType == t))
  {
    if s == [] then None
    else if s[0].name == id && s[0].symbolType == t then Some(s[0].location)
    else
      var r := FirstMatch(s[1..], id, t);
      assert forall i :: 1 <= i < |s| ==> s[i] == s[1..][i - 1];
      r
  }

  lemma {:induction false} FirstOfNamedOfType(s: seq<Symbol>, id: string, t: SymbolType)
    ensures FirstMatch(s, id, t) == if OfType(Named(s, id), t) == [] then None else Some(OfType(Named(s, id), t)[0].location)
  {
    if s != [] {
      FirstOfNamedOfType(s[1..], id, t);
    }
  }

  /** Resolution against a rebuilt table finds the first symbol of the store,
      in file and category order, with the reference's name and type; it
      finds nothing when no stored symbol has both. */
  lemma FindTargetIsFirstMatch(store: Store, id: string, t: SymbolType)
    ensures FindTargetLocation(BuildSymbolTable(store), id, t) == FirstMatch(AllSymbols(store), id, t)
  {
    SymbolTableLookup(store, id);
    FirstOfNamedOfType(AllSymbols(store), id, t);
  }

  // ---------------------------------------------------------------------
  // The reference tables

  /** One reference per location of a group, all with the same target. */
  function ReferencesAt(uri: Editor.Uri, locations: seq<Parser.Location>, target: Option<Editor.Location>): (r: seq<Reference>)
    ensures |r| == |locations|
    ensures forall i :: 0 <= i < |r| ==> r[i] == Reference(Editor.Location(uri, Parser.ToRange(locations[i])), target)
  {
    if locations == [] then []
    else [Reference(Editor.Location(uri, Parser.ToRange(locations[0])), target)] + ReferencesAt(uri, locations[1..], target)
  }

  /** The editor locations of a group's uses, in the referencing file. */
  function LocationsAt(uri: Editor.Uri, locations: seq<Parser.Location>): (r: seq<Editor.Location>)
    ensures |r| == |locations|
    ensures forall i :: 0 <= i < |r| ==> r[i] == Parser.ToLocation(locations[i], Some(uri))
  {
    if locations == [] then [] else [Parser.ToLocation(locations[0], Some(uri))] + LocationsAt(uri, locations[1..])
  }

  /** The references a file's groups produce: nothing for a group whose key
      is not a symbol name, otherwise one per location of the group. */
  function FileReferences(table: SymbolTable, uriString: string, groups: seq<(string, Parser.Reference)>): seq<Reference>
  {
    if groups == [] then []
    else
      var n := |groups| - 1;
      var (targetId, group) := groups[n];
      FileReferences(table, uriString, groups[..n])
      + if Has(table, targetId)
        then ReferencesAt(Editor.Uri(uriString), group.locations,
                          FindTargetLocation(table, group.name, ToType(group.refType)))
        else []
  }

  /** Each reference a file's groups produce starts in that file, and a
      resolved one points at a declaration of a stored symbol. */
  lemma {:induction false} FileReferenceTargets(store: Store, uriString: string, groups: seq<(string, Parser.Reference)>, x: Reference)
    requires x in FileReferences(BuildSymbolTable(store), uriString, groups)
    ensures x.source.uri == Editor.Uri(uriString)
    ensures x.target.Some? ==> exists s :: s in AllSymbols(store) && s.location == x.target.value
  {
    var table := BuildSymbolTable(store);
    var n := |groups| - 1;
    var (targetId, group) := groups[n];
    if x in FileReferences(table, uriString, groups[..n]) {
      FileReferenceTargets(store, uriString, groups[..n], x);
    } else {
      var target := FindTargetLocation(table, group.name, ToType(group.refType));
      var produced := ReferencesAt(Editor.Uri(uriString), group.locations, target);
      assert x in produced;
      var i :| 0 <= i < |produced| && produced[i] == x;
      if target.Some? {
        SymbolTableLookup(store, group.name);
        var s: Symbol :| s in Get(table, group.name).value && s.symbolType == ToType(group.refType) && s.location == target.value;
        assert s in AllSymbols(store);
      }
    }
  }

  /** `locations` appended to the list stored under `id`, or stored as a new
      list. */
  function AppendLocations(byId: seq<(string, seq<Editor.Location>)>, id: string, locations: seq<Editor.Location>): seq<(string, seq<Editor.Location>)>
  {
    match Get(byId, id)
    case Some(list) => Set(byId, id, list + locations)
    case None => Set(byId, id, locations)
  }

  /** The reverse table after a file's groups are recorded. */
  function RecordLocations(table: SymbolTable, uriString: string, groups: seq<(string, Parser.Reference)>,
                           byId: seq<(string, seq<Editor.Location>)>): seq<(string, seq<Editor.Location>)>
  {
    if groups == [] then byId
    else
      var n := |groups| - 1;
      var (targetId, group) := groups[n];
      var before := RecordLocations(table, uriString, groups[..n], byId);
      if Has(table, targetId) then AppendLocations(before, targetId, LocationsAt(Editor.Uri(uriString), group.locations))
      else before
  }

  /** Both reference tables rebuilt from empty over the store, file by file:
      a file gets an entry only when it produced a reference. */
  function ResolveFiles(table: SymbolTable, store: Store): (seq<(string, seq<Reference>)>, seq<(string, seq<Editor.Location>)>)
  {
    if store == [] then ([], [])
    else
      var n := |store| - 1;
      var (uriString, result) := store[n];
      var (references, byId) := ResolveFiles(table, store[..n]);
      var all := FileReferences(table, uriString, result.references);
      (if |all| > 0 then Set(references, uriString, all) else references,
       RecordLocations(table, uriString, result.references, byId))
  }

  // Reference definitions of the reverse table, key by key

  /** The target identifiers a file's groups use. */
  function GroupIds(groups: seq<(string, Parser.Reference)>): set<string>
  {
    if groups == [] then {} else GroupIds(groups[..|groups| - 1]) + {groups[|groups| - 1].0}
  }

  /** The target identifiers used anywhere in the store. */
  function TargetIds(store: Store): set<string>
  {
    if store == [] then {} else TargetIds(store[..|store| - 1]) + GroupIds(store[|store| - 1].1.references)
  }

  /** The locations of a file's `id` groups, in group order. */
  function GroupLocationsTo(uriString: string, groups: seq<(string, Parser.Reference)>, id: string): seq<Editor.Location>
  {
    if groups == [] then []
    else
      var n := |groups| - 1;
      GroupLocationsTo(uriString, groups[..n], id)
      + if groups[n].0 == id then LocationsAt(Editor.Uri(uriString), groups[n].1.locations) else []
  }

  /** The locations of every `id` group of the store, in file order. */
  function LocationsTo(store: Store, id: string): seq<Editor.Location>
  {
    if store == [] then []
    else
      var n := |store| - 1;
      LocationsTo(store[..n], id) + GroupLocationsTo(store[n].0, store[n].1.references, id)
  }

  lemma {:induction false} GroupLocationsToUnused(uriString: string, groups: seq<(string, Parser.Reference)>, id: string)
    requires id !in GroupIds(groups)
    ensures GroupLocationsTo(uriString, groups, id) == []
  {
    if groups != [] {
      GroupLocationsToUnused(uriString, groups[..|groups| - 1], id);
    }
  }

  lemma {:induction false} LocationsToUnused(store: Store, id: string)
    requires id !in TargetIds(store)
    ensures LocationsTo(store, id) == []
  {
    if store != [] {
      var n := |store| - 1;
      LocationsToUnused(store[..n], id);
      GroupLocationsToUnused(store[n].0, store[n].1.references, id);
    }
  }

  lemma AppendLocationsLookup(byId: seq<(string, seq<Editor.Location>)>, key: string, locations: seq<Editor.Location>, id: string)
    ensures Get(AppendLocations(byId, key, locations), id) ==
      if key == id then Some(Get(byId, id).GetOr([]) + locations) else Get(byId, id)
  {
    match Get(byId, key)
    case Some(list) =>
      assert AppendLocations(byId, key, locations) == Set(byId, key, list + locations);
      SetLookup(byId, key, list + locations, id);
    case None =>
      assert AppendLocations(byId, key, locations) == Set(byId, key, locations);
      SetLookup(byId, key, locations, id);
      assert [] + locations == locations;
  }

  lemma {:induction false} RecordLocationsLookup(table: SymbolTable, uriString: string, groups: seq<(string, Parser.Reference)>,
                                                 byId: seq<(string, seq<Editor.Location>)>, id: string)
    ensures Get(RecordLocations(table, uriString, groups, byId), id) ==
      if Has(table, id) && id in GroupIds(groups)
      then Some(Get(byId, id).GetOr([]) + GroupLocationsTo(uriString, groups, id))
      else Get(byId, id)
  {
    if groups != [] {
      var n := |groups| - 1;
      var prefix := groups[..n];
      var (targetId, group) := groups[n];
      RecordLocationsLookup(table, uriString, prefix, byId, id);
      if id !in GroupIds(prefix) {
        GroupLocationsToUnused(uriString, prefix, id);
      }
      var before := RecordLocations(table, uriString, prefix, byId);
      var locations := LocationsAt(Editor.Uri(uriString), group.locations);
      assert GroupIds(groups) == GroupIds(prefix) + {targetId};
      assert GroupLocationsTo(uriString, groups, id) ==
        GroupLocationsTo(uriString, prefix, id) + if targetId == id then locations else [];
      var previous := GroupLocationsTo(uriString, prefix, id);
      if targetId != id {
        assert previous + [] == previous;
      } else if id in GroupIds(prefix) {
        assert Get(byId, id).GetOr([]) + previous + locations == Get(byId, id).GetOr([]) + (previous + locations);
      } else {
        assert previous + locations == locations;
      }
      if Has(table, targetId) {
        assert RecordLocations(table, uriString, groups, byId) == AppendLocations(before, targetId, locations);
        AppendLocationsLookup(before, targetId, locations, id);
      } else {
        assert RecordLocations(table, uriString, groups, byId) == before;
      }
    }
  }

  /** After a rebuild, the reverse table holds an entry for `id` exactly when
      `id` is a symbol name used as a group key somewhere in the store, and
      the entry lists the locations of all those groups, accumulated across
      files in store order. */
  lemma {:induction false} ReverseTableLookup(table: SymbolTable, store: Store, id: string)
    ensures Get(ResolveFiles(table, store).1, id) ==
      if Has(table, id) && id in TargetIds(store) then Some(LocationsTo(store, id)) else None
  {
    if store != [] {
      var n := |store| - 1;
      var prefix := store[..n];
      var (uriString, result) := store[n];
      ReverseTableLookup(table, prefix, id);
      var before := ResolveFiles(table, prefix).1;
      RecordLocationsLookup(table, uriString, result.references, before, id);
      if id !in TargetIds(prefix) {
        LocationsToUnused(prefix, id);
        assert [] + GroupLocationsTo(uriString, result.references, id) == GroupLocationsTo(uriString, result.references, id);
      }
      if id !in GroupIds(result.references) {
        GroupLocationsToUnused(uriString, result.references, id);
        assert LocationsTo(prefix, id) + [] == LocationsTo(prefix, id);
      }
      assert ResolveFiles(table, store).1 == RecordLocations(table, uriString, result.references, before);
      assert TargetIds(store) == TargetIds(prefix) + GroupIds(result.references);
      assert LocationsTo(store, id) == LocationsTo(prefix, id) + GroupLocationsTo(uriString, result.references, id);
    }
  }

  /** Looking `id` up in the reverse table of a rebuild finds every location
      of an `id` group in the store when some stored symbol is named `id`,
      and nothing otherwise. */
  lemma FindReferencesLookup(store: Store, id: string)
    ensures Get(ResolveFiles(BuildSymbolTable(store), store).1, id).GetOr([]) ==
      if exists s :: s in AllSymbols(store) && s.name == id then LocationsTo(store, id) else []
  {
    var table := BuildSymbolTable(store);
    ReverseTableLookup(table, store, id);
    SymbolTableLookup(store, id);
    NamedNonEmpty(AllSymbols(store), id);
    if id !in TargetIds(store) {
      LocationsToUnused(store, id);
    }
  }

  lemma {:induction false} GroupLocationsToIn(uriString: string, groups: seq<(string, Parser.Reference)>, id: string, l: Editor.Location)
    requires l in GroupLocationsTo(uriString, groups, id)
    ensures l.uri == Editor.Uri(uriString)
  {
    var n := |groups| - 1;
    if l in GroupLocationsTo(uriString, groups[..n], id) {
      GroupLocationsToIn(uriString, groups[..n], id, l);
    }
  }

  /** Every reverse-table location lies in a stored file. */
  lemma {:induction false} LocationsToInStoredFiles(store: Store, id: string, l: Editor.Location)
    requires l in LocationsTo(store, id)
    ensures Has(store, l.uri.text)
  {
    var n := |store| - 1;
    var prefix := store[..n];
    assert store == prefix + [store[n]];
    GetAppend(prefix, store[n].0, store[n].1, l.uri.text);
    if l in LocationsTo(prefix, id) {
      LocationsToInStoredFiles(prefix, id, l);
    } else {
      GroupLocationsToIn(store[n].0, store[n].1.references, id, l);
    }
  }

  lemma {:induction false} DistinctKeysPrefix<V>(m: seq<(string, V)>)
    requires DistinctKeys(m) && m != []
    ensures !Has(m[..|m| - 1], m[|m| - 1].0)
  {
    var n := |m| - 1;
    HasIffKey(m[..n], m[n].0);
  }

  /** After a rebuild, a file has a reference list exactly when its groups
      produced at least one reference, and the list is those references. */
  lemma {:induction false} FileReferenceTableLookup(table: SymbolTable, store: Store, uriString: string)
    requires DistinctKeys(store)
    ensures Get(ResolveFiles(table, store).0, uriString) ==
      match Get(store, uriString)
      case None => None
      case Some(result) =>
        var all := FileReferences(table, uriString, result.references);
        if |all| > 0 then Some(all) else None
  {
    if store != [] {
      var n := |store| - 1;
      var prefix := store[..n];
      assert store == prefix + [store[n]];
      DistinctKeysPrefix(store);
      FileReferenceTableLookup(table, prefix, uriString);
      GetAppend(prefix, store[n].0, store[n].1, uriString);
      SetLookup(ResolveFiles(table, prefix).0, store[n].0, FileReferences(table, store[n].0, store[n].1.references), uriString);
    }
  }

  /** Deletion completeness of a rebuild: a file absent from the store has no
      reference list and appears in no reverse-table entry. */
  lemma AbsentFileHasNoReferences(table: SymbolTable, store: Store, uriString: string)
    requires DistinctKeys(store) && !Has(store, uriString)
    ensures Get(ResolveFiles(table, store).0, uriString).None?
    ensures forall id, l :: l in Get(ResolveFiles(table, store).1, id).GetOr([]) ==> l.uri != Editor.Uri(uriString)
  {
    FileReferenceTableLookup(table, store, uriString);
    forall id, l | l in Get(ResolveFiles(table, store).1, id).GetOr([]) ensures l.uri != Editor.Uri(uriString) {
      ReverseTableLookup(table, store, id);
      LocationsToInStoredFiles(store, id, l);
    }
  }

  // ---------------------------------------------------------------------
  // Per-file document symbols

  /** Each stored file's symbol list written into `byUri`, file by file;
      entries of files not in the store are left as they are. */
  function StoreDocumentSymbols(byUri: seq<(string, seq<Symbol>)>, store: Store): seq<(string, seq<Symbol>)>
  {
    if store == [] then byUri
    else
      var n := |store| - 1;
      Set(StoreDocumentSymbols(byUri, store[..n]), store[n].0, FileSymbols(store[n].0, store[n].1))
  }

  /** A stored file's document symbols are its current symbols; any other
      file keeps the list it had, however old. */
  lemma {:induction false} DocumentSymbolsLookup(byUri: seq<(string, seq<Symbol>)>, store: Store, uriString: string)
    requires DistinctKeys(store)
    ensures Get(StoreDocumentSymbols(byUri, store), uriString) ==
      match Get(store, uriString)
      case Some(result) => Some(FileSymbols(uriString, result))
      case None => Get(byUri, uriString)
  {
    if store != [] {
      var n := |store| - 1;
      var prefix := store[..n];
      assert store == prefix + [store[n]];
      DistinctKeysPrefix(store);
      DocumentSymbolsLookup(byUri, prefix, uriString);
      GetAppend(prefix, store[n].0, store[n].1, uriString);
      SetLookup(StoreDocumentSymbols(byUri, prefix), store[n].0, FileSymbols(store[n].0, store[n].1), uriString);
    }
  }

  lemma {:induction false} StoreDocumentSymbolsKeepsKeysDistinct(byUri: seq<(string, seq<Symbol>)>, store: Store)
    requires DistinctKeys(byUri)
    ensures DistinctKeys(StoreDocumentSymbols(byUri, store))
  {
    if store != [] {
      var n := |store| - 1;
      StoreDocumentSymbolsKeepsKeysDistinct(byUri, store[..n]);
      SetKeepsKeysDistinct(StoreDocumentSymbols(byUri, store[..n]), store[n].0, FileSymbols(store[n].0, store[n].1));
    }
  }

  /** Setting a key to the value it already has changes nothing. */
  lemma {:induction false} SetUnchanged<V>(m: seq<(string, V)>, k: string, v: V)
    requires Get(m, k) == Some(v)
    ensures Set(m, k, v) == m
  {
    if m[0].0 != k {
      SetUnchanged(m[1..], k, v);
    }
  }

  lemma {:induction false} StoreDocumentSymbolsFixed(byUri: seq<(string, seq<Symbol>)>, store: Store)
    requires DistinctKeys(store)
    requires forall i :: 0 <= i < |store| ==> Get(byUri, store[i].0) == Some(FileSymbols(store[i].0, store[i].1))
    ensures StoreDocumentSymbols(byUri, store) == byUri
  {
    if store != [] {
      var n := |store| - 1;
      StoreDocumentSymbolsFixed(byUri, store[..n]);
      SetUnchanged(byUri, store[n].0, FileSymbols(store[n].0, store[n].1));
    }
  }

  /** Rebuilding twice without a store change gives the same per-file lists
      (the other tables are functions of the store alone). */
  lemma RebuildDocumentSymbolsIdempotent(byUri: seq<(string, seq<Symbol>)>, store: Store)
    requires DistinctKeys(store)
    ensures StoreDocumentSymbols(StoreDocumentSymbols(byUri, store), store) == StoreDocumentSymbols(byUri, store)
  {
    var once := StoreDocumentSymbols(byUri, store);
    forall i | 0 <= i < |store| ensures Get(once, store[i].0) == Some(FileSymbols(store[i].0, store[i].1)) {
      DocumentSymbolsLookup(byUri, store, store[i].0);
      GetAt(store, i);
    }
    StoreDocumentSymbolsFixed(once, store);
  }

  /** One more file of the store processed by the symbol rebuild. */
  lemma RebuildSymbolsStep(store: Store, i: nat, byUri: seq<(string, seq<Symbol>)>)
    requires i < |store|
    ensures BuildSymbolTable(store[..i + 1]) == WithSymbols(BuildSymbolTable(store[..i]), FileSymbols(store[i].0, store[i].1))
    ensures StoreDocumentSymbols(byUri, store[..i + 1])
            == Set(StoreDocumentSymbols(byUri, store[..i]), store[i].0, FileSymbols(store[i].0, store[i].1))
  {
    assert store[..i + 1][..i] == store[..i];
  }

  /** One more file of the store processed by the reference rebuild. */
  lemma RebuildReferencesStep(table: SymbolTable, store: Store, i: nat)
    requires i < |store|
    ensures var all := FileReferences(table, store[i].0, store[i].1.references);
      ResolveFiles(table, store[..i + 1]) ==
        (if |all| > 0 then Set(ResolveFiles(table, store[..i]).0, store[i].0, all) else ResolveFiles(table, store[..i]).0,
         RecordLocations(table, store[i].0, store[i].1.references, ResolveFiles(table, store[..i]).1))
  {
    assert store[..i + 1][..i] == store[..i];
  }

  // ---------------------------------------------------------------------
  // Definition lookup

  /** `Array.prototype.find` over references by source range: the index of
      the first reference whose source contains `p`. */
  function FirstContaining(references: seq<Reference>, p: Editor.Position): (r: Option<nat>)
    ensures r.Some? ==> (r.value < |references| && references[r.value].source.range.Contains(p) &&
      (forall j :: 0 <= j < r.value ==> !references[j].source.range.Contains(p)))
    ensures r.None? ==> forall j :: 0 <= j < |references| ==> !references[j].source.range.Contains(p)
  {
    if references == [] then None
    else if references[0].source.range.Contains(p) then Some(0)
    else
      match FirstContaining(references[1..], p)
      case None => None
      case Some(k) => Some(k + 1)
  }
}
