/** The in-memory index of the workspace's Terraform files: the indexer's
    result per file, and the symbol and reference tables rebuilt from it. */
module SymbolIndex {
  import opened Wrappers
  import opened JsMap
  import Editor
  import Parser
  import opened Symbols
  import opened IndexTables

  class Index {
    /** File URI string to the indexer's latest result for it. */
    var byUri: Store
    /** File URI string to that file's symbols; never cleared. */
    var symbolsByUri: seq<(string, seq<Symbol>)>
    /** Symbol name to every symbol of that name. */
    var symbols: SymbolTable
    /** File URI string to the resolved references that file makes. */
    var references: seq<(string, seq<Reference>)>
    /** Target identifier to every location that refers to it. */
    var referencesById: seq<(string, seq<Editor.Location>)>

    /** The store as it was when the reference tables were last rebuilt. */
    ghost var referenceStore: Store
    /** Every file URI string that has ever been stored. */
    ghost var indexed: set<string>

    /** The store is a map; the name table is the one built from the store;
        every stored file's document symbols are its current symbols, and
        only files ever stored have document symbols; the reference tables
        are the ones built from the store of their last rebuild. */
    ghost predicate Valid()
      reads this
    {
      Consistent(byUri, symbolsByUri, symbols, references, referencesById, referenceStore, indexed)
    }

    /** `Valid`, stated on the values of the fields. */
    static ghost predicate Consistent(byUri: Store, symbolsByUri: seq<(string, seq<Symbol>)>, symbols: SymbolTable,
                                      references: seq<(string, seq<Reference>)>,
                                      referencesById: seq<(string, seq<Editor.Location>)>,
                                      referenceStore: Store, indexed: set<string>)
    {
      && DistinctKeys(byUri)
      && symbols == BuildSymbolTable(byUri)
      && (forall u :: Has(byUri, u) ==> u in indexed && Get(symbolsByUri, u) == Some(FileSymbols(u, Get(byUri, u).value)))
      && (forall u :: Has(symbolsByUri, u) ==> u in indexed)
      && DistinctKeys(referenceStore)
      && references == ResolveFiles(BuildSymbolTable(referenceStore), referenceStore).0
      && referencesById == ResolveFiles(BuildSymbolTable(referenceStore), referenceStore).1
    }

    constructor ()
      ensures Valid()
      ensures byUri == [] && symbolsByUri == [] && symbols == [] && references == [] && referencesById == []
      ensures indexed == {}
    {
      byUri := [];
      symbolsByUri := [];
      symbols := [];
      references := [];
      referencesById := [];
      referenceStore := [];
      indexed := {};
    }

    /** Records a file's new result and rebuilds the symbol tables; the
        reference tables are left as they were. */
    method Update(uri: Editor.Uri, result: Parser.IndexResult)
      requires Valid()
      modifies this
      ensures Valid()
      ensures byUri == Set(old(byUri), uri.text, result)
      ensures symbols == BuildSymbolTable(byUri)
      ensures symbolsByUri == StoreDocumentSymbols(old(symbolsByUri), byUri)
      ensures unchanged(this`references, this`referencesById, this`referenceStore)
      ensures indexed == old(indexed) + {uri.text}
    {
      byUri := Set(byUri, uri.text, result);
      indexed := indexed + {uri.text};
      RebuildSymbols();
      UpdateKeepsConsistent(old(byUri), old(symbolsByUri), references, referencesById, referenceStore, old(indexed),
                            uri.text, result, byUri, symbolsByUri, symbols, indexed);
    }

    /** Removes a file from the store and rebuilds every table. The file's
        document symbols are kept. */
    method DeleteUri(uri: Editor.Uri)
      requires Valid()
      modifies this
      ensures Valid()
      ensures byUri == Delete(old(byUri), uri.text)
      ensures symbols == BuildSymbolTable(byUri)
      ensures symbolsByUri == StoreDocumentSymbols(old(symbolsByUri), byUri)
      ensures Get(symbolsByUri, uri.text) == old(Get(symbolsByUri, uri.text))
      ensures referenceStore == byUri
      ensures Get(references, uri.text).None?
      ensures forall id, l :: l in Get(referencesById, id).GetOr([]) ==> l.uri != uri
      ensures indexed == old(indexed)
    {
      byUri := Delete(byUri, uri.text);
      DeleteKeepsKeysDistinct(old(byUri), uri.text);
      RebuildSymbols();
      SymbolsByUriFollowsStore(byUri, old(symbolsByUri), indexed);
      DocumentSymbolsLookup(old(symbolsByUri), byUri, uri.text);
      RebuildReferences();
      AbsentFileHasNoReferences(symbols, byUri, uri.text);
    }

    /** Storing a file's result, rebuilding the symbol tables and recording
        the file as stored keeps the index consistent. */
    static lemma UpdateKeepsConsistent(store: Store, docs: seq<(string, seq<Symbol>)>,
                                       references: seq<(string, seq<Reference>)>,
                                       referencesById: seq<(string, seq<Editor.Location>)>,
                                       referenceStore: Store, indexed: set<string>,
                                       key: string, result: Parser.IndexResult,
                                       stored: Store, storedDocs: seq<(string, seq<Symbol>)>, storedSymbols: SymbolTable,
                                       storedIndexed: set<string>)
      requires Consistent(store, docs, BuildSymbolTable(store), references, referencesById, referenceStore, indexed)
      requires stored == Set(store, key, result) && storedIndexed == indexed + {key}
      requires storedDocs == StoreDocumentSymbols(docs, stored) && storedSymbols == BuildSymbolTable(stored)
      ensures Consistent(stored, storedDocs, storedSymbols, references, referencesById, referenceStore, storedIndexed)
    {
      SetKeepsKeysDistinct(store, key, result);
      forall u | Has(stored, u) ensures u in indexed + {key} {
        if u != key {
          SetLookup(store, key, result, u);
        }
      }
      SymbolsByUriFollowsStore(stored, docs, indexed + {key});
    }

    /** The document-symbol part of `Valid` after a symbol rebuild. */
    static lemma SymbolsByUriFollowsStore(store: Store, before: seq<(string, seq<Symbol>)>, indexed: set<string>)
      requires DistinctKeys(store)
      requires forall u :: Has(store, u) ==> u in indexed
      requires forall u :: Has(before, u) ==> u in indexed
      ensures var after := StoreDocumentSymbols(before, store);
        && (forall u :: Has(store, u) ==> Get(after, u) == Some(FileSymbols(u, Get(store, u).value)))
        && (forall u :: Has(after, u) ==> u in indexed)
    {
      forall u ensures Get(StoreDocumentSymbols(before, store), u) ==
                       if Has(store, u) then Some(FileSymbols(u, Get(store, u).value)) else Get(before, u) {
        DocumentSymbolsLookup(before, store, u);
      }
    }

    /** Clears the name table and refills it file by file, writing each
        stored file's symbols into the per-file table. */
    method RebuildSymbols()
      modifies this
      ensures symbols == BuildSymbolTable(byUri)
      ensures symbolsByUri == StoreDocumentSymbols(old(symbolsByUri), byUri)
      ensures unchanged(this`byUri, this`references, this`referencesById, this`referenceStore, this`indexed)
    {
      symbols := [];
      var i := 0;
      while i < |byUri|
        invariant 0 <= i <= |byUri|
        invariant symbols == BuildSymbolTable(byUri[..i])
        invariant symbolsByUri == StoreDocumentSymbols(old(symbolsByUri), byUri[..i])
        invariant unchanged(this`byUri, this`references, this`referencesById, this`referenceStore, this`indexed)
      {
        RebuildSymbolsStep(byUri, i, old(symbolsByUri));
        IndexFileSymbols(i);
        i := i + 1;
      }
      assert byUri[..i] == byUri;
    }

    /** One step of the symbol rebuild: the stored file at `i` adds its
        symbols to the name table and records them as its document symbols. */
    method IndexFileSymbols(i: nat)
      requires i < |byUri|
      modifies this
      ensures unchanged(this`byUri, this`references, this`referencesById, this`referenceStore, this`indexed)
      ensures symbols == WithSymbols(old(symbols), FileSymbols(byUri[i].0, byUri[i].1))
      ensures symbolsByUri == Set(old(symbolsByUri), byUri[i].0, FileSymbols(byUri[i].0, byUri[i].1))
    {
      var (uriString, result) := byUri[i];
      var fileSymbols := FileSymbols(uriString, result);
      AddSymbols(fileSymbols);
      symbolsByUri := Set(symbolsByUri, uriString, fileSymbols);
    }

    /** Adds each symbol to the name table under its name. */
    method AddSymbols(fileSymbols: seq<Symbol>)
      modifies this
      ensures symbols == WithSymbols(old(symbols), fileSymbols)
      ensures unchanged(this`byUri, this`symbolsByUri, this`references, this`referencesById, this`referenceStore, this`indexed)
    {
      var j := 0;
      while j < |fileSymbols|
        invariant 0 <= j <= |fileSymbols|
        invariant symbols == WithSymbols(old(symbols), fileSymbols[..j])
        invariant unchanged(this`byUri, this`symbolsByUri, this`references, this`referencesById, this`referenceStore, this`indexed)
      {
        var symbol := fileSymbols[j];
        if Has(symbols, symbol.name) {
          symbols := Set(symbols, symbol.name, Get(symbols, symbol.name).value + [symbol]);
        } else {
          symbols := Set(symbols, symbol.name, [symbol]);
        }
        assert fileSymbols[..j + 1][..j] == fileSymbols[..j];
        j := j + 1;
      }
      assert fileSymbols[..j] == fileSymbols;
    }

    /** Clears both reference tables and resolves every stored file's
        reference groups against the current name table. */
    method RebuildReferences()
      modifies this
      ensures references == ResolveFiles(symbols, byUri).0
      ensures referencesById == ResolveFiles(symbols, byUri).1
      ensures referenceStore == byUri
      ensures unchanged(this`byUri, this`symbols, this`symbolsByUri, this`indexed)
    {
      references := [];
      referencesById := [];
      var i := 0;
      while i < |byUri|
        invariant 0 <= i <= |byUri|
        invariant references == ResolveFiles(symbols, byUri[..i]).0
        invariant referencesById == ResolveFiles(symbols, byUri[..i]).1
        invariant unchanged(this`byUri, this`symbols, this`symbolsByUri, this`indexed)
      {
        RebuildReferencesStep(symbols, byUri, i);
        var allReferences := ResolveFileReferences(i);
        if |allReferences| > 0 {
          references := Set(references, byUri[i].0, allReferences);
        }
        i := i + 1;
      }
      assert byUri[..i] == byUri;
      referenceStore := byUri;
    }

    /** One file of the reference rebuild: resolves the reference groups of
        the stored file at `i`, records the locations of each resolved group
        under its key and returns the file's references. */
    method ResolveFileReferences(i: nat) returns (allReferences: seq<Reference>)
      requires i < |byUri|
      modifies this
      ensures unchanged(this`byUri, this`symbols, this`symbolsByUri, this`indexed, this`references, this`referenceStore)
      ensures allReferences == FileReferences(symbols, byUri[i].0, byUri[i].1.references)
      ensures referencesById == RecordLocations(symbols, byUri[i].0, byUri[i].1.references, old(referencesById))
    {
      var (uriString, result) := byUri[i];
      var uri := Editor.Uri(uriString);
      var groups := result.references;
      allReferences := [];
      var j := 0;
      while j < |groups|
        invariant 0 <= j <= |groups|
        invariant allReferences == FileReferences(symbols, uriString, groups[..j])
        invariant referencesById == RecordLocations(symbols, uriString, groups[..j], old(referencesById))
        invariant unchanged(this`byUri, this`symbols, this`symbolsByUri, this`indexed, this`references, this`referenceStore)
      {
        var (targetId, group) := groups[j];
        assert groups[..j + 1][..j] == groups[..j];
        if ValidTarget(targetId) {
          // An unresolved group keeps an absent target: the failure value
          // is never the one the "cannot find" branch tests for.
          var target := FindTargetLocation(symbols, group.name, ToType(group.refType));
          allReferences := allReferences + ReferencesAt(uri, group.locations, target);
          var locations := LocationsAt(uri, group.locations);
          if !Has(referencesById, targetId) {
            referencesById := Set(referencesById, targetId, locations);
          } else {
            referencesById := Set(referencesById, targetId, Get(referencesById, targetId).value + locations);
          }
        }
        j := j + 1;
      }
      assert groups[..j] == groups;
    }

    /** A group key is resolved only when it names a declared symbol. */
    function ValidTarget(id: string): bool
      reads this
    {
      Has(symbols, id)
    }

    /** With the name table built from the store, a key is a valid target
        exactly when some stored symbol carries that name. */
    lemma ValidTargetIsDeclared(id: string)
      requires symbols == BuildSymbolTable(byUri)
      ensures ValidTarget(id) <==> exists s :: s in AllSymbols(byUri) && s.name == id
    {
      SymbolTableLookup(byUri, id);
      NamedNonEmpty(AllSymbols(byUri), id);
    }

    /** The target of the first reference in `uri` whose source contains
        `pos`; absent when the file has no references, none contains `pos`,
        or that reference was left unresolved. */
    function FindDefinition(uri: Editor.Uri, pos: Editor.Position): (r: Option<Editor.Location>)
      reads this
      ensures Get(references, uri.text).None? ==> r.None?
      ensures Get(references, uri.text).Some? ==>
        var refs := Get(references, uri.text).value;
        (r.Some? ==> exists k :: 0 <= k < |refs| && refs[k].source.range.Contains(pos) && refs[k].target == r &&
                                 (forall j :: 0 <= j < k ==> !refs[j].source.range.Contains(pos))) &&
        ((forall k :: 0 <= k < |refs| ==> !refs[k].source.range.Contains(pos)) ==> r.None?) &&
        (forall k :: 0 <= k < |refs| && refs[k].source.range.Contains(pos)
                     && (forall j :: 0 <= j < k ==> !refs[j].source.range.Contains(pos))
                     ==> r == refs[k].target)
    {
      match Get(references, uri.text)
      case None => None
      case Some(refs) =>
        match FirstContaining(refs, pos)
        case None => None
        case Some(k) =>
          assert Get(references, uri.text).value == refs;
          assert 0 <= k < |refs| && refs[k].source.range.Contains(pos);
          refs[k].target
    }

    /** A definition is only found in a file stored at the last reference
        rebuild, and it is the declaration of a symbol of that store. */
    lemma DefinitionIsDeclared(uri: Editor.Uri, pos: Editor.Position)
      requires Valid()
      ensures FindDefinition(uri, pos).Some? ==>
        Has(referenceStore, uri.text) &&
        exists s :: s in AllSymbols(referenceStore) && s.location == FindDefinition(uri, pos).value
    {
      var r := FindDefinition(uri, pos);
      FileReferenceTableLookup(BuildSymbolTable(referenceStore), referenceStore, uri.text);
      if r.Some? {
        var refs := Get(references, uri.text).value;
        var k :| 0 <= k < |refs| && refs[k].source.range.Contains(pos) && refs[k].target == r;
        FileReferenceTargets(referenceStore, uri.text, Get(referenceStore, uri.text).value.references, refs[k]);
      }
    }

    /** Every location that refers to `id`: those of the `id` groups of all
        files at the last reference rebuild, provided some symbol of that
        store is named `id`; otherwise nothing. */
    function FindReferences(id: string): (r: seq<Editor.Location>)
      reads this
      ensures Get(referencesById, id).None? ==> r == []
    {
      match Get(referencesById, id)
      case None => []
      case Some(locations) => locations
    }

    /** With a consistent index, the references found for `id` are the
        locations of its groups in the store of the last reference rebuild
        when a symbol of that store is named `id`, and none otherwise. */
    lemma FindReferencesIsLocationsTo(id: string)
      requires Valid()
      ensures FindReferences(id) ==
        if (exists s :: s in AllSymbols(referenceStore) && s.name == id) then LocationsTo(referenceStore, id) else []
    {
      FindReferencesLookup(referenceStore, id);
    }

    /** A file's symbols: its current ones while it is stored, the last ones
        it had once it is deleted, and none for a file never stored. */
    function GetDocumentSymbols(uri: Editor.Uri): (r: seq<Symbol>)
      reads this
      ensures Get(symbolsByUri, uri.text).None? ==> r == []
    {
      match Get(symbolsByUri, uri.text)
      case None => []
      case Some(list) => list
    }

    /** With a consistent index, a stored file's document symbols are its
        current symbols, and a file never stored has none. */
    lemma DocumentSymbolsAreCurrent(uri: Editor.Uri)
      requires Valid()
      ensures Has(byUri, uri.text) ==> GetDocumentSymbols(uri) == FileSymbols(uri.text, Get(byUri, uri.text).value)
      ensures uri.text !in indexed ==> GetDocumentSymbols(uri) == []
    {
    }

    /** The symbols whose name matches and whose type passes the filter, in
        name-table order: each stored symbol that passes, as often as the
        store declares it. */
    function GetSymbols(matches: string -> bool, types: Option<seq<SymbolType>>): seq<Symbol>
      reads this
    {
      Select(Flatten(symbols), matches, types)
    }

    /** The search finds only symbols whose name matches and whose type
        passes the filter. */
    lemma GetSymbolsSelects(matches: string -> bool, types: Option<seq<SymbolType>>)
      ensures forall s :: s in GetSymbols(matches, types) ==> matches(s.name) && MatchingType(s, types)
    {
      SelectSound(Flatten(symbols), matches, types);
    }

    /** With a consistent index, the search finds each stored symbol that
        passes the filters, as often as the store declares it. */
    lemma GetSymbolsPermutesSelection(matches: string -> bool, types: Option<seq<SymbolType>>)
      requires Valid()
      ensures multiset(GetSymbols(matches, types)) == multiset(Select(AllSymbols(byUri), matches, types))
    {
      SearchPermutesSymbols(byUri, matches, types);
    }
  }
}
