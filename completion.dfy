/** Completion of variable and output names after `var.` and inside `${`. */
module Completion {
  import opened Wrappers
  import opened JsString
  import Editor
  import opened Symbols
  import opened SymbolIndex
  import IndexTables

  /** A completion item: its label, the kind of the symbol it names, and an
      optional edit applied when it is chosen. */
  datatype CompletionItem = CompletionItem(labelText: string, kind: Editor.SymbolKind, textEdit: Option<Editor.TextEdit>)

  /** Completion searches without a name pattern, which matches every name. */
  predicate MatchAll(name: string) {
    true
  }

  /** The text of the cursor's line from column 0 up to the cursor; a cursor
      past the end of the line is clamped to it. */
  function LinePrefix(lineText: string, character: nat): (r: string)
    ensures |r| == if character < |lineText| then character else |lineText|
    ensures r <= lineText
  {
    if character < |lineText| then lineText[..character] else lineText
  }

  /** One item per variable symbol, labelled with its name; with
      `includePrefix` choosing the item inserts `var.<name>` at the cursor. */
  function VariableItems(symbols: seq<Symbol>, position: Editor.Position, includePrefix: bool): (r: seq<CompletionItem>)
    ensures |r| == |symbols|
    ensures forall i :: 0 <= i < |r| ==> r[i].labelText == symbols[i].name && r[i].kind == symbols[i].kind
    ensures forall i :: 0 <= i < |r| ==>
      r[i].textEdit == if includePrefix then Some(Editor.TextEdit(Editor.Range(position, position), "var." + symbols[i].name)) else None
  {
    if symbols == [] then []
    else
      var s := symbols[0];
      var edit := if includePrefix then Some(Editor.TextEdit(Editor.Range(position, position), "var." + s.name)) else None;
      [CompletionItem(s.name, s.kind, edit)] + VariableItems(symbols[1..], position, includePrefix)
  }

  /** One item per output symbol, labelled with its name, without an edit. */
  function OutputItems(symbols: seq<Symbol>): (r: seq<CompletionItem>)
    ensures |r| == |symbols|
    ensures forall i :: 0 <= i < |r| ==> r[i] == CompletionItem(symbols[i].name, symbols[i].kind, None)
  {
    if symbols == [] then [] else [CompletionItem(symbols[0].name, symbols[0].kind, None)] + OutputItems(symbols[1..])
  }

  /** The variable symbols of the index, in search order. */
  function Variables(index: Index): seq<Symbol>
    reads index
  {
    index.GetSymbols(MatchAll, Some([Variable]))
  }

  /** The output symbols of the index, in search order. */
  function Outputs(index: Index): seq<Symbol>
    reads index
  {
    index.GetSymbols(MatchAll, Some([Output]))
  }

  /** `getVariables`: the variable items. */
  function GetVariables(index: Index, position: Editor.Position, includePrefix: bool): (r: seq<CompletionItem>)
    reads index
    ensures |r| == |Variables(index)|
    ensures forall i :: 0 <= i < |r| ==> r[i].labelText == Variables(index)[i].name
  {
    VariableItems(Variables(index), position, includePrefix)
  }

  /** `getOutputs`: the output items. */
  function GetOutputs(index: Index): (r: seq<CompletionItem>)
    reads index
    ensures |r| == |Outputs(index)|
    ensures forall i :: 0 <= i < |r| ==> r[i].labelText == Outputs(index)[i].name && r[i].textEdit.None?
  {
    OutputItems(Outputs(index))
  }

  /** The completion items for the text `before` the cursor at `position`,
      given the variable and output symbols: after `var.` the variables
      without edits; after `${` the variables, each inserting `var.<name>`,
      followed by the outputs; nothing otherwise. */
  function CompletionItems(before: string, position: Editor.Position, variables: seq<Symbol>, outputs: seq<Symbol>): (r: seq<CompletionItem>)
    ensures EndsWith(before, "var.") ==>
      |r| == |variables| &&
      forall i :: 0 <= i < |r| ==> r[i].labelText == variables[i].name && r[i].textEdit.None?
    ensures !EndsWith(before, "var.") && EndsWith(before, "${") ==>
      |r| == |variables| + |outputs| &&
      (forall i :: 0 <= i < |variables| ==>
         r[i].labelText == variables[i].name &&
         r[i].textEdit == Some(Editor.TextEdit(Editor.Range(position, position), "var." + variables[i].name))) &&
      (forall i :: 0 <= i < |outputs| ==> r[|variables| + i].labelText == outputs[i].name && r[|variables| + i].textEdit.None?)
    ensures !EndsWith(before, "var.") && !EndsWith(before, "${") ==> r == []
  {
    if EndsWith(before, "var.") then VariableItems(variables, position, false)
    else if EndsWith(before, "${") then VariableItems(variables, position, true) + OutputItems(outputs)
    else []
  }

  /** `provideCompletionItems` at `position`, whose line reads `lineText`:
      the items for the text before the cursor, searching the index for
      variables and outputs only where they are offered. */
  function ProvideCompletionItems(index: Index, lineText: string, position: Editor.Position): (r: seq<CompletionItem>)
    reads index
    ensures r == CompletionItems(LinePrefix(lineText, position.character), position, Variables(index), Outputs(index))
  {
    var before := LinePrefix(lineText, position.character);
    if EndsWith(before, "var.") then GetVariables(index, position, false)
    else if EndsWith(before, "${") then GetVariables(index, position, true) + GetOutputs(index)
    else []
  }

  /** With a consistent index, the variables searched for completion are
      exactly the variables declared in the stored files. */
  lemma VariablesAreDeclared(index: Index)
    requires index.Valid()
    ensures forall s :: s in Variables(index) <==> s in IndexTables.AllSymbols(index.byUri) && s.symbolType == Variable
  {
    index.GetSymbolsPermutesSelection(MatchAll, Some([Variable]));
    IndexTables.SelectionMembers(IndexTables.AllSymbols(index.byUri), Variables(index), MatchAll, Some([Variable]));
  }

  /** With a consistent index, the outputs searched for completion are
      exactly the outputs declared in the stored files. */
  lemma OutputsAreDeclared(index: Index)
    requires index.Valid()
    ensures forall s :: s in Outputs(index) <==> s in IndexTables.AllSymbols(index.byUri) && s.symbolType == Output
  {
    index.GetSymbolsPermutesSelection(MatchAll, Some([Output]));
    IndexTables.SelectionMembers(IndexTables.AllSymbols(index.byUri), Outputs(index), MatchAll, Some([Output]));
  }


  /** After `var.` the labels offered are exactly the variables' names. */
  lemma VarItemsNameVariables(before: string, position: Editor.Position, variables: seq<Symbol>, outputs: seq<Symbol>)
    requires EndsWith(before, "var.")
    ensures forall item :: item in CompletionItems(before, position, variables, outputs) ==>
      exists s :: s in variables && s.name == item.labelText
    ensures forall s :: s in variables ==>
      exists item :: item in CompletionItems(before, position, variables, outputs) && item.labelText == s.name
  {
    var items := CompletionItems(before, position, variables, outputs);
    forall item | item in items ensures exists s :: s in variables && s.name == item.labelText {
      var i :| 0 <= i < |items| && items[i] == item;
      assert variables[i] in variables;
    }
    forall s | s in variables ensures exists item :: item in items && item.labelText == s.name {
      var i :| 0 <= i < |variables| && variables[i] == s;
      assert items[i] in items;
    }
  }

  /** Every label offered after `var.` is the name of a variable declared in
      a stored file, and every such variable is offered. */
  lemma VarCompletionOffersDeclaredVariables(index: Index, lineText: string, position: Editor.Position)
    requires index.Valid()
    requires EndsWith(LinePrefix(lineText, position.character), "var.")
    ensures forall item :: item in ProvideCompletionItems(index, lineText, position) ==>
      exists s :: s in IndexTables.AllSymbols(index.byUri) && s.symbolType == Variable && s.name == item.labelText
    ensures forall s :: s in IndexTables.AllSymbols(index.byUri) && s.symbolType == Variable ==>
      exists item :: item in ProvideCompletionItems(index, lineText, position) && item.labelText == s.name
  {
    var items := ProvideCompletionItems(index, lineText, position);
    var variables := Variables(index);
    VariablesAreDeclared(index);
    VarItemsNameVariables(LinePrefix(lineText, position.character), position, variables, Outputs(index));
    forall item | item in items
      ensures exists s :: s in IndexTables.AllSymbols(index.byUri) && s.symbolType == Variable && s.name == item.labelText
    {
      var s :| s in variables && s.name == item.labelText;
    }
  }
}
