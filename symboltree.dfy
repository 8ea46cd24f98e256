/** The sidebar list of the current file's top-level symbols. The provider
    keeps every loaded name and the list it shows, and fires a change event
    whenever the view should ask for the list again. Loading is
    asynchronous: a load asks the symbol provider and the answer arrives
    later, through `OnLoaded`. */
module SymbolTree {
  import opened Symbols

  /** The provider's fields, the number of change events fired, and the
      number of loads asked for and not yet answered. */
  datatype TreeState = TreeState(allSymbols: seq<string>, filtered: seq<string>, changeEvents: nat, pendingLoads: nat)

  /** The labels of the top-level symbols; nested symbols are not listed. */
  function TopLevelNames(symbols: seq<DocumentSymbol>): (names: seq<string>)
    ensures |names| == |symbols| && forall k :: 0 <= k < |symbols| ==> names[k] == symbols[k].name
  {
    seq(|symbols|, k requires 0 <= k < |symbols| => symbols[k].name)
  }

  /** Starting a load: with no editor the loaded names are dropped at once;
      otherwise a request is made and nothing else changes yet. */
  function Load(s: TreeState, hasEditor: bool): TreeState
  {
    if !hasEditor then s.(allSymbols := []) else s.(pendingLoads := s.pendingLoads + 1)
  }

  function Initial(hasEditor: bool): TreeState
  {
    var s := Load(TreeState([], [], 0, 0), hasEditor);
    s.(filtered := s.allSymbols)
  }

  function Refreshed(s: TreeState, hasEditor: bool): TreeState
  {
    var t := Load(s, hasEditor);
    t.(changeEvents := t.changeEvents + 1)
  }

  /** The filter keeps every name whatever the query. */
  function Filtered(s: TreeState, query: string): TreeState
  {
    s.(filtered := s.allSymbols, changeEvents := s.changeEvents + 1)
  }

  /** A load is answered; an absent answer counts as no symbols. */
  function Loaded(s: TreeState, symbols: Option<seq<DocumentSymbol>>): TreeState
    requires s.pendingLoads > 0
  {
    var names := if symbols.Some? then TopLevelNames(symbols.value) else [];
    s.(allSymbols := names, filtered := names, changeEvents := s.changeEvents + 1, pendingLoads := s.pendingLoads - 1)
  }

  // ---------------------------------------------------------------------
  // Properties

  /** A new provider shows nothing until its first load is answered, and has
      asked for one exactly when an editor is open. */
  lemma InitialIsEmpty(hasEditor: bool)
    ensures Initial(hasEditor).filtered == [] && Initial(hasEditor).allSymbols == []
    ensures Initial(hasEditor).pendingLoads == (if hasEditor then 1 else 0)
    ensures Initial(hasEditor).changeEvents == 0
  {
  }

  /** Filtering shows every loaded name, in order, whatever the query: two
      queries give the same state, and filtering twice is filtering once
      but for the extra change event. */
  lemma FilterIgnoresQuery(s: TreeState, q1: string, q2: string)
    ensures Filtered(s, q1) == Filtered(s, q2)
    ensures Filtered(s, q1).filtered == s.allSymbols
    ensures Filtered(s, q1).changeEvents == s.changeEvents + 1
    ensures Filtered(Filtered(s, q1), q2).filtered == Filtered(s, q1).filtered
  {
  }

  /** An answered load shows the top-level names of the answer, in order,
      and fires one change event. */
  lemma LoadedShowsTopLevelNames(s: TreeState, symbols: seq<DocumentSymbol>)
    requires s.pendingLoads > 0
    ensures var t := Loaded(s, Some(symbols));
      && t.filtered == t.allSymbols
      && |t.filtered| == |symbols|
      && (forall k :: 0 <= k < |symbols| ==> t.filtered[k] == symbols[k].name)
      && t.changeEvents == s.changeEvents + 1
  {
  }

  /** A refresh fires one change event at once; with an editor it asks for
      a load, whose answer fires a second one. */
  lemma RefreshWithEditor(s: TreeState, answer: Option<seq<DocumentSymbol>>)
    ensures Refreshed(s, true).pendingLoads == s.pendingLoads + 1
    ensures Refreshed(s, true).filtered == s.filtered
    ensures Loaded(Refreshed(s, true), answer).changeEvents == s.changeEvents + 2
  {
  }

  /** A refresh with no editor drops the loaded names but leaves the shown
      list as it was, so the view still shows the names of the file it
      showed before until the next filter or load. */
  lemma RefreshWithoutEditorKeepsShownList(s: TreeState)
    ensures Refreshed(s, false).allSymbols == []
    ensures Refreshed(s, false).filtered == s.filtered
    ensures Refreshed(s, false).pendingLoads == s.pendingLoads
    ensures Filtered(Refreshed(s, false), "").filtered == []
  {
  }

  /** The view shows exactly the loaded names. */
  ghost predicate ShowsLoaded(s: TreeState)
  {
    s.filtered == s.allSymbols
  }

  /** A new provider, a filter and an answered load all leave the view
      showing the loaded names, and a refresh with an editor keeps it so; a
      refresh with no editor breaks it unless the view was already empty. */
  lemma ShowsLoadedAfter(s: TreeState, hasEditor: bool, q: string, answer: Option<seq<DocumentSymbol>>)
    ensures ShowsLoaded(Initial(hasEditor))
    ensures ShowsLoaded(Filtered(s, q))
    ensures s.pendingLoads > 0 ==> ShowsLoaded(Loaded(s, answer))
    ensures ShowsLoaded(s) ==> ShowsLoaded(Refreshed(s, true))
    ensures ShowsLoaded(Refreshed(s, false)) <==> s.filtered == []
  {
  }

  // ---------------------------------------------------------------------
  // The provider object

  class SymbolTreeProvider {
    var allSymbols: seq<string>
    var filtered: seq<string>
    var changeEvents: nat
    var pendingLoads: nat

    function State(): TreeState
      reads this
    {
      TreeState(allSymbols, filtered, changeEvents, pendingLoads)
    }

    constructor (hasEditor: bool)
      ensures State() == Initial(hasEditor)
    {
      allSymbols := [];
      filtered := [];
      changeEvents := 0;
      pendingLoads := 0;
      new;
      LoadSymbols(hasEditor);
      filtered := allSymbols;
    }

    method LoadSymbols(hasEditor: bool)
      modifies this
      ensures State() == Load(old(State()), hasEditor)
    {
      if !hasEditor {
        allSymbols := [];
        return;
      }
      pendingLoads := pendingLoads + 1;
    }

    method Refresh(hasEditor: bool)
      modifies this
      ensures State() == Refreshed(old(State()), hasEditor)
    {
      LoadSymbols(hasEditor);
      changeEvents := changeEvents + 1;
    }

    method Filter(query: string)
      modifies this
      ensures State() == Filtered(old(State()), query)
    {
      filtered := allSymbols;
      changeEvents := changeEvents + 1;
    }

    /** What the view lists. */
    method GetChildren() returns (children: seq<string>)
      ensures children == filtered
    {
      children := filtered;
    }

    /** The answer to an earlier load arrives. */
    method OnLoaded(symbols: Option<seq<DocumentSymbol>>)
      requires pendingLoads > 0
      modifies this
      ensures State() == Loaded(old(State()), symbols)
    {
      var names: seq<string> := [];
      if symbols.Some? {
        names := TopLevelNames(symbols.value);
      }
      allSymbols := names;
      filtered := allSymbols;
      changeEvents := changeEvents + 1;
      pendingLoads := pendingLoads - 1;
    }
  }
}
