/** The quick-pick session of one symbol search: the candidates it offers,
    the items it shows, and what its four event handlers ask of the editor.
    The handlers share three variables (`firstChangeActive`, `didAccept`,
    `decoration`) and the picker's item list; here they are the fields of a
    `Session`, and every request to the editor is appended to an effect log. */
module QuickPick {
  import opened Symbols
  import Flatten
  import LineSort
  import Matcher

  datatype RevealType = Default | InCenter

  /** A request a handler makes of the editor or of the picker. Decorations
      are named by the number of the creation that made them. */
  datatype Effect =
    | Reveal(range: Range, how: RevealType)
    | SetSelection(anchor: Position, active: Position)
    | CreateDecoration(id: nat, range: Range)
    | DisposeDecoration(id: nat)
    | DisposePicker

  /** What a search command hands to the picker: the provider's answer for
      the current file or for the workspace; `None` when it gave none. */
  datatype Request =
    | InCurrentFile(docs: Option<seq<DocumentSymbol>>)
    | InWorkspace(infos: Option<seq<SymbolInformation>>)
  {
    predicate HasSymbols()
    {
      match this
      case InCurrentFile(d) => d.Some?
      case InWorkspace(w) => w.Some?
    }

    function SearchTypeOf(): SearchType
    {
      if InCurrentFile? then SearchInCurrentFile else SearchInWorkspace
    }
  }

  /** What stays fixed for the whole session. */
  datatype Config = Config(previewEnabled: bool, searchType: SearchType, candidates: seq<Candidate>, originalRange: Range)

  /** What the handlers change: the two flags, the live decoration, the
      number of decorations created so far, the shown items and the log. */
  datatype PickerState = PickerState(
    firstChangeActive: bool,
    didAccept: bool,
    decoration: Option<nat>,
    nextId: nat,
    items: seq<PickItem>,
    effects: seq<Effect>)

  const NoSymbolsMessage: string := "Cannot find symbols. Try click Outmap-View on the sidebar."
  const NoEditorMessage: string := "No active editor"

  function DocCandidates(ds: seq<DocumentSymbol>): (cs: seq<Candidate>)
    ensures |cs| == |ds| && forall k :: 0 <= k < |ds| ==> cs[k] == Doc(ds[k])
  {
    seq(|ds|, k requires 0 <= k < |ds| => Doc(ds[k]))
  }

  function WsCandidates(ws: seq<SymbolInformation>): (cs: seq<Candidate>)
    ensures |cs| == |ws| && forall k :: 0 <= k < |ws| ==> cs[k] == Ws(ws[k])
  {
    seq(|ws|, k requires 0 <= k < |ws| => Ws(ws[k]))
  }

  /** The session a request opens: current-file candidates are the flattened
      symbols sorted by line, workspace candidates are the provider's list as
      it came; the original range is the empty range at the caret. */
  function ConfigOf(req: Request, caret: Position, previewEnabled: bool): Config
    requires req.HasSymbols()
  {
    var cs := match req
      case InCurrentFile(d) => DocCandidates(LineSort.SortByLine(Flatten.PreOrder(d.value)))
      case InWorkspace(w) => WsCandidates(w.value);
    Config(previewEnabled, req.SearchTypeOf(), cs, Range(caret, caret))
  }

  /** The active-item handler is registered only for a previewing
      current-file search. */
  predicate Wired(c: Config)
  {
    c.previewEnabled && c.searchType == SearchInCurrentFile
  }

  /** The state when the picker is shown: the value is empty, so every
      candidate is listed. */
  function Initial(c: Config): PickerState
  {
    PickerState(true, false, None, 0, ItemsOf(c.candidates), [])
  }

  function DisposeLive(decoration: Option<nat>): seq<Effect>
  {
    if decoration.Some? then [DisposeDecoration(decoration.value)] else []
  }

  /** The active items changed. */
  function ActiveChanged(c: Config, p: PickerState, active: seq<PickItem>): PickerState
  {
    if !Wired(c) || active == [] then p
    else if p.firstChangeActive then p.(firstChangeActive := false)
    else
      var r := active[0].range;
      p.(firstChangeActive := false,
         decoration := Some(p.nextId),
         nextId := p.nextId + 1,
         effects := p.effects + DisposeLive(p.decoration) + [CreateDecoration(p.nextId, r), Reveal(r, Default)])
  }

  /** The typed value changed. */
  function ValueChanged(c: Config, p: PickerState, value: string): PickerState
  {
    p.(items := Matcher.DisplayedItems(c.candidates, value))
  }

  /** The user accepted the selection. */
  function Accepted(p: PickerState, selected: seq<PickItem>): PickerState
  {
    if selected == [] then p
    else
      var r := selected[0].range;
      p.(didAccept := true,
         effects := p.effects + [Reveal(Range(r.start, r.end), InCenter), SetSelection(r.start, r.start), DisposePicker])
  }

  /** The picker was hidden. */
  function Hidden(c: Config, p: PickerState): PickerState
  {
    var restore := if c.previewEnabled && !p.didAccept then [Reveal(c.originalRange, InCenter)] else [];
    p.(effects := p.effects + restore + [DisposePicker])
  }

  // ---------------------------------------------------------------------
  // Live decorations

  function Step(live: set<nat>, e: Effect): set<nat>
  {
    match e
    case CreateDecoration(id, _) => live + {id}
    case DisposeDecoration(id) => live - {id}
    case _ => live
  }

  /** The decorations created and not yet disposed by a log. */
  function Live(es: seq<Effect>): set<nat>
  {
    if es == [] then {} else Step(Live(es[..|es| - 1]), es[|es| - 1])
  }

  function AsSet(d: Option<nat>): set<nat>
  {
    if d.Some? then {d.value} else {}
  }

  /** The session's bookkeeping agrees with its log: the live decorations
      are exactly the one the handler holds, every decoration was numbered
      below `nextId`, and none exists before the first preview. */
  ghost predicate Inv(p: PickerState)
  {
    && Live(p.effects) == AsSet(p.decoration)
    && (forall k :: 0 <= k < |p.effects| && p.effects[k].CreateDecoration? ==> p.effects[k].id < p.nextId)
    && (p.decoration.Some? ==> p.decoration.value < p.nextId)
    && (p.firstChangeActive ==> p.decoration.None?)
  }

  lemma LiveOfSnoc(es: seq<Effect>, e: Effect)
    ensures Live(es + [e]) == Step(Live(es), e)
  {
    assert (es + [e])[..|es|] == es;
  }

  lemma {:induction false} LiveOfAppend(a: seq<Effect>, b: seq<Effect>)
    requires forall k :: 0 <= k < |b| ==> !b[k].CreateDecoration? && !b[k].DisposeDecoration?
    ensures Live(a + b) == Live(a)
    decreases |b|
  {
    if b == [] {
      assert a + b == a;
    } else {
      var b', e := b[..|b| - 1], b[|b| - 1];
      assert a + b == (a + b') + [e];
      LiveOfSnoc(a + b', e);
      assert !e.CreateDecoration? && !e.DisposeDecoration?;
      assert forall k :: 0 <= k < |b'| ==> b'[k] == b[k];
      LiveOfAppend(a, b');
    }
  }

  lemma InitialInv(c: Config)
    ensures Inv(Initial(c))
  {
  }

  /** Replacing the live decoration leaves exactly the new one live. */
  lemma {:induction false} ReplaceDecoration(es: seq<Effect>, d: Option<nat>, id: nat, r: Range)
    requires Live(es) == AsSet(d)
    ensures Live(es + DisposeLive(d) + [CreateDecoration(id, r), Reveal(r, Default)]) == {id}
  {
    var es1 := es + DisposeLive(d);
    assert Live(es1) == {} by {
      if d.Some? {
        LiveOfSnoc(es, DisposeDecoration(d.value));
      } else {
        assert es1 == es;
      }
    }
    LiveOfSnoc(es1, CreateDecoration(id, r));
    assert es1 + [CreateDecoration(id, r), Reveal(r, Default)] == (es1 + [CreateDecoration(id, r)]) + [Reveal(r, Default)];
    LiveOfSnoc(es1 + [CreateDecoration(id, r)], Reveal(r, Default));
  }

  lemma ActiveChangedKeepsInv(c: Config, p: PickerState, active: seq<PickItem>)
    requires Inv(p)
    ensures Inv(ActiveChanged(c, p, active))
  {
    if Wired(c) && active != [] && !p.firstChangeActive {
      var r := active[0].range;
      ReplaceDecoration(p.effects, p.decoration, p.nextId, r);
      var q := ActiveChanged(c, p, active);
      var added := DisposeLive(p.decoration) + [CreateDecoration(p.nextId, r), Reveal(r, Default)];
      assert q.effects == p.effects + added;
      forall k | 0 <= k < |q.effects| && q.effects[k].CreateDecoration?
        ensures q.effects[k].id < q.nextId
      {
        if k >= |p.effects| {
          assert q.effects[k] == added[k - |p.effects|];
        }
      }
    }
  }

  lemma ValueChangedKeepsInv(c: Config, p: PickerState, value: string)
    requires Inv(p)
    ensures Inv(ValueChanged(c, p, value))
  {
  }

  lemma AcceptedKeepsInv(p: PickerState, selected: seq<PickItem>)
    requires Inv(p)
    ensures Inv(Accepted(p, selected))
  {
    if selected != [] {
      var r := selected[0].range;
      var added := [Reveal(Range(r.start, r.end), InCenter), SetSelection(r.start, r.start), DisposePicker];
      LiveOfAppend(p.effects, added);
    }
  }

  lemma HiddenKeepsInv(c: Config, p: PickerState)
    requires Inv(p)
    ensures Inv(Hidden(c, p))
  {
    var restore := if c.previewEnabled && !p.didAccept then [Reveal(c.originalRange, InCenter)] else [];
    var added := restore + [DisposePicker];
    assert p.effects + restore + [DisposePicker] == p.effects + added;
    LiveOfAppend(p.effects, added);
  }

  /** At any point of a session at most one decoration is live. */
  lemma AtMostOneLiveDecoration(p: PickerState)
    requires Inv(p)
    ensures |Live(p.effects)| <= 1
  {
  }

  // ---------------------------------------------------------------------
  // What each handler does

  /** The effects a transition added to the log. */
  function Added(p: PickerState, q: PickerState): seq<Effect>
    requires |p.effects| <= |q.effects|
  {
    q.effects[|p.effects|..]
  }

  /** An active-item event does nothing unless the handler is wired and the
      event carries items; the first such event only clears the first flag
      and creates no decoration. */
  lemma ActiveChangedQuietCases(c: Config, p: PickerState, active: seq<PickItem>)
    ensures !Wired(c) || active == [] ==> ActiveChanged(c, p, active) == p
    ensures Wired(c) && active != [] && p.firstChangeActive ==>
      ActiveChanged(c, p, active) == p.(firstChangeActive := false)
  {
  }

  /** Every later event disposes the live decoration, if there is one,
      before it creates exactly one new decoration over the first active
      item and reveals that item; the new one is then the only live one. */
  lemma ActiveChangedReplacesDecoration(c: Config, p: PickerState, active: seq<PickItem>)
    requires Inv(p)
    requires Wired(c) && active != [] && !p.firstChangeActive
    ensures var q := ActiveChanged(c, p, active);
      && p.effects <= q.effects
      && Added(p, q) == DisposeLive(p.decoration) + [CreateDecoration(p.nextId, active[0].range), Reveal(active[0].range, Default)]
      && (p.decoration.Some? ==> p.decoration.value in Live(p.effects) && p.decoration.value !in Live(q.effects))
      && Live(q.effects) == {p.nextId} && q.decoration == Some(p.nextId)
      && p.nextId !in Live(p.effects)
      && q.items == p.items && q.didAccept == p.didAccept
  {
    var q := ActiveChanged(c, p, active);
    var r := active[0].range;
    ReplaceDecoration(p.effects, p.decoration, p.nextId, r);
    assert q.effects == p.effects + (DisposeLive(p.decoration) + [CreateDecoration(p.nextId, r), Reveal(r, Default)]);
  }

  /** Accepting with nothing selected changes nothing. Otherwise the handler
      records the accept, reveals the selected range in the centre, collapses
      the selection to the range's start and disposes the picker, in that
      order; the shown items and the decoration are untouched. */
  lemma AcceptedEffects(p: PickerState, selected: seq<PickItem>)
    ensures selected == [] ==> Accepted(p, selected) == p
    ensures selected != [] ==>
      var q := Accepted(p, selected);
      var r := selected[0].range;
      && q.didAccept
      && p.effects <= q.effects
      && Added(p, q) == [Reveal(r, InCenter), SetSelection(r.start, r.start), DisposePicker]
      && q.items == p.items && q.decoration == p.decoration && q.firstChangeActive == p.firstChangeActive
  {
  }

  /** Hiding restores the original caret range, centred, exactly when
      preview is on and no accept happened, whatever the search type; it
      always disposes the picker, and it leaves the live decoration live. */
  lemma HiddenEffects(c: Config, p: PickerState)
    ensures var q := Hidden(c, p);
      && p.effects <= q.effects
      && Added(p, q) == (if c.previewEnabled && !p.didAccept then [Reveal(c.originalRange, InCenter)] else []) + [DisposePicker]
      && Live(q.effects) == Live(p.effects)
      && q.decoration == p.decoration && q.items == p.items
  {
    var restore := if c.previewEnabled && !p.didAccept then [Reveal(c.originalRange, InCenter)] else [];
    assert p.effects + restore + [DisposePicker] == p.effects + (restore + [DisposePicker]);
    LiveOfAppend(p.effects, restore + [DisposePicker]);
  }

  /** After an accept, hiding only disposes the picker: the caret stays at
      the chosen symbol. */
  lemma HideAfterAcceptKeepsPosition(c: Config, p: PickerState, selected: seq<PickItem>)
    requires selected != []
    ensures var a := Accepted(p, selected);
      Added(a, Hidden(c, a)) == [DisposePicker]
  {
  }

  /** A preview shown while the picker is open stays live after it is
      hidden. */
  lemma HideLeavesPreviewLive(c: Config, p: PickerState, active: seq<PickItem>)
    requires Inv(p) && Wired(c) && active != [] && !p.firstChangeActive
    ensures p.nextId in Live(Hidden(c, ActiveChanged(c, p, active)).effects)
  {
    ActiveChangedReplacesDecoration(c, p, active);
    HiddenEffects(c, ActiveChanged(c, p, active));
  }

  /** The initial list is what a blank query shows. */
  lemma InitialIsBlankQuery(c: Config, blank: string)
    requires Matcher.IsBlank(blank)
    ensures Initial(c).items == Matcher.DisplayedItems(c.candidates, blank)
  {
    Matcher.BlankQueryKeepsAll(c.candidates, blank);
  }

  /** After a value change the items are the candidates whose name matches,
      in candidate order, each labelled with its icon and name and carrying
      the range of its shape; nothing else changes, and typing the same
      value again changes nothing. */
  lemma ValueChangedShowsMatches(c: Config, p: PickerState, value: string)
    ensures var q := ValueChanged(c, p, value);
      && q.items == ItemsOf(Matcher.FilterByQuery(c.candidates, value))
      && q == p.(items := q.items)
      && ValueChanged(c, q, value) == q
  {
  }

  /** Every shown item matches the value and is labelled and positioned
      after its own candidate. */
  lemma ValueChangedItemsMatch(c: Config, p: PickerState, value: string, k: int)
    requires 0 <= k < |ValueChanged(c, p, value).items|
    ensures var it := ValueChanged(c, p, value).items[k];
      && Matcher.Matches(value, it.candidate.Name())
      && SplitLabel(it.text) == (SymbolIcon(it.candidate.Kind()), it.candidate.Name())
      && it.range == it.candidate.TargetRange()
  {
    var r := Matcher.FilterByQuery(c.candidates, value);
    assert ValueChanged(c, p, value).items[k] == ItemOf(r[k]);
  }

  /** Every matching candidate is shown. */
  lemma ValueChangedShowsEveryMatch(c: Config, p: PickerState, value: string, x: Candidate)
    requires x in c.candidates && Matcher.Matches(value, x.Name())
    ensures exists k :: 0 <= k < |ValueChanged(c, p, value).items| && ValueChanged(c, p, value).items[k].candidate == x
  {
    var r := Matcher.FilterByQuery(c.candidates, value);
    Matcher.FilterKeepsExactlyMatches(c.candidates, value, x);
    var k :| 0 <= k < |r| && r[k] == x;
    assert ValueChanged(c, p, value).items[k] == ItemOf(r[k]);
  }

  // ---------------------------------------------------------------------
  // The session object

  class Session {
    const config: Config
    var firstChangeActive: bool
    var didAccept: bool
    var decoration: Option<nat>
    var nextId: nat
    var items: seq<PickItem>
    var effects: seq<Effect>

    function State(): PickerState
      reads this
    {
      PickerState(firstChangeActive, didAccept, decoration, nextId, items, effects)
    }

    ghost predicate Valid()
      reads this
    {
      Inv(State())
    }

    /** Shows the picker with every candidate listed. */
    constructor (c: Config)
      ensures config == c && State() == Initial(c) && Valid()
    {
      config := c;
      firstChangeActive := true;
      didAccept := false;
      decoration := None;
      nextId := 0;
      items := ItemsOf(c.candidates);
      effects := [];
      new;
      InitialInv(c);
    }

    method OnActiveChanged(active: seq<PickItem>)
      requires Valid()
      modifies this
      ensures State() == ActiveChanged(config, old(State()), active)
      ensures Valid()
    {
      ActiveChangedKeepsInv(config, State(), active);
      if !Wired(config) || |active| == 0 {
        return;
      }
      if !firstChangeActive {
        if decoration.Some? {
          effects := effects + [DisposeDecoration(decoration.value)];
        }
        var id := nextId;
        nextId := nextId + 1;
        effects := effects + [CreateDecoration(id, active[0].range), Reveal(active[0].range, Default)];
        decoration := Some(id);
      }
      firstChangeActive := false;
    }

    method OnValueChanged(value: string)
      requires Valid()
      modifies this
      ensures State() == ValueChanged(config, old(State()), value)
      ensures Valid()
    {
      ValueChangedKeepsInv(config, State(), value);
      items := Matcher.DisplayedItems(config.candidates, value);
    }

    method OnAccept(selected: seq<PickItem>)
      requires Valid()
      modifies this
      ensures State() == Accepted(old(State()), selected)
      ensures Valid()
    {
      AcceptedKeepsInv(State(), selected);
      if |selected| == 0 {
        return;
      }
      didAccept := true;
      var r := Range(selected[0].range.start, selected[0].range.end);
      effects := effects + [Reveal(r, InCenter)];
      effects := effects + [SetSelection(selected[0].range.start, selected[0].range.start)];
      effects := effects + [DisposePicker];
    }

    method OnHide()
      requires Valid()
      modifies this
      ensures State() == Hidden(config, old(State()))
      ensures Valid()
    {
      HiddenKeepsInv(config, State());
      if config.previewEnabled && !didAccept {
        effects := effects + [Reveal(config.originalRange, InCenter)];
      }
      effects := effects + [DisposePicker];
    }
  }

  /** Opens a picker for a request: no picker and a message when the
      provider gave no symbols or no editor is active, otherwise a fresh
      session over the request's candidates, showing all of them. */
  method PickSymbol(req: Request, caret: Option<Position>, previewEnabled: bool) returns (message: Option<string>, session: Session?)
    ensures !req.HasSymbols() ==> message == Some(NoSymbolsMessage) && session == null
    ensures req.HasSymbols() && caret.None? ==> message == Some(NoEditorMessage) && session == null
    ensures req.HasSymbols() && caret.Some? ==>
      && message == None && session != null && fresh(session)
      && session.config == ConfigOf(req, caret.value, previewEnabled)
      && session.State() == Initial(session.config) && session.Valid()
  {
    if !req.HasSymbols() {
      return Some(NoSymbolsMessage), null;
    }
    if caret.None? {
      return Some(NoEditorMessage), null;
    }
    var candidates: seq<Candidate>;
    match req {
      case InCurrentFile(d) =>
        var flat := LineSort.GetDocumentSymbols(d);
        candidates := DocCandidates(flat);
      case InWorkspace(w) =>
        candidates := WsCandidates(w.value);
    }
    var c := Config(previewEnabled, req.SearchTypeOf(), candidates, Range(caret.value, caret.value));
    message := None;
    session := new Session(c);
  }
}
