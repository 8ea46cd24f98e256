/** Positions, ranges, the two symbol shapes the editor's symbol providers
    return, the kind-to-icon table and the pick items the picker shows. */
module Symbols {

  datatype Option<T> = None | Some(value: T)

  /** A zero-based line/column position in a text document. */
  datatype Position = Position(line: int, character: int)

  /** A source extent; `start` is where a jump lands. */
  datatype Range = Range(start: Position, end: Position)

  /** A node of the current file's symbol tree. A missing `children` list is
      the empty sequence. */
  datatype DocumentSymbol = DocumentSymbol(name: string, kind: int, range: Range, children: seq<DocumentSymbol>)

  datatype Location = Location(uri: string, range: Range)

  /** A workspace symbol: always flat, positioned through its location. */
  datatype SymbolInformation = SymbolInformation(name: string, kind: int, containerName: string, location: Location)

  datatype SearchType = SearchInCurrentFile | SearchInWorkspace

  /** A picker candidate of either shape. The picker treats both alike except
      for where the item's range comes from. */
  datatype Candidate = Doc(doc: DocumentSymbol) | Ws(info: SymbolInformation)
  {
    function Name(): string
    {
      match this
      case Doc(d) => d.name
      case Ws(w) => w.name
    }

    function Kind(): int
    {
      match this
      case Doc(d) => d.kind
      case Ws(w) => w.kind
    }

    /** `sym.range` for a document symbol, `sym.location.range` for a
        workspace symbol. */
    function TargetRange(): Range
    {
      match this
      case Doc(d) => d.range
      case Ws(w) => w.location.range
    }
  }

  /** The icon of every kind outside the guarded part of the table. */
  const Misc: string := "$(symbol-misc)"

  /** The kind-to-icon table, indexed by the editor's zero-based symbol kind,
      written in four parts. */
  const IconTable: seq<string> := IconsOfKinds0To6 + IconsOfKinds7To13 + IconsOfKinds14To20 + IconsOfKinds21To25

  const IconsOfKinds0To6: seq<string> := [
    "$(symbol-file)", "$(symbol-module)", "$(symbol-namespace)", "$(symbol-package)",
    "$(symbol-class)", "$(symbol-method)", "$(symbol-property)"
  ]

  const IconsOfKinds7To13: seq<string> := [
    "$(symbol-field)", "$(symbol-constructor)", "$(symbol-enum)", "$(symbol-interface)",
    "$(symbol-function)", "$(symbol-variable)", "$(symbol-constant)"
  ]

  const IconsOfKinds14To20: seq<string> := [
    "$(symbol-string)", "$(symbol-number)", "$(symbol-boolean)", "$(symbol-array)",
    "$(symbol-object)", "$(symbol-key)", "$(symbol-null)"
  ]

  const IconsOfKinds21To25: seq<string> := [
    "$(symbol-enum-member)", "$(symbol-struct)", "$(symbol-event)", "$(symbol-operator)",
    "$(symbol-type-parameter)"
  ]

  /** True when no icon in `icons` contains a space. */
  predicate SpaceFree(icons: seq<string>)
  {
    forall k :: 0 <= k < |icons| ==> ' ' !in icons[k]
  }

  lemma SpaceFreeAppend(a: seq<string>, b: seq<string>)
    requires SpaceFree(a) && SpaceFree(b)
    ensures SpaceFree(a + b)
  {
    assert forall k :: |a| <= k < |a + b| ==> (a + b)[k] == b[k - |a|];
  }

  lemma FirstIconsSpaceFree()
    ensures SpaceFree(IconsOfKinds0To6) && SpaceFree(IconsOfKinds7To13)
  {
    assert SpaceFree(IconsOfKinds0To6);
  }

  lemma LastIconsSpaceFree()
    ensures SpaceFree(IconsOfKinds14To20) && SpaceFree(IconsOfKinds21To25)
  {
    assert SpaceFree(IconsOfKinds14To20);
  }

  lemma IconsSpaceFree()
    ensures ' ' !in Misc && SpaceFree(IconTable)
  {
    FirstIconsSpaceFree();
    LastIconsSpaceFree();
    SpaceFreeAppend(IconsOfKinds0To6, IconsOfKinds7To13);
    SpaceFreeAppend(IconsOfKinds0To6 + IconsOfKinds7To13, IconsOfKinds14To20);
    SpaceFreeAppend(IconsOfKinds0To6 + IconsOfKinds7To13 + IconsOfKinds14To20, IconsOfKinds21To25);
  }

  /** The icon shown in front of a symbol's name. The range guard stops at 24,
      so the table's last entry (kind 25) is never selected. */
  function SymbolIcon(kind: int): (icon: string)
    ensures icon == Misc <==> kind < 0 || kind >= 25
    ensures 0 <= kind < 25 ==> icon == IconTable[kind]
    ensures ' ' !in icon
  {
    IconsSpaceFree();
    if kind < 0 || kind >= 25 then Misc
    else
      assert IconTable[kind] != Misc by {
        assert IconTable[kind] in IconTable[..25];
      }
      IconTable[kind]
  }

  /** No kind at all is shown with the type-parameter icon. */
  lemma TypeParameterIconUnreachable(kind: int)
    ensures SymbolIcon(kind) != IconTable[25]
  {
    if 0 <= kind < 25 {
      assert IconTable[kind] in IconTable[..25];
    }
  }

  /** One entry of the picker: its label, the symbol it stands for and the
      range a preview or a jump uses. */
  datatype PickItem = PickItem(text: string, candidate: Candidate, range: Range)

  /** Index of the first space of `s`, or `|s|` when it has none. */
  function FirstSpace(s: string): (i: nat)
    ensures i <= |s|
    ensures i < |s| ==> s[i] == ' '
    ensures forall j :: 0 <= j < i ==> s[j] != ' '
  {
    if s == [] || s[0] == ' ' then 0 else 1 + FirstSpace(s[1..])
  }

  /** Splits a label at its first space into the icon part and the name part. */
  function SplitLabel(text: string): (string, string)
  {
    var i := FirstSpace(text);
    if i < |text| then (text[..i], text[i + 1..]) else (text, "")
  }

  /** The pick item for a candidate: label `icon + " " + name`, and the range
      that belongs to the candidate's shape. */
  function ItemOf(c: Candidate): (item: PickItem)
    ensures SplitLabel(item.text) == (SymbolIcon(c.Kind()), c.Name())
    ensures item.candidate == c && item.range == c.TargetRange()
  {
    var icon := SymbolIcon(c.Kind());
    var text := icon + " " + c.Name();
    FirstSpaceAfterWord(icon, c.Name());
    assert text[..|icon|] == icon && text[|icon| + 1..] == c.Name();
    PickItem(text, c, c.TargetRange())
  }

  lemma {:induction false} FirstSpaceAfterWord(w: string, rest: string)
    requires ' ' !in w
    ensures FirstSpace(w + " " + rest) == |w|
  {
    if w != [] {
      assert (w + " " + rest)[1..] == w[1..] + " " + rest;
      FirstSpaceAfterWord(w[1..], rest);
    }
  }

  /** The items of a candidate list, one per candidate, in order. */
  function ItemsOf(cs: seq<Candidate>): (items: seq<PickItem>)
    ensures |items| == |cs|
    ensures forall i :: 0 <= i < |cs| ==> items[i] == ItemOf(cs[i])
  {
    if cs == [] then [] else [ItemOf(cs[0])] + ItemsOf(cs[1..])
  }
}
