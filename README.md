# si-like-symbol-search, modelled in Dafny

The extension adds a symbol search to the editor. Its picker keeps a symbol when the symbol's
name contains every word of the query, ignoring case and word order. The
picker searches either the current file's symbol tree or the workspace symbol list. It can
preview the highlighted symbol while the user moves through the list. When preview is
enabled and the user dismisses the picker without accepting, it scrolls the view back to
the original caret position. The extension also offers a `jia all` command, which
generates a compile database for every workspace root, and a sidebar list of the current
file's top-level symbols.

The model covers the logic of `src/extension.ts`:

- `symbols.dfy` (module `Symbols`): positions, ranges, the two symbol shapes, the
  kind-to-icon table, and the pick item built for a candidate.
- `flatten.dfy` (module `Flatten`): the stack walk that flattens the symbol tree. It is proved
  equal to a recursive pre-order, and that pre-order is proved to visit every node exactly once.
- `sort.dfy` (module `LineSort`): the sort by start line, done in place on an array. It is
  proved equal to a stable insertion sort. That sort is proved sorted, a permutation of its
  input, stable, and the only stable order. Also the current-file candidate list.
- `matcher.dfy` (module `Matcher`): lower-casing, `trim`, `split(/\s+/)`, `includes` and
  `every`, and the filter built from them.
- `picker.dfy` (module `QuickPick`): one picker session. Its four handlers are pure
  transitions over a state value and also methods of a `Session` object. Every request the
  handlers make of the editor is appended to an effect log: reveal, set selection,
  create or dispose a decoration, dispose the picker.
- `compdb.dfy` (module `Compdb`): the default working directory for the compile-database
  command, the `jia all` command line, and the command's outcomes.
- `symboltree.dfy` (module `SymbolTree`): the sidebar provider's list state.
- `seqs.dfy` (module `Seqs`): three small facts about sequence concatenation, used as proof steps.

Two behaviours of the code that are easy to miss:

- The preview reveals the previewed range with the editor's default reveal type, not
  centred (src/extension.ts:349).
- Hiding the picker does not dispose the live preview decoration (src/extension.ts:296-301,
  `QuickPick.HideLeavesPreviewLive`).

## Model

| member | source | states |
|---|---|---|
| Symbols.SymbolIcon | src/extension.ts:130-166 | Kinds 0 to 24 get their own table icon. Every kind below 0 or from 25 up gets `$(symbol-misc)`. No icon contains a space. |
| Symbols.TypeParameterIconUnreachable | src/extension.ts:159-166 | No kind is ever shown with the table's kind-25 entry (type parameter), because the guard sends 25 to misc. |
| Symbols.ItemOf | src/extension.ts:254-259 | Splitting a label at its first space gives back the candidate's icon and its name. The item keeps its candidate and the range of the candidate's shape (the symbol's range, or its location's range). |
| Symbols.ItemsOf | src/extension.ts:304-322 | The initial list has one item per candidate, in candidate order, each the candidate's own item. |
| Flatten.FlattenDocSymbols | src/extension.ts:326-340 | The stack walk returns exactly the pre-order of the forest. |
| Flatten.WalkStep | src/extension.ts:331-337 | One pop-and-push step keeps "output so far, then the pre-order of the reversed stack" equal to the whole pre-order. |
| Flatten.PreOrderVisitsEveryNodeOnce | src/extension.ts:326-340 | The pre-order holds every node of the forest exactly as often as a breadth-first visit does, and its length is the node count. |
| Flatten.SubtreeFollowsParent | src/extension.ts:332-336 | Every node is followed at once by the pre-order of its own children: parents come first, and subtrees are contiguous. |
| Flatten.RootsKeepTheirOrder | src/extension.ts:329-333 | Top-level symbols keep their original relative order in the flat list. |
| LineSort.SortByLineIsStableSort | src/extension.ts:183-185 | The sort's result is ascending by start line and a permutation of its input. The symbols of each line keep their input order. |
| LineSort.StableSortIsUnique | src/extension.ts:183-185 | Any list that is ordered by line and keeps each line's symbols in input order equals the model's sort. So any stable sort the runtime uses gives the same list. |
| LineSort.InsertAt | src/extension.ts:183-185 | One backward-scan insertion turns the array prefix into the sorted insertion of the next element. The rest of the array is untouched. |
| LineSort.SortInPlace | src/extension.ts:183-185 | The in-place sort leaves the array holding the stable sort of its old contents. |
| LineSort.GetDocumentSymbols | src/extension.ts:176-188 | An absent result gives `[]` (an empty one gives `[]` too). Otherwise the result is the flattened tree sorted by line. |
| LineSort.DocumentSymbolsOrder | src/extension.ts:176-188 | The current-file list holds every node once, ascending by start line, with the symbols of one line in pre-order. |
| Matcher.Trim | src/extension.ts:244 | `trim` cuts a blank prefix and a blank suffix off its input and keeps the text between them unchanged. The result is `""` exactly for a blank string, and otherwise starts and ends with a non-whitespace character. |
| Matcher.SplitWhitespace | src/extension.ts:244 | `split(/\s+/)` gives at least one piece, and no piece contains whitespace. |
| Matcher.SplitTrimmedHasNoEmptyToken | src/extension.ts:244 | A trimmed non-empty query has no empty token. |
| Matcher.BlankQueryTokens | src/extension.ts:244 | A query tokenises to `[""]` exactly when it is blank. `""` is a token only of a blank query. |
| Matcher.Includes | src/extension.ts:251 | `includes` holds exactly when the needle occurs at some index of the name. |
| Matcher.Every | src/extension.ts:250-252 | `every` holds exactly when every token is included in the name. |
| Matcher.FilterByQuery | src/extension.ts:247-253 | The filter keeps a subsequence of the candidates, in order. Each candidate is kept as often as it occurs when its name matches, and never otherwise. |
| Matcher.FilterKeepsExactlyMatches | src/extension.ts:247-253 | A candidate is shown if and only if it is a candidate and its name matches. |
| Matcher.BlankQueryKeepsAll | src/extension.ts:244-253 | A blank or whitespace-only query keeps every candidate in order. |
| Matcher.FilterIdempotent | src/extension.ts:247-253 | Filtering the result again with the same query changes nothing. |
| Matcher.MatchIgnoresCase | src/extension.ts:244-248 | Lower-casing the query or the name does not change whether they match. |
| Matcher.ToLowerKeepsWhitespace | src/extension.ts:244 | Lower-casing changes neither blankness nor trimmedness. |
| Matcher.TrimOfTrimmed | src/extension.ts:244 | Trimming a trimmed string returns it unchanged. |
| Matcher.SplitAcrossGap | src/extension.ts:244 | Splitting two trimmed parts joined by whitespace gives the pieces of each part, in order. |
| Matcher.TokensOfTwoParts | src/extension.ts:244 | The tokens of `a gap b` are the tokens of `a` followed by those of `b`. |
| Matcher.MatchOfTwoParts | src/extension.ts:244-252 | A two-part query matches exactly when both parts match, so adding words only narrows the list. Swapping the parts changes nothing. |
| Matcher.SplitJoinRoundTrip | src/extension.ts:244 | Splitting words joined by single spaces gives back the words. |
| Matcher.TokensOfJoinedWords | src/extension.ts:244 | The tokens of lower-case words joined by single spaces are exactly those words. |
| Matcher.DisplayedItems | src/extension.ts:247-259 | There are no more displayed items than candidates, and every displayed item's name matches the query. |
| QuickPick.InitialIsBlankQuery | src/extension.ts:304-322 | The list shown on opening equals what a blank query displays. |
| QuickPick.ActiveChangedQuietCases | src/extension.ts:224-236 | With preview off, in a workspace search, or on an event with no items, nothing changes, not even the first flag. The first non-empty event only clears that flag and creates no decoration. |
| QuickPick.ActiveChangedReplacesDecoration | src/extension.ts:230-233 | A later event first disposes the live decoration if there is one. It then creates exactly one fresh decoration over the first active item and reveals that item with the default reveal type. The new decoration is the only live one. |
| QuickPick.ActiveChangedKeepsInv | src/extension.ts:224-236 | The active-item handler keeps the invariant: the live decorations in the log are exactly the one the handler holds. |
| QuickPick.ValueChangedKeepsInv | src/extension.ts:242-275 | The value handler keeps the invariant. |
| QuickPick.AcceptedKeepsInv | src/extension.ts:278-293 | The accept handler keeps the invariant. |
| QuickPick.HiddenKeepsInv | src/extension.ts:296-301 | The hide handler keeps the invariant. |
| QuickPick.InitialInv | src/extension.ts:219-222 | A new session has no live decoration and satisfies the invariant. |
| QuickPick.AtMostOneLiveDecoration | src/extension.ts:222-233 | Under the invariant, at most one decoration is live. |
| QuickPick.AcceptedEffects | src/extension.ts:278-293 | With nothing selected, accept changes nothing. Otherwise it sets `didAccept` and then, in order: reveals the selected range centred, collapses the selection to the range's start, and disposes the picker. |
| QuickPick.HiddenEffects | src/extension.ts:296-301 | Hide reveals the original caret range centred exactly when preview is on and no accept happened, whatever the search type. It then always disposes the picker. The live decorations are unchanged. |
| QuickPick.HideAfterAcceptKeepsPosition | src/extension.ts:282-300 | After an accept, hide only disposes the picker. |
| QuickPick.HideLeavesPreviewLive | src/extension.ts:296-301 | A preview decoration created before hide is still live after it. |
| QuickPick.ValueChangedShowsMatches | src/extension.ts:242-275 | A value change replaces the items by the items of the matching candidates and changes nothing else. Repeating the same value changes nothing. |
| QuickPick.ValueChangedItemsMatch | src/extension.ts:247-273 | Every shown item's name matches the value. Its label is its icon, a space, then its name, and its range belongs to its own shape. |
| QuickPick.ValueChangedShowsEveryMatch | src/extension.ts:247-253 | Every candidate whose name matches the value is shown. |
| QuickPick.Session.constructor | src/extension.ts:219-222 | A new session starts with the first flag set, no accept, no decoration, every candidate listed, and an empty log. |
| QuickPick.Session.OnActiveChanged | src/extension.ts:226-236 | The handler's field updates equal the active-item transition, and the invariant is kept. |
| QuickPick.Session.OnValueChanged | src/extension.ts:242-275 | The handler's field updates equal the value transition, and the invariant is kept. |
| QuickPick.Session.OnAccept | src/extension.ts:278-293 | The handler's field updates equal the accept transition, and the invariant is kept. |
| QuickPick.Session.OnHide | src/extension.ts:296-301 | The handler's field updates equal the hide transition, and the invariant is kept. |
| QuickPick.PickSymbol | src/extension.ts:190-222 | With no symbols: no picker, plus the "Cannot find symbols" message. With no editor: no picker, plus "No active editor". Otherwise a fresh session opens over the candidates: the sorted flat list for the current file, the provider's list for the workspace. Its original range is the empty range at the caret. |
| Compdb.RootIsItsOwnParent | src/extension.ts:72-73 | A path is its own parent exactly when it is the root. |
| Compdb.TruncateToSrcDirAsWritten | src/extension.ts:69-79 | The loop as written finishes, for any number of iterations allowed, exactly when the input is named `src` or is the root. It then returns the input unchanged. |
| Compdb.AsWrittenLoopsBelowSrc | src/extension.ts:73-75 | For `/home/dev/proj/src/lib` the as-written loop guard holds for ever, while the intended answer is `/home/dev/proj/src`. |
| Compdb.SrcDir | src/extension.ts:69-79 | The answer is the nearest ancestor-or-self named `src` (a prefix ending in `src` with no `src` below it), or the input when no segment is named `src`. |
| Compdb.TruncateToSrcDir | src/extension.ts:69-79 | The corrected upward walk returns `SrcDir` of its input. |
| Compdb.SrcDirIsNearest | src/extension.ts:77-78 | The walk's stopping point determines the answer: the `src` directory it stopped at, or the input when it reached the root. |
| Compdb.SrcDirIsAnAncestorOrSelf | src/extension.ts:77-78 | The answer is a prefix of the input, and is either named `src` or the input itself. |
| Compdb.JiaCommand | src/extension.ts:88-114 | The loop builds `jia all` followed by a space and the path of each root, in root order. |
| Compdb.CommandIsJoinedWords | src/extension.ts:88-114 | The command line is `jia`, `all` and the root paths joined by single spaces. |
| Compdb.CommandSplitsIntoRoots | src/extension.ts:112-116 | For roots without whitespace, splitting the command on whitespace gives back `jia`, `all` and each root's path in order. |
| Compdb.AsWrittenAgreesWhereItFinishes | src/extension.ts:73-78 | Where the as-written search finishes (a path named `src`, or the root), its answer, the input itself, is also the intended `src` directory. |
| Compdb.GenCompdb | src/extension.ts:81-121 | With no roots: only the "No root directories found." message. Otherwise the default directory comes from the search as written (line 91). The command hangs, with no input box, message or terminal, exactly when the first root is neither named `src` nor the root. Otherwise the offered default is the first root itself, which is also its `src` directory. A dismissed input box gives "Has not input root directory". An answer opens a terminal at that directory running the full command, and announces the command. |
| SymbolTree.TopLevelNames | src/extension.ts:450 | One name per top-level symbol, in order; nested symbols are not listed. |
| SymbolTree.InitialIsEmpty | src/extension.ts:401-404 | A new provider shows nothing and has fired no event. It has asked for one load exactly when an editor is open. |
| SymbolTree.FilterIgnoresQuery | src/extension.ts:412-428 | Filtering shows every loaded name whatever the query: any two queries give the same state, and each filter fires one event. |
| SymbolTree.LoadedShowsTopLevelNames | src/extension.ts:449-453 | An answered load shows exactly the answer's top-level names, in order, and fires one event. |
| SymbolTree.RefreshWithEditor | src/extension.ts:406-409 | A refresh with an editor asks for one load and fires one event at once. The load's answer fires a second. |
| SymbolTree.RefreshWithoutEditorKeepsShownList | src/extension.ts:438-443 | A refresh with no editor empties the loaded names but leaves the shown list unchanged. The next filter then empties it. |
| SymbolTree.ShowsLoadedAfter | src/extension.ts:401-453 | Opening, filtering and an answered load leave the view showing exactly the loaded names. A refresh with no editor breaks that unless the view was empty. |
| SymbolTree.SymbolTreeProvider.constructor | src/extension.ts:401-404 | The constructor reaches the initial state for the editor's presence. |
| SymbolTree.SymbolTreeProvider.LoadSymbols | src/extension.ts:438-448 | With no editor, the loaded names are dropped. Otherwise one request is pending, and nothing else changes yet. |
| SymbolTree.SymbolTreeProvider.Refresh | src/extension.ts:406-409 | The fields after a refresh are the refresh transition of the old fields. |
| SymbolTree.SymbolTreeProvider.Filter | src/extension.ts:412-428 | The fields after a filter are the filter transition of the old fields. |
| SymbolTree.SymbolTreeProvider.GetChildren | src/extension.ts:434-436 | The view's children are the shown list. |
| SymbolTree.SymbolTreeProvider.OnLoaded | src/extension.ts:449-453 | The fields after an answer are the load transition of the old fields. |

## Left out

- Host calls are not modelled. This covers command registration, the symbol-provider requests, picker creation and display, information messages other than the ones listed above, terminal creation, `sendText` and `show`, decoration styling and theme colours. Their results become parameters (`Request`, `caret`, `answer`, `hasEditor`, `OnLoaded`'s argument), and their requests become effect-log entries or outcome fields.
- The workspace search's second query with `*` when the first one returns nothing (src/extension.ts:55-64): a host query. The picker takes whatever list results.
- The editor checks in the two search commands (src/extension.ts:34-38, 50-54): they repeat the editor check that `PickSymbol` models.
- Asynchronous ordering: the input-box promise and the tree provider's load are plain calls (`GenCompdb`'s `answer`, `OnLoaded`).
- The dead `!terminalWorkpath` branch (src/extension.ts:96-99): the input box returns a promise, which is never falsy.
- `getConfigSource` (src/extension.ts:355-373): unused, and only reads host configuration.
- `activate` and `registerSymbolTreeView` only register commands and views with the host.
- Which events the host delivers is not modelled. This includes events after the picker is disposed, and the hide event that disposing a visible picker triggers. Each handler is modelled as a separate call.
- Item fields that only affect rendering: `alwaysShow`, the `description: ""` of the initial items, and the placeholder text. The tree items' collapse state and `getTreeItem` are left out for the same reason.
- Matcher.ToLower: folds only ASCII letters, while JavaScript's `toLowerCase` also folds other scripts.
- Matcher.IsWhitespace: the JavaScript whitespace set is written out character by character. Line terminators and the Unicode space separators are included.
- Paths are sequences of POSIX segments below the root. Drive letters, trailing separators, `.`/`..` and Node's other `path` rules are not modelled, so `FsPath` always writes `/`-separated paths.
- Compdb.TruncateToSrcDirAsWritten: runs at most `fuel` iterations instead of diverging. `None` stands for "still looping".
- Compdb.GenCompdb: a search that never returns is the `Hangs` outcome, reached when the `fuel` given to the search runs out. Which outcome results does not depend on `fuel`.
- Symbol kinds and line numbers are unbounded integers. The comparator `a.line - b.line` is modelled as a comparison of lines, which is what it computes for the line numbers an editor reports.

## Findings

| source | as written | input that shows it | evidently intended | confidence | as-written member | corrected member |
|---|---|---|---|---|---|---|
| src/extension.ts:73-74 | The loop tests and re-reads `filePath`, which its body never assigns. So whenever the guard holds on entry it holds for ever, and the call never returns. The compile-database command makes this call on the first workspace root before it shows the input box, so the command hangs (`Compdb.GenCompdb` gives `Hangs`). | A first workspace root `/home/dev/proj/src/lib` (`Compdb.AsWrittenLoopsBelowSrc`), or any root not named `src` that is not `/` | Walk `currentPath` up one directory at a time until it is named `src` or is the root. Return it if named `src`, else the input. | high; not executed | Compdb.TruncateToSrcDirAsWritten | Compdb.TruncateToSrcDir |
