/** The stable sort by start line that orders the flattened symbol list, and
    the list the current-file picker starts from. */
module LineSort {
  import opened Symbols
  import Flatten
  import Seqs

  /** The sort key: `range.start.line`. */
  function Line(s: DocumentSymbol): int
  {
    s.range.start.line
  }

  predicate SortedByLine(s: seq<DocumentSymbol>)
  {
    forall i, j :: 0 <= i < j < |s| ==> Line(s[i]) <= Line(s[j])
  }

  /** The elements of `s` that start on line `line`, in their order in `s`.
      A sort is stable when it keeps every such subsequence. */
  function OnLine(s: seq<DocumentSymbol>, line: int): seq<DocumentSymbol>
  {
    if s == [] then [] else (if Line(s[0]) == line then [s[0]] else []) + OnLine(s[1..], line)
  }

  /** Where a backward scan from the end of `s` stops for `x`: just after the
      last element whose line is not greater than `x`'s. */
  function InsertPos(s: seq<DocumentSymbol>, x: DocumentSymbol): (p: nat)
    ensures p <= |s|
    ensures forall k :: p <= k < |s| ==> Line(s[k]) > Line(x)
    ensures p > 0 ==> Line(s[p - 1]) <= Line(x)
  {
    if s == [] then 0
    else if Line(s[|s| - 1]) > Line(x) then InsertPos(s[..|s| - 1], x)
    else |s|
  }

  function Insert(s: seq<DocumentSymbol>, x: DocumentSymbol): seq<DocumentSymbol>
  {
    var p := InsertPos(s, x);
    s[..p] + [x] + s[p..]
  }

  /** Insertion sort by line; the specification of the in-place sort. */
  function SortByLine(s: seq<DocumentSymbol>): seq<DocumentSymbol>
  {
    if s == [] then [] else Insert(SortByLine(s[..|s| - 1]), s[|s| - 1])
  }

  lemma {:induction false} OnLineOfAppend(a: seq<DocumentSymbol>, b: seq<DocumentSymbol>, line: int)
    ensures OnLine(a + b, line) == OnLine(a, line) + OnLine(b, line)
  {
    if a == [] {
      assert a + b == b;
    } else {
      assert (a + b)[0] == a[0] && (a + b)[1..] == a[1..] + b;
      OnLineOfAppend(a[1..], b, line);
      var head := if Line(a[0]) == line then [a[0]] else [];
      Seqs.ConcatAssoc(head, OnLine(a[1..], line), OnLine(b, line));
    }
  }

  lemma {:induction false} OnLineMembers(s: seq<DocumentSymbol>, line: int)
    ensures forall x :: x in OnLine(s, line) <==> x in s && Line(x) == line
  {
    if s != [] {
      OnLineMembers(s[1..], line);
      assert s == [s[0]] + s[1..];
    }
  }

  lemma HeadIsOnItsLine(s: seq<DocumentSymbol>)
    requires s != []
    ensures OnLine(s, Line(s[0])) != []
  {
  }

  lemma InsertSorted(s: seq<DocumentSymbol>, x: DocumentSymbol)
    requires SortedByLine(s)
    ensures SortedByLine(Insert(s, x))
  {
    var p := InsertPos(s, x);
    var r := Insert(s, x);
    forall i, j | 0 <= i < j < |r| ensures Line(r[i]) <= Line(r[j]) {
      InsertIndex(s, x, i);
      InsertIndex(s, x, j);
      if i < p && p < j {
        assert Line(s[i]) <= Line(s[p - 1]);
      } else if i < p && j == p {
        assert Line(s[i]) <= Line(s[p - 1]);
      }
    }
  }

  /** Element `k` of an insertion: from the prefix, the new element, or the
      shifted suffix. */
  lemma InsertIndex(s: seq<DocumentSymbol>, x: DocumentSymbol, k: nat)
    requires k <= |s|
    ensures |Insert(s, x)| == |s| + 1
    ensures Insert(s, x)[k] == if k < InsertPos(s, x) then s[k] else if k == InsertPos(s, x) then x else s[k - 1]
  {
  }

  lemma InsertPermutes(s: seq<DocumentSymbol>, x: DocumentSymbol)
    ensures multiset(Insert(s, x)) == multiset(s) + multiset{x}
  {
    var p := InsertPos(s, x);
    assert s == s[..p] + s[p..];
  }

  lemma {:induction false} OnLineAbsent(s: seq<DocumentSymbol>, line: int)
    requires forall k :: 0 <= k < |s| ==> Line(s[k]) != line
    ensures OnLine(s, line) == []
  {
    if s != [] {
      OnLineAbsent(s[1..], line);
    }
  }

  /** Everything the backward scan passed lies on a later line than `x`. */
  lemma NothingAfterInsertPosOnLine(s: seq<DocumentSymbol>, x: DocumentSymbol)
    ensures OnLine(s[InsertPos(s, x)..], Line(x)) == []
  {
    var p := InsertPos(s, x);
    var back := s[p..];
    forall k | 0 <= k < |back| ensures Line(back[k]) != Line(x) {
      assert back[k] == s[p + k];
    }
    OnLineAbsent(back, Line(x));
  }

  lemma OnLineOfSplice(front: seq<DocumentSymbol>, x: DocumentSymbol, back: seq<DocumentSymbol>, line: int)
    ensures OnLine(front + [x] + back, line) == OnLine(front, line) + OnLine([x], line) + OnLine(back, line)
  {
    OnLineOfAppend(front + [x], back, line);
    OnLineOfAppend(front, [x], line);
  }

  lemma {:induction false} InsertStable(s: seq<DocumentSymbol>, x: DocumentSymbol, line: int)
    ensures OnLine(Insert(s, x), line) == OnLine(s, line) + OnLine([x], line)
  {
    var p := InsertPos(s, x);
    var f, m, b := OnLine(s[..p], line), OnLine([x], line), OnLine(s[p..], line);
    OnLineOfInsert(s, x, line);
    OnLineOfSplit(s, p, line);
    if Line(x) == line {
      NothingAfterInsertPosOnLine(s, x);
    } else {
      OnLineAbsent([x], line);
    }
    Seqs.SwapPastEmpty(f, m, b);
  }

  lemma OnLineOfInsert(s: seq<DocumentSymbol>, x: DocumentSymbol, line: int)
    ensures OnLine(Insert(s, x), line)
      == OnLine(s[..InsertPos(s, x)], line) + OnLine([x], line) + OnLine(s[InsertPos(s, x)..], line)
  {
    OnLineOfSplice(s[..InsertPos(s, x)], x, s[InsertPos(s, x)..], line);
  }

  lemma OnLineOfSplit(s: seq<DocumentSymbol>, p: nat, line: int)
    requires p <= |s|
    ensures OnLine(s, line) == OnLine(s[..p], line) + OnLine(s[p..], line)
  {
    assert s == s[..p] + s[p..];
    OnLineOfAppend(s[..p], s[p..], line);
  }

  /** The sort's result is ordered by line, is a permutation of its input,
      and lists the symbols of each line in their input order (stability). */
  lemma {:induction false} SortByLineIsStableSort(s: seq<DocumentSymbol>)
    ensures SortedByLine(SortByLine(s))
    ensures multiset(SortByLine(s)) == multiset(s)
    ensures forall line :: OnLine(SortByLine(s), line) == OnLine(s, line)
  {
    if s != [] {
      var init, last := s[..|s| - 1], s[|s| - 1];
      assert s == init + [last];
      SortByLineIsStableSort(init);
      InsertSorted(SortByLine(init), last);
      InsertPermutes(SortByLine(init), last);
      forall line ensures OnLine(SortByLine(s), line) == OnLine(s, line) {
        InsertStable(SortByLine(init), last, line);
        OnLineOfAppend(init, [last], line);
      }
    }
  }

  /** Stable sorting has exactly one answer: any list that is ordered by line
      and keeps each line's symbols in input order is `SortByLine`'s result.
      So every stable sort, whatever its algorithm, agrees with this model. */
  lemma StableSortIsUnique(s: seq<DocumentSymbol>, r: seq<DocumentSymbol>)
    requires SortedByLine(r)
    requires forall line :: OnLine(r, line) == OnLine(s, line)
    ensures r == SortByLine(s)
  {
    SortByLineIsStableSort(s);
    SortedWithSameLinesAreEqual(r, SortByLine(s));
  }

  lemma {:induction false} SortedWithSameLinesAreEqual(r: seq<DocumentSymbol>, t: seq<DocumentSymbol>)
    requires SortedByLine(r) && SortedByLine(t)
    requires forall line :: OnLine(r, line) == OnLine(t, line)
    ensures r == t
    decreases |r| + |t|
  {
    if r == [] || t == [] {
      if t != [] {
        HeadIsOnItsLine(t);
        assert false;
      }
      if r != [] {
        HeadIsOnItsLine(r);
        assert false;
      }
      return;
    }
    // both heads carry the least line of their lists, and each line of one
    // list occurs in the other, so the heads have the same line
    OnLineMembers(r, Line(t[0]));
    OnLineMembers(t, Line(t[0]));
    OnLineMembers(r, Line(r[0]));
    OnLineMembers(t, Line(r[0]));
    assert t[0] in OnLine(t, Line(t[0]));
    assert r[0] in OnLine(r, Line(r[0]));
    var m := Line(r[0]);
    assert Line(t[0]) == m;
    assert OnLine(r, m)[0] == r[0] && OnLine(t, m)[0] == t[0];
    assert r[0] == t[0];
    forall line ensures OnLine(r[1..], line) == OnLine(t[1..], line) {
      var head := if line == m then [r[0]] else [];
      assert OnLine(r, line) == head + OnLine(r[1..], line);
      assert OnLine(t, line) == head + OnLine(t[1..], line);
      assert OnLine(r[1..], line) == (head + OnLine(r[1..], line))[|head|..];
      assert OnLine(t[1..], line) == (head + OnLine(t[1..], line))[|head|..];
    }
    SortedWithSameLinesAreEqual(r[1..], t[1..]);
    assert r == [r[0]] + r[1..] && t == [t[0]] + t[1..];
  }

  /** The state of the backward scan that inserts `x == a[i]` into the
      sorted prefix `s == a[..i]`: the part left of the hole `j` is untouched,
      the part right of it is shifted one place, and the scan has not yet
      passed the insertion point. */
  ghost predicate Shifting(cur: seq<DocumentSymbol>, s: seq<DocumentSymbol>, x: DocumentSymbol, i: nat, j: nat)
  {
    && j <= i < |cur| && |s| == i
    && cur[..j] == s[..j]
    && cur[j + 1..i + 1] == s[j..i]
    && InsertPos(s, x) == InsertPos(s[..j], x)
  }

  lemma ShiftStep(cur: seq<DocumentSymbol>, s: seq<DocumentSymbol>, x: DocumentSymbol, i: nat, j: nat)
    requires Shifting(cur, s, x, i, j) && j > 0 && Line(cur[j - 1]) > Line(x)
    ensures Shifting(cur[j := cur[j - 1]], s, x, i, j - 1)
    ensures cur[j := cur[j - 1]][i + 1..] == cur[i + 1..]
  {
    var next := cur[j := cur[j - 1]];
    assert s[..j][..j - 1] == s[..j - 1];
    assert next[..j - 1] == cur[..j - 1] == s[..j - 1];
    assert next[j..i + 1] == [cur[j - 1]] + cur[j + 1..i + 1];
    assert s[j - 1..i] == [s[j - 1]] + s[j..i];
  }

  lemma ShiftDone(cur: seq<DocumentSymbol>, s: seq<DocumentSymbol>, x: DocumentSymbol, i: nat, j: nat)
    requires Shifting(cur, s, x, i, j) && (j == 0 || Line(cur[j - 1]) <= Line(x))
    ensures cur[j := x][..i + 1] == Insert(s, x)
    ensures cur[j := x][i + 1..] == cur[i + 1..]
  {
    assert j > 0 ==> cur[j - 1] == s[j - 1];
    assert InsertPos(s[..j], x) == j;
    assert cur[j := x][..i + 1] == s[..j] + [x] + s[j..i];
  }

  /** Moves `a[i]` left past every element of the sorted prefix `a[..i]`
      whose line is greater, as the backward scan of insertion sort does. */
  method InsertAt(a: array<DocumentSymbol>, i: nat)
    requires i < a.Length
    modifies a
    ensures a[..i + 1] == Insert(old(a[..i]), old(a[i]))
    ensures a[i + 1..] == old(a[i + 1..])
  {
    ghost var s := a[..i];
    var x := a[i];
    var j := i;
    while j > 0 && Line(a[j - 1]) > Line(x)
      invariant Shifting(a[..], s, x, i, j)
      invariant a[i + 1..] == old(a[i + 1..])
    {
      ShiftStep(a[..], s, x, i, j);
      ghost var before := a[..];
      a[j] := a[j - 1];
      assert a[..] == before[j := before[j - 1]];
      j := j - 1;
    }
    ShiftDone(a[..], s, x, i, j);
    ghost var before := a[..];
    a[j] := x;
    assert a[..] == before[j := x];
  }

  /** The in-place sort of the flattened list, ascending by start line. */
  method SortInPlace(a: array<DocumentSymbol>)
    modifies a
    ensures a[..] == SortByLine(old(a[..]))
  {
    ghost var input := a[..];
    var i := 0;
    while i < a.Length
      invariant 0 <= i <= a.Length
      invariant a[..i] == SortByLine(input[..i])
      invariant a[i..] == input[i..]
    {
      ghost var before := a[..];
      InsertAt(a, i);
      SortPrefixStep(input, i, before, a[..]);
      i := i + 1;
    }
    assert a[..] == a[..a.Length];
    assert input[..a.Length] == input;
  }

  /** One insertion extends the sorted prefix by one element. */
  lemma SortPrefixStep(input: seq<DocumentSymbol>, i: nat, before: seq<DocumentSymbol>, after: seq<DocumentSymbol>)
    requires i < |input| == |before| == |after|
    requires before[..i] == SortByLine(input[..i]) && before[i..] == input[i..]
    requires after[..i + 1] == Insert(before[..i], before[i]) && after[i + 1..] == before[i + 1..]
    ensures after[..i + 1] == SortByLine(input[..i + 1]) && after[i + 1..] == input[i + 1..]
  {
    SameTailsFromNext(before, input, i);
    SortByLineOfPrefix(input, i);
  }

  lemma SameTailsFromNext(x: seq<DocumentSymbol>, y: seq<DocumentSymbol>, i: nat)
    requires i < |x| && i < |y| && x[i..] == y[i..]
    ensures x[i] == y[i] && x[i + 1..] == y[i + 1..]
  {
    assert x[i] == x[i..][0] && y[i] == y[i..][0];
    assert x[i + 1..] == x[i..][1..] && y[i + 1..] == y[i..][1..];
  }

  lemma SortByLineOfPrefix(input: seq<DocumentSymbol>, i: nat)
    requires i < |input|
    ensures SortByLine(input[..i + 1]) == Insert(SortByLine(input[..i]), input[i])
  {
    var t := input[..i + 1];
    assert t[..|t| - 1] == input[..i] && t[|t| - 1] == input[i];
  }

  /** The current-file symbol list: empty for an absent or empty result of
      the symbol provider, otherwise the pre-order of the tree sorted stably
      by start line. */
  method GetDocumentSymbols(symbols: Option<seq<DocumentSymbol>>) returns (r: seq<DocumentSymbol>)
    ensures symbols.None? ==> r == []
    ensures symbols.Some? ==> r == SortByLine(Flatten.PreOrder(symbols.value))
  {
    if symbols.None? || |symbols.value| == 0 {
      return [];
    }
    var flat := Flatten.FlattenDocSymbols(symbols.value);
    var a := new DocumentSymbol[|flat|](k requires 0 <= k < |flat| => flat[k]);
    assert a[..] == flat;
    SortInPlace(a);
    r := a[..];
  }

  /** What the picker's list holds: every node of the tree exactly once,
      ascending by start line, with the symbols of one line in pre-order. */
  lemma DocumentSymbolsOrder(ts: seq<DocumentSymbol>)
    ensures SortedByLine(SortByLine(Flatten.PreOrder(ts)))
    ensures multiset(SortByLine(Flatten.PreOrder(ts))) == multiset(Flatten.LevelOrder(ts))
    ensures forall line :: OnLine(SortByLine(Flatten.PreOrder(ts)), line) == OnLine(Flatten.PreOrder(ts), line)
  {
    SortByLineIsStableSort(Flatten.PreOrder(ts));
    Flatten.PreOrderVisitsEveryNodeOnce(ts);
  }
}
