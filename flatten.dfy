/** Flattening of the current file's symbol tree into one list: an explicit
    stack walk whose result is the pre-order of the forest. */
module Flatten {
  import opened Symbols

  /** The pre-order of a forest: each node, then its subtree, then its later
      siblings. This is the specification of the stack walk below. */
  function PreOrder(ts: seq<DocumentSymbol>): seq<DocumentSymbol>
  {
    if ts == [] then [] else [ts[0]] + PreOrder(ts[0].children) + PreOrder(ts[1..])
  }

  /** Number of nodes of a forest. */
  function Size(ts: seq<DocumentSymbol>): nat
  {
    if ts == [] then 0 else 1 + Size(ts[0].children) + Size(ts[1..])
  }

  /** The children of every root, root by root. */
  function Children(ts: seq<DocumentSymbol>): seq<DocumentSymbol>
  {
    if ts == [] then [] else ts[0].children + Children(ts[1..])
  }

  /** Breadth-first order: the roots, then the next level down, and so on.
      An independent reference for which nodes a traversal must visit. */
  function LevelOrder(ts: seq<DocumentSymbol>): seq<DocumentSymbol>
    decreases Size(ts)
  {
    if ts == [] then []
    else
      SizeOfChildren(ts);
      ts + LevelOrder(Children(ts))
  }

  function Reversed<T>(s: seq<T>): (r: seq<T>)
    ensures |r| == |s|
  {
    if s == [] then [] else Reversed(s[1..]) + [s[0]]
  }

  lemma {:induction false} ReversedOfAppend<T>(a: seq<T>, b: seq<T>)
    ensures Reversed(a + b) == Reversed(b) + Reversed(a)
  {
    if a == [] {
      assert a + b == b;
    } else {
      assert (a + b)[0] == a[0] && (a + b)[1..] == a[1..] + b;
      ReversedOfAppend(a[1..], b);
    }
  }

  lemma {:induction false} ReversedTwice<T>(s: seq<T>)
    ensures Reversed(Reversed(s)) == s
  {
    if s != [] {
      ReversedOfAppend(Reversed(s[1..]), [s[0]]);
      ReversedTwice(s[1..]);
      assert Reversed([s[0]]) == [s[0]];
    }
  }

  lemma {:induction false} PreOrderOfAppend(a: seq<DocumentSymbol>, b: seq<DocumentSymbol>)
    ensures PreOrder(a + b) == PreOrder(a) + PreOrder(b)
  {
    if a == [] {
      assert a + b == b;
    } else {
      assert (a + b)[0] == a[0] && (a + b)[1..] == a[1..] + b;
      PreOrderOfAppend(a[1..], b);
      calc {
        PreOrder(a + b);
        [a[0]] + PreOrder(a[0].children) + PreOrder(a[1..] + b);
        [a[0]] + PreOrder(a[0].children) + (PreOrder(a[1..]) + PreOrder(b));
        PreOrder(a) + PreOrder(b);
      }
    }
  }

  lemma {:induction false} SizeOfAppend(a: seq<DocumentSymbol>, b: seq<DocumentSymbol>)
    ensures Size(a + b) == Size(a) + Size(b)
  {
    if a == [] {
      assert a + b == b;
    } else {
      assert (a + b)[0] == a[0] && (a + b)[1..] == a[1..] + b;
      SizeOfAppend(a[1..], b);
    }
  }

  lemma {:induction false} SizeOfChildren(ts: seq<DocumentSymbol>)
    ensures Size(Children(ts)) + |ts| == Size(ts)
  {
    if ts != [] {
      SizeOfChildren(ts[1..]);
      SizeOfAppend(ts[0].children, Children(ts[1..]));
    }
  }

  /** The nodes the pre-order visits are the forest's nodes, each as often as
      a breadth-first visit meets it: every node exactly once. */
  lemma {:induction false} PreOrderVisitsEveryNodeOnce(ts: seq<DocumentSymbol>)
    ensures multiset(PreOrder(ts)) == multiset(LevelOrder(ts))
    ensures |PreOrder(ts)| == Size(ts)
    decreases Size(ts)
  {
    if ts != [] {
      SizeOfChildren(ts);
      PreOrderOfRootsAndChildren(ts);
      PreOrderVisitsEveryNodeOnce(Children(ts));
    }
  }

  /** The pre-order holds the roots once each, plus the pre-order of all
      their children. */
  lemma {:induction false} PreOrderOfRootsAndChildren(ts: seq<DocumentSymbol>)
    ensures multiset(PreOrder(ts)) == multiset(ts) + multiset(PreOrder(Children(ts)))
    ensures |PreOrder(ts)| == |ts| + |PreOrder(Children(ts))|
  {
    if ts != [] {
      PreOrderOfRootsAndChildren(ts[1..]);
      PreOrderOfAppend(ts[0].children, Children(ts[1..]));
      assert ts == [ts[0]] + ts[1..];
    }
  }

  /** Each node of the pre-order is immediately followed by the pre-order of
      its own children: a parent comes before its whole subtree, which is
      listed contiguously. */
  lemma {:induction false} SubtreeFollowsParent(ts: seq<DocumentSymbol>, i: nat)
    requires i < |PreOrder(ts)|
    ensures FollowedBySubtree(PreOrder(ts), i)
  {
    var p, c, r := PreOrder(ts), PreOrder(ts[0].children), PreOrder(ts[1..]);
    assert p == [ts[0]] + c + r;
    if i == 0 {
      assert ([ts[0]] + c)[1..] == c;
      FollowsInMiddle(p, [], [ts[0]] + c, r, 0, 0);
    } else if i <= |c| {
      SubtreeFollowsParent(ts[0].children, i - 1);
      FollowsInMiddle(p, [ts[0]], c, r, i, i - 1);
    } else {
      SubtreeFollowsParent(ts[1..], i - 1 - |c|);
      assert p == ([ts[0]] + c) + r + [];
      FollowsInMiddle(p, [ts[0]] + c, r, [], i, i - 1 - |c|);
    }
  }

  /** Node `i` of `p` is followed at once by the pre-order of its children. */
  ghost predicate FollowedBySubtree(p: seq<DocumentSymbol>, i: nat)
    requires i < |p|
  {
    var s := PreOrder(p[i].children);
    i + 1 + |s| <= |p| && p[i + 1 .. i + 1 + |s|] == s
  }

  /** A node followed by its subtree in the middle part of a concatenation
      is followed by it in the whole. */
  lemma FollowsInMiddle(p: seq<DocumentSymbol>, a: seq<DocumentSymbol>, q: seq<DocumentSymbol>, b: seq<DocumentSymbol>, i: nat, j: nat)
    requires p == a + q + b && i == |a| + j && j < |q|
    requires FollowedBySubtree(q, j)
    ensures i < |p| && FollowedBySubtree(p, i)
  {
    assert forall k :: 0 <= k < |q| ==> p[|a| + k] == q[k];
    var s := PreOrder(q[j].children);
    assert p[i] == q[j];
    assert p[i + 1 .. i + 1 + |s|] == q[j + 1 .. j + 1 + |s|];
  }

  /** Position of root `j` in the pre-order: after the subtrees of the roots
      before it. */
  function RootPosition(ts: seq<DocumentSymbol>, j: nat): nat
    requires j <= |ts|
  {
    |PreOrder(ts[..j])|
  }

  /** Every root sits at its position in the pre-order, and the roots keep
      their original order there. */
  lemma RootsKeepTheirOrder(ts: seq<DocumentSymbol>, j: nat, k: nat)
    requires j < k < |ts|
    ensures RootPosition(ts, j) < RootPosition(ts, k) < |PreOrder(ts)|
    ensures PreOrder(ts)[RootPosition(ts, j)] == ts[j]
    ensures PreOrder(ts)[RootPosition(ts, k)] == ts[k]
  {
    RootSitsAtItsPosition(ts, j);
    RootSitsAtItsPosition(ts, k);
    RootPositionGrows(ts, j, k);
  }

  lemma RootPositionGrows(ts: seq<DocumentSymbol>, j: nat, k: nat)
    requires j < k <= |ts|
    ensures RootPosition(ts, j) < RootPosition(ts, k)
  {
    assert ts[..k] == ts[..j] + ts[j..k];
    PreOrderOfAppend(ts[..j], ts[j..k]);
    assert ts[j..k] != [];
  }

  lemma RootSitsAtItsPosition(ts: seq<DocumentSymbol>, j: nat)
    requires j < |ts|
    ensures RootPosition(ts, j) < |PreOrder(ts)|
    ensures PreOrder(ts)[RootPosition(ts, j)] == ts[j]
  {
    assert ts == ts[..j] + ts[j..];
    PreOrderOfAppend(ts[..j], ts[j..]);
    assert PreOrder(ts[j..])[0] == ts[j];
  }

  /** Popping the top of the stack exposes that symbol's own pre-order first. */
  lemma PopStep(rest: seq<DocumentSymbol>, symbol: DocumentSymbol)
    ensures PreOrder(Reversed(rest + [symbol])) == [symbol] + PreOrder(symbol.children) + PreOrder(Reversed(rest))
  {
    ReversedOfAppend(rest, [symbol]);
    assert Reversed([symbol]) == [symbol];
    PreOrderOfAppend([symbol], Reversed(rest));
    assert [symbol][1..] == [];
  }

  /** Pushing a child list in reverse makes the children come out next, in order. */
  lemma PushStep(rest: seq<DocumentSymbol>, children: seq<DocumentSymbol>)
    ensures PreOrder(Reversed(rest + Reversed(children))) == PreOrder(children) + PreOrder(Reversed(rest))
  {
    ReversedOfAppend(rest, Reversed(children));
    ReversedTwice(children);
    PreOrderOfAppend(children, Reversed(rest));
  }

  /** One iteration of the walk keeps "emitted so far, then the pre-order of
      what the stack still holds" equal to the whole pre-order. */
  lemma WalkStep(done: seq<DocumentSymbol>, rest: seq<DocumentSymbol>, symbol: DocumentSymbol, target: seq<DocumentSymbol>)
    requires done + PreOrder(Reversed(rest + [symbol])) == target
    ensures |done| < |target|
    ensures (done + [symbol]) + PreOrder(Reversed(if |symbol.children| > 0 then rest + Reversed(symbol.children) else rest)) == target
  {
    PopStep(rest, symbol);
    var c, r := PreOrder(symbol.children), PreOrder(Reversed(rest));
    assert done + ([symbol] + c + r) == (done + [symbol]) + (c + r);
    if |symbol.children| > 0 {
      PushStep(rest, symbol.children);
    } else {
      assert c == [];
    }
  }

  /** The walk of the source: a stack that starts as the reversed roots; each
      step pops one symbol, appends it to the result and pushes its children
      in reverse, so that the first child is on top. */
  method FlattenDocSymbols(symbols: seq<DocumentSymbol>) returns (result: seq<DocumentSymbol>)
    ensures result == PreOrder(symbols)
  {
    result := [];
    var stack := Reversed(symbols);
    ReversedTwice(symbols);
    while |stack| > 0
      invariant result + PreOrder(Reversed(stack)) == PreOrder(symbols)
      decreases |PreOrder(symbols)| - |result|
    {
      var symbol := stack[|stack| - 1];
      var rest := stack[..|stack| - 1];
      assert stack == rest + [symbol];
      WalkStep(result, rest, symbol, PreOrder(symbols));
      ghost var next := if |symbol.children| > 0 then rest + Reversed(symbol.children) else rest;
      stack := rest;
      result := result + [symbol];
      if |symbol.children| > 0 {
        stack := stack + Reversed(symbol.children);
      }
      assert stack == next;
    }
  }
}
