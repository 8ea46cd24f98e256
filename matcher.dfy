/** The multi-token matcher: a query is lower-cased, trimmed and split on runs
    of whitespace, and a candidate is kept when every token occurs in its
    lower-cased name. */
module Matcher {
  import opened Symbols
  import Seqs

  /** The characters that JavaScript's `\s` class and `String.prototype.trim`
      treat as whitespace (they use the same set). */
  predicate IsWhitespace(c: char)
  {
    || c == ' ' || c == '\t' || c == '\n' || c == '\U{000B}' || c == '\U{000C}' || c == '\r'
    || c == '\U{00A0}' || c == '\U{1680}' || ('\U{2000}' <= c <= '\U{200A}')
    || c == '\U{2028}' || c == '\U{2029}' || c == '\U{202F}' || c == '\U{205F}'
    || c == '\U{3000}' || c == '\U{FEFF}'
  }

  predicate IsBlank(s: string)
  {
    forall k :: 0 <= k < |s| ==> IsWhitespace(s[k])
  }

  predicate HasNoWhitespace(s: string)
  {
    forall k :: 0 <= k < |s| ==> !IsWhitespace(s[k])
  }

  /** Non-empty, and neither starts nor ends with whitespace. */
  predicate IsTrimmed(s: string)
  {
    s != [] && !IsWhitespace(s[0]) && !IsWhitespace(s[|s| - 1])
  }

  /** ASCII case folding; other characters are left as they are. */
  function LowerChar(c: char): char
  {
    if 'A' <= c <= 'Z' then (c as int + 32) as char else c
  }

  function ToLower(s: string): string
  {
    seq(|s|, k requires 0 <= k < |s| => LowerChar(s[k]))
  }

  /** Drops the leading whitespace of `s`: the result is a suffix of `s`,
      what was dropped is blank, and what is left starts with a
      non-whitespace character unless it is empty. */
  function TrimStart(s: string): (r: string)
    ensures |r| <= |s| && r == s[|s| - |r|..]
    ensures forall k :: 0 <= k < |s| - |r| ==> IsWhitespace(s[k])
    ensures r == [] <==> IsBlank(s)
    ensures r != [] ==> !IsWhitespace(r[0])
  {
    if s != [] && IsWhitespace(s[0]) then
      var r := TrimStart(s[1..]);
      TrimStartStep(s, r);
      assert |r| < |s|;
      r
    else
      assert s != [] ==> !IsWhitespace(s[0]);
      s
  }

  /** The recursive step of `TrimStart`: cutting the tail of a string that
      starts with whitespace cuts the string itself. */
  lemma TrimStartStep(s: string, r: string)
    requires s != [] && IsWhitespace(s[0])
    requires |r| <= |s[1..]| && r == s[1..][|s[1..]| - |r|..]
    requires forall k :: 0 <= k < |s[1..]| - |r| ==> IsWhitespace(s[1..][k])
    requires r == [] <==> IsBlank(s[1..])
    ensures |r| <= |s| && r == s[|s| - |r|..]
    ensures forall k :: 0 <= k < |s| - |r| ==> IsWhitespace(s[k])
    ensures r == [] <==> IsBlank(s)
  {
    BlankCons(s);
    assert forall k :: 1 <= k < |s| ==> s[k] == s[1..][k - 1];
  }

  /** A string that starts with whitespace is blank exactly when its tail is. */
  lemma BlankCons(s: string)
    requires s != [] && IsWhitespace(s[0])
    ensures IsBlank(s) <==> IsBlank(s[1..])
  {
    assert forall k :: 0 <= k < |s| - 1 ==> s[1..][k] == s[k + 1];
  }

  /** A string that ends with whitespace is blank exactly when the rest is. */
  lemma BlankSnoc(s: string)
    requires s != [] && IsWhitespace(s[|s| - 1])
    ensures IsBlank(s) <==> IsBlank(s[..|s| - 1])
  {
    assert forall k :: 0 <= k < |s| - 1 ==> s[..|s| - 1][k] == s[k];
  }

  /** Drops the trailing whitespace of `s`: the result is a prefix of `s`,
      what was dropped is blank, and what is left ends with a
      non-whitespace character unless it is empty. */
  function TrimEnd(s: string): (r: string)
    ensures |r| <= |s| && r == s[..|r|]
    ensures forall k :: |r| <= k < |s| ==> IsWhitespace(s[k])
    ensures r == [] <==> IsBlank(s)
    ensures r != [] ==> !IsWhitespace(r[|r| - 1])
  {
    if s != [] && IsWhitespace(s[|s| - 1]) then
      var r := TrimEnd(s[..|s| - 1]);
      TrimEndStep(s, r);
      r
    else
      assert s != [] ==> !IsWhitespace(s[|s| - 1]);
      s
  }

  /** The recursive step of `TrimEnd`: cutting the front of a string that
      ends with whitespace cuts the string itself. */
  lemma TrimEndStep(s: string, r: string)
    requires s != [] && IsWhitespace(s[|s| - 1])
    requires |r| <= |s| - 1 && r == s[..|s| - 1][..|r|]
    requires IsBlank(s[..|s| - 1][|r|..])
    requires r == [] <==> IsBlank(s[..|s| - 1])
    ensures |r| <= |s| && r == s[..|r|]
    ensures forall k :: |r| <= k < |s| ==> IsWhitespace(s[k])
    ensures r == [] <==> IsBlank(s)
  {
    BlankSnoc(s);
    assert forall k :: 0 <= k < |s| - 1 ==> s[k] == s[..|s| - 1][k];
  }

  /** `s` is `r` surrounded by blank text, `r` starting at index `i`. */
  ghost predicate Surrounds(s: string, i: nat, r: string)
  {
    i + |r| <= |s| && r == s[i..i + |r|] && IsBlank(s[..i]) && IsBlank(s[i + |r|..])
  }

  /** `String.prototype.trim`: the result is `s` with a blank prefix and a
      blank suffix cut off; it is empty exactly for a blank input, and
      otherwise starts and ends with a non-whitespace character. */
  function Trim(s: string): (r: string)
    ensures exists i :: Surrounds(s, i, r)
    ensures r == [] <==> IsBlank(s)
    ensures r != [] ==> IsTrimmed(r)
  {
    var t := TrimStart(s);
    var r := TrimEnd(t);
    TrimCutsBlankEnds(s, t, r);
    r
  }

  /** Cutting the leading whitespace (giving `t`) and then the trailing
      whitespace (giving `r`) trims `s`; the cut starts where the first
      step stopped. */
  lemma TrimCutsBlankEnds(s: string, t: string, r: string)
    requires |t| <= |s| && t == s[|s| - |t|..]
    requires forall k :: 0 <= k < |s| - |t| ==> IsWhitespace(s[k])
    requires t == [] <==> IsBlank(s)
    requires t != [] ==> !IsWhitespace(t[0])
    requires |r| <= |t| && r == t[..|r|]
    requires forall k :: |r| <= k < |t| ==> IsWhitespace(t[k])
    requires r == [] <==> IsBlank(t)
    requires r != [] ==> !IsWhitespace(r[|r| - 1])
    ensures Surrounds(s, |s| - |t|, r)
    ensures r == [] <==> IsBlank(s)
    ensures r != [] ==> IsTrimmed(r)
  {
    assert r != [] ==> r[0] == t[0];
    var i := |s| - |t|;
    assert s[i..i + |r|] == t[..|r|];
    assert forall k :: i + |r| <= k < |s| ==> s[k] == t[k - i];
  }

  /** Index of the first whitespace character of `s`, or `|s|`. */
  function FirstWhitespace(s: string): (i: nat)
    ensures i <= |s|
    ensures i < |s| ==> IsWhitespace(s[i])
    ensures HasNoWhitespace(s[..i])
  {
    if s == [] || IsWhitespace(s[0]) then 0
    else
      var i := 1 + FirstWhitespace(s[1..]);
      assert s[..i] == [s[0]] + s[1..][..i - 1];
      i
  }

  /** Index just past the run of whitespace that starts at `i`. */
  function EndOfRun(s: string, i: nat): (j: nat)
    requires i <= |s|
    ensures i <= j <= |s|
    ensures IsBlank(s[i..j])
    ensures j < |s| ==> !IsWhitespace(s[j])
    decreases |s| - i
  {
    if i < |s| && IsWhitespace(s[i]) then
      var j := EndOfRun(s, i + 1);
      assert s[i..j] == [s[i]] + s[i + 1..j];
      j
    else i
  }

  /** A stretch without whitespace followed by whitespace (or the end) is
      the first word. */
  lemma {:induction false} FirstWhitespaceIs(s: string, i: nat)
    requires i <= |s| && HasNoWhitespace(s[..i])
    requires i < |s| ==> IsWhitespace(s[i])
    ensures FirstWhitespace(s) == i
  {
    if i > 0 {
      assert s[0] == s[..i][0];
      assert s[1..][..i - 1] == s[..i][1..];
      FirstWhitespaceIs(s[1..], i - 1);
    }
  }

  /** A blank stretch followed by a non-whitespace character (or the end) is
      exactly one run. */
  lemma {:induction false} EndOfRunIs(s: string, i: nat, j: nat)
    requires i <= j <= |s| && IsBlank(s[i..j])
    requires j < |s| ==> !IsWhitespace(s[j])
    ensures EndOfRun(s, i) == j
    decreases j - i
  {
    if i < j {
      assert s[i] == s[i..j][0];
      assert s[i + 1..j] == s[i..j][1..];
      EndOfRunIs(s, i + 1, j);
    }
  }

  /** `s.split(/\s+/)`: the pieces between maximal runs of whitespace. A
      leading or trailing run yields an empty first or last piece, and the
      empty string yields `[""]`. */
  function SplitWhitespace(s: string): (r: seq<string>)
    ensures |r| >= 1
    ensures forall k :: 0 <= k < |r| ==> HasNoWhitespace(r[k])
    decreases |s|
  {
    var i := FirstWhitespace(s);
    if i == |s| then
      assert s[..i] == s;
      [s]
    else
      [s[..i]] + SplitWhitespace(s[EndOfRun(s, i)..])
  }

  /** The tokens of a query: `value.toLowerCase().trim().split(/\s+/)`. */
  function Tokens(q: string): seq<string>
  {
    SplitWhitespace(Trim(ToLower(q)))
  }

  /** `needle` occurs in `hay` starting at index `i`. */
  predicate OccursAt(hay: string, needle: string, i: int)
  {
    0 <= i <= |hay| - |needle| && hay[i..i + |needle|] == needle
  }

  /** `hay.includes(needle)`. */
  function Includes(hay: string, needle: string): (b: bool)
    ensures b <==> exists i :: OccursAt(hay, needle, i)
  {
    if |needle| > |hay| then false
    else if hay[..|needle|] == needle then
      assert OccursAt(hay, needle, 0);
      true
    else
      var r := Includes(hay[1..], needle);
      assert r ==> exists i :: OccursAt(hay, needle, i) by {
        if r {
          var i :| OccursAt(hay[1..], needle, i);
          assert hay[i + 1..i + 1 + |needle|] == hay[1..][i..i + |needle|];
          assert OccursAt(hay, needle, i + 1);
        }
      }
      assert (exists i :: OccursAt(hay, needle, i)) ==> r by {
        if i :| OccursAt(hay, needle, i) {
          assert hay[1..][i - 1..i - 1 + |needle|] == hay[i..i + |needle|];
          assert OccursAt(hay[1..], needle, i - 1);
        }
      }
      r
  }

  /** `tokens.every(word => hay.includes(word))`. */
  function Every(tokens: seq<string>, hay: string): (b: bool)
    ensures b <==> forall t :: t in tokens ==> Includes(hay, t)
  {
    if tokens == [] then true
    else
      var rest := Every(tokens[1..], hay);
      assert forall t :: t in tokens <==> t == tokens[0] || t in tokens[1..] by {
        assert tokens == [tokens[0]] + tokens[1..];
      }
      Includes(hay, tokens[0]) && rest
  }

  /** The filter predicate of the picker. */
  predicate Matches(q: string, name: string)
  {
    Every(Tokens(q), ToLower(name))
  }

  /** `s.filter(sym => Matches(q, sym.name))` over the picker's candidates. */
  function FilterByQuery(cs: seq<Candidate>, q: string): (r: seq<Candidate>)
    ensures |r| <= |cs|
    ensures IsSubsequence(r, cs)
    ensures forall c :: multiset(r)[c] == if Matches(q, c.Name()) then multiset(cs)[c] else 0
  {
    if cs == [] then []
    else
      var rest := FilterByQuery(cs[1..], q);
      assert cs == [cs[0]] + cs[1..];
      assert multiset(cs) == multiset([cs[0]]) + multiset(cs[1..]);
      if Matches(q, cs[0].Name()) then
        SubsequenceCons(rest, cs[0], cs[1..]);
        assert multiset([cs[0]] + rest) == multiset([cs[0]]) + multiset(rest);
        [cs[0]] + rest
      else
        SubsequenceSkip(rest, cs[0], cs[1..]);
        rest
  }

  /** `a` is `b` with some elements left out, in order: each element of `b`
      is either matched with the next element of `a` or skipped. */
  predicate IsSubsequence<T(==)>(a: seq<T>, b: seq<T>)
    decreases |b|
  {
    if b == [] then a == []
    else (a != [] && a[0] == b[0] && IsSubsequence(a[1..], b[1..])) || IsSubsequence(a, b[1..])
  }

  lemma SubsequenceCons<T>(a: seq<T>, x: T, b: seq<T>)
    requires IsSubsequence(a, b)
    ensures IsSubsequence([x] + a, [x] + b)
  {
    assert ([x] + a)[1..] == a && ([x] + b)[1..] == b;
  }

  lemma SubsequenceSkip<T>(a: seq<T>, x: T, b: seq<T>)
    requires IsSubsequence(a, b)
    ensures IsSubsequence(a, [x] + b)
  {
    assert ([x] + b)[1..] == b;
  }

  // ---------------------------------------------------------------------
  // Properties of the tokenizer

  lemma LowerCharKeepsWhitespace(c: char)
    ensures IsWhitespace(LowerChar(c)) <==> IsWhitespace(c)
  {
  }

  lemma ToLowerKeepsWhitespace(s: string)
    ensures IsBlank(ToLower(s)) <==> IsBlank(s)
    ensures IsTrimmed(ToLower(s)) <==> IsTrimmed(s)
  {
    forall k | 0 <= k < |s| ensures IsWhitespace(ToLower(s)[k]) <==> IsWhitespace(s[k]) {
      LowerCharKeepsWhitespace(s[k]);
    }
  }

  lemma ToLowerIdempotent(s: string)
    ensures ToLower(ToLower(s)) == ToLower(s)
  {
  }

  lemma ToLowerOfAppend(a: string, b: string)
    ensures ToLower(a + b) == ToLower(a) + ToLower(b)
  {
  }

  lemma {:induction false} TrimOfTrimmed(s: string)
    requires IsTrimmed(s)
    ensures Trim(s) == s
  {
  }

  /** A trimmed string splits into non-empty tokens only. */
  lemma {:induction false} SplitTrimmedHasNoEmptyToken(s: string)
    requires IsTrimmed(s)
    ensures forall k :: 0 <= k < |SplitWhitespace(s)| ==> SplitWhitespace(s)[k] != []
    decreases |s|
  {
    var i := FirstWhitespace(s);
    if i < |s| {
      var j := RestAfterFirstWord(s);
      SplitTrimmedHasNoEmptyToken(s[j..]);
    }
  }

  /** In a trimmed string with whitespace inside, the first run of
      whitespace ends before the end, and what follows it is trimmed. */
  lemma RestAfterFirstWord(s: string) returns (j: nat)
    requires IsTrimmed(s) && FirstWhitespace(s) < |s|
    ensures j == EndOfRun(s, FirstWhitespace(s))
    ensures FirstWhitespace(s) < j < |s| && IsTrimmed(s[j..])
  {
    var i := FirstWhitespace(s);
    j := EndOfRun(s, i);
    assert j > i;
    assert IsWhitespace(s[j - 1]) by {
      assert s[j - 1] == s[i..j][j - 1 - i];
    }
    assert s[j..][0] == s[j] && s[j..][|s[j..]| - 1] == s[|s| - 1];
  }

  /** A blank query has the single token `""`, and only a blank query
      produces an empty token: runs of whitespace and leading or trailing
      whitespace never yield spurious empty tokens. */
  lemma BlankQueryTokens(q: string)
    ensures Tokens(q) == [""] <==> IsBlank(q)
    ensures "" in Tokens(q) ==> IsBlank(q)
  {
    ToLowerKeepsWhitespace(q);
    var t := Trim(ToLower(q));
    if IsBlank(q) {
      assert t == [];
      assert FirstWhitespace(t) == 0;
    } else {
      SplitTrimmedHasNoEmptyToken(t);
    }
  }

  lemma EmptyIsIncluded(hay: string)
    ensures Includes(hay, "")
  {
    assert hay[0..0] == "";
  }

  /** A blank (or empty) query keeps every candidate. */
  lemma BlankQueryMatchesAll(q: string, name: string)
    requires IsBlank(q)
    ensures Matches(q, name)
  {
    BlankQueryTokens(q);
    EmptyIsIncluded(ToLower(name));
  }

  /** Matching ignores the case of the query and of the name. */
  lemma MatchIgnoresCase(q: string, name: string)
    ensures Matches(ToLower(q), name) == Matches(q, name)
    ensures Matches(q, ToLower(name)) == Matches(q, name)
  {
    ToLowerIdempotent(q);
    ToLowerIdempotent(name);
  }

  /** Splitting at a whitespace gap between two trimmed parts splits each
      part on its own. */
  lemma {:induction false} SplitAcrossGap(a: string, gap: string, b: string)
    requires IsTrimmed(a) && IsTrimmed(b)
    requires gap != [] && IsBlank(gap)
    ensures SplitWhitespace(a + gap + b) == SplitWhitespace(a) + SplitWhitespace(b)
    decreases |a|
  {
    var i := FirstWhitespace(a);
    if i == |a| {
      SplitOneWordAcrossGap(a, gap, b);
    } else {
      var j := SplitFirstWordAcrossGap(a, gap, b);
      var w, x, y := [a[..i]], SplitWhitespace(a[j..]), SplitWhitespace(b);
      assert SplitWhitespace(a[j..] + gap + b) == x + y by {
        SplitAcrossGap(a[j..], gap, b);
      }
      calc {
        SplitWhitespace(a + gap + b);
        w + SplitWhitespace(a[j..] + gap + b);
        w + (x + y);
        { Seqs.ConcatAssoc(w, x, y); }
        (w + x) + y;
        SplitWhitespace(a) + SplitWhitespace(b);
      }
    }
  }

  /** The first word of a query with no whitespace inside `a` is `a` itself. */
  lemma SplitOneWordAcrossGap(a: string, gap: string, b: string)
    requires IsTrimmed(a) && IsTrimmed(b)
    requires gap != [] && IsBlank(gap)
    requires FirstWhitespace(a) == |a|
    ensures SplitWhitespace(a + gap + b) == SplitWhitespace(a) + SplitWhitespace(b)
  {
    var s := a + gap + b;
    assert s[..|a|] == a;
    assert s[|a|] == gap[0];
    FirstWhitespaceIs(s, |a|);
    assert s[|a|..|a| + |gap|] == gap && s[|a| + |gap|] == b[0];
    EndOfRunIs(s, |a|, |a| + |gap|);
    assert s[|a| + |gap|..] == b;
    assert a[..|a|] == a;
  }

  /** When `a` has whitespace inside, the split of `a + gap + b` starts like
      the split of `a`, and continues with the rest of `a` after its first
      run of whitespace, at index `j`. */
  lemma SplitFirstWordAcrossGap(a: string, gap: string, b: string) returns (j: nat)
    requires IsTrimmed(a) && IsTrimmed(b)
    requires gap != [] && IsBlank(gap)
    requires FirstWhitespace(a) < |a|
    ensures j == EndOfRun(a, FirstWhitespace(a)) && j < |a| && IsTrimmed(a[j..])
    ensures |a[j..]| < |a|
    ensures SplitWhitespace(a) == [a[..FirstWhitespace(a)]] + SplitWhitespace(a[j..])
    ensures SplitWhitespace(a + gap + b) == [a[..FirstWhitespace(a)]] + SplitWhitespace(a[j..] + gap + b)
  {
    var s := a + gap + b;
    var i := FirstWhitespace(a);
    assert s[..i] == a[..i] && s[i] == a[i];
    FirstWhitespaceIs(s, i);
    j := RestAfterFirstWord(a);
    assert s[i..j] == a[i..j] && s[j] == a[j];
    EndOfRunIs(s, i, j);
    Seqs.ConcatAssoc(a, gap, b);
    Seqs.DropOfAppend(a, gap + b, j);
    Seqs.ConcatAssoc(a[j..], gap, b);
  }

  /** Two trimmed query parts joined by whitespace have the tokens of the
      first followed by the tokens of the second. */
  lemma TokensOfTwoParts(a: string, gap: string, b: string)
    requires IsTrimmed(a) && IsTrimmed(b)
    requires gap != [] && IsBlank(gap)
    ensures Tokens(a + gap + b) == Tokens(a) + Tokens(b)
  {
    ToLowerOfAppend(a + gap, b);
    ToLowerOfAppend(a, gap);
    ToLowerKeepsWhitespace(a);
    ToLowerKeepsWhitespace(gap);
    ToLowerKeepsWhitespace(b);
    var la, lg, lb := ToLower(a), ToLower(gap), ToLower(b);
    assert IsTrimmed(la + lg + lb) by {
      assert (la + lg + lb)[0] == la[0];
      assert (la + lg + lb)[|la + lg + lb| - 1] == lb[|lb| - 1];
    }
    TrimOfTrimmed(la + lg + lb);
    TrimOfTrimmed(la);
    TrimOfTrimmed(lb);
    SplitAcrossGap(la, lg, lb);
  }

  /** A query made of two whitespace-separated parts matches exactly when
      each part matches on its own: adding words only narrows the result,
      and the order of the words does not matter. */
  lemma MatchOfTwoParts(a: string, gap: string, b: string, name: string)
    requires IsTrimmed(a) && IsTrimmed(b)
    requires gap != [] && IsBlank(gap)
    ensures Matches(a + gap + b, name) <==> Matches(a, name) && Matches(b, name)
    ensures Matches(a + gap + b, name) <==> Matches(b + gap + a, name)
  {
    TokensOfTwoParts(a, gap, b);
    TokensOfTwoParts(b, gap, a);
  }

  /** Words joined by single spaces. */
  function JoinWithSpaces(words: seq<string>): string
    requires |words| >= 1
  {
    if |words| == 1 then words[0] else words[0] + " " + JoinWithSpaces(words[1..])
  }

  /** Non-empty words without whitespace, as the tokens of a non-blank
      query are. */
  predicate AreWords(words: seq<string>)
  {
    forall k :: 0 <= k < |words| ==> words[k] != [] && HasNoWhitespace(words[k])
  }

  /** Splitting undoes joining with single spaces. */
  lemma {:induction false} SplitJoinRoundTrip(words: seq<string>)
    requires |words| >= 1 && AreWords(words)
    ensures SplitWhitespace(JoinWithSpaces(words)) == words
  {
    var w := words[0];
    if |words| == 1 {
      assert w[..|w|] == w;
      FirstWhitespaceIs(w, |w|);
    } else {
      SplitJoinRoundTrip(words[1..]);
      JoinedStartsWithWord(words[1..]);
      SplitAtSingleSpace(w, JoinWithSpaces(words[1..]));
      assert words == [w] + words[1..];
    }
  }

  /** A word, one space and a string that starts with a non-whitespace
      character split into the word and the pieces of that string. */
  lemma SplitAtSingleSpace(w: string, rest: string)
    requires HasNoWhitespace(w) && rest != [] && !IsWhitespace(rest[0])
    ensures SplitWhitespace(w + " " + rest) == [w] + SplitWhitespace(rest)
  {
    var s := w + " " + rest;
    assert s[..|w|] == w && s[|w|] == ' ';
    FirstWhitespaceIs(s, |w|);
    assert s[|w|..|w| + 1] == " " && s[|w| + 1] == rest[0];
    EndOfRunIs(s, |w|, |w| + 1);
    assert s[|w| + 1..] == rest;
  }

  /** A joined string starts with the first letter of its first word. */
  lemma JoinedStartsWithWord(words: seq<string>)
    requires |words| >= 1 && AreWords(words)
    ensures JoinWithSpaces(words) != [] && JoinWithSpaces(words)[0] == words[0][0]
  {
  }

  /** The tokens of a query written as lower-case words separated by single
      spaces are exactly those words. */
  lemma TokensOfJoinedWords(words: seq<string>)
    requires |words| >= 1 && AreWords(words)
    requires forall k :: 0 <= k < |words| ==> ToLower(words[k]) == words[k]
    ensures Tokens(JoinWithSpaces(words)) == words
  {
    var s := JoinWithSpaces(words);
    LowerJoin(words);
    JoinedStartsWithWord(words);
    JoinedEndsWithWord(words);
    TrimOfTrimmed(s);
    SplitJoinRoundTrip(words);
  }

  lemma {:induction false} LowerJoin(words: seq<string>)
    requires |words| >= 1
    requires forall k :: 0 <= k < |words| ==> ToLower(words[k]) == words[k]
    ensures ToLower(JoinWithSpaces(words)) == JoinWithSpaces(words)
  {
    if |words| > 1 {
      LowerJoin(words[1..]);
      ToLowerOfAppend(words[0] + " ", JoinWithSpaces(words[1..]));
      ToLowerOfAppend(words[0], " ");
    }
  }

  lemma {:induction false} JoinedEndsWithWord(words: seq<string>)
    requires |words| >= 1 && AreWords(words)
    ensures JoinWithSpaces(words) != []
    ensures JoinWithSpaces(words)[|JoinWithSpaces(words)| - 1] == words[|words| - 1][|words[|words| - 1]| - 1]
  {
    if |words| > 1 {
      JoinedEndsWithWord(words[1..]);
    }
  }

  // ---------------------------------------------------------------------
  // Properties of the filter

  /** A blank query shows every candidate. */
  lemma {:induction false} BlankQueryKeepsAll(cs: seq<Candidate>, q: string)
    requires IsBlank(q)
    ensures FilterByQuery(cs, q) == cs
  {
    if cs != [] {
      BlankQueryMatchesAll(q, cs[0].Name());
      BlankQueryKeepsAll(cs[1..], q);
    }
  }

  /** Filtering twice with the same query changes nothing. */
  lemma {:induction false} FilterIdempotent(cs: seq<Candidate>, q: string)
    ensures FilterByQuery(FilterByQuery(cs, q), q) == FilterByQuery(cs, q)
  {
    if cs != [] {
      FilterIdempotent(cs[1..], q);
      var rest := FilterByQuery(cs[1..], q);
      if Matches(q, cs[0].Name()) {
        assert ([cs[0]] + rest)[1..] == rest;
      }
    }
  }

  /** A candidate is shown exactly when its name matches the query. */
  lemma FilterKeepsExactlyMatches(cs: seq<Candidate>, q: string, c: Candidate)
    ensures c in FilterByQuery(cs, q) <==> c in cs && Matches(q, c.Name())
  {
    var r := FilterByQuery(cs, q);
    assert c in r <==> multiset(r)[c] > 0;
    assert c in cs <==> multiset(cs)[c] > 0;
  }

  /** The items shown for a query: the matching candidates in their original
      order, each with its label and range. */
  function DisplayedItems(cs: seq<Candidate>, q: string): (items: seq<PickItem>)
    ensures |items| <= |cs|
    ensures forall k :: 0 <= k < |items| ==> Matches(q, items[k].candidate.Name())
  {
    var r := FilterByQuery(cs, q);
    forall k | 0 <= k < |r| ensures Matches(q, r[k].Name()) {
      assert multiset(r)[r[k]] > 0;
    }
    ItemsOf(r)
  }
}
