/** OAuth scope strings: space-separated lists of tokens (section 3.3 of RFC 6749) and their normal form. */
module Scopes {

  // ---------------------------------------------------------------- split and parse

  function FirstSpace(s: string): (i: nat)
    requires ' ' in s
    ensures i < |s| && s[i] == ' ' && ' ' !in s[..i]
    ensures forall j | 0 <= j < i :: s[j] != ' '
  {
    if s[0] == ' ' then 0
    else
      assert s == [s[0]] + s[1..];
      var i := FirstSpace(s[1..]);
      assert s[..i + 1] == [s[0]] + s[1..][..i];
      i + 1
  }

  /** `s.split(' ')`. */
  function Split(s: string): (parts: seq<string>)
    ensures forall p | p in parts :: ' ' !in p
    decreases |s|
  {
    if ' ' !in s then [s]
    else
      var i := FirstSpace(s);
      [s[..i]] + Split(s[i + 1..])
  }

  /** `filter(Boolean)`. */
  function NonEmpty(parts: seq<string>): (r: seq<string>)
    ensures forall p :: p in r <==> p in parts && p != ""
  {
    if parts == [] then []
    else if parts[0] == "" then NonEmpty(parts[1..])
    else [parts[0]] + NonEmpty(parts[1..])
  }

  /** A legal scope token, as far as the code cares. */
  predicate IsToken(s: string) {
    s != "" && ' ' !in s
  }

  function ParseScope(s: string): (tokens: seq<string>)
    ensures forall t | t in tokens :: IsToken(t)
  {
    NonEmpty(Split(s))
  }

  // ---------------------------------------------------------------- the order of `sort()`

  predicate Less(a: string, b: string) {
    if a == "" then b != ""
    else b != "" && (a[0] < b[0] || (a[0] == b[0] && Less(a[1..], b[1..])))
  }

  lemma {:induction false} LessTrichotomy(a: string, b: string)
    ensures Less(a, b) || a == b || Less(b, a)
    ensures !(Less(a, b) && Less(b, a)) && !Less(a, a)
  {
    if a != "" {
      LessTrichotomy(a[1..], a[1..]);
      if b != "" {
        LessTrichotomy(a[1..], b[1..]);
        if a[0] == b[0] && a[1..] == b[1..] {
          assert a == [a[0]] + a[1..] == b;
        }
      }
    }
  }

  lemma {:induction false} LessTransitive(a: string, b: string, c: string)
    requires Less(a, b) && Less(b, c)
    ensures Less(a, c)
  {
    if a != "" && a[0] == b[0] == c[0] {
      LessTransitive(a[1..], b[1..], c[1..]);
    }
  }

  predicate StrictlySorted(xs: seq<string>) {
    forall i, j | 0 <= i < j < |xs| :: Less(xs[i], xs[j])
  }

  function Insert(x: string, xs: seq<string>): (r: seq<string>)
    ensures forall y :: y in r <==> y == x || y in xs
  {
    if xs == [] then [x]
    else if x == xs[0] then xs
    else if Less(x, xs[0]) then [x] + xs
    else [xs[0]] + Insert(x, xs[1..])
  }

  /** `Array.from(new Set(xs)).sort()`. */
  function SortedSet(xs: seq<string>): (r: seq<string>)
    ensures forall y :: y in r <==> y in xs
  {
    if xs == [] then [] else Insert(xs[0], SortedSet(xs[1..]))
  }

  lemma {:induction false} InsertKeepsSorted(x: string, xs: seq<string>)
    requires StrictlySorted(xs)
    ensures StrictlySorted(Insert(x, xs))
  {
    if xs != [] && x != xs[0] {
      LessTrichotomy(x, xs[0]);
      if Less(x, xs[0]) {
        forall j | 0 <= j < |xs| ensures Less(x, xs[j]) {
          if j > 0 {
            LessTransitive(x, xs[0], xs[j]);
          }
        }
      } else {
        InsertKeepsSorted(x, xs[1..]);
        var r := Insert(x, xs[1..]);
        forall j | 0 <= j < |r| ensures Less(xs[0], r[j]) {
          assert r[j] in r;
          if r[j] != x {
            var k :| 0 <= k < |xs[1..]| && xs[1..][k] == r[j];
            assert xs[k + 1] == r[j];
          }
        }
      }
    }
  }

  lemma {:induction false} SortedSetIsSorted(xs: seq<string>)
    ensures StrictlySorted(SortedSet(xs))
  {
    if xs != [] {
      SortedSetIsSorted(xs[1..]);
      InsertKeepsSorted(xs[0], SortedSet(xs[1..]));
    }
  }

  lemma SortedHeads(xs: seq<string>, ys: seq<string>)
    requires StrictlySorted(xs) && StrictlySorted(ys) && xs != [] && ys != []
    requires forall x :: x in xs <==> x in ys
    ensures xs[0] == ys[0]
  {
    HeadIsLeast(xs, ys[0]);
    HeadIsLeast(ys, xs[0]);
    LessTrichotomy(xs[0], ys[0]);
  }

  lemma HeadIsLeast(xs: seq<string>, x: string)
    requires StrictlySorted(xs) && x in xs
    ensures x == xs[0] || Less(xs[0], x)
  {
  }

  lemma TailElements(xs: seq<string>, x: string)
    requires StrictlySorted(xs) && xs != []
    ensures x in xs[1..] <==> x in xs && x != xs[0]
  {
    LessTrichotomy(xs[0], xs[0]);
    assert xs == [xs[0]] + xs[1..];
    if x in xs[1..] {
      var k :| 0 <= k < |xs[1..]| && xs[1..][k] == x;
      assert Less(xs[0], xs[k + 1]);
    }
  }

  /** A set of strings has one strictly sorted list. */
  lemma {:induction false} SortedListUnique(xs: seq<string>, ys: seq<string>)
    requires StrictlySorted(xs) && StrictlySorted(ys)
    requires forall x :: x in xs <==> x in ys
    ensures xs == ys
  {
    assert xs != [] ==> xs[0] in ys;
    assert ys != [] ==> ys[0] in xs;
    if xs != [] {
      SortedHeads(xs, ys);
      forall x ensures x in xs[1..] <==> x in ys[1..] {
        TailElements(xs, x);
        TailElements(ys, x);
      }
      SortedListUnique(xs[1..], ys[1..]);
      assert xs == [xs[0]] + xs[1..];
      assert ys == [ys[0]] + ys[1..];
    }
  }

  // ---------------------------------------------------------------- the normal form

  /** `xs.join(' ')`. */
  function Join(xs: seq<string>): string {
    if xs == [] then "" else if |xs| == 1 then xs[0] else xs[0] + " " + Join(xs[1..])
  }

  function NormalizeScope(xs: seq<string>): string {
    Join(SortedSet(xs))
  }

  lemma FirstSpaceAfter(head: string, rest: string)
    requires ' ' !in head
    ensures ' ' in head + " " + rest && FirstSpace(head + " " + rest) == |head|
  {
    var s := head + " " + rest;
    assert s[|head|] == ' ';
    assert forall k | 0 <= k < |head| :: s[k] == head[k];
  }

  predicate NoSpaces(xs: seq<string>) {
    forall i | 0 <= i < |xs| :: ' ' !in xs[i]
  }

  lemma SplitAtSpace(head: string, rest: string)
    requires ' ' !in head
    ensures Split(head + " " + rest) == [head] + Split(rest)
  {
    var s := head + " " + rest;
    FirstSpaceAfter(head, rest);
    assert s[..|head|] == head && s[|head| + 1..] == rest;
  }

  lemma {:induction false} SplitUndoesJoin(xs: seq<string>)
    requires xs != [] && NoSpaces(xs)
    ensures Split(Join(xs)) == xs
  {
    assert xs == [xs[0]] + xs[1..];
    if |xs| > 1 {
      SplitAtSpace(xs[0], Join(xs[1..]));
      SplitUndoesJoin(xs[1..]);
    }
  }

  lemma {:induction false} NonEmptyKeepsTokens(xs: seq<string>)
    requires forall i | 0 <= i < |xs| :: xs[i] != ""
    ensures NonEmpty(xs) == xs
  {
    if xs != [] {
      NonEmptyKeepsTokens(xs[1..]);
      assert xs == [xs[0]] + xs[1..];
    }
  }

  lemma ParseUndoesJoin(ys: seq<string>)
    requires forall i | 0 <= i < |ys| :: IsToken(ys[i])
    ensures ParseScope(Join(ys)) == ys
  {
    if ys == [] {
      assert Split("") == [""];
      assert NonEmpty([""]) == NonEmpty([""][1..]) == [];
    } else {
      SplitUndoesJoin(ys);
      NonEmptyKeepsTokens(ys);
    }
  }

  /** Parsing the normal form gives the sorted set of the tokens back, exactly when they are tokens. */
  lemma ParseUndoesNormalize(xs: seq<string>)
    ensures ParseScope(NormalizeScope(xs)) == SortedSet(xs) <==> forall x | x in xs :: IsToken(x)
  {
    var ys := SortedSet(xs);
    if forall x | x in xs :: IsToken(x) {
      forall i | 0 <= i < |ys| ensures IsToken(ys[i]) {
        assert ys[i] in xs;
      }
      ParseUndoesJoin(ys);
    }
    if ParseScope(NormalizeScope(xs)) == ys {
      forall x | x in xs ensures IsToken(x) {
        assert x in ys;
      }
    }
  }

  /** The normal form depends on the set of tokens only. */
  lemma NormalFormOfSet(xs: seq<string>, ys: seq<string>)
    requires forall x :: x in xs <==> x in ys
    ensures NormalizeScope(xs) == NormalizeScope(ys)
  {
    SortedSetIsSorted(xs);
    SortedSetIsSorted(ys);
    SortedListUnique(SortedSet(xs), SortedSet(ys));
  }

  /** Normalising a scope string a second time changes nothing, whatever the string. */
  lemma NormalizingIsIdempotent(s: string)
    ensures var n := NormalizeScope(ParseScope(s)); NormalizeScope(ParseScope(n)) == n
  {
    var tokens := ParseScope(s);
    ParseUndoesNormalize(tokens);
    NormalFormOfSet(tokens, SortedSet(tokens));
  }

  // ---------------------------------------------------------------- comparing scopes

  predicate IsSubsetScope(requested: seq<string>, allowed: seq<string>) {
    forall s | s in requested :: s in allowed
  }

  // ---------------------------------------------------------------- splitting and sorting, character by character

  /** The order is that of the characters: at the first difference the smaller one comes first, and a prefix before what it begins. */
  lemma {:induction false} LessExactly(a: string, b: string)
    ensures Less(a, b) <==> exists k | 0 <= k <= |a| && k < |b| :: a[..k] == b[..k] && (k == |a| || a[k] < b[k])
  {
    if a != "" && b != "" && a[0] == b[0] {
      var s, t := a[1..], b[1..];
      LessExactly(s, t);
      if Less(a, b) {
        var k :| 0 <= k <= |s| && k < |t| && s[..k] == t[..k] && (k == |s| || s[k] < t[k]);
        assert a[..k + 1] == [a[0]] + s[..k] && b[..k + 1] == [b[0]] + t[..k];
      }
      if k :| 0 <= k <= |a| && k < |b| && a[..k] == b[..k] && (k == |a| || a[k] < b[k]) {
        assert k > 0;
        assert s[..k - 1] == a[..k][1..] && t[..k - 1] == b[..k][1..];
        assert k - 1 == |s| || s[k - 1] < t[k - 1];
      }
    } else {
      assert a[..0] == b[..0];
      HeadsDiffer(a, b);
    }
  }

  lemma HeadsDiffer(a: string, b: string)
    ensures a != "" && b != "" && a[0] != b[0] ==> forall k | 0 < k <= |a| && k <= |b| :: a[..k] != b[..k]
  {
    if a != "" && b != "" && a[0] != b[0] {
      forall k | 0 < k <= |a| && k <= |b| ensures a[..k] != b[..k] {
        assert a[..k][0] != b[..k][0];
      }
    }
  }

  lemma JoinTwo(x: string, rest: seq<string>)
    requires rest != []
    ensures Join([x] + rest) == x + " " + Join(rest)
  {
    assert ([x] + rest)[1..] == rest;
  }

  /** Splitting a string at its spaces loses nothing: joined with spaces, the parts are the string. */
  lemma {:induction false} JoinUndoesSplit(s: string)
    ensures Split(s) != [] && Join(Split(s)) == s
    decreases |s|
  {
    if ' ' in s {
      var i := FirstSpace(s);
      JoinUndoesSplit(s[i + 1..]);
      JoinTwo(s[..i], Split(s[i + 1..]));
      assert s == s[..i] + " " + s[i + 1..];
    }
  }

  /** The tokens of a scope string are its parts in order, without the empty ones. */
  lemma {:induction false} NonEmptyOfAppend(a: seq<string>, x: string)
    ensures NonEmpty(a + [x]) == NonEmpty(a) + if x == "" then [] else [x]
  {
    if a == [] {
      assert [] + [x] == [x];
    } else {
      assert (a + [x])[1..] == a[1..] + [x];
      NonEmptyOfAppend(a[1..], x);
    }
  }
}
