/**
 * String helpers shared by the client and the server: whitespace trimming
 * (JavaScript's `String.prototype.trim` and Python's `str.strip`, which
 * disagree on what whitespace is), Python's `str.split` on one separator,
 * `str.join`, and the "strip every part, drop the empty ones" comprehension
 * that both the server's origin list and its PDF text assembly use.
 */
module Text {

  /** ECMAScript's WhiteSpace and LineTerminator characters, which `String.prototype.trim` removes. */
  const JsSpaces: set<char> := {
    '\U{0009}', '\U{000A}', '\U{000B}', '\U{000C}', '\U{000D}', '\U{0020}', '\U{00A0}',
    '\U{1680}', '\U{2000}', '\U{2001}', '\U{2002}', '\U{2003}', '\U{2004}', '\U{2005}',
    '\U{2006}', '\U{2007}', '\U{2008}', '\U{2009}', '\U{200A}', '\U{2028}', '\U{2029}',
    '\U{202F}', '\U{205F}', '\U{3000}', '\U{FEFF}'
  }

  /** The characters for which Python's `str.isspace` holds, which `str.strip()` removes. */
  const PySpaces: set<char> := {
    '\U{0009}', '\U{000A}', '\U{000B}', '\U{000C}', '\U{000D}', '\U{001C}', '\U{001D}',
    '\U{001E}', '\U{001F}', '\U{0020}', '\U{0085}', '\U{00A0}', '\U{1680}', '\U{2000}',
    '\U{2001}', '\U{2002}', '\U{2003}', '\U{2004}', '\U{2005}', '\U{2006}', '\U{2007}',
    '\U{2008}', '\U{2009}', '\U{200A}', '\U{2028}', '\U{2029}', '\U{202F}', '\U{205F}',
    '\U{3000}'
  }

  /** Drops leading characters in `spaces`: the result is the longest suffix of `s` that does not start with one. */
  function TrimStart(s: string, spaces: set<char>): (r: string)
    ensures |r| <= |s| && r == s[|s| - |r|..]
    ensures forall i :: 0 <= i < |s| - |r| ==> s[i] in spaces
    ensures r != [] ==> r[0] !in spaces
    decreases |s|
  {
    if s != [] && s[0] in spaces then
      var r := TrimStart(s[1..], spaces);
      assert forall i :: 1 <= i < |s| ==> s[i] == s[1..][i - 1];
      r
    else s
  }

  /** Drops trailing characters in `spaces`: the result is the longest prefix of `s` that does not end with one. */
  function TrimEnd(s: string, spaces: set<char>): (r: string)
    ensures |r| <= |s| && r == s[..|r|]
    ensures forall i :: |r| <= i < |s| ==> s[i] in spaces
    ensures r != [] ==> r[|r| - 1] !in spaces
    decreases |s|
  {
    if s != [] && s[|s| - 1] in spaces then
      var r := TrimEnd(s[..|s| - 1], spaces);
      assert forall i :: 0 <= i < |s| - 1 ==> s[i] == s[..|s| - 1][i];
      r
    else s
  }

  /** A non-empty string that neither starts nor ends with a character in `spaces`. */
  predicate IsCleanPart(x: string, spaces: set<char>) {
    x != [] && x[0] !in spaces && x[|x| - 1] !in spaces
  }

  /** Every part is clean. */
  predicate AllClean(xs: seq<string>, spaces: set<char>) {
    forall i :: 0 <= i < |xs| ==> IsCleanPart(xs[i], spaces)
  }

  /** No part holds `c`. */
  predicate NoneContains(xs: seq<string>, c: char) {
    forall i :: 0 <= i < |xs| ==> c !in xs[i]
  }

  /** Every part strips to nothing. */
  predicate AllBlank(parts: seq<string>, spaces: set<char>) {
    forall i :: 0 <= i < |parts| ==> Strip(parts[i], spaces) == []
  }

  /** Removes surrounding characters in `spaces` from both ends. */
  function Strip(s: string, spaces: set<char>): (r: string)
    ensures |r| <= |s|
    ensures r != [] ==> IsCleanPart(r, spaces)
    ensures r == [] <==> forall i :: 0 <= i < |s| ==> s[i] in spaces
    ensures IsCleanPart(s, spaces) ==> r == s
  {
    var t := TrimStart(s, spaces);
    TrimEndKeepsHead(t, spaces);
    TrimStartOfBlank(s, spaces);
    TrimEnd(t, spaces)
  }

  lemma TrimEndKeepsHead(t: string, spaces: set<char>)
    ensures t != [] && t[0] !in spaces ==> TrimEnd(t, spaces) != [] && TrimEnd(t, spaces)[0] == t[0]
  {
  }

  lemma TrimStartOfBlank(s: string, spaces: set<char>)
    ensures (forall i :: 0 <= i < |s| ==> s[i] in spaces) <==> TrimStart(s, spaces) == []
  {
    var t := TrimStart(s, spaces);
    if t != [] {
      assert t[0] == s[|s| - |t|];
    }
  }

  /** `s[..n]` as Python and JavaScript slice it: the whole string when it is shorter. */
  function Take<T>(s: seq<T>, n: nat): (r: seq<T>)
    ensures |r| == if |s| <= n then |s| else n
    ensures r == s[..|r|]
  {
    if |s| <= n then s else s[..n]
  }

  /** The total length of the parts. */
  function TotalLength(xs: seq<string>): nat {
    if xs == [] then 0 else |xs[0]| + TotalLength(xs[1..])
  }

  /** Python's `sep.join(xs)`: the parts in order, with `sep` between neighbours. */
  function Join(xs: seq<string>, sep: string): (r: string)
    ensures xs == [] ==> r == []
    ensures xs != [] ==> |r| == TotalLength(xs) + (|xs| - 1) * |sep|
    ensures xs != [] ==> r[..|xs[0]|] == xs[0]
    ensures |xs| >= 2 ==> r[|xs[0]|..][..|sep|] == sep
  {
    if |xs| == 0 then ""
    else if |xs| == 1 then xs[0]
    else xs[0] + sep + Join(xs[1..], sep)
  }

  /** Python's `s.split(sep)` for a one-character separator: the pieces between separators, at least one. */
  function Split(s: string, sep: char): (r: seq<string>)
    ensures |r| >= 1
    ensures NoneContains(r, sep)
    ensures Join(r, [sep]) == s
    decreases |s|
  {
    if s == [] then [[]]
    else
      var rest := Split(s[1..], sep);
      if s[0] == sep then
        assert ([[]] + rest)[1..] == rest;
        [[]] + rest
      else
        var r := [[s[0]] + rest[0]] + rest[1..];
        assert forall i :: 1 <= i < |r| ==> r[i] == rest[i];
        JoinPrependsToFirst([s[0]], rest, [sep]);
        assert s == [s[0]] + s[1..];
        r
  }

  lemma JoinPrependsToFirst(c: string, xs: seq<string>, sep: string)
    requires |xs| >= 1
    ensures Join([c + xs[0]] + xs[1..], sep) == c + Join(xs, sep)
  {
    var ys := [c + xs[0]] + xs[1..];
    if |xs| > 1 {
      assert ys[1..] == xs[1..];
    }
  }

  /** The strip-every-part-and-drop-the-empty-ones comprehension `[p.strip() for p in parts if p.strip()]`. */
  function CleanParts(parts: seq<string>, spaces: set<char>): (r: seq<string>)
    ensures |r| <= |parts|
    ensures AllClean(r, spaces)
  {
    if parts == [] then []
    else
      var h := Strip(parts[0], spaces);
      (if h == [] then [] else [h]) + CleanParts(parts[1..], spaces)
  }

  /** Stripping keeps a contiguous piece of the input and removes only characters in `spaces` around it. */
  lemma StripIsInfix(s: string, spaces: set<char>)
    ensures exists i, j ::
      && 0 <= i <= j <= |s| && Strip(s, spaces) == s[i..j]
      && (forall k :: 0 <= k < i ==> s[k] in spaces)
      && (forall k :: j <= k < |s| ==> s[k] in spaces)
  {
    var i, j := StripWindow(s, spaces);
  }

  /** The bounds of the piece `Strip` keeps. */
  lemma StripWindow(s: string, spaces: set<char>) returns (i: int, j: int)
    ensures 0 <= i <= j <= |s| && Strip(s, spaces) == s[i..j]
    ensures forall k :: 0 <= k < i ==> s[k] in spaces
    ensures forall k :: j <= k < |s| ==> s[k] in spaces
  {
    i, j := TrimWindow(s, spaces);
  }

  lemma TrimWindow(s: string, spaces: set<char>) returns (i: int, j: int)
    ensures 0 <= i <= j <= |s| && TrimEnd(TrimStart(s, spaces), spaces) == s[i..j]
    ensures forall k :: 0 <= k < i ==> s[k] in spaces
    ensures forall k :: j <= k < |s| ==> s[k] in spaces
  {
    var t := TrimStart(s, spaces);
    var r := TrimEnd(t, spaces);
    i, j := |s| - |t|, |s| - |t| + |r|;
    assert j <= |s| && r == s[i..j] by {
      TrimWindowSlice(s, t, spaces);
    }
    assert forall k :: j <= k < |s| ==> s[k] in spaces by {
      TrimWindowTail(s, t, spaces);
    }
  }

  lemma TrimWindowSlice(s: string, t: string, spaces: set<char>)
    requires |t| <= |s| && t == s[|s| - |t|..]
    ensures |s| - |t| + |TrimEnd(t, spaces)| <= |s|
    ensures TrimEnd(t, spaces) == s[|s| - |t|..|s| - |t| + |TrimEnd(t, spaces)|]
  {
    var r := TrimEnd(t, spaces);
    assert r == t[..|r|];
  }

  lemma TrimWindowTail(s: string, t: string, spaces: set<char>)
    requires |t| <= |s| && t == s[|s| - |t|..]
    ensures forall k :: |s| - |t| + |TrimEnd(t, spaces)| <= k < |s| ==> s[k] in spaces
  {
    var i := |s| - |t|;
    forall k | i + |TrimEnd(t, spaces)| <= k < |s|
      ensures s[k] in spaces
    {
      assert s[k] == t[k - i];
    }
  }

  lemma StripIdempotent(s: string, spaces: set<char>)
    ensures Strip(Strip(s, spaces), spaces) == Strip(s, spaces)
  {
  }

  lemma {:induction false} SplitNoSeparator(p: string, sep: char)
    requires sep !in p
    ensures Split(p, sep) == [p]
    decreases |p|
  {
    if p != [] {
      SplitNoSeparator(p[1..], sep);
      assert [p[0]] + p[1..] == p;
    }
  }

  lemma {:induction false} SplitAfterPiece(p: string, t: string, sep: char)
    requires sep !in p
    ensures Split(p + [sep] + t, sep) == [p] + Split(t, sep)
    decreases |p|
  {
    var s := p + [sep] + t;
    if p == [] {
      assert s[1..] == t;
    } else {
      assert s[1..] == p[1..] + [sep] + t;
      SplitAfterPiece(p[1..], t, sep);
      assert [p[0]] + p[1..] == p;
    }
  }

  /** Splitting undoes joining when no piece holds the separator. */
  lemma {:induction false} SplitJoin(xs: seq<string>, sep: char)
    requires |xs| >= 1
    requires NoneContains(xs, sep)
    ensures Split(Join(xs, [sep]), sep) == xs
  {
    if |xs| == 1 {
      SplitNoSeparator(xs[0], sep);
    } else {
      SplitAfterPiece(xs[0], Join(xs[1..], [sep]), sep);
      SplitJoin(xs[1..], sep);
      assert [xs[0]] + xs[1..] == xs;
    }
  }

  /** The comprehension preserves order: it distributes over concatenation. */
  lemma {:induction false} CleanPartsAppend(a: seq<string>, b: seq<string>, spaces: set<char>)
    ensures CleanParts(a + b, spaces) == CleanParts(a, spaces) + CleanParts(b, spaces)
  {
    if a == [] {
      assert a + b == b;
    } else {
      var x, y, z := CleanParts([a[0]], spaces), CleanParts(a[1..], spaces), CleanParts(b, spaces);
      assert CleanParts(a + b, spaces) == x + CleanParts(a[1..] + b, spaces) by {
        CleanPartsConsAppend(a, b, spaces);
      }
      assert CleanParts(a[1..] + b, spaces) == y + z by {
        CleanPartsAppend(a[1..], b, spaces);
      }
      assert CleanParts(a, spaces) == x + y by {
        CleanPartsCons(a, spaces);
      }
      AppendAssociates(x, y, z);
    }
  }

  /** Concatenation associates; stated apart so the step is proved without the comprehension's facts in view. */
  lemma AppendAssociates<T>(x: seq<T>, y: seq<T>, z: seq<T>)
    ensures x + (y + z) == (x + y) + z
  {
  }

  /** The comprehension handles the first part on its own. */
  lemma CleanPartsCons(parts: seq<string>, spaces: set<char>)
    requires parts != []
    ensures CleanParts(parts, spaces) == CleanParts([parts[0]], spaces) + CleanParts(parts[1..], spaces)
  {
    CleanPartsSingle(parts[0], spaces);
  }

  /** The first case of the induction in `CleanPartsAppend`: the head of `a` goes first. */
  lemma CleanPartsConsAppend(a: seq<string>, b: seq<string>, spaces: set<char>)
    requires a != []
    ensures CleanParts(a + b, spaces) == CleanParts([a[0]], spaces) + CleanParts(a[1..] + b, spaces)
  {
    assert (a + b)[0] == a[0] && (a + b)[1..] == a[1..] + b;
    CleanPartsCons(a + b, spaces);
  }

  /** On a single part the comprehension keeps exactly the stripped part, if it is not empty. */
  lemma CleanPartsSingle(p: string, spaces: set<char>)
    ensures CleanParts([p], spaces) == if Strip(p, spaces) == [] then [] else [Strip(p, spaces)]
  {
    assert [p][1..] == [];
  }

  /** A part that strips to nothing leaves the comprehension's result as it was. */
  lemma CleanPartsDropsBlank(a: seq<string>, t: string, b: seq<string>, spaces: set<char>)
    requires Strip(t, spaces) == []
    ensures CleanParts(a + [t] + b, spaces) == CleanParts(a + b, spaces)
  {
    CleanPartsSingle(t, spaces);
    calc {
      CleanParts(a + [t] + b, spaces);
      { CleanPartsAppend(a + [t], b, spaces); }
      CleanParts(a + [t], spaces) + CleanParts(b, spaces);
      { CleanPartsAppend(a, [t], spaces); }
      CleanParts(a, spaces) + CleanParts([t], spaces) + CleanParts(b, spaces);
      { assert CleanParts(a, spaces) + [] == CleanParts(a, spaces); }
      CleanParts(a, spaces) + CleanParts(b, spaces);
      { CleanPartsAppend(a, b, spaces); }
      CleanParts(a + b, spaces);
    }
  }

  /** Stripped parts hold no character that the input parts lack. */
  lemma {:induction false} CleanPartsKeepOut(parts: seq<string>, c: char, spaces: set<char>)
    requires NoneContains(parts, c)
    ensures NoneContains(CleanParts(parts, spaces), c)
  {
    if parts != [] {
      StripKeepsOut(parts[0], c, spaces);
      CleanPartsKeepOut(parts[1..], c, spaces);
    }
  }

  /** Stripping only removes characters: one the input lacks, the result lacks too. */
  lemma StripKeepsOut(s: string, c: char, spaces: set<char>)
    requires c !in s
    ensures c !in Strip(s, spaces)
  {
  }

  /** The comprehension yields nothing exactly when every part strips to nothing. */
  lemma {:induction false} CleanPartsEmptyIff(parts: seq<string>, spaces: set<char>)
    ensures CleanParts(parts, spaces) == [] <==> AllBlank(parts, spaces)
  {
    if parts != [] {
      CleanPartsEmptyIff(parts[1..], spaces);
      AllBlankCons(parts, spaces);
    }
  }

  lemma AllBlankCons(parts: seq<string>, spaces: set<char>)
    requires parts != []
    ensures AllBlank(parts, spaces) <==> Strip(parts[0], spaces) == [] && AllBlank(parts[1..], spaces)
  {
    if Strip(parts[0], spaces) == [] && AllBlank(parts[1..], spaces) {
      forall i | 1 <= i < |parts|
        ensures Strip(parts[i], spaces) == []
      {
        assert parts[i] == parts[1..][i - 1];
      }
    }
  }

  /** Parts that are already clean pass through unchanged. */
  lemma {:induction false} CleanPartsOfClean(xs: seq<string>, spaces: set<char>)
    requires AllClean(xs, spaces)
    ensures CleanParts(xs, spaces) == xs
  {
    if xs != [] {
      CleanPartsOfClean(xs[1..], spaces);
      assert [xs[0]] + xs[1..] == xs;
    }
  }

  /** A join of non-empty parts is empty exactly when there are no parts. */
  lemma JoinEmptyIff(xs: seq<string>, sep: string)
    requires forall i :: 0 <= i < |xs| ==> xs[i] != []
    ensures Join(xs, sep) == [] <==> xs == []
  {
    if |xs| > 1 {
      assert |Join(xs, sep)| >= |xs[0]|;
    }
  }

  /** A join of non-empty parts starts with the first part's first character and ends with the last part's last one. */
  lemma {:induction false} JoinEdges(xs: seq<string>, sep: string)
    requires xs != []
    requires forall i :: 0 <= i < |xs| ==> xs[i] != []
    ensures Join(xs, sep) != []
    ensures Join(xs, sep)[0] == xs[0][0]
    ensures Join(xs, sep)[|Join(xs, sep)| - 1] == xs[|xs| - 1][|xs[|xs| - 1]| - 1]
  {
    if |xs| > 1 {
      JoinEdges(xs[1..], sep);
    }
  }
}
