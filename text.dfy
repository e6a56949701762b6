/** Python string operations used by the pipeline, on `seq<char>`.
    Case mapping and whitespace are the ASCII subsets of Python's Unicode rules. */
module Text {

  function LowerChar(c: char): char {
    if 'A' <= c <= 'Z' then (c as int + 32) as char else c
  }

  function UpperChar(c: char): char {
    if 'a' <= c <= 'z' then (c as int - 32) as char else c
  }

  /** `s.lower()` */
  function Lower(s: string): (r: string)
    ensures |r| == |s|
    ensures forall i :: 0 <= i < |s| ==> r[i] == LowerChar(s[i])
  {
    if s == [] then [] else [LowerChar(s[0])] + Lower(s[1..])
  }

  /** `s.upper()` */
  function Upper(s: string): (r: string)
    ensures |r| == |s|
    ensures forall i :: 0 <= i < |s| ==> r[i] == UpperChar(s[i])
  {
    if s == [] then [] else [UpperChar(s[0])] + Upper(s[1..])
  }

  /** No character of an upper-cased string is a lower-case ASCII letter. */
  lemma UpperHasNoLowerCase(s: string)
    ensures forall i :: 0 <= i < |Upper(s)| ==> !('a' <= Upper(s)[i] <= 'z')
  {
  }

  /** `s.startswith(p)` */
  predicate StartsWith(s: string, p: string) {
    |p| <= |s| && s[..|p|] == p
  }

  /** `t in s`: `t` occurs in `s` as a contiguous substring. */
  predicate Contains(s: string, t: string)
    decreases |s|
  {
    StartsWith(s, t) || (|s| > 0 && Contains(s[1..], t))
  }

  /** `t` occurs in `s` starting at offset `i`. */
  predicate OccursAt(s: string, t: string, i: nat) {
    i + |t| <= |s| && s[i..i + |t|] == t
  }

  /** The recursive `Contains` is the textbook "occurs at some offset". */
  lemma {:induction false} ContainsAt(s: string, t: string)
    ensures Contains(s, t) <==> exists i: nat :: OccursAt(s, t, i)
    decreases |s|
  {
    if StartsWith(s, t) {
      assert OccursAt(s, t, 0);
    } else if |s| > 0 {
      ContainsAt(s[1..], t);
      if Contains(s[1..], t) {
        var i: nat :| OccursAt(s[1..], t, i);
        assert s[i + 1..i + 1 + |t|] == s[1..][i..i + |t|];
        assert OccursAt(s, t, i + 1);
      }
      if exists i: nat :: OccursAt(s, t, i) {
        var i: nat :| OccursAt(s, t, i);
        assert i != 0;
        assert s[1..][i - 1..i - 1 + |t|] == s[i..i + |t|];
        assert OccursAt(s[1..], t, i - 1);
      }
    } else {
      assert |t| > 0;
    }
  }

  /** Every string contains its own prefixes. */
  lemma ContainsPrefix(s: string, t: string)
    requires StartsWith(s, t)
    ensures Contains(s, t)
  {
  }

  /** Whatever contains `t` contains every prefix of `t`: `"carpool" in s` whenever `"carpoolplaats" in s`. */
  lemma {:induction false} ContainsPrefixOfNeedle(s: string, t: string, u: string)
    requires StartsWith(t, u)
    requires Contains(s, t)
    ensures Contains(s, u)
  {
    if StartsWith(s, t) {
      assert s[..|u|] == t[..|u|];
    } else {
      ContainsPrefixOfNeedle(s[1..], t, u);
    }
  }

  /** A character that cannot occur in `s` makes `Contains(s, t)` false for any `t` holding it. */
  lemma {:induction false} NotContainsChar(s: string, t: string, k: nat)
    requires k < |t|
    requires forall i :: 0 <= i < |s| ==> s[i] != t[k]
    ensures !Contains(s, t)
  {
    if |t| <= |s| {
      assert s[..|t|][k] != t[k];
    }
    if |s| > 0 {
      NotContainsChar(s[1..], t, k);
    }
  }

  /** `s.replace(old, new)` for a non-empty `old`: left-to-right, non-overlapping. */
  function Replace(s: string, pat: string, rep: string): (r: string)
    requires |pat| > 0
    decreases |s|
  {
    if s == [] then []
    else if StartsWith(s, pat) then rep + Replace(s[|pat|..], pat, rep)
    else [s[0]] + Replace(s[1..], pat, rep)
  }

  /** With nothing to replace, `replace` is the identity. */
  lemma {:induction false} ReplaceAbsent(s: string, pat: string, rep: string)
    requires |pat| > 0
    requires !Contains(s, pat)
    ensures Replace(s, pat, rep) == s
  {
    if s != [] {
      ReplaceAbsent(s[1..], pat, rep);
    }
  }

  /** `s.replace(" ", "_")` */
  function ReplaceChar(s: string, c: char, d: char): (r: string)
    ensures |r| == |s|
    ensures forall i :: 0 <= i < |s| ==> r[i] == (if s[i] == c then d else s[i])
  {
    if s == [] then [] else [if s[0] == c then d else s[0]] + ReplaceChar(s[1..], c, d)
  }

  /** The ASCII characters for which Python's `str.isspace()` holds. */
  predicate IsSpace(c: char) {
    c == ' ' || '\t' <= c <= '\r' || '\U{1c}' <= c <= '\U{1f}'
  }

  function StripLeft(s: string): (r: string)
    ensures |r| <= |s|
    ensures r == s[|s| - |r|..]
    ensures r != [] ==> !IsSpace(r[0])
  {
    if s != [] && IsSpace(s[0]) then StripLeft(s[1..]) else s
  }

  function StripRight(s: string): (r: string)
    ensures |r| <= |s|
    ensures r == s[..|r|]
    ensures r != [] ==> !IsSpace(r[|r| - 1])
  {
    if s != [] && IsSpace(s[|s| - 1]) then StripRight(s[..|s| - 1]) else s
  }

  /** `s.strip()` */
  function Strip(s: string): (r: string)
    ensures |r| <= |s|
    ensures r != [] ==> !IsSpace(r[0]) && !IsSpace(r[|r| - 1])
  {
    StripRight(StripLeft(s))
  }

  /** The longest prefix of `s` without whitespace. */
  function Word(s: string): (r: string)
    ensures |r| <= |s| && r == s[..|r|]
    ensures forall i :: 0 <= i < |r| ==> !IsSpace(r[i])
    ensures |r| < |s| ==> IsSpace(s[|r|])
  {
    if s == [] || IsSpace(s[0]) then [] else [s[0]] + Word(s[1..])
  }

  /** `s.split()`: the maximal runs of non-whitespace characters, in order. */
  function Split(s: string): (r: seq<string>)
    ensures forall w :: w in r ==> w != [] && forall i :: 0 <= i < |w| ==> !IsSpace(w[i])
    decreases |s|
  {
    var t := StripLeft(s);
    if t == [] then []
    else
      var w := Word(t);
      [w] + Split(t[|w|..])
  }

  /** `sep.join(parts)` */
  function Join(parts: seq<string>, sep: string): string {
    if parts == [] then []
    else if |parts| == 1 then parts[0]
    else parts[0] + sep + Join(parts[1..], sep)
  }

  lemma JoinTwo(a: string, b: string, sep: string)
    ensures Join([a, b], sep) == a + sep + b
  {
    assert [a, b][1..] == [b];
  }

  /** `a + rest` starts with the word `a` when `a` has no whitespace and `rest` is empty or starts with some. */
  lemma {:induction false} WordOfNonSpace(a: string, rest: string)
    requires forall i :: 0 <= i < |a| ==> !IsSpace(a[i])
    requires rest == [] || IsSpace(rest[0])
    ensures Word(a + rest) == a
  {
    if a != [] {
      assert (a + rest)[1..] == a[1..] + rest;
      WordOfNonSpace(a[1..], rest);
    } else {
      assert a + rest == rest;
    }
  }

  lemma StripLeftSpaceWord(b: string)
    requires b != [] && !IsSpace(b[0])
    ensures StripLeft(" " + b) == b
  {
    assert (" " + b)[1..] == b;
  }

  /** A single word splits into itself. */
  lemma SplitWord(b: string)
    requires b != []
    requires forall i :: 0 <= i < |b| ==> !IsSpace(b[i])
    ensures Split(b) == [b]
  {
    assert b + [] == b;
    WordOfNonSpace(b, []);
    assert b[|b|..] == [];
  }

  /** `(" " + b).split() == [b]` for a word without whitespace. */
  lemma SplitSpaceWord(b: string)
    requires b != []
    requires forall i :: 0 <= i < |b| ==> !IsSpace(b[i])
    ensures Split(" " + b) == [b]
  {
    StripLeftSpaceWord(b);
    SplitWord(b);
  }

  /** `(a + " " + b).split() == [a, b]` for two words without whitespace. */
  lemma SplitTwoWords(a: string, b: string)
    requires a != [] && b != []
    requires forall i :: 0 <= i < |a| ==> !IsSpace(a[i])
    requires forall i :: 0 <= i < |b| ==> !IsSpace(b[i])
    ensures Split(a + " " + b) == [a, b]
  {
    var s := a + " " + b;
    assert s == a + (" " + b);
    assert s[0] == a[0];
    assert StripLeft(s) == s;
    WordOfNonSpace(a, " " + b);
    assert s[|a|..] == " " + b;
    SplitSpaceWord(b);
  }

  /** Replacing a pattern the string starts with, when it occurs nowhere else, drops it. */
  lemma ReplaceLeading(pat: string, rest: string)
    requires |pat| > 0
    requires !Contains(rest, pat)
    ensures Replace(pat + rest, pat, []) == rest
  {
    assert StartsWith(pat + rest, pat);
    assert (pat + rest) != [];
    assert (pat + rest)[|pat|..] == rest;
    ReplaceAbsent(rest, pat, []);
  }

  /** Replacing a character that occurs only at the end drops it. */
  lemma {:induction false} ReplaceTrailingChar(s: string, c: char)
    requires forall i :: 0 <= i < |s| ==> s[i] != c
    ensures Replace(s + [c], [c], []) == s
  {
    if s == [] {
      assert [] + [c] == [c];
      assert StartsWith([c], [c]);
      assert [c][1..] == [];
    } else {
      assert (s + [c])[1..] == s[1..] + [c];
      assert (s + [c])[..1] == [s[0]];
      assert !StartsWith(s + [c], [c]);
      ReplaceTrailingChar(s[1..], c);
      assert [s[0]] + s[1..] == s;
    }
  }

  /** Python's `<` on strings: lexicographic by code point. */
  predicate StrLess(a: string, b: string)
    decreases |a|
  {
    if a == [] then b != [] else b != [] && (a[0] < b[0] || (a[0] == b[0] && StrLess(a[1..], b[1..])))
  }

  lemma {:induction false} StrLessIrreflexive(a: string)
    ensures !StrLess(a, a)
  {
    if a != [] { StrLessIrreflexive(a[1..]); }
  }

  lemma {:induction false} StrLessTransitive(a: string, b: string, c: string)
    requires StrLess(a, b) && StrLess(b, c)
    ensures StrLess(a, c)
    decreases |a|
  {
    if a != [] && a[0] == b[0] && b[0] == c[0] {
      StrLessTransitive(a[1..], b[1..], c[1..]);
    }
  }

  /** Any two strings are equal or ordered one way. */
  lemma {:induction false} StrLessTotal(a: string, b: string)
    ensures a == b || StrLess(a, b) || StrLess(b, a)
    decreases |a|
  {
    if a != [] && b != [] && a[0] == b[0] {
      StrLessTotal(a[1..], b[1..]);
      if a[1..] == b[1..] {
        assert a == [a[0]] + a[1..] && b == [b[0]] + b[1..];
      }
    }
  }

  lemma StrLessAsymmetric(a: string, b: string)
    requires StrLess(a, b)
    ensures !StrLess(b, a)
  {
    if StrLess(b, a) {
      StrLessTransitive(a, b, a);
      StrLessIrreflexive(a);
    }
  }

  /** Strictly increasing: sorted and without duplicates. */
  predicate StrictlySorted(xs: seq<string>) {
    forall i, j :: 0 <= i < j < |xs| ==> StrLess(xs[i], xs[j])
  }

  /** Adding `x` to a set of strings kept as its sorted list. */
  function Insert(xs: seq<string>, x: string): (r: seq<string>)
    ensures |r| <= |xs| + 1
  {
    if xs == [] then [x]
    else if x == xs[0] then xs
    else if StrLess(x, xs[0]) then [x] + xs
    else [xs[0]] + Insert(xs[1..], x)
  }

  lemma {:induction false} InsertMembers(xs: seq<string>, x: string)
    ensures forall y :: y in Insert(xs, x) <==> y in xs || y == x
  {
    if xs != [] && x != xs[0] && !StrLess(x, xs[0]) {
      InsertMembers(xs[1..], x);
      assert xs == [xs[0]] + xs[1..];
    }
  }

  /** A sorted list's tail is sorted and above its head. */
  lemma SortedTail(xs: seq<string>)
    requires StrictlySorted(xs) && xs != []
    ensures StrictlySorted(xs[1..])
    ensures forall y :: y in xs[1..] ==> StrLess(xs[0], y)
  {
    forall i, j | 0 <= i < j < |xs[1..]| ensures StrLess(xs[1..][i], xs[1..][j]) {
      assert xs[1..][i] == xs[i + 1] && xs[1..][j] == xs[j + 1];
    }
  }

  /** A head below every element of a sorted list keeps it sorted. */
  lemma SortedCons(h: string, t: seq<string>)
    requires StrictlySorted(t)
    requires forall y :: y in t ==> StrLess(h, y)
    ensures StrictlySorted([h] + t)
  {
    var r := [h] + t;
    forall i, j | 0 <= i < j < |r| ensures StrLess(r[i], r[j]) {
      if i == 0 {
        assert r[j] == t[j - 1];
      } else {
        assert r[i] == t[i - 1] && r[j] == t[j - 1];
      }
    }
  }

  /** The list stays sorted and gains exactly `x`. */
  lemma {:induction false} InsertSorted(xs: seq<string>, x: string)
    requires StrictlySorted(xs)
    ensures StrictlySorted(Insert(xs, x))
    ensures forall y :: y in Insert(xs, x) <==> y in xs || y == x
  {
    InsertMembers(xs, x);
    if xs == [] || x == xs[0] {
    } else if StrLess(x, xs[0]) {
      SortedTail(xs);
      forall y | y in xs ensures StrLess(x, y) {
        if y != xs[0] {
          assert y in xs[1..] by { assert xs == [xs[0]] + xs[1..]; }
          StrLessTransitive(x, xs[0], y);
        }
      }
      SortedCons(x, xs);
    } else {
      StrLessTotal(x, xs[0]);
      SortedTail(xs);
      InsertSorted(xs[1..], x);
      SortedCons(xs[0], Insert(xs[1..], x));
    }
  }

  /** `s.zfill(width)`: zeros inserted after an optional sign up to `width` characters. */
  function ZFill(s: string, width: nat): (r: string)
    ensures |r| == if |s| >= width then |s| else width
    ensures |s| >= width ==> r == s
  {
    if |s| >= width then s
    else
      var zeros := seq(width - |s|, _ => '0');
      if s != [] && (s[0] == '+' || s[0] == '-') then [s[0]] + zeros + s[1..] else zeros + s
  }
}
