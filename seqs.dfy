/** List comprehensions with a filter, and "keep the first occurrence of each key". */
module Seqs {

  /** `[x for x in xs if p(x)]` */
  function Filter<T>(p: T -> bool, xs: seq<T>): (r: seq<T>)
    ensures |r| <= |xs|
    ensures forall x :: x in r ==> x in xs && p(x)
    ensures forall x :: x in xs && p(x) ==> x in r
  {
    if xs == [] then [] else (if p(xs[0]) then [xs[0]] else []) + Filter(p, xs[1..])
  }

  /** A filter every element passes keeps the whole list. */
  lemma {:induction false} FilterKeepsAll<T>(p: T -> bool, xs: seq<T>)
    requires forall x :: x in xs ==> p(x)
    ensures Filter(p, xs) == xs
  {
    if xs != [] {
      FilterKeepsAll(p, xs[1..]);
      assert xs == [xs[0]] + xs[1..];
    }
  }

  /** Removing one element of a list without repeats leaves a shorter one without repeats
      holding every other element. */
  lemma RemoveDistinct<T>(xs: seq<T>, m: nat) returns (rest: seq<T>)
    requires m < |xs|
    requires forall i, j :: 0 <= i < j < |xs| ==> xs[i] != xs[j]
    ensures |rest| == |xs| - 1
    ensures forall i, j :: 0 <= i < j < |rest| ==> rest[i] != rest[j]
    ensures forall x :: x in rest <==> x in xs && x != xs[m]
  {
    rest := xs[..m] + xs[m + 1..];
    forall i, j | 0 <= i < j < |rest| ensures rest[i] != rest[j] {
      var i' := if i < m then i else i + 1;
      var j' := if j < m then j else j + 1;
      assert rest[i] == xs[i'] && rest[j] == xs[j'];
    }
    forall x ensures x in rest <==> x in xs && x != xs[m] {
      if x in rest {
        var t :| 0 <= t < |rest| && rest[t] == x;
        if t < m { assert xs[t] == x; } else { assert xs[t + 1] == x; }
      }
      if x in xs && x != xs[m] {
        var t :| 0 <= t < |xs| && xs[t] == x;
        if t < m { assert rest[t] == x; } else if t > m { assert rest[t - 1] == x; }
      }
    }
  }

  /** `[f(x) for x in xs]` */
  function Map<T, U>(f: T -> U, xs: seq<T>): (r: seq<U>)
    ensures |r| == |xs|
    ensures forall i :: 0 <= i < |xs| ==> r[i] == f(xs[i])
  {
    if xs == [] then [] else Map(f, xs[..|xs| - 1]) + [f(xs[|xs| - 1])]
  }

  /** `len([x for x in xs if p(x)])` */
  function CountWhere<T>(p: T -> bool, xs: seq<T>): (n: nat)
    ensures n <= |xs|
  {
    if xs == [] then 0 else CountWhere(p, xs[..|xs| - 1]) + (if p(xs[|xs| - 1]) then 1 else 0)
  }

  /** Filtering a list with one more element. */
  lemma FilterSnoc<T>(p: T -> bool, xs: seq<T>, x: T)
    ensures Filter(p, xs + [x]) == Filter(p, xs) + (if p(x) then [x] else [])
  {
    FilterAppend(p, xs, [x]);
    assert [x][1..] == [];
  }

  /** A non-empty sequence is its prefix without the last element, then that element. */
  lemma SplitLast<T>(xs: seq<T>)
    requires xs != []
    ensures xs == xs[..|xs| - 1] + [xs[|xs| - 1]]
  {
  }

  /** The prefix of full length is the whole sequence. */
  lemma WholePrefix<T>(xs: seq<T>)
    ensures xs[..|xs|] == xs
  {
  }

  /** The prefix one element longer is the prefix followed by that element. */
  lemma PrefixSnoc<T>(xs: seq<T>, i: nat)
    requires i < |xs|
    ensures xs[..i + 1] == xs[..i] + [xs[i]]
  {
  }

  lemma MapSnoc<T, U>(f: T -> U, xs: seq<T>, x: T)
    ensures Map(f, xs + [x]) == Map(f, xs) + [f(x)]
  {
    assert (xs + [x])[..|xs|] == xs;
  }

  lemma CountWhereSnoc<T>(p: T -> bool, xs: seq<T>, x: T)
    ensures CountWhere(p, xs + [x]) == CountWhere(p, xs) + (if p(x) then 1 else 0)
  {
    assert (xs + [x])[..|xs|] == xs;
  }

  /** `r` is `xs` with some elements left out, the rest in their original order. */
  predicate IsSubsequence<T(==)>(r: seq<T>, xs: seq<T>) {
    r == [] || (xs != [] && (if r[0] == xs[0] then IsSubsequence(r[1..], xs[1..]) else IsSubsequence(r, xs[1..])))
  }

  lemma {:induction false} FilterIsSubsequence<T>(p: T -> bool, xs: seq<T>)
    ensures IsSubsequence(Filter(p, xs), xs)
  {
    if xs != [] {
      FilterIsSubsequence(p, xs[1..]);
      if !p(xs[0]) {
        var r := Filter(p, xs[1..]);
        assert Filter(p, xs) == r;
        SubsequenceDropHead(r, xs);
      }
    }
  }

  lemma {:induction false} SubsequenceDropHead<T>(r: seq<T>, xs: seq<T>)
    requires xs != []
    requires IsSubsequence(r, xs[1..])
    ensures IsSubsequence(r, xs)
    decreases |xs|, |r|
  {
    if r != [] && r[0] == xs[0] {
      SubsequenceTail(r, xs[1..]);
    }
  }

  /** Dropping the first element of a subsequence leaves a subsequence. */
  lemma {:induction false} SubsequenceTail<T>(r: seq<T>, xs: seq<T>)
    requires r != []
    requires IsSubsequence(r, xs)
    ensures IsSubsequence(r[1..], xs)
    decreases |xs|, |r|
  {
    if r[0] == xs[0] {
      if r[1..] != [] {
        SubsequenceDropHead(r[1..], xs);
      }
    } else {
      SubsequenceTail(r, xs[1..]);
      SubsequenceDropHead(r[1..], xs);
    }
  }

  /** A subsequence is no longer than the sequence it is taken from. */
  lemma {:induction false} SubsequenceLength<T>(r: seq<T>, xs: seq<T>)
    requires IsSubsequence(r, xs)
    ensures |r| <= |xs|
    decreases |xs|
  {
    if r != [] {
      if r[0] == xs[0] {
        SubsequenceLength(r[1..], xs[1..]);
      } else {
        SubsequenceLength(r, xs[1..]);
      }
    }
  }

  /** Everything in a subsequence is in the sequence it is taken from. */
  lemma {:induction false} SubsequenceMembers<T>(r: seq<T>, xs: seq<T>)
    requires IsSubsequence(r, xs)
    ensures forall x :: x in r ==> x in xs
    decreases |xs|
  {
    if r != [] {
      if r[0] == xs[0] {
        SubsequenceMembers(r[1..], xs[1..]);
        assert r == [r[0]] + r[1..];
      } else {
        SubsequenceMembers(r, xs[1..]);
      }
    }
  }

  lemma {:induction false} FilterAppend<T>(p: T -> bool, xs: seq<T>, ys: seq<T>)
    ensures Filter(p, xs + ys) == Filter(p, xs) + Filter(p, ys)
  {
    if xs != [] {
      assert (xs + ys)[1..] == xs[1..] + ys;
      FilterAppend(p, xs[1..], ys);
    } else {
      assert xs + ys == ys;
    }
  }

  /** The keys of a list. */
  function KeySet<T, K>(xs: seq<T>, key: T -> K): set<K> {
    set i | 0 <= i < |xs| :: key(xs[i])
  }

  lemma KeySetSnoc<T, K>(xs: seq<T>, x: T, key: T -> K)
    ensures KeySet(xs + [x], key) == KeySet(xs, key) + {key(x)}
  {
    var ys := xs + [x];
    assert forall i :: 0 <= i < |xs| ==> ys[i] == xs[i];
    assert ys[|xs|] == x;
  }

  predicate DistinctBy<T, K(==)>(xs: seq<T>, key: T -> K) {
    forall i, j :: 0 <= i < j < |xs| ==> key(xs[i]) != key(xs[j])
  }

  /** What the loop `for x in xs: if key(x) not in seen: seen.add(key(x)); out.append(x)` returns. */
  function KeepFirst<T, K(==)>(xs: seq<T>, key: T -> K): seq<T> {
    if xs == [] then []
    else
      var p := KeepFirst(xs[..|xs| - 1], key);
      var x := xs[|xs| - 1];
      if key(x) in KeySet(p, key) then p else p + [x]
  }

  /** The output keys are distinct and are exactly the input keys. */
  lemma {:induction false} KeepFirstKeys<T, K>(xs: seq<T>, key: T -> K)
    ensures DistinctBy(KeepFirst(xs, key), key)
    ensures KeySet(KeepFirst(xs, key), key) == KeySet(xs, key)
  {
    if xs != [] {
      var q := xs[..|xs| - 1];
      var x := xs[|xs| - 1];
      assert xs == q + [x];
      KeepFirstKeys(q, key);
      var p := KeepFirst(q, key);
      if key(x) !in KeySet(p, key) {
        assert forall i :: 0 <= i < |p| ==> key(p[i]) in KeySet(p, key);
        KeySetSnoc(p, x, key);
      }
      KeySetSnoc(q, x, key);
    }
  }

  /** Only input elements survive, in input order. */
  lemma {:induction false} KeepFirstIsSubsequence<T, K>(xs: seq<T>, key: T -> K)
    ensures IsSubsequence(KeepFirst(xs, key), xs)
  {
    if xs != [] {
      var q := xs[..|xs| - 1];
      var x := xs[|xs| - 1];
      assert xs == q + [x];
      KeepFirstIsSubsequence(q, key);
      var p := KeepFirst(q, key);
      if key(x) in KeySet(p, key) {
        SubsequenceAppend(p, q, [], [x]);
        assert p + [] == p;
      } else {
        SubsequenceAppend(p, q, [x], [x]);
      }
    }
  }

  lemma {:induction false} SubsequenceAppend<T>(r: seq<T>, xs: seq<T>, r2: seq<T>, ys: seq<T>)
    requires IsSubsequence(r, xs)
    requires IsSubsequence(r2, ys)
    ensures IsSubsequence(r + r2, xs + ys)
    decreases |xs|
  {
    if r == [] {
      assert r + r2 == r2;
      SubsequencePrefix(r2, xs, ys);
    } else {
      assert xs != [];
      assert (xs + ys)[1..] == xs[1..] + ys;
      assert (r + r2)[0] == r[0];
      if r[0] == xs[0] {
        assert (r + r2)[1..] == r[1..] + r2;
        SubsequenceAppend(r[1..], xs[1..], r2, ys);
      } else {
        SubsequenceAppend(r, xs[1..], r2, ys);
      }
    }
  }

  lemma {:induction false} SubsequencePrefix<T>(r: seq<T>, xs: seq<T>, ys: seq<T>)
    requires IsSubsequence(r, ys)
    ensures IsSubsequence(r, xs + ys)
    decreases |xs|
  {
    if xs != [] {
      assert (xs + ys)[1..] == xs[1..] + ys;
      SubsequencePrefix(r, xs[1..], ys);
      SubsequenceDropHead(r, xs + ys);
    } else {
      assert xs + ys == ys;
    }
  }

  /** Every element kept is the first of its key in the input. */
  lemma {:induction false} KeepFirstKeepsFirst<T, K>(xs: seq<T>, key: T -> K, k: nat)
    requires k < |KeepFirst(xs, key)|
    ensures exists i :: 0 <= i < |xs| && xs[i] == KeepFirst(xs, key)[k] && FirstOfKey(xs, key, i)
  {
    var q := xs[..|xs| - 1];
    var x := xs[|xs| - 1];
    var p := KeepFirst(q, key);
    if k < |p| {
      KeepFirstKeepsFirst(q, key, k);
      var i :| 0 <= i < |q| && q[i] == p[k] && FirstOfKey(q, key, i);
      assert xs[i] == q[i];
      assert FirstOfKey(xs, key, i);
    } else {
      assert key(x) !in KeySet(p, key);
      KeepFirstKeys(q, key);
      assert key(x) !in KeySet(q, key);
      assert forall j :: 0 <= j < |q| ==> key(q[j]) in KeySet(q, key);
      assert FirstOfKey(xs, key, |xs| - 1);
    }
  }

  /** No earlier element has the key of `xs[i]`. */
  predicate FirstOfKey<T, K(==)>(xs: seq<T>, key: T -> K, i: nat)
    requires i < |xs|
  {
    forall j :: 0 <= j < i ==> key(xs[j]) != key(xs[i])
  }

  /** Deduplicating twice changes nothing. */
  lemma {:induction false} KeepFirstIdempotent<T, K>(xs: seq<T>, key: T -> K)
    ensures KeepFirst(KeepFirst(xs, key), key) == KeepFirst(xs, key)
  {
    KeepFirstKeys(xs, key);
    KeepFirstOfDistinct(KeepFirst(xs, key), key);
  }

  /** A list whose keys are already distinct is left as it is. */
  lemma {:induction false} KeepFirstOfDistinct<T, K>(xs: seq<T>, key: T -> K)
    requires DistinctBy(xs, key)
    ensures KeepFirst(xs, key) == xs
  {
    if xs != [] {
      var q := xs[..|xs| - 1];
      var x := xs[|xs| - 1];
      assert DistinctBy(q, key);
      KeepFirstOfDistinct(q, key);
      assert KeepFirst(q, key) == q;
      forall i | 0 <= i < |q| ensures key(q[i]) != key(x) {
        assert q[i] == xs[i];
      }
      assert xs == q + [x];
    }
  }

  /** The loop itself: a `seen` set and an output list grown in input order. */
  method DedupBy<T, K(==)>(xs: seq<T>, key: T -> K) returns (unique: seq<T>)
    ensures unique == KeepFirst(xs, key)
  {
    var seen: set<K> := {};
    unique := [];
    var i := 0;
    while i < |xs|
      invariant 0 <= i <= |xs|
      invariant unique == KeepFirst(xs[..i], key)
      invariant seen == KeySet(unique, key)
    {
      assert xs[..i + 1][..i] == xs[..i];
      KeySetSnoc(unique, xs[i], key);
      if key(xs[i]) !in seen {
        seen := seen + {key(xs[i])};
        unique := unique + [xs[i]];
      }
      i := i + 1;
    }
    assert xs[..|xs|] == xs;
  }

  /** `[y for x in xs for y in f(x)]` */
  function FlatMap<T, U>(f: T -> seq<U>, xs: seq<T>): seq<U> {
    if xs == [] then [] else FlatMap(f, xs[..|xs| - 1]) + f(xs[|xs| - 1])
  }

  lemma FlatMapSnoc<T, U>(f: T -> seq<U>, xs: seq<T>, x: T)
    ensures FlatMap(f, xs + [x]) == FlatMap(f, xs) + f(x)
  {
    assert (xs + [x])[..|xs|] == xs;
  }

  /** When every item gives at most one result, there are no more results than items. */
  lemma {:induction false} FlatMapAtMostOne<T, U>(f: T -> seq<U>, xs: seq<T>)
    requires forall x :: |f(x)| <= 1
    ensures |FlatMap(f, xs)| <= |xs|
  {
    if xs != [] {
      FlatMapAtMostOne(f, xs[..|xs| - 1]);
    }
  }

  /** An element of the concatenation comes from some element's part. */
  lemma {:induction false} FlatMapMembers<T, U>(f: T -> seq<U>, xs: seq<T>, y: U)
    ensures y in FlatMap(f, xs) <==> exists i :: 0 <= i < |xs| && y in f(xs[i])
  {
    if xs != [] {
      var p := xs[..|xs| - 1];
      FlatMapMembers(f, p, y);
      if exists i :: 0 <= i < |p| && y in f(p[i]) {
        var i :| 0 <= i < |p| && y in f(p[i]);
        assert xs[i] == p[i];
      }
      if exists i :: 0 <= i < |xs| && y in f(xs[i]) {
        var i :| 0 <= i < |xs| && y in f(xs[i]);
        if i < |p| { assert p[i] == xs[i]; }
      }
    }
  }

  /** The loop `for x in xs: if key(x) in seen: continue; seen.add(key(x)); out.extend(f(x))`:
      every key is marked seen before `x` is processed, so only the first element of each key
      is processed, whatever `f` makes of it. */
  method CollectFirst<T, K(==), U>(xs: seq<T>, key: T -> K, f: T -> seq<U>) returns (out: seq<U>)
    ensures out == FlatMap(f, KeepFirst(xs, key))
  {
    var seen: set<K> := {};
    out := [];
    var i := 0;
    while i < |xs|
      invariant 0 <= i <= |xs|
      invariant seen == KeySet(xs[..i], key)
      invariant out == FlatMap(f, KeepFirst(xs[..i], key))
    {
      var x := xs[i];
      assert xs[..i + 1] == xs[..i] + [x];
      assert (xs[..i] + [x])[..i] == xs[..i];
      KeepFirstKeys(xs[..i], key);
      KeySetSnoc(xs[..i], x, key);
      if key(x) !in seen {
        seen := seen + {key(x)};
        FlatMapSnoc(f, KeepFirst(xs[..i], key), x);
        out := out + f(x);
      }
      i := i + 1;
    }
    assert xs[..|xs|] == xs;
  }

  /** The loop `for x in xs: out.extend(f(x))`, where `f` yields the zero or one records
      an element turns into. */
  method CollectAll<T, U>(xs: seq<T>, f: T -> seq<U>) returns (out: seq<U>)
    ensures out == FlatMap(f, xs)
  {
    out := [];
    var i := 0;
    while i < |xs|
      invariant 0 <= i <= |xs|
      invariant out == FlatMap(f, xs[..i])
    {
      assert xs[..i + 1] == xs[..i] + [xs[i]];
      FlatMapSnoc(f, xs[..i], xs[i]);
      out := out + f(xs[i]);
      i := i + 1;
    }
    assert xs[..|xs|] == xs;
  }
}
