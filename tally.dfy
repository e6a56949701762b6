/** Counters kept as Python dictionaries: an association list in insertion order,
    `d[k] = d.get(k, 0) + n`. */
module Tally {
  import Seqs

  type Counter<K> = seq<(K, int)>

  function Keys<K(==), V>(c: seq<(K, V)>): (ks: seq<K>)
    ensures |ks| == |c|
    ensures forall i :: 0 <= i < |c| ==> ks[i] == c[i].0
  {
    if c == [] then [] else [c[0].0] + Keys(c[1..])
  }

  predicate DistinctKeys<K(==), V>(c: seq<(K, V)>) {
    forall i, j :: 0 <= i < j < |c| ==> c[i].0 != c[j].0
  }

  /** `d.get(k, 0)` */
  function Get<K(==)>(c: Counter<K>, k: K): int {
    if c == [] then 0 else if c[0].0 == k then c[0].1 else Get(c[1..], k)
  }

  /** `d[k] = d.get(k, 0) + n`: an existing key keeps its place, a new one goes last. */
  function Add<K(==)>(c: Counter<K>, k: K, n: int): (r: Counter<K>)
    ensures |r| == if k in Keys(c) then |c| else |c| + 1
  {
    if c == [] then [(k, n)]
    else if c[0].0 == k then [(k, c[0].1 + n)] + c[1..]
    else [c[0]] + Add(c[1..], k, n)
  }

  function Bump<K(==)>(c: Counter<K>, k: K): Counter<K> {
    Add(c, k, 1)
  }

  /** `sum(d.values())` */
  function Total<K(==)>(c: Counter<K>): int {
    if c == [] then 0 else c[0].1 + Total(c[1..])
  }

  lemma {:induction false} KeysAdd<K>(c: Counter<K>, k: K, n: int)
    ensures Keys(Add(c, k, n)) == if k in Keys(c) then Keys(c) else Keys(c) + [k]
  {
    if c != [] && c[0].0 != k {
      KeysAdd(c[1..], k, n);
      assert Keys(c) == [c[0].0] + Keys(c[1..]);
    }
  }

  lemma {:induction false} TotalAdd<K>(c: Counter<K>, k: K, n: int)
    ensures Total(Add(c, k, n)) == Total(c) + n
  {
    if c != [] && c[0].0 != k {
      TotalAdd(c[1..], k, n);
    }
  }

  lemma {:induction false} GetAdd<K>(c: Counter<K>, k: K, n: int, j: K)
    ensures Get(Add(c, k, n), j) == Get(c, j) + (if j == k then n else 0)
  {
    if c != [] && c[0].0 != k {
      GetAdd(c[1..], k, n, j);
    }
  }

  lemma {:induction false} AddKeepsDistinct<K>(c: Counter<K>, k: K, n: int)
    requires DistinctKeys(c)
    ensures DistinctKeys(Add(c, k, n))
  {
    KeysAdd(c, k, n);
    var r := Add(c, k, n);
    assert forall i :: 0 <= i < |r| ==> r[i].0 == Keys(r)[i];
    assert forall i :: 0 <= i < |c| ==> c[i].0 == Keys(c)[i];
  }

  /** `d.get(k, default)` on any dictionary. */
  function Lookup<K(==), V>(c: seq<(K, V)>, k: K, default: V): V {
    if c == [] then default else if c[0].0 == k then c[0].1 else Lookup(c[1..], k, default)
  }

  /** A lookup finds an entry of the dictionary or gives the default. */
  lemma {:induction false} LookupFound<K, V>(c: seq<(K, V)>, k: K, default: V)
    ensures Lookup(c, k, default) == default || (k, Lookup(c, k, default)) in c
  {
    if c != [] && c[0].0 != k {
      LookupFound(c[1..], k, default);
    }
  }

  /** `d[k] = v` changes what `k` reads and nothing else. */
  lemma {:induction false} LookupPut<K, V>(c: seq<(K, V)>, k: K, v: V, j: K, default: V)
    ensures Lookup(Put(c, k, v), j, default) == if j == k then v else Lookup(c, j, default)
  {
    if c != [] && c[0].0 != k {
      LookupPut(c[1..], k, v, j, default);
    }
  }

  /** `d[k] = v`: an existing key keeps its place with the new value, a new one goes last. */
  function Put<K(==), V>(c: seq<(K, V)>, k: K, v: V): (r: seq<(K, V)>)
    ensures |r| == if k in Keys(c) then |c| else |c| + 1
  {
    if c == [] then [(k, v)]
    else if c[0].0 == k then [(k, v)] + c[1..]
    else [c[0]] + Put(c[1..], k, v)
  }

  /** After `d[k] = v` the key set grows by `k` only. */
  lemma {:induction false} PutKeys<K, V>(c: seq<(K, V)>, k: K, v: V)
    ensures Keys(Put(c, k, v)) == if k in Keys(c) then Keys(c) else Keys(c) + [k]
  {
    if c != [] {
      assert Keys(c) == [c[0].0] + Keys(c[1..]);
      if c[0].0 != k {
        PutKeys(c[1..], k, v);
        assert Keys(Put(c, k, v)) == [c[0].0] + Keys(Put(c[1..], k, v));
      } else {
        assert Keys(Put(c, k, v)) == [k] + Keys(c[1..]);
      }
    }
  }

  /** After `d[k] = v` the keys stay distinct, and each entry is `(k, v)` or an old one. */
  lemma {:induction false} PutEntries<K, V>(c: seq<(K, V)>, k: K, v: V)
    requires DistinctKeys(c)
    ensures DistinctKeys(Put(c, k, v))
    ensures forall j :: j in Keys(Put(c, k, v)) <==> j in Keys(c) || j == k
    ensures forall i :: 0 <= i < |Put(c, k, v)| ==> Put(c, k, v)[i] == (k, v) || Put(c, k, v)[i] in c
  {
    PutKeys(c, k, v);
    var r := Put(c, k, v);
    forall i, j | 0 <= i < j < |r| ensures r[i].0 != r[j].0 {
      assert r[i].0 == Keys(r)[i] && r[j].0 == Keys(r)[j];
      assert forall m :: 0 <= m < |c| ==> c[m].0 == Keys(c)[m];
    }
    PutValues(c, k, v);
  }

  lemma {:induction false} PutValues<K, V>(c: seq<(K, V)>, k: K, v: V)
    ensures forall i :: 0 <= i < |Put(c, k, v)| ==> Put(c, k, v)[i] == (k, v) || Put(c, k, v)[i] in c
  {
    if c != [] {
      var r := Put(c, k, v);
      if c[0].0 != k {
        PutValues(c[1..], k, v);
        forall i | 0 <= i < |r| ensures r[i] == (k, v) || r[i] in c {
          if i > 0 {
            assert r[i] == Put(c[1..], k, v)[i - 1];
            assert forall e :: e in c[1..] ==> e in c;
          }
        }
      } else {
        forall i | 0 <= i < |r| ensures r[i] == (k, v) || r[i] in c {
          if i > 0 { assert r[i] == c[i]; }
        }
      }
    }
  }

  /** The counter a loop `for k in ks: d[k] = d.get(k, 0) + 1` leaves behind. */
  function CountOf<K(==)>(ks: seq<K>): Counter<K> {
    if ks == [] then [] else Bump(CountOf(ks[..|ks| - 1]), ks[|ks| - 1])
  }

  lemma CountOfSnoc<K>(ks: seq<K>, k: K)
    ensures CountOf(ks + [k]) == Bump(CountOf(ks), k)
  {
    assert (ks + [k])[..|ks|] == ks;
  }

  /** The counts add up to the number of items counted. */
  lemma {:induction false} TotalCountOf<K>(ks: seq<K>)
    ensures Total(CountOf(ks)) == |ks|
  {
    if ks != [] {
      TotalCountOf(ks[..|ks| - 1]);
      TotalAdd(CountOf(ks[..|ks| - 1]), ks[|ks| - 1], 1);
    }
  }

  /** Each key's count is its number of occurrences. */
  lemma {:induction false} GetCountOf<K>(ks: seq<K>, k: K)
    ensures Get(CountOf(ks), k) == multiset(ks)[k]
  {
    if ks != [] {
      var p := ks[..|ks| - 1];
      assert ks == p + [ks[|ks| - 1]];
      GetCountOf(p, k);
      GetAdd(CountOf(p), ks[|ks| - 1], 1, k);
    }
  }

  /** The keys are exactly the values counted, each once. */
  lemma {:induction false} CountOfKeys<K>(ks: seq<K>)
    ensures DistinctKeys(CountOf(ks))
    ensures forall k :: k in Keys(CountOf(ks)) <==> k in ks
  {
    if ks != [] {
      var p := ks[..|ks| - 1];
      assert ks == p + [ks[|ks| - 1]];
      CountOfKeys(p);
      AddKeepsDistinct(CountOf(p), ks[|ks| - 1], 1);
      KeysAdd(CountOf(p), ks[|ks| - 1], 1);
    }
  }

  /** The counter a loop `for (k, n) in items: d[k] = d.get(k, 0) + n` leaves behind. */
  function SumOf<K(==)>(items: seq<(K, int)>): Counter<K> {
    if items == [] then [] else Add(SumOf(items[..|items| - 1]), items[|items| - 1].0, items[|items| - 1].1)
  }

  function SumAmounts<K(==)>(items: seq<(K, int)>): int {
    if items == [] then 0 else SumAmounts(items[..|items| - 1]) + items[|items| - 1].1
  }

  /** Summing by key loses nothing: the grand total is the sum of all amounts. */
  lemma {:induction false} TotalSumOf<K>(items: seq<(K, int)>)
    ensures Total(SumOf(items)) == SumAmounts(items)
  {
    if items != [] {
      TotalSumOf(items[..|items| - 1]);
      TotalAdd(SumOf(items[..|items| - 1]), items[|items| - 1].0, items[|items| - 1].1);
    }
  }

  /** The loop `for x in xs: k = f(x); d[k] = d.get(k, 0) + 1`. */
  method CountBy<T, K(==)>(xs: seq<T>, f: T -> K) returns (c: Counter<K>)
    ensures c == CountOf(Seqs.Map(f, xs))
    ensures Total(c) == |xs|
  {
    c := [];
    var i := 0;
    while i < |xs|
      invariant 0 <= i <= |xs|
      invariant c == CountOf(Seqs.Map(f, xs[..i]))
    {
      assert xs[..i + 1] == xs[..i] + [xs[i]];
      Seqs.MapSnoc(f, xs[..i], xs[i]);
      CountOfSnoc(Seqs.Map(f, xs[..i]), f(xs[i]));
      c := Bump(c, f(xs[i]));
      i := i + 1;
    }
    assert xs[..|xs|] == xs;
    TotalCountOf(Seqs.Map(f, xs));
  }
}
