/** Python list and dict behaviour the pipeline relies on: slicing, indexing,
    flattening and insertion-ordered dictionaries. */
module Seqs {
  import opened Base

  function Min(a: int, b: int): int { if a <= b then a else b }
  function Max(a: int, b: int): int { if a >= b then a else b }

  /** Python `s[:n]`: a negative `n` drops `-n` elements from the end. */
  function PyPrefix<T>(s: seq<T>, n: int): (r: seq<T>)
    ensures |r| <= |s| && r == s[..|r|]
    ensures n >= 0 ==> |r| == Min(n, |s|)
    ensures n < 0 ==> |r| == Max(0, |s| + n)
  {
    if n >= 0 then s[..Min(n, |s|)] else s[..Max(0, |s| + n)]
  }

  /** Python `s[i]`: a negative index counts from the end, and one outside the list raises. */
  function PyIndex<T>(s: seq<T>, i: int): (r: Option<T>)
    ensures r.Some? <==> -|s| <= i < |s|
    ensures 0 <= i < |s| ==> r == Some(s[i])
    ensures -|s| <= i < 0 ==> r == Some(s[|s| + i])
  {
    if 0 <= i < |s| then Some(s[i])
    else if -|s| <= i < 0 then Some(s[|s| + i])
    else None
  }

  /** `r` is `s` with some elements left out and the rest in their original order. */
  ghost predicate IsSubsequence<T>(r: seq<T>, s: seq<T>)
    decreases |s|
  {
    if |r| == 0 then true
    else if |s| == 0 then false
    else (r[0] == s[0] && IsSubsequence(r[1..], s[1..])) || IsSubsequence(r, s[1..])
  }

  /** Concatenation of a list of lists, in order. */
  function Flatten<T>(ss: seq<seq<T>>): seq<T> {
    if |ss| == 0 then [] else ss[0] + Flatten(ss[1..])
  }

  lemma {:induction false} FlattenAppend<T>(a: seq<seq<T>>, b: seq<seq<T>>)
    ensures Flatten(a + b) == Flatten(a) + Flatten(b)
    decreases |a|
  {
    if |a| == 0 {
      assert a + b == b;
    } else {
      assert (a + b)[1..] == a[1..] + b;
      FlattenAppend(a[1..], b);
    }
  }

  /** When the lists before list `k` all have length `n`, element `j` of list `k` sits at
      position `k * n + j` of the concatenation. */
  lemma {:induction false} FlattenAt<T>(ss: seq<seq<T>>, n: int, k: int, j: int)
    requires 0 <= k < |ss| && 0 <= j < |ss[k]|
    requires forall i :: 0 <= i < k ==> |ss[i]| == n
    ensures 0 <= k * n + j < |Flatten(ss)| && Flatten(ss)[k * n + j] == ss[k][j]
    decreases k
  {
    if k > 0 {
      var tail := ss[1..];
      assert forall i :: 0 <= i < k - 1 ==> tail[i] == ss[i + 1];
      FlattenAt(tail, n, k - 1, j);
      assert Flatten(ss) == ss[0] + Flatten(tail);
      assert |ss[0]| == n;
      assert k * n + j == n + ((k - 1) * n + j);
      assert Flatten(ss)[n + ((k - 1) * n + j)] == Flatten(tail)[(k - 1) * n + j];
    }
  }

  /** `[f(x) for x in items]`. */
  function Map<T, U>(items: seq<T>, f: T -> U): (r: seq<U>)
    ensures |r| == |items|
  {
    if |items| == 0 then [] else [f(items[0])] + Map(items[1..], f)
  }

  /** Element `j` of the mapped list is `f` applied to `items[j]`. */
  lemma {:induction false} MapAt<T, U>(items: seq<T>, f: T -> U, j: int)
    requires 0 <= j < |items|
    ensures Map(items, f)[j] == f(items[j])
    decreases |items|
  {
    if j > 0 {
      MapAt(items[1..], f, j - 1);
    }
  }

  /** Mapping distributes over concatenation. */
  lemma {:induction false} MapAppend<T, U>(a: seq<T>, b: seq<T>, f: T -> U)
    ensures Map(a + b, f) == Map(a, f) + Map(b, f)
    decreases |a|
  {
    if |a| == 0 {
      assert a + b == b;
    } else {
      assert (a + b)[1..] == a[1..] + b;
      MapAppend(a[1..], b, f);
    }
  }

  /** `[f(k, x) for k, x in enumerate(items, number)]`. */
  function Numbered<T, U>(items: seq<T>, number: int, f: (int, T) --> U): (r: seq<U>)
    requires forall i :: 0 <= i < |items| ==> f.requires(number + i, items[i])
    ensures |r| == |items|
  {
    if |items| == 0 then []
    else
      assert forall i :: 0 <= i < |items[1..]| ==> items[1..][i] == items[i + 1];
      [f(number, items[0])] + Numbered(items[1..], number + 1, f)
  }

  /** Element `j` of the numbered list is `f` applied to `number + j` and `items[j]`. */
  lemma {:induction false} NumberedAt<T, U>(items: seq<T>, number: int, f: (int, T) --> U, j: int)
    requires forall i :: 0 <= i < |items| ==> f.requires(number + i, items[i])
    requires 0 <= j < |items|
    ensures Numbered(items, number, f)[j] == f(number + j, items[j])
    decreases |items|
  {
    if j > 0 {
      var tail := items[1..];
      assert forall i :: 0 <= i < |tail| ==> tail[i] == items[i + 1];
      NumberedAt(tail, number + 1, f, j - 1);
      assert tail[j - 1] == items[j];
    }
  }

  /** Flattening one more list of a prefix appends that list. */
  lemma FlattenSnoc<T>(ss: seq<seq<T>>, k: int)
    requires 0 <= k < |ss|
    ensures Flatten(ss[..k + 1]) == Flatten(ss[..k]) + ss[k]
  {
    FlattenAppend(ss[..k], [ss[k]]);
    assert ss[..k + 1] == ss[..k] + [ss[k]];
    assert Flatten([ss[k]]) == ss[k] + Flatten([ss[k]][1..]);
  }

  /** Mapping and flattening one more element of a prefix appends that element's image. */
  lemma FlattenMapSnoc<T, U>(xs: seq<T>, k: int, f: T -> seq<U>)
    requires 0 <= k < |xs|
    ensures Flatten(Map(xs[..k + 1], f)) == Flatten(Map(xs[..k], f)) + f(xs[k])
  {
    assert xs[..k + 1] == xs[..k] + [xs[k]];
    MapAppend(xs[..k], [xs[k]], f);
    assert [xs[k]][1..] == [];
    assert Map([xs[k]], f) == [f(xs[k])] + Map([xs[k]][1..], f);
    assert Map(xs[..k + 1], f) == Map(xs[..k], f) + [f(xs[k])];
    FlattenAppend(Map(xs[..k], f), [f(xs[k])]);
    assert Flatten([f(xs[k])]) == f(xs[k]) + Flatten([f(xs[k])][1..]);
  }

  // ---------------------------------------------------------------------------
  // Insertion-ordered dictionaries, as Python 3.7+ `dict` keeps them.
  // ---------------------------------------------------------------------------

  /** A dictionary as its list of items in insertion order. */
  type Assoc<K, V> = seq<(K, V)>

  function Keys<K, V>(d: Assoc<K, V>): (ks: seq<K>)
    ensures |ks| == |d|
    ensures forall i :: 0 <= i < |d| ==> ks[i] == d[i].0
  {
    if |d| == 0 then [] else [d[0].0] + Keys(d[1..])
  }

  predicate HasKey<K(==), V>(d: Assoc<K, V>, k: K) {
    exists i :: 0 <= i < |d| && d[i].0 == k
  }

  predicate DistinctKeys<K(==), V>(d: Assoc<K, V>) {
    forall i, j :: 0 <= i < j < |d| ==> d[i].0 != d[j].0
  }

  /** Python `d.get(k)`. */
  function Get<K(==), V>(d: Assoc<K, V>, k: K): (r: Option<V>)
    ensures r.Some? <==> HasKey(d, k)
    ensures r.Some? ==> exists i :: 0 <= i < |d| && d[i] == (k, r.value)
  {
    if |d| == 0 then None
    else if d[0].0 == k then Some(d[0].1)
    else
      var r := Get(d[1..], k);
      assert r.Some? ==> exists i :: 0 <= i < |d[1..]| && d[1..][i] == (k, r.value);
      assert HasKey(d[1..], k) ==> HasKey(d, k) by {
        if HasKey(d[1..], k) {
          var i :| 0 <= i < |d[1..]| && d[1..][i].0 == k;
          assert d[i + 1].0 == k;
        }
      }
      r
  }

  /** Python `d[k] = v`: an existing key keeps its position and takes the new value,
      a new key goes to the end. */
  function Put<K(==), V>(d: Assoc<K, V>, k: K, v: V): (r: Assoc<K, V>)
    ensures HasKey(d, k) ==> Keys(r) == Keys(d)
    ensures !HasKey(d, k) ==> Keys(r) == Keys(d) + [k]
  {
    if |d| == 0 then [(k, v)]
    else if d[0].0 == k then [(k, v)] + d[1..]
    else
      HasKeyTail(d, k);
      KeysCons(d[0], Put(d[1..], k, v));
      [d[0]] + Put(d[1..], k, v)
  }

  /** A key other than the first is in the dictionary exactly when it is in the rest. */
  lemma HasKeyTail<K, V>(d: Assoc<K, V>, k: K)
    requires |d| > 0 && d[0].0 != k
    ensures HasKey(d, k) <==> HasKey(d[1..], k)
  {
    if HasKey(d, k) {
      var i :| 0 <= i < |d| && d[i].0 == k;
      assert d[1..][i - 1].0 == k;
    }
    if HasKey(d[1..], k) {
      var i :| 0 <= i < |d[1..]| && d[1..][i].0 == k;
      assert d[i + 1].0 == k;
    }
  }

  lemma KeysCons<K, V>(item: (K, V), d: Assoc<K, V>)
    ensures Keys([item] + d) == [item.0] + Keys(d)
  {
    assert ([item] + d)[1..] == d;
  }

  lemma {:induction false} PutGet<K, V>(d: Assoc<K, V>, k: K, v: V, k': K)
    ensures Get(Put(d, k, v), k') == if k' == k then Some(v) else Get(d, k')
    decreases |d|
  {
    if |d| > 0 && d[0].0 != k {
      PutGet(d[1..], k, v, k');
      assert Put(d, k, v)[1..] == Put(d[1..], k, v);
    }
  }

  lemma PutDistinct<K, V>(d: Assoc<K, V>, k: K, v: V)
    requires DistinctKeys(d)
    ensures DistinctKeys(Put(d, k, v))
  {
    var r := Put(d, k, v);
    forall i, j | 0 <= i < j < |r|
      ensures r[i].0 != r[j].0
    {
      assert Keys(r)[i] == r[i].0 && Keys(r)[j] == r[j].0;
      if HasKey(d, k) {
        assert Keys(d)[i] == d[i].0 && Keys(d)[j] == d[j].0;
      } else {
        assert j < |d| ==> Keys(d)[j] == d[j].0;
        if j == |d| {
          assert r[j].0 == k;
          assert Keys(d)[i] == d[i].0;
        } else {
          assert Keys(d)[i] == d[i].0;
        }
      }
    }
  }

  /** Every item of `Put(d, k, v)` is the new item or an item of `d`. */
  lemma {:induction false} PutItems<K, V>(d: Assoc<K, V>, k: K, v: V)
    ensures forall i :: 0 <= i < |Put(d, k, v)| ==> Put(d, k, v)[i] == (k, v) || Put(d, k, v)[i] in d
    decreases |d|
  {
    if |d| > 0 && d[0].0 != k {
      PutItems(d[1..], k, v);
      var r := Put(d, k, v);
      forall i | 0 < i < |r|
        ensures r[i] == (k, v) || r[i] in d
      {
        assert r[i] == Put(d[1..], k, v)[i - 1];
      }
    }
  }

  /** The dictionary built by `for x in xs: if val(x) is not None: d[key(x)] = val(x)`,
      starting from an empty one. */
  function PutAll<E, K(==), V>(xs: seq<E>, key: E -> K, val: E -> Option<V>): (r: Assoc<K, V>)
    ensures DistinctKeys(r)
    decreases |xs|
  {
    if |xs| == 0 then []
    else
      var d := PutAll(xs[..|xs| - 1], key, val);
      var x := xs[|xs| - 1];
      if val(x).Some? then PutDistinct(d, key(x), val(x).value); Put(d, key(x), val(x).value) else d
  }

  /** Some element of `xs` has key `k` and a value. */
  predicate Yields<E, K(==), V>(xs: seq<E>, key: E -> K, val: E -> Option<V>, k: K) {
    exists i :: 0 <= i < |xs| && key(xs[i]) == k && val(xs[i]).Some?
  }

  /** Element `i` is the last element of `xs` with key `k` and a value. */
  predicate LastYield<E, K(==), V>(xs: seq<E>, key: E -> K, val: E -> Option<V>, k: K, i: int) {
    && 0 <= i < |xs|
    && key(xs[i]) == k
    && val(xs[i]).Some?
    && forall j :: i < j < |xs| && key(xs[j]) == k ==> val(xs[j]).None?
  }

  lemma YieldsShrink<E, K, V>(xs: seq<E>, key: E -> K, val: E -> Option<V>, k: K)
    requires |xs| > 0 && !(key(xs[|xs| - 1]) == k && val(xs[|xs| - 1]).Some?)
    ensures Yields(xs, key, val, k) <==> Yields(xs[..|xs| - 1], key, val, k)
  {
    var init := xs[..|xs| - 1];
    if Yields(xs, key, val, k) {
      var i :| 0 <= i < |xs| && key(xs[i]) == k && val(xs[i]).Some?;
      assert init[i] == xs[i];
    }
    if Yields(init, key, val, k) {
      var i :| 0 <= i < |init| && key(init[i]) == k && val(init[i]).Some?;
      assert init[i] == xs[i];
    }
  }

  /** A key is present exactly when some element has that key and a value. */
  lemma {:induction false} PutAllKeys<E, K, V>(xs: seq<E>, key: E -> K, val: E -> Option<V>, k: K)
    ensures HasKey(PutAll(xs, key, val), k) <==> Yields(xs, key, val, k)
    decreases |xs|
  {
    if |xs| > 0 {
      var n := |xs| - 1;
      var x := xs[n];
      var d := PutAll(xs[..n], key, val);
      var r := PutAll(xs, key, val);
      PutAllKeys(xs[..n], key, val, k);
      if key(x) == k && val(x).Some? {
        assert r == Put(d, k, val(x).value);
        PutGet(d, k, val(x).value, k);
        assert Get(r, k).Some?;
        assert key(xs[n]) == k && val(xs[n]).Some?;
      } else {
        PutAllStep(xs, key, val, k);
        YieldsShrink(xs, key, val, k);
      }
    }
  }

  /** An element that does not put key `k` leaves its value as it was. */
  lemma PutAllStep<E, K, V>(xs: seq<E>, key: E -> K, val: E -> Option<V>, k: K)
    requires |xs| > 0 && !(key(xs[|xs| - 1]) == k && val(xs[|xs| - 1]).Some?)
    ensures Get(PutAll(xs, key, val), k) == Get(PutAll(xs[..|xs| - 1], key, val), k)
  {
    var x := xs[|xs| - 1];
    var d := PutAll(xs[..|xs| - 1], key, val);
    if val(x).Some? {
      PutGet(d, key(x), val(x).value, k);
    }
  }

  /** The value under a key is that of the last element with that key and a value. */
  lemma {:induction false} PutAllValue<E, K, V>(xs: seq<E>, key: E -> K, val: E -> Option<V>, k: K, i: int)
    requires LastYield(xs, key, val, k, i)
    ensures Get(PutAll(xs, key, val), k) == val(xs[i])
    decreases |xs|
  {
    var n := |xs| - 1;
    var init := xs[..n];
    var x := xs[n];
    var d := PutAll(init, key, val);
    if i == n {
      PutGet(d, key(x), val(x).value, k);
    } else {
      assert LastYield(init, key, val, k, i) by {
        assert init[i] == xs[i];
        forall j | i < j < |init| && key(init[j]) == k
          ensures val(init[j]).None?
        {
          assert init[j] == xs[j];
        }
      }
      PutAllValue(init, key, val, k, i);
      if val(x).Some? {
        PutGet(d, key(x), val(x).value, k);
      }
    }
  }

  /** Every stored value is the value of an element carrying its key. */
  lemma {:induction false} PutAllValueFrom<E, K, V>(xs: seq<E>, key: E -> K, val: E -> Option<V>, k: K)
    requires HasKey(PutAll(xs, key, val), k)
    ensures exists i :: 0 <= i < |xs| && key(xs[i]) == k && val(xs[i]) == Get(PutAll(xs, key, val), k)
    decreases |xs|
  {
    var n := |xs| - 1;
    var init := xs[..n];
    var x := xs[n];
    var d := PutAll(init, key, val);
    if val(x).Some? {
      PutGet(d, key(x), val(x).value, k);
    }
    if val(x).Some? && key(x) == k {
      assert key(xs[n]) == k && val(xs[n]) == Get(PutAll(xs, key, val), k);
    } else {
      assert Get(PutAll(xs, key, val), k) == Get(d, k);
      PutAllValueFrom(init, key, val, k);
      var i :| 0 <= i < |init| && key(init[i]) == k && val(init[i]) == Get(d, k);
      assert init[i] == xs[i];
    }
  }

  /** The keys of the elements that have a value, in order, repeats included. */
  function YieldedKeys<E, K, V>(xs: seq<E>, key: E -> K, val: E -> Option<V>): seq<K>
    decreases |xs|
  {
    if |xs| == 0 then []
    else (if val(xs[0]).Some? then [key(xs[0])] else []) + YieldedKeys(xs[1..], key, val)
  }

  lemma {:induction false} YieldedKeysSnoc<E, K, V>(xs: seq<E>, key: E -> K, val: E -> Option<V>)
    requires |xs| > 0
    ensures YieldedKeys(xs, key, val) == YieldedKeys(xs[..|xs| - 1], key, val)
              + (if val(xs[|xs| - 1]).Some? then [key(xs[|xs| - 1])] else [])
    decreases |xs|
  {
    if |xs| > 1 {
      YieldedKeysSnoc(xs[1..], key, val);
      assert xs[1..][..|xs| - 2] == xs[..|xs| - 1][1..];
    }
  }

  /** The elements of `ks` without repeats, each where it first occurs. */
  function FirstOccurrences<K(==)>(ks: seq<K>): (r: seq<K>)
    ensures forall i, j :: 0 <= i < j < |r| ==> r[i] != r[j]
    ensures forall i :: 0 <= i < |ks| ==> ks[i] in r
    ensures forall i :: 0 <= i < |r| ==> r[i] in ks
    decreases |ks|
  {
    if |ks| == 0 then []
    else
      var d := FirstOccurrences(ks[..|ks| - 1]);
      assert ks == ks[..|ks| - 1] + [ks[|ks| - 1]];
      if ks[|ks| - 1] in d then d else d + [ks[|ks| - 1]]
  }

  /** The first element survives in front. */
  lemma {:induction false} FirstOccurrencesHead<K>(ks: seq<K>)
    requires |ks| > 0
    ensures |FirstOccurrences(ks)| > 0 && FirstOccurrences(ks)[0] == ks[0]
    decreases |ks|
  {
    if |ks| > 1 {
      FirstOccurrencesHead(ks[..|ks| - 1]);
    }
  }

  /** The dictionary's keys are the keys of the elements that have a value, in the order
      in which each key first gets one: a later assignment to a key never moves it. */
  lemma {:induction false} PutAllKeyOrder<E, K, V>(xs: seq<E>, key: E -> K, val: E -> Option<V>)
    ensures Keys(PutAll(xs, key, val)) == FirstOccurrences(YieldedKeys(xs, key, val))
    decreases |xs|
  {
    if |xs| > 0 {
      var n := |xs| - 1;
      var d := PutAll(xs[..n], key, val);
      var ys := YieldedKeys(xs[..n], key, val);
      var o := val(xs[n]);
      calc {
        Keys(PutAll(xs, key, val));
        { PutAllSnoc(xs, key, val); }
        Keys(if o.Some? then Put(d, key(xs[n]), o.value) else d);
        { PutAllKeyOrder(xs[..n], key, val);
          PutKeyOrderStep(d, ys, key(xs[n]), o); }
        FirstOccurrences(ys + if o.Some? then [key(xs[n])] else []);
        { YieldedKeysSnoc(xs, key, val); }
        FirstOccurrences(YieldedKeys(xs, key, val));
      }
    }
  }

  /** The last element's assignment is applied to the dictionary of the others. */
  lemma PutAllSnoc<E, K, V>(xs: seq<E>, key: E -> K, val: E -> Option<V>)
    requires |xs| > 0
    ensures PutAll(xs, key, val)
            == var x := xs[|xs| - 1];
               var d := PutAll(xs[..|xs| - 1], key, val);
               if val(x).Some? then Put(d, key(x), val(x).value) else d
  {
  }

  /** One loop step keeps the key order in step with the first occurrences: an
      assignment adds its key at the end unless the key is already present. */
  lemma PutKeyOrderStep<K, V>(d: Assoc<K, V>, ys: seq<K>, k: K, o: Option<V>)
    requires Keys(d) == FirstOccurrences(ys)
    ensures Keys(if o.Some? then Put(d, k, o.value) else d)
            == FirstOccurrences(ys + if o.Some? then [k] else [])
  {
    if o.Some? {
      KeysPut(d, k, o.value);
      FirstOccurrencesSnoc(ys, k);
    } else {
      assert ys + [] == ys;
    }
  }

  lemma KeysPut<K, V>(d: Assoc<K, V>, k: K, v: V)
    ensures Keys(Put(d, k, v)) == if k in Keys(d) then Keys(d) else Keys(d) + [k]
  {
    if HasKey(d, k) {
      var i :| 0 <= i < |d| && d[i].0 == k;
      assert Keys(d)[i] == k;
    }
  }

  lemma FirstOccurrencesSnoc<K>(ks: seq<K>, k: K)
    ensures FirstOccurrences(ks + [k])
            == if k in FirstOccurrences(ks) then FirstOccurrences(ks) else FirstOccurrences(ks) + [k]
  {
    assert (ks + [k])[..|ks|] == ks;
  }

  /** The least element with a value is the first key yielded. */
  lemma {:induction false} YieldedKeysFirst<E, K, V>(xs: seq<E>, key: E -> K, val: E -> Option<V>, i: int)
    requires 0 <= i < |xs| && val(xs[i]).Some?
    requires forall j :: 0 <= j < i ==> val(xs[j]).None?
    ensures |YieldedKeys(xs, key, val)| > 0 && YieldedKeys(xs, key, val)[0] == key(xs[i])
    decreases i
  {
    if i > 0 {
      YieldedKeysFirst(xs[1..], key, val, i - 1);
    }
  }

  /** The first key of the dictionary is that of the first element with a value. */
  lemma PutAllFirstKey<E, K, V>(xs: seq<E>, key: E -> K, val: E -> Option<V>, i: int)
    requires 0 <= i < |xs| && val(xs[i]).Some?
    requires forall j :: 0 <= j < i ==> val(xs[j]).None?
    ensures |PutAll(xs, key, val)| > 0 && PutAll(xs, key, val)[0].0 == key(xs[i])
  {
    PutAllKeyOrder(xs, key, val);
    YieldedKeysFirst(xs, key, val, i);
    FirstOccurrencesHead(YieldedKeys(xs, key, val));
  }
}
