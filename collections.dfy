/** Collection helpers the services share: `Array.prototype.sort` with a numeric
    "newest first" comparator (`(a, b) => key(b) - key(a)`), and a scan of a key/value
    store that keeps the values a selector accepts, as the storage loops that walk
    every key and push the matching records do. */
module Collections {
  import opened Types

  ghost predicate SortedDesc<T>(s: seq<T>, key: T -> int) {
    forall i, j :: 0 <= i < j < |s| ==> key(s[i]) >= key(s[j])
  }

  /** Places `x` before the first element with a smaller key, so equal keys keep their
      order. */
  function Insert<T>(x: T, s: seq<T>, key: T -> int): (r: seq<T>)
    requires SortedDesc(s, key)
    ensures |r| == |s| + 1
    ensures r[0] == x || (s != [] && r[0] == s[0])
    ensures SortedDesc(r, key)
    ensures multiset(r) == multiset(s) + multiset{x}
  {
    if s == [] || key(x) >= key(s[0]) then
      assert multiset([x] + s) == multiset{x} + multiset(s);
      [x] + s
    else
      var tail := Insert(x, s[1..], key);
      ConsSorted(s[0], tail, key);
      assert multiset([s[0]] + tail) == multiset{s[0]} + multiset(tail);
      assert s == [s[0]] + s[1..];
      assert multiset(s) == multiset{s[0]} + multiset(s[1..]);
      [s[0]] + tail
  }

  /** A sorted sequence stays sorted with an element in front whose key is at least its
      first one's. */
  lemma ConsSorted<T>(h: T, t: seq<T>, key: T -> int)
    requires SortedDesc(t, key) && (t != [] ==> key(h) >= key(t[0]))
    ensures SortedDesc([h] + t, key)
  {
    var r := [h] + t;
    forall i, j | 0 <= i < j < |r|
      ensures key(r[i]) >= key(r[j])
    {
      if i == 0 {
        assert r[j] == t[j - 1];
      } else {
        assert r[i] == t[i - 1] && r[j] == t[j - 1];
      }
    }
  }

  /** `s.sort((a, b) => key(b) - key(a))`: the same elements, largest key first. */
  function SortDesc<T>(s: seq<T>, key: T -> int): (r: seq<T>)
    ensures SortedDesc(r, key)
    ensures multiset(r) == multiset(s)
  {
    if s == [] then []
    else
      assert s == [s[0]] + s[1..];
      assert multiset(s) == multiset(s[1..]) + multiset{s[0]};
      Insert(s[0], SortDesc(s[1..], key), key)
  }

  /** Keeping the first `k` elements of a newest-first sequence keeps the `k` largest
      keys: no element left out is newer than an element kept. */
  lemma {:induction false} PrefixIsNewest<T>(r: seq<T>, key: T -> int, k: nat)
    requires SortedDesc(r, key) && k <= |r|
    ensures forall x, y :: x in r[..k] && y in r && y !in r[..k] ==> key(x) >= key(y)
  {
    forall x, y | x in r[..k] && y in r && y !in r[..k]
      ensures key(x) >= key(y)
    {
      var i :| 0 <= i < k && r[..k][i] == x;
      var j :| 0 <= j < |r| && r[j] == y;
    }
  }

  /** The first `k` elements of a sorted rearrangement `r` of `s`: `k` of them, still
      sorted, each from `s`, and none of `s` left out has a larger key than one kept. */
  lemma SortedPrefix<T>(s: seq<T>, r: seq<T>, key: T -> int, k: nat)
    requires multiset(r) == multiset(s) && SortedDesc(r, key) && k <= |s|
    ensures |r| == |s| && |r[..k]| == k
    ensures SortedDesc(r[..k], key)
    ensures forall x :: x in r[..k] ==> x in s
    ensures forall x, y :: x in r[..k] && y in s && y !in r[..k] ==> key(x) >= key(y)
  {
    assert |r| == |multiset(r)| == |multiset(s)| == |s|;
    forall x | x in r[..k]
      ensures x in s
    {
      assert x in multiset(r);
    }
    PrefixIsNewest(r, key, k);
    forall y | y in s
      ensures y in r
    {
      assert y in multiset(s);
    }
  }

  // ---------------------------------------------------------------------------
  // Scanning a key/value store

  ghost predicate Distinct<T>(s: seq<T>) {
    forall i, j :: 0 <= i < j < |s| ==> s[i] != s[j]
  }

  /** The keys of `m` whose entry the selector accepts. */
  ghost function AcceptedKeys<V, T>(m: map<string, V>, select: (string, V) -> Option<T>): set<string> {
    set k | k in m && select(k, m[k]).Some?
  }

  /** The keys among `keys` whose entry the selector turns into `x`. */
  ghost function KeysTo<V, T>(m: map<string, V>, select: (string, V) -> Option<T>, keys: set<string>, x: T): set<string> {
    set k | k in keys && k in m && select(k, m[k]) == Some(x)
  }

  /** Visiting one more key adds it to the keys of the value it selects, and to no other. */
  lemma KeysToAdd<V, T>(m: map<string, V>, select: (string, V) -> Option<T>, done: set<string>, k: string, x: T)
    requires k in m && k !in done
    ensures |KeysTo(m, select, done + {k}, x)| == |KeysTo(m, select, done, x)| + if select(k, m[k]) == Some(x) then 1 else 0
  {
    if select(k, m[k]) == Some(x) {
      assert KeysTo(m, select, done + {k}, x) == KeysTo(m, select, done, x) + {k};
    } else {
      assert KeysTo(m, select, done + {k}, x) == KeysTo(m, select, done, x);
    }
  }

  /** A sequence without repetitions is as long as the set of its elements. */
  lemma {:induction false} DistinctSize<T>(s: seq<T>, elems: set<T>)
    requires Distinct(s)
    requires forall x :: x in s <==> x in elems
    ensures |s| == |elems|
  {
    if s != [] {
      var last := s[|s| - 1];
      var init := s[..|s| - 1];
      assert s == init + [last];
      assert last !in init;
      DistinctSize(init, elems - {last});
    } else {
      assert elems == {};
    }
  }

  /** Visits every key of `m` once, in an order the store chooses, and pushes what the
      selector makes of each accepted entry. `order` is the sequence of keys that were
      accepted, in the order their records were pushed. */
  method CollectSelected<V, T>(m: map<string, V>, select: (string, V) -> Option<T>)
    returns (r: seq<T>, ghost order: seq<string>)
    ensures Distinct(order)
    ensures forall k :: k in order <==> k in AcceptedKeys(m, select)
    ensures |r| == |order| == |AcceptedKeys(m, select)|
    ensures forall i :: 0 <= i < |order| ==> order[i] in m && select(order[i], m[order[i]]) == Some(r[i])
    ensures forall x :: multiset(r)[x] == |KeysTo(m, select, m.Keys, x)|
  {
    r, order := [], [];
    var remaining := m.Keys;
    while remaining != {}
      invariant remaining <= m.Keys
      invariant Distinct(order)
      invariant forall k :: k in order <==> k in AcceptedKeys(m, select) && k !in remaining
      invariant |r| == |order|
      invariant forall i :: 0 <= i < |order| ==> order[i] in m && select(order[i], m[order[i]]) == Some(r[i])
      invariant forall x :: multiset(r)[x] == |KeysTo(m, select, m.Keys - remaining, x)|
      decreases remaining
    {
      var k :| k in remaining;
      var picked := select(k, m[k]);
      if picked.Some? {
        r, order := r + [picked.value], order + [k];
      }
      assert m.Keys - (remaining - {k}) == (m.Keys - remaining) + {k};
      forall x
        ensures multiset(r)[x] == |KeysTo(m, select, (m.Keys - remaining) + {k}, x)|
      {
        KeysToAdd(m, select, m.Keys - remaining, k, x);
      }
      remaining := remaining - {k};
    }
    assert m.Keys - remaining == m.Keys;
    DistinctSize(order, AcceptedKeys(m, select));
  }

  /** Collects what the selector accepts and sorts it largest key first: every element
      comes from an accepted entry, every accepted entry is there, and each value occurs
      exactly as often as there are keys whose entry selects it. */
  method CollectSorted<V, T>(m: map<string, V>, select: (string, V) -> Option<T>, key: T -> int)
    returns (r: seq<T>)
    ensures SortedDesc(r, key)
    ensures forall x :: x in r ==> exists k :: k in m && select(k, m[k]) == Some(x)
    ensures forall k :: k in m && select(k, m[k]).Some? ==> select(k, m[k]).value in r
    ensures |r| == |AcceptedKeys(m, select)|
    ensures forall x :: multiset(r)[x] == |KeysTo(m, select, m.Keys, x)|
  {
    var found, order := CollectSelected(m, select);
    r := SortDesc(found, key);
    forall x | x in r
      ensures exists k :: k in m && select(k, m[k]) == Some(x)
    {
      assert x in multiset(found);
      var i :| 0 <= i < |found| && found[i] == x;
      assert select(order[i], m[order[i]]) == Some(x);
    }
    forall k | k in m && select(k, m[k]).Some?
      ensures select(k, m[k]).value in r
    {
      assert k in AcceptedKeys(m, select);
      var i :| 0 <= i < |order| && order[i] == k;
      assert found[i] in multiset(r);
    }
    assert |r| == |multiset(r)| == |multiset(found)| == |found|;
  }

  // ---------------------------------------------------------------------------
  // Writes into a key/value store, one per visited element

  /** The store after visiting `xs` in order, writing `write(x)` (a key and a value) for
      each element that has something to write. */
  function WriteEach<T>(m: map<string, string>, xs: seq<T>, write: T -> Option<(string, string)>): map<string, string>
    decreases |xs|
  {
    if xs == [] then m
    else
      var before := WriteEach(m, xs[..|xs| - 1], write);
      match write(xs[|xs| - 1])
      case Some((k, v)) => before[k := v]
      case None => before
  }

  /** Entry `k` is the same in `a` and `b`. */
  predicate Untouched(a: map<string, string>, b: map<string, string>, k: string) {
    (k in a <==> k in b) && (k in a ==> a[k] == b[k])
  }

  lemma SameEntries(a: map<string, string>, b: map<string, string>)
    requires forall k :: Untouched(a, b, k)
    ensures a == b
  {
    forall k
      ensures (k in a <==> k in b) && (k in a ==> a[k] == b[k])
    {
      assert Untouched(a, b, k);
    }
  }

  /** An entry no visited element writes is left alone. */
  lemma {:induction false} WriteEachUntouched<T>(m: map<string, string>, xs: seq<T>,
                                                  write: T -> Option<(string, string)>, k: string)
    requires forall i :: 0 <= i < |xs| && write(xs[i]).Some? ==> write(xs[i]).value.0 != k
    ensures Untouched(m, WriteEach(m, xs, write), k)
    decreases |xs|
  {
    if xs != [] {
      var n := |xs| - 1;
      assert forall i :: 0 <= i < n ==> xs[..n][i] == xs[i];
      WriteEachUntouched(m, xs[..n], write, k);
    }
  }

  /** An entry written by element `j`, and afterwards only rewritten with the same value,
      holds that value. */
  lemma {:induction false} WriteEachWritten<T>(m: map<string, string>, xs: seq<T>,
                                                write: T -> Option<(string, string)>, j: int)
    requires 0 <= j < |xs| && write(xs[j]).Some?
    requires forall i :: j < i < |xs| && write(xs[i]).Some? && write(xs[i]).value.0 == write(xs[j]).value.0 ==>
      write(xs[i]) == write(xs[j])
    ensures var r := WriteEach(m, xs, write);
      write(xs[j]).value.0 in r && r[write(xs[j]).value.0] == write(xs[j]).value.1
    decreases |xs|
  {
    var n := |xs| - 1;
    if j < n && !(write(xs[n]).Some? && write(xs[n]).value.0 == write(xs[j]).value.0) {
      assert xs[..n][j] == xs[j];
      assert forall i :: j < i < n ==> xs[..n][i] == xs[i];
      WriteEachWritten(m, xs[..n], write, j);
    }
  }

  /** Visiting element `i` extends the visited prefix by one write. */
  lemma WriteEachStep<T>(m: map<string, string>, xs: seq<T>, write: T -> Option<(string, string)>, i: int)
    requires 0 <= i < |xs|
    ensures WriteEach(m, xs[..i + 1], write) ==
      match write(xs[i])
      case Some((k, v)) => WriteEach(m, xs[..i], write)[k := v]
      case None => WriteEach(m, xs[..i], write)
  {
    assert xs[..i + 1][..i] == xs[..i];
  }
}
