/** Objects whose keys keep their creation order, as JavaScript builds
    them: grouping a list by key, and the order in which `Object.entries`
    enumerates the keys. */
module OrderedObjects {
  import opened Options

  /** Some item has key `c`. */
  predicate HasKey<T, K(==)>(items: seq<T>, key: T -> K, c: K) {
    exists i :: 0 <= i < |items| && key(items[i]) == c
  }

  /** The values of the items with key `c`, in input order: the reference
      the grouping is measured against. */
  function ValuesFor<T, K(==), V>(items: seq<T>, key: T -> K, val: T -> V, c: K): (r: seq<V>)
    ensures r == [] <==> !HasKey(items, key, c)
    decreases |items|
  {
    if |items| == 0 then []
    else
      var init := items[..|items| - 1];
      var last := items[|items| - 1];
      var r := ValuesFor(init, key, val, c) + (if key(last) == c then [val(last)] else []);
      assert HasKey(items, key, c) <==> HasKey(init, key, c) || key(last) == c by {
        if HasKey(init, key, c) {
          var i :| 0 <= i < |init| && key(init[i]) == c;
          assert items[i] == init[i];
        }
      }
      r
  }

  /** The keys of an ordered object. */
  function Keys<K, V>(g: seq<(K, V)>): (t: seq<K>)
    ensures |t| == |g| && forall i :: 0 <= i < |g| ==> t[i] == g[i].0
  {
    seq(|g|, (i: int) requires 0 <= i < |g| => g[i].0)
  }

  lemma KeysAppend<K, V>(a: seq<(K, V)>, b: seq<(K, V)>)
    ensures Keys(a + b) == Keys(a) + Keys(b)
  {
  }

  lemma MultisetCut<X>(x: seq<X>, y: X, z: seq<X>)
    ensures multiset(x + [y] + z) == multiset(x + z) + multiset{y}
  {
  }

  /** Taking one entry out takes its key out. */
  lemma KeysRemove<K, V>(b: seq<(K, V)>, k: nat)
    requires k < |b|
    ensures multiset(Keys(b)) == multiset(Keys(b[..k] + b[k + 1..])) + multiset{b[k].0}
  {
    var p := b[..k];
    var q := b[k + 1..];
    assert Keys(b) == Keys(p) + [b[k].0] + Keys(q) by {
      assert b == p + [b[k]] + q;
      KeysAppend(p + [b[k]], q);
      KeysAppend(p, [b[k]]);
    }
    assert Keys(p + q) == Keys(p) + Keys(q) by {
      KeysAppend(p, q);
    }
    MultisetCut(Keys(p), b[k].0, Keys(q));
  }

  /** Two arrangements of the same entries still agree once the first
      entry of one is taken out of the other. */
  lemma RemoveMatched<X>(a: seq<X>, b: seq<X>, k: nat)
    requires multiset(a) == multiset(b) && |a| > 0 && k < |b| && b[k] == a[0]
    ensures multiset(a[1..]) == multiset(b[..k] + b[k + 1..])
  {
    var x := a[0];
    assert b == b[..k] + [x] + b[k + 1..];
    MultisetCut(b[..k], x, b[k + 1..]);
    assert a == [x] + a[1..];
    assert multiset(a[1..]) == multiset(a) - multiset{x};
  }

  /** One step of the permutation argument: matching keys after the first
      entry and its partner are taken out gives matching keys overall. */
  lemma KeysMatched<K, V>(a: seq<(K, V)>, b: seq<(K, V)>, k: nat)
    requires |a| > 0 && k < |b| && b[k] == a[0]
    requires multiset(Keys(a[1..])) == multiset(Keys(b[..k] + b[k + 1..]))
    ensures multiset(Keys(a)) == multiset(Keys(b))
  {
    KeysRemove(b, k);
    assert Keys(a) == [a[0].0] + Keys(a[1..]);
  }

  /** Reordering the entries reorders their keys. */
  lemma {:induction false} KeysPermute<K, V>(a: seq<(K, V)>, b: seq<(K, V)>)
    requires multiset(a) == multiset(b)
    ensures multiset(Keys(a)) == multiset(Keys(b))
    decreases |a|
  {
    if |a| > 0 {
      var x := a[0];
      assert x in multiset(b);
      var k :| 0 <= k < |b| && b[k] == x;
      var rest := b[..k] + b[k + 1..];
      RemoveMatched(a, b, k);
      KeysPermute(a[1..], rest);
      KeysMatched(a, b, k);
    }
  }

  /** The position of key `c`, if present. */
  function FindKey<K(==), V>(g: seq<(K, V)>, c: K): (r: Option<nat>)
    ensures r.Some? ==> r.value < |g| && g[r.value].0 == c
    ensures r.None? ==> c !in Keys(g)
  {
    if |g| == 0 then None
    else if g[0].0 == c then Some(0)
    else
      match FindKey(g[1..], c)
      case Some(k) => Some(k + 1)
      case None => None
  }

  /** `if (!grouped[c]) grouped[c] = []; grouped[c].push(v)`: the key is
      created on first sight and the value pushed onto it. */
  function Push<K(==), V>(g: seq<(K, seq<V>)>, c: K, v: V): seq<(K, seq<V>)> {
    match FindKey(g, c)
    case Some(k) => g[k := (c, g[k].1 + [v])]
    case None => g + [(c, [v])]
  }

  /** Two positions holding the same value count it twice. */
  lemma TwiceCounted<K>(t: seq<K>, i: nat, j: nat)
    requires i < j < |t| && t[i] == t[j]
    ensures multiset(t)[t[i]] >= 2
  {
    assert t == t[..j] + [t[j]] + t[j + 1..];
    assert t[i] in t[..j];
  }

  /** Grouping items by key: every key occurs exactly once, and each holds
      exactly the values of its items. */
  function GroupBy<T, K(==,!new), V>(items: seq<T>, key: T -> K, val: T -> V): (g: seq<(K, seq<V>)>)
    ensures forall c :: multiset(Keys(g))[c] == if HasKey(items, key, c) then 1 else 0
    ensures forall i :: 0 <= i < |g| ==> g[i].1 == ValuesFor(items, key, val, g[i].0)
    decreases |items|
  {
    if |items| == 0 then []
    else
      var g0 := GroupBy(items[..|items| - 1], key, val);
      GroupStepKeys(items, key, g0, val(items[|items| - 1]));
      GroupStepValues(items, key, val, g0);
      Push(g0, key(items[|items| - 1]), val(items[|items| - 1]))
  }

  /** The last item adds its own key to the keys of the ones before. */
  lemma HasKeyLast<T, K>(items: seq<T>, key: T -> K, d: K)
    requires |items| > 0
    ensures HasKey(items, key, d) <==> HasKey(items[..|items| - 1], key, d) || key(items[|items| - 1]) == d
  {
    var init := items[..|items| - 1];
    if HasKey(items, key, d) && key(items[|items| - 1]) != d {
      var i :| 0 <= i < |items| && key(items[i]) == d;
      assert init[i] == items[i];
    }
    if HasKey(init, key, d) {
      var i :| 0 <= i < |init| && key(init[i]) == d;
      assert items[i] == init[i];
    }
  }

  /** Pushing onto a key that occurs once touches that entry only. */
  lemma PushFound<K, V>(g0: seq<(K, seq<V>)>, c: K, v: V, k: nat)
    requires FindKey(g0, c) == Some(k) && multiset(Keys(g0))[c] == 1
    ensures var g := Push(g0, c, v);
      Keys(g) == Keys(g0) && g[k] == (c, g0[k].1 + [v])
      && forall i :: 0 <= i < |g| && i != k ==> g[i] == g0[i] && g[i].0 != c
  {
    var g := Push(g0, c, v);
    assert Keys(g) == Keys(g0);
    forall i | 0 <= i < |g| && i != k ensures g[i].0 != c {
      if g[i].0 == c {
        if i < k { TwiceCounted(Keys(g0), i, k); } else { TwiceCounted(Keys(g0), k, i); }
      }
    }
  }

  /** Pushing onto an absent key appends it. */
  lemma PushNew<K, V>(g0: seq<(K, seq<V>)>, c: K, v: V)
    requires FindKey(g0, c).None?
    ensures Keys(Push(g0, c, v)) == Keys(g0) + [c]
  {
    KeysAppend(g0, [(c, [v])]);
  }

  /** The grouping of the items before the last one, extended by the last
      one, counts every key once. */
  lemma GroupStepKeys<T, K, V>(items: seq<T>, key: T -> K, g0: seq<(K, seq<V>)>, v: V)
    requires |items| > 0
    requires forall c :: multiset(Keys(g0))[c] == if HasKey(items[..|items| - 1], key, c) then 1 else 0
    ensures var g := Push(g0, key(items[|items| - 1]), v);
      forall c :: multiset(Keys(g))[c] == if HasKey(items, key, c) then 1 else 0
  {
    var c := key(items[|items| - 1]);
    forall d ensures HasKey(items, key, d) <==> HasKey(items[..|items| - 1], key, d) || c == d {
      HasKeyLast(items, key, d);
    }
    match FindKey(g0, c)
    case Some(k) =>
      PushFound(g0, c, v, k);
    case None =>
      PushNew(g0, c, v);
  }

  /** ... and gives every key exactly the values of its items. */
  lemma GroupStepValues<T, K, V>(items: seq<T>, key: T -> K, val: T -> V, g0: seq<(K, seq<V>)>)
    requires |items| > 0
    requires forall c :: multiset(Keys(g0))[c] == if HasKey(items[..|items| - 1], key, c) then 1 else 0
    requires forall i :: 0 <= i < |g0| ==> g0[i].1 == ValuesFor(items[..|items| - 1], key, val, g0[i].0)
    ensures var last := items[|items| - 1];
      var g := Push(g0, key(last), val(last));
      forall i :: 0 <= i < |g| ==> g[i].1 == ValuesFor(items, key, val, g[i].0)
  {
    var last := items[|items| - 1];
    var c := key(last);
    var g := Push(g0, c, val(last));
    match FindKey(g0, c)
    case Some(k) =>
      PushFound(g0, c, val(last), k);
    case None =>
      assert !HasKey(items[..|items| - 1], key, c) by {
        assert multiset(Keys(g0))[c] == 0;
      }
      forall i | 0 <= i < |g| ensures g[i].1 == ValuesFor(items, key, val, g[i].0) {
        if i == |g0| {
          assert ValuesFor(items[..|items| - 1], key, val, c) == [];
        }
      }
  }

  predicate Ascending<K, V>(g: seq<(K, V)>, value: K -> nat) {
    forall i, j :: 0 <= i < j < |g| ==> value(g[i].0) <= value(g[j].0)
  }

  /** Inserting an entry before the first one of larger value. */
  function Insert<K, V>(x: (K, V), s: seq<(K, V)>, value: K -> nat): (r: seq<(K, V)>)
    ensures |r| == |s| + 1 && (r[0] == x || (|s| > 0 && r[0] == s[0]))
  {
    if |s| == 0 then [x]
    else if value(x.0) < value(s[0].0) then [x] + s
    else [s[0]] + Insert(x, s[1..], value)
  }

  /** Insertion adds the entry and nothing else... */
  lemma {:induction false} InsertPermutes<K, V>(x: (K, V), s: seq<(K, V)>, value: K -> nat)
    ensures multiset(Insert(x, s, value)) == multiset(s) + multiset{x}
  {
    if |s| > 0 && value(x.0) >= value(s[0].0) {
      InsertPermutes(x, s[1..], value);
      assert s == [s[0]] + s[1..];
    }
  }

  /** ... and keeps an ascending list ascending. */
  lemma {:induction false} InsertAscending<K, V>(x: (K, V), s: seq<(K, V)>, value: K -> nat)
    requires Ascending(s, value)
    ensures Ascending(Insert(x, s, value), value)
  {
    if |s| > 0 && value(x.0) >= value(s[0].0) {
      InsertAscending(x, s[1..], value);
    }
  }

  /** Insertion sort by value. */
  function SortBy<K, V>(s: seq<(K, V)>, value: K -> nat): (r: seq<(K, V)>)
    ensures |r| == |s|
  {
    if |s| == 0 then [] else Insert(s[0], SortBy(s[1..], value), value)
  }

  /** The sort returns its input ascending by value, reordered and
      nothing else. */
  lemma {:induction false} SortBySorts<K, V>(s: seq<(K, V)>, value: K -> nat)
    ensures Ascending(SortBy(s, value), value)
    ensures multiset(SortBy(s, value)) == multiset(s)
  {
    if |s| > 0 {
      SortBySorts(s[1..], value);
      InsertAscending(s[0], SortBy(s[1..], value), value);
      InsertPermutes(s[0], SortBy(s[1..], value), value);
      assert s == [s[0]] + s[1..];
    }
  }

  /** The entries whose key satisfies `p` exactly when `keep`, in
      order. */
  function KeysWhere<K, V>(g: seq<(K, V)>, p: K -> bool, keep: bool): (r: seq<(K, V)>)
    ensures forall i :: 0 <= i < |r| ==> p(r[i].0) == keep
  {
    if |g| == 0 then []
    else (if p(g[0].0) == keep then [g[0]] else []) + KeysWhere(g[1..], p, keep)
  }

  /** The two filters together keep every entry once... */
  lemma {:induction false} KeysWhereSplit<K, V>(g: seq<(K, V)>, p: K -> bool)
    ensures multiset(KeysWhere(g, p, true)) + multiset(KeysWhere(g, p, false)) == multiset(g)
  {
    if |g| > 0 {
      KeysWhereSplit(g[1..], p);
      assert g == [g[0]] + g[1..];
    }
  }

  /** Filtering a list that holds only kept entries changes nothing. */
  lemma {:induction false} KeysWhereAll<K, V>(g: seq<(K, V)>, p: K -> bool, keep: bool)
    requires forall i :: 0 <= i < |g| ==> p(g[i].0) == keep
    ensures KeysWhere(g, p, keep) == g
    ensures KeysWhere(g, p, !keep) == []
  {
    if |g| > 0 {
      KeysWhereAll(g[1..], p, keep);
      assert g == [g[0]] + g[1..];
    }
  }

  lemma {:induction false} KeysWhereAppend<K, V>(a: seq<(K, V)>, b: seq<(K, V)>, p: K -> bool, keep: bool)
    ensures KeysWhere(a + b, p, keep) == KeysWhere(a, p, keep) + KeysWhere(b, p, keep)
  {
    if |a| > 0 {
      var h := if p(a[0].0) == keep then [a[0]] else [];
      assert (a + b)[0] == a[0] && (a + b)[1..] == a[1..] + b;
      assert KeysWhere(a + b, p, keep) == h + KeysWhere(a[1..] + b, p, keep);
      KeysWhereAppend(a[1..], b, p, keep);
      assert KeysWhere(a, p, keep) == h + KeysWhere(a[1..], p, keep);
    } else {
      assert a + b == b;
    }
  }

  /** `Object.entries(o)` for an object whose keys were created in the
      order of `g`: the keys `isIndex` accepts come first, ascending by
      `value`, then the other keys in creation order. */
  function Entries<K, V>(g: seq<(K, V)>, isIndex: K -> bool, value: K -> nat): (r: seq<(K, V)>)
    ensures multiset(r) == multiset(g)
    ensures multiset(Keys(r)) == multiset(Keys(g))
  {
    var idx := SortBy(KeysWhere(g, isIndex, true), value);
    var other := KeysWhere(g, isIndex, false);
    SortBySorts(KeysWhere(g, isIndex, true), value);
    KeysWhereSplit(g, isIndex);
    KeysPermute(idx + other, g);
    idx + other
  }

  /** Index keys come first, ascending by value; the other keys follow in
      the order they were created. */
  lemma EntriesOrder<K, V>(g: seq<(K, V)>, isIndex: K -> bool, value: K -> nat)
    ensures var r := Entries(g, isIndex, value);
      forall i, j :: 0 <= i < j < |r| && isIndex(r[j].0) ==>
        isIndex(r[i].0) && value(r[i].0) <= value(r[j].0)
    ensures KeysWhere(Entries(g, isIndex, value), isIndex, false) == KeysWhere(g, isIndex, false)
  {
    var sel := KeysWhere(g, isIndex, true);
    var idx := SortBy(sel, value);
    var other := KeysWhere(g, isIndex, false);
    IndexPartSorted(sel, isIndex, value);
    assert Entries(g, isIndex, value) == idx + other;
    PartsInOrder(idx, other, isIndex, value);
    PartsOthers(idx, other, isIndex);
  }

  /** The sorted index part is ascending and holds index keys only. */
  lemma IndexPartSorted<K, V>(sel: seq<(K, V)>, isIndex: K -> bool, value: K -> nat)
    requires forall i :: 0 <= i < |sel| ==> isIndex(sel[i].0)
    ensures Ascending(SortBy(sel, value), value)
    ensures forall i :: 0 <= i < |SortBy(sel, value)| ==> isIndex(SortBy(sel, value)[i].0)
  {
    var idx := SortBy(sel, value);
    SortBySorts(sel, value);
    forall i | 0 <= i < |idx| ensures isIndex(idx[i].0) {
      assert idx[i] in multiset(sel);
    }
  }

  /** Index keys ascending, then non-index keys: no index key follows a
      non-index key or a larger index key. */
  lemma PartsInOrder<K, V>(idx: seq<(K, V)>, other: seq<(K, V)>, isIndex: K -> bool, value: K -> nat)
    requires Ascending(idx, value) && forall i :: 0 <= i < |idx| ==> isIndex(idx[i].0)
    requires forall i :: 0 <= i < |other| ==> !isIndex(other[i].0)
    ensures var r := idx + other;
      forall i, j :: 0 <= i < j < |r| && isIndex(r[j].0) ==>
        isIndex(r[i].0) && value(r[i].0) <= value(r[j].0)
  {
    var r := idx + other;
    forall i, j | 0 <= i < j < |r| && isIndex(r[j].0)
      ensures isIndex(r[i].0) && value(r[i].0) <= value(r[j].0)
    {
      if j < |idx| {
        assert r[j] == idx[j] && r[i] == idx[i];
      }
    }
  }

  /** The non-index keys of the two parts are the second part. */
  lemma PartsOthers<K, V>(idx: seq<(K, V)>, other: seq<(K, V)>, isIndex: K -> bool)
    requires forall i :: 0 <= i < |idx| ==> isIndex(idx[i].0)
    requires forall i :: 0 <= i < |other| ==> !isIndex(other[i].0)
    ensures KeysWhere(idx + other, isIndex, false) == other
  {
    KeysWhereAppend(idx, other, isIndex, false);
    KeysWhereAll(idx, isIndex, true);
    KeysWhereAll(other, isIndex, false);
  }

  /** Enumerating a grouping: every key once, each with exactly the values
      of its items. */
  lemma GroupedEntries<T, K(!new), V>(items: seq<T>, key: T -> K, val: T -> V, isIndex: K -> bool, value: K -> nat)
    ensures var e := Entries(GroupBy(items, key, val), isIndex, value);
      forall c :: multiset(Keys(e))[c] == if HasKey(items, key, c) then 1 else 0
    ensures var e := Entries(GroupBy(items, key, val), isIndex, value);
      forall k :: 0 <= k < |e| ==> e[k].1 == ValuesFor(items, key, val, e[k].0)
  {
    var g := GroupBy(items, key, val);
    var e := Entries(g, isIndex, value);
    forall k | 0 <= k < |e| ensures e[k].1 == ValuesFor(items, key, val, e[k].0) {
      assert e[k] in multiset(g);
    }
  }
}
