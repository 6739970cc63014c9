/** Python's sorted(..., reverse=True): descending by key, equal keys keep their order. */
module StableSort {
  import opened Common

  /** A sort key is a tuple of numbers, compared lexicographically. */
  type Key = seq<real>

  datatype Keyed<T> = Keyed(key: Key, val: T)

  predicate LexLe(a: Key, b: Key) {
    if a == [] then true
    else if b == [] then false
    else a[0] < b[0] || (a[0] == b[0] && LexLe(a[1..], b[1..]))
  }

  lemma {:induction false} LexTotal(a: Key, b: Key)
    ensures LexLe(a, b) || LexLe(b, a)
  {
    if a != [] && b != [] {
      LexTotal(a[1..], b[1..]);
    }
  }

  lemma {:induction false} LexAntisymmetric(a: Key, b: Key)
    requires LexLe(a, b) && LexLe(b, a)
    ensures a == b
  {
    if a != [] && b != [] {
      LexAntisymmetric(a[1..], b[1..]);
      assert a == [a[0]] + a[1..] && b == [b[0]] + b[1..];
    }
  }

  lemma {:induction false} LexTransitive(a: Key, b: Key, c: Key)
    requires LexLe(a, b) && LexLe(b, c)
    ensures LexLe(a, c)
  {
    if a != [] && a[0] == b[0] == c[0] {
      LexTransitive(a[1..], b[1..], c[1..]);
    }
  }

  ghost predicate SortedDesc<T>(xs: seq<Keyed<T>>) {
    forall i, j :: 0 <= i < j < |xs| ==> LexLe(xs[j].key, xs[i].key)
  }

  /** The elements of xs with key k, in order. */
  ghost function WithKey<T>(xs: seq<Keyed<T>>, k: Key): seq<Keyed<T>> {
    if xs == [] then []
    else (if xs[0].key == k then [xs[0]] else []) + WithKey(xs[1..], k)
  }

  /** ys is xs rearranged without reordering elements of equal key. */
  ghost predicate Stable<T>(xs: seq<Keyed<T>>, ys: seq<Keyed<T>>) {
    forall k: Key :: WithKey(ys, k) == WithKey(xs, k)
  }

  function Insert<T>(x: Keyed<T>, ys: seq<Keyed<T>>): (r: seq<Keyed<T>>) {
    if ys == [] || LexLe(ys[0].key, x.key) then [x] + ys
    else [ys[0]] + Insert(x, ys[1..])
  }

  function SortDesc<T>(xs: seq<Keyed<T>>): (r: seq<Keyed<T>>) {
    if xs == [] then [] else Insert(xs[0], SortDesc(xs[1..]))
  }

  function Vals<T>(xs: seq<Keyed<T>>): (r: seq<T>)
    ensures |r| == |xs| && forall i :: 0 <= i < |xs| ==> r[i] == xs[i].val
  {
    seq(|xs|, i requires 0 <= i < |xs| => xs[i].val)
  }

  lemma {:induction false} InsertKeepsOrder<T>(x: Keyed<T>, ys: seq<Keyed<T>>)
    requires SortedDesc(ys)
    ensures SortedDesc(Insert(x, ys))
    ensures multiset(Insert(x, ys)) == multiset{x} + multiset(ys)
  {
    if ys == [] {
    } else if LexLe(ys[0].key, x.key) {
      forall j | 1 <= j < |ys| ensures LexLe(ys[j].key, x.key) {
        LexTransitive(ys[j].key, ys[0].key, x.key);
      }
    } else {
      LexTotal(ys[0].key, x.key);
      InsertKeepsOrder(x, ys[1..]);
      assert ys == [ys[0]] + ys[1..];
      var tail := Insert(x, ys[1..]);
      forall j | 0 <= j < |tail| ensures LexLe(tail[j].key, ys[0].key) {
        assert tail[j] in multiset(tail);
      }
    }
  }

  lemma {:induction false} InsertIsStable<T>(x: Keyed<T>, ys: seq<Keyed<T>>, k: Key)
    ensures WithKey(Insert(x, ys), k) == WithKey([x] + ys, k)
  {
    if ys != [] && !LexLe(ys[0].key, x.key) {
      InsertIsStable(x, ys[1..], k);
      assert ([x] + ys)[1..] == ys && ([x] + ys[1..])[1..] == ys[1..];
      assert ([ys[0]] + Insert(x, ys[1..]))[1..] == Insert(x, ys[1..]);
      LexTotal(x.key, x.key);
    }
  }

  /** The sort orders the list, keeps every element, and never swaps elements of equal key. */
  lemma {:induction false} SortDescSorts<T>(xs: seq<Keyed<T>>)
    ensures SortedDesc(SortDesc(xs))
    ensures multiset(SortDesc(xs)) == multiset(xs)
    ensures |SortDesc(xs)| == |xs|
    ensures Stable(xs, SortDesc(xs))
  {
    if xs != [] {
      var rest := SortDesc(xs[1..]);
      SortDescSorts(xs[1..]);
      InsertKeepsOrder(xs[0], rest);
      assert xs == [xs[0]] + xs[1..];
      assert |multiset(SortDesc(xs))| == |multiset(xs)|;
      forall k ensures WithKey(SortDesc(xs), k) == WithKey(xs, k) {
        InsertIsStable(xs[0], rest, k);
        assert ([xs[0]] + rest)[1..] == rest;
      }
    }
  }

  lemma {:induction false} WithKeyFirst<T>(xs: seq<Keyed<T>>, i: nat)
    requires i < |xs|
    ensures WithKey(xs, xs[i].key) != []
  {
    if i > 0 {
      WithKeyFirst(xs[1..], i - 1);
    }
  }

  lemma {:induction false} WithKeyMember<T>(xs: seq<Keyed<T>>, k: Key) returns (i: nat)
    requires WithKey(xs, k) != []
    ensures i < |xs| && xs[i].key == k
  {
    if xs[0].key == k {
      i := 0;
    } else {
      var j := WithKeyMember(xs[1..], k);
      i := j + 1;
    }
  }

  /** Ordered and stable pin the result down: any two such rearrangements of one list are equal. */
  lemma {:induction false} StableOrderUnique<T>(a: seq<Keyed<T>>, b: seq<Keyed<T>>)
    requires SortedDesc(a) && SortedDesc(b) && Stable(a, b)
    ensures a == b
  {
    if a == [] {
      if b != [] {
        WithKeyFirst(b, 0);
      }
    } else {
      var ka := a[0].key;
      WithKeyFirst(a, 0);
      var i := WithKeyMember(b, ka);
      var kb := b[0].key;
      WithKeyFirst(b, 0);
      var j := WithKeyMember(a, kb);
      LexTotal(ka, ka);
      assert LexLe(ka, kb) && LexLe(kb, ka);
      LexAntisymmetric(ka, kb);
      assert WithKey(a, ka)[0] == a[0] && WithKey(b, ka)[0] == b[0];
      forall k ensures WithKey(b[1..], k) == WithKey(a[1..], k) {
        assert WithKey(b, k) == WithKey(a, k);
        var head := if k == ka then [a[0]] else [];
        assert head + WithKey(b[1..], k) == head + WithKey(a[1..], k);
        assert WithKey(b[1..], k) == (head + WithKey(b[1..], k))[|head|..];
        assert WithKey(a[1..], k) == (head + WithKey(a[1..], k))[|head|..];
      }
      StableOrderUnique(a[1..], b[1..]);
      assert a == [a[0]] + a[1..] && b == [b[0]] + b[1..];
    }
  }

  /** Sorting an ordered list changes nothing. */
  lemma SortedIsFixed<T>(xs: seq<Keyed<T>>)
    requires SortedDesc(xs)
    ensures SortDesc(xs) == xs
  {
    SortDescSorts(xs);
    StableOrderUnique(xs, SortDesc(xs));
  }

  /** Sorting commutes with renaming the elements. */
  function Renamed<T, U>(xs: seq<Keyed<T>>, f: T -> U): (r: seq<Keyed<U>>)
    ensures |r| == |xs| && forall i :: 0 <= i < |xs| ==> r[i] == Keyed(xs[i].key, f(xs[i].val))
  {
    seq(|xs|, i requires 0 <= i < |xs| => Keyed(xs[i].key, f(xs[i].val)))
  }

  lemma {:induction false} InsertRenamed<T, U>(x: Keyed<T>, ys: seq<Keyed<T>>, f: T -> U)
    ensures Renamed(Insert(x, ys), f) == Insert(Keyed(x.key, f(x.val)), Renamed(ys, f))
  {
    if ys != [] && !LexLe(ys[0].key, x.key) {
      InsertRenamed(x, ys[1..], f);
      assert Renamed(ys, f)[1..] == Renamed(ys[1..], f);
    }
  }

  lemma {:induction false} SortRenamed<T, U>(xs: seq<Keyed<T>>, f: T -> U)
    ensures Renamed(SortDesc(xs), f) == SortDesc(Renamed(xs, f))
  {
    if xs != [] {
      SortRenamed(xs[1..], f);
      InsertRenamed(xs[0], SortDesc(xs[1..]), f);
      assert Renamed(xs, f)[1..] == Renamed(xs[1..], f);
    }
  }

  ghost function Keys<T>(xs: seq<Keyed<T>>): (r: seq<Key>)
    ensures |r| == |xs| && forall i :: 0 <= i < |xs| ==> r[i] == xs[i].key
  {
    seq(|xs|, i requires 0 <= i < |xs| => xs[i].key)
  }

  lemma {:induction false} InsertedVals<T>(x: Keyed<T>, ys: seq<Keyed<T>>)
    ensures multiset(Vals(Insert(x, ys))) == multiset{x.val} + multiset(Vals(ys))
  {
    if ys == [] || LexLe(ys[0].key, x.key) {
      assert Vals([x] + ys) == [x.val] + Vals(ys);
    } else {
      InsertedVals(x, ys[1..]);
      assert Vals(Insert(x, ys)) == [ys[0].val] + Vals(Insert(x, ys[1..]));
      assert Vals(ys) == [ys[0].val] + Vals(ys[1..]);
    }
  }

  /** Sorting rearranges the values. */
  lemma {:induction false} SortedVals<T>(xs: seq<Keyed<T>>)
    ensures multiset(Vals(SortDesc(xs))) == multiset(Vals(xs))
  {
    if xs != [] {
      SortedVals(xs[1..]);
      InsertedVals(xs[0], SortDesc(xs[1..]));
      assert Vals(xs) == [xs[0].val] + Vals(xs[1..]);
    }
  }

  lemma HeadIsGreatest(a: seq<Key>, b: seq<Key>)
    requires a != [] && b != [] && multiset(a) == multiset(b)
    requires forall j :: 0 < j < |a| ==> LexLe(a[j], a[0])
    ensures LexLe(b[0], a[0])
  {
    assert b[0] in multiset(a);
    var j :| 0 <= j < |a| && a[j] == b[0];
    LexTotal(a[0], a[0]);
  }

  lemma TailOf(a: seq<Key>)
    requires a != []
    ensures multiset(a[1..]) == multiset(a) - multiset{a[0]}
  {
    assert a == [a[0]] + a[1..];
  }

  ghost predicate Descending(keys: seq<Key>) {
    forall i, j :: 0 <= i < j < |keys| ==> LexLe(keys[j], keys[i])
  }

  lemma TailDescends(a: seq<Key>)
    requires a != [] && Descending(a)
    ensures Descending(a[1..])
  {
  }

  /** Two descending lists with the same keys show the same key at every place. */
  lemma {:induction false} SortedKeysUnique(a: seq<Key>, b: seq<Key>)
    requires Descending(a) && Descending(b) && multiset(a) == multiset(b)
    ensures a == b
  {
    assert |multiset(a)| == |multiset(b)|;
    if a != [] {
      assert a[0] == b[0] by {
        HeadIsGreatest(a, b);
        HeadIsGreatest(b, a);
        LexAntisymmetric(a[0], b[0]);
      }
      TailOf(a);
      TailOf(b);
      TailDescends(a);
      TailDescends(b);
      SortedKeysUnique(a[1..], b[1..]);
      assert a == [a[0]] + a[1..] && b == [b[0]] + b[1..];
    }
  }

  ghost function IfKey<T>(x: Keyed<T>, k: Key): seq<Keyed<T>> {
    if x.key == k then [x] else []
  }

  lemma WithKeyCons<T>(x: Keyed<T>, xs: seq<Keyed<T>>, k: Key)
    ensures WithKey([x] + xs, k) == IfKey(x, k) + WithKey(xs, k)
  {
    assert ([x] + xs)[1..] == xs;
  }

  lemma {:induction false} WithKeyAppend<T>(a: seq<Keyed<T>>, b: seq<Keyed<T>>, k: Key)
    ensures WithKey(a + b, k) == WithKey(a, k) + WithKey(b, k)
    decreases |a|
  {
    if a == [] {
      assert a + b == b;
    } else {
      var x, rest := a[0], a[1..];
      assert a == [x] + rest && a + b == [x] + (rest + b);
      WithKeyAppend(rest, b, k);
      WithKeyCons(x, rest, k);
      WithKeyCons(x, rest + b, k);
      Associates(IfKey(x, k), WithKey(rest, k), WithKey(b, k));
    }
  }

  lemma Associates<T>(a: seq<T>, b: seq<T>, c: seq<T>)
    ensures a + (b + c) == (a + b) + c
  {
  }

  lemma JoinIsSorted<T>(a: seq<Keyed<T>>, b: seq<Keyed<T>>, sa: seq<Keyed<T>>, sb: seq<Keyed<T>>)
    requires forall i, j :: 0 <= i < |a| && 0 <= j < |b| ==> LexLe(b[j].key, a[i].key)
    requires multiset(sa) == multiset(a) && multiset(sb) == multiset(b) && SortedDesc(sa) && SortedDesc(sb)
    ensures SortedDesc(sa + sb)
  {
    var all: seq<Keyed<T>> := sa + sb;
    forall i, j | 0 <= i < j < |all| ensures LexLe(all[j].key, all[i].key) {
      if i < |sa| <= j {
        assert sa[i] in multiset(a) && sb[j - |sa|] in multiset(b);
        var p :| 0 <= p < |a| && a[p] == sa[i];
        var q :| 0 <= q < |b| && b[q] == sb[j - |sa|];
      }
    }
  }

  /** A list whose later part has no greater key than its earlier part is sorted part by part. */
  lemma SortInParts<T>(a: seq<Keyed<T>>, b: seq<Keyed<T>>)
    requires forall i, j :: 0 <= i < |a| && 0 <= j < |b| ==> LexLe(b[j].key, a[i].key)
    ensures SortDesc(a + b) == SortDesc(a) + SortDesc(b)
  {
    var sa, sb := SortDesc(a), SortDesc(b);
    SortDescSorts(a);
    SortDescSorts(b);
    SortDescSorts(a + b);
    var all: seq<Keyed<T>> := sa + sb;
    JoinIsSorted(a, b, sa, sb);
    forall k: Key ensures WithKey(all, k) == WithKey(SortDesc(a + b), k) {
      WithKeyAppend(sa, sb, k);
      WithKeyAppend(a, b, k);
      assert WithKey(sa, k) == WithKey(a, k) && WithKey(sb, k) == WithKey(b, k) && WithKey(SortDesc(a + b), k) == WithKey(a + b, k);
    }
    StableOrderUnique(SortDesc(a + b), all);
  }
}
