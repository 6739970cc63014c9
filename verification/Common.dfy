/** Small datatypes shared by every component. */
module Common {

  datatype Option<+T> = None | Some(value: T) {
    function GetOr(default: T): T {
      if None? then default else value
    }
  }

  datatype Result<+T, +E> = Ok(value: T) | Err(error: E)

  function Max(a: int, b: int): int {
    if a < b then b else a
  }

  function Min(a: int, b: int): int {
    if a < b then a else b
  }

  ghost predicate NoDuplicates<T>(xs: seq<T>) {
    forall i, j :: 0 <= i < j < |xs| ==> xs[i] != xs[j]
  }

  lemma {:induction false} OccursOnce<T>(xs: seq<T>, v: T)
    requires NoDuplicates(xs)
    ensures multiset(xs)[v] <= 1
  {
    if xs != [] {
      var init, last := xs[..|xs| - 1], xs[|xs| - 1];
      OccursOnce(init, v);
      assert xs == init + [last];
      if last == v {
        assert v !in multiset(init);
      }
    }
  }

  lemma OccursTwice<T>(ys: seq<T>, i: nat, j: nat)
    requires i < j < |ys| && ys[i] == ys[j]
    ensures multiset(ys)[ys[i]] >= 2
  {
    assert ys == ys[..j] + ([ys[j]] + ys[j + 1..]);
    assert ys[i] in ys[..j];
  }

  /** Rearranging a list without duplicates makes none. */
  lemma RearrangedNoDuplicates<T>(xs: seq<T>, ys: seq<T>)
    requires NoDuplicates(xs) && multiset(xs) == multiset(ys)
    ensures NoDuplicates(ys)
  {
    forall i, j | 0 <= i < j < |ys| ensures ys[i] != ys[j] {
      OccursOnce(xs, ys[i]);
      if ys[i] == ys[j] {
        OccursTwice(ys, i, j);
      }
    }
  }

  /** A list without duplicates is no longer than one that holds all its elements. */
  lemma {:induction false} SublistShorter<T>(a: seq<T>, b: seq<T>)
    requires NoDuplicates(a) && forall i :: 0 <= i < |a| ==> a[i] in b
    ensures |a| <= |b|
  {
    if a != [] {
      var n := |a| - 1;
      var m :| 0 <= m < |b| && b[m] == a[n];
      var rest := b[..m] + b[m + 1..];
      forall i | 0 <= i < n ensures a[i] in rest {
        var k :| 0 <= k < |b| && b[k] == a[i];
        assert k != m;
        assert rest[if k < m then k else k - 1] == b[k];
      }
      SublistShorter(a[..n], rest);
    }
  }

  /** If it is as long, the other list holds nothing else. */
  lemma SameSizeSameElements<T>(a: seq<T>, b: seq<T>, j: nat)
    requires NoDuplicates(a) && |a| == |b| && j < |b| && forall i :: 0 <= i < |a| ==> a[i] in b
    ensures b[j] in a
  {
    if b[j] !in a {
      SublistShorter(a + [b[j]], b);
    }
  }

  /** The last element of a list occurs in every rearrangement of it, and removing it from both leaves rearrangements. */
  lemma RemoveLast<T>(a: seq<T>, b: seq<T>) returns (i: nat)
    requires a != [] && multiset(a) == multiset(b)
    ensures i < |b| && b[i] == a[|a| - 1]
    ensures multiset(a[..|a| - 1]) == multiset(b[..i] + b[i + 1..])
  {
    var last := a[|a| - 1];
    assert last in multiset(b);
    i :| 0 <= i < |b| && b[i] == last;
    assert a == a[..|a| - 1] + [last];
    assert b == b[..i] + ([last] + b[i + 1..]);
    var ma, mb := multiset(a[..|a| - 1]), multiset(b[..i] + b[i + 1..]);
    assert multiset(a) == ma + multiset{last} && multiset(b) == mb + multiset{last};
    assert ma == (ma + multiset{last}) - multiset{last};
    assert mb == (mb + multiset{last}) - multiset{last};
  }
}

/** Times of day are minutes 0..1439; dates are day numbers whose remainder modulo 7 is the weekday (0 = Monday). */
module Times {

  const DAY_MINUTES := 1440
  const LAST_MINUTE := 1439

  predicate IsTime(t: int) {
    0 <= t < DAY_MINUTES
  }

  /** The overlap test shared by the conflict query, the availability marker and the subscription checks. */
  predicate Overlaps(start1: int, end1: int, start2: int, end2: int) {
    start1 < end2 && end1 > start2
  }

  function Weekday(day: int): int {
    day % 7
  }
}
