/** The SQL query shapes the routers use, over a table kept as a sequence in
    insertion order: `.filter(...).first()`, `.filter(...).all()`,
    `.count()`, `.offset(skip).limit(limit)` and `.order_by(col.desc())`. */
module Query {
  import opened Wrappers

  function Min(a: int, b: int): int {
    if a <= b then a else b
  }

  /** `.filter(p).first()`: the index of the first row satisfying `p`. */
  function FirstIndex<T>(s: seq<T>, p: T -> bool): (r: Option<nat>)
    ensures r.Some? ==> r.value < |s| && p(s[r.value])
    ensures r.Some? ==> forall j :: 0 <= j < r.value ==> !p(s[j])
    ensures r.None? ==> forall j :: 0 <= j < |s| ==> !p(s[j])
  {
    if s == [] then None
    else if p(s[0]) then Some(0)
    else match FirstIndex(s[1..], p)
      case None => None
      case Some(k) => Some(k + 1)
  }

  /** `.filter(p).all()`: the rows satisfying `p`, in table order. */
  function Filter<T(!new)>(s: seq<T>, p: T -> bool): (r: seq<T>)
    ensures |r| <= |s|
    ensures forall x :: x in r <==> x in s && p(x)
    ensures forall i :: 0 <= i < |r| ==> p(r[i])
  {
    if s == [] then []
    else if p(s[0]) then [s[0]] + Filter(s[1..], p)
    else Filter(s[1..], p)
  }

  /** Filtering keeps every row exactly when the predicate holds of all rows. */
  lemma {:induction false} FilterAll<T(!new)>(s: seq<T>, p: T -> bool)
    requires forall i :: 0 <= i < |s| ==> p(s[i])
    ensures Filter(s, p) == s
  {
    if s != [] {
      FilterAll(s[1..], p);
    }
  }

  /** Two filters in a row are one filter by the conjunction. */
  lemma {:induction false} FilterFilter<T(!new)>(s: seq<T>, p: T -> bool, q: T -> bool)
    ensures Filter(Filter(s, p), q) == Filter(s, x => p(x) && q(x))
  {
    if s != [] {
      FilterFilter(s[1..], p, q);
    }
  }

  /** Every row lands in exactly one of a filter and its complement, so
      `.filter(p).delete()` removes `|s| - |Filter(s, q)|` rows when `q` is
      the negation of `p`. */
  lemma {:induction false} FilterPartition<T(!new)>(s: seq<T>, p: T -> bool, q: T -> bool)
    requires forall x :: q(x) <==> !p(x)
    ensures |Filter(s, p)| + |Filter(s, q)| == |s|
  {
    if s != [] {
      FilterPartition(s[1..], p, q);
    }
  }

  /** Filtering keeps the relative order of rows, so a relation that holds
      between every earlier and later row still holds after filtering. */
  lemma {:induction false} FilterPairwise<T(!new)>(s: seq<T>, p: T -> bool, rel: (T, T) -> bool)
    requires forall i, j :: 0 <= i < j < |s| ==> rel(s[i], s[j])
    ensures forall i, j :: 0 <= i < j < |Filter(s, p)| ==> rel(Filter(s, p)[i], Filter(s, p)[j])
  {
    if s != [] {
      FilterPairwise(s[1..], p, rel);
      if p(s[0]) {
        var tail := Filter(s[1..], p);
        var r := [s[0]] + tail;
        forall i, j | 0 <= i < j < |r|
          ensures rel(r[i], r[j])
        {
          if i == 0 {
            assert r[j] == tail[j - 1];
            assert tail[j - 1] in s[1..];
            var k :| 0 <= k < |s[1..]| && s[1..][k] == tail[j - 1];
            assert s[k + 1] == r[j];
            assert rel(s[0], s[k + 1]);
          } else {
            assert r[i] == tail[i - 1] && r[j] == tail[j - 1];
            assert rel(tail[i - 1], tail[j - 1]);
          }
        }
        assert Filter(s, p) == r;
      }
    }
  }

  /** A stricter predicate never keeps more rows: adding a filter to a
      query never raises its count. */
  lemma {:induction false} FilterMonotone<T(!new)>(s: seq<T>, p: T -> bool, q: T -> bool)
    requires forall x :: p(x) ==> q(x)
    ensures |Filter(s, p)| <= |Filter(s, q)|
  {
    if s != [] {
      FilterMonotone(s[1..], p, q);
    }
  }

  /** The rows left after removing row `i`, in order. */
  function RemoveAt<T>(s: seq<T>, i: nat): (r: seq<T>)
    requires i < |s|
    ensures |r| == |s| - 1
    ensures forall a :: 0 <= a < |r| ==> r[a] == s[if a < i then a else a + 1]
  {
    s[..i] + s[i + 1..]
  }

  /** `.offset(skip).limit(limit)`: at most `limit` rows, starting at row `skip`. */
  function Page<T>(s: seq<T>, skip: nat, limit: nat): (r: seq<T>)
    ensures |r| == if skip >= |s| then 0 else Min(limit, |s| - skip)
    ensures forall i :: 0 <= i < |r| ==> r[i] == s[skip + i]
  {
    if skip >= |s| then [] else s[skip..Min(skip + limit, |s|)]
  }

  /** Every row of a page is a row of the table. */
  lemma PageMembers<T>(s: seq<T>, skip: nat, limit: nat)
    ensures forall x :: x in Page(s, skip, limit) ==> x in s
  {
    forall x | x in Page(s, skip, limit) ensures x in s {
      var i :| 0 <= i < |Page(s, skip, limit)| && Page(s, skip, limit)[i] == x;
      assert s[skip + i] == x;
    }
  }

  /** Two consecutive pages are the page that spans both: walking a
      table page by page neither skips nor repeats a row. */
  lemma PagesTile<T>(s: seq<T>, skip: nat, a: nat, b: nat)
    ensures Page(s, skip, a) + Page(s, skip + a, b) == Page(s, skip, a + b)
  {
    var l, r, w := Page(s, skip, a), Page(s, skip + a, b), Page(s, skip, a + b);
    assert |l + r| == |w|;
    forall i | 0 <= i < |w| ensures (l + r)[i] == w[i] {
      if i >= |l| {
        assert (l + r)[i] == r[i - |l|];
      }
    }
  }

  /** Rows ordered by a key, largest first. */
  ghost predicate SortedDesc<T>(s: seq<T>, key: T -> int) {
    forall i, j :: 0 <= i < j < |s| ==> key(s[i]) >= key(s[j])
  }

  /** Inserts `x` before the first row whose key is smaller than its own. */
  function InsertDesc<T>(x: T, s: seq<T>, key: T -> int): (r: seq<T>)
    ensures multiset(r) == multiset(s) + multiset{x}
  {
    if s == [] then [x]
    else if key(x) >= key(s[0]) then [x] + s
    else
      assert s == [s[0]] + s[1..];
      [s[0]] + InsertDesc(x, s[1..], key)
  }

  /** Inserting into a descending sequence keeps it descending. */
  lemma {:induction false} InsertDescSorted<T>(x: T, s: seq<T>, key: T -> int)
    requires SortedDesc(s, key)
    ensures SortedDesc(InsertDesc(x, s, key), key)
  {
    if s != [] && key(x) < key(s[0]) {
      var rest := InsertDesc(x, s[1..], key);
      InsertDescSorted(x, s[1..], key);
      var r := [s[0]] + rest;
      assert s == [s[0]] + s[1..];
      forall i | 1 <= i < |r|
        ensures key(r[0]) >= key(r[i])
      {
        assert r[i] == rest[i - 1];
        assert r[i] in multiset(rest);
        if r[i] != x {
          assert r[i] in multiset(s[1..]);
          var k :| 0 <= k < |s[1..]| && s[1..][k] == r[i];
          assert s[k + 1] == r[i];
        }
      }
      assert InsertDesc(x, s, key) == r;
    }
  }

  /** `.order_by(key.desc())`: the rows rearranged so keys do not increase. */
  function SortDesc<T>(s: seq<T>, key: T -> int): (r: seq<T>)
    ensures SortedDesc(r, key)
    ensures multiset(r) == multiset(s)
  {
    if s == [] then []
    else
      assert s == [s[0]] + s[1..];
      InsertDescSorted(s[0], SortDesc(s[1..], key), key);
      InsertDesc(s[0], SortDesc(s[1..], key), key)
  }

  /** `.order_by(key.desc()).limit(limit)`. */
  function Newest<T>(s: seq<T>, key: T -> int, limit: nat): (r: seq<T>)
    ensures |r| == Min(limit, |s|)
    ensures SortedDesc(r, key)
    ensures multiset(r) <= multiset(s)
  {
    var sorted := SortDesc(s, key);
    assert |sorted| == |s| by {
      assert |multiset(sorted)| == |multiset(s)|;
    }
    var k := Min(limit, |s|);
    assert sorted == sorted[..k] + sorted[k..];
    sorted[..k]
  }

  /** `Newest` only returns rows of the table. */
  lemma NewestMembers<T>(s: seq<T>, key: T -> int, limit: nat)
    ensures forall i :: 0 <= i < |Newest(s, key, limit)| ==> Newest(s, key, limit)[i] in s
  {
    var r := Newest(s, key, limit);
    forall i | 0 <= i < |r| ensures r[i] in s {
      assert r[i] in multiset(r);
    }
  }

  /** The rows mapped one by one, in order: a projection of the columns. */
  function Project<T, U>(s: seq<T>, f: T -> U): (r: seq<U>)
    ensures |r| == |s|
    ensures forall i :: 0 <= i < |r| ==> r[i] == f(s[i])
  {
    if s == [] then [] else [f(s[0])] + Project(s[1..], f)
  }

  /** A row whose projection is not among the projected newest rows is no
      newer than any of them. */
  lemma NewestProjectedIsTop<T, U>(s: seq<T>, key: T -> int, limit: nat, f: T -> U, x: T, i: nat)
    requires x in s && f(x) !in Project(Newest(s, key, limit), f) && i < |Newest(s, key, limit)|
    ensures key(Newest(s, key, limit)[i]) >= key(x)
  {
    var r := Newest(s, key, limit);
    assert x !in r;
    assert x in multiset(s) - multiset(r);
    NewestIsTop(s, key, limit, r[i], x);
  }

  /** Every row left out of `Newest` is no newer than every row returned. */
  lemma NewestIsTop<T>(s: seq<T>, key: T -> int, limit: nat, x: T, y: T)
    requires x in Newest(s, key, limit)
    requires y in multiset(s) - multiset(Newest(s, key, limit))
    ensures key(x) >= key(y)
  {
    var sorted := SortDesc(s, key);
    assert |sorted| == |s| by {
      assert |multiset(sorted)| == |multiset(s)|;
    }
    var k := Min(limit, |s|);
    assert sorted == sorted[..k] + sorted[k..];
    assert multiset(sorted) == multiset(sorted[..k]) + multiset(sorted[k..]);
    assert y in sorted[k..];
    var i :| 0 <= i < k && sorted[i] == x;
    var j :| 0 <= j < |s| - k && sorted[k..][j] == y;
    assert sorted[k + j] == y;
  }
}
