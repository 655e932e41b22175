/** Stable sorting by a comparison. */
module Sorting {

  function Insert<T>(le: (T, T) -> bool, x: T, s: seq<T>): (r: seq<T>)
    ensures multiset(r) == multiset(s) + multiset{x}
  {
    if s == [] || le(x, s[0]) then [x] + s
    else
      assert s == [s[0]] + s[1..];
      [s[0]] + Insert(le, x, s[1..])
  }

  function Sort<T>(le: (T, T) -> bool, s: seq<T>): (r: seq<T>)
    ensures multiset(r) == multiset(s)
  {
    if s == [] then []
    else
      assert s == [s[0]] + s[1..];
      Insert(le, s[0], Sort(le, s[1..]))
  }

  ghost predicate TotalOrder<T(!new)>(le: (T, T) -> bool) {
    && (forall x, y :: le(x, y) || le(y, x))
    && (forall x, y, z :: le(x, y) && le(y, z) ==> le(x, z))
  }

  ghost predicate Sorted<T>(le: (T, T) -> bool, s: seq<T>) {
    forall i, j | 0 <= i < j < |s| :: le(s[i], s[j])
  }

  /** Inserting loses nothing and makes nothing up. */
  lemma InsertKeeps<T>(le: (T, T) -> bool, x: T, s: seq<T>)
    ensures forall j | 0 <= j < |Insert(le, x, s)| :: Insert(le, x, s)[j] == x || Insert(le, x, s)[j] in s
  {
    var r := Insert(le, x, s);
    forall j | 0 <= j < |r| ensures r[j] == x || r[j] in s {
      assert r[j] in multiset(r);
      assert r[j] == x || r[j] in multiset(s);
    }
  }

  lemma SortKeeps<T>(le: (T, T) -> bool, s: seq<T>)
    ensures |Sort(le, s)| == |s|
    ensures forall k | 0 <= k < |s| :: Sort(le, s)[k] in s
    ensures forall k | 0 <= k < |s| :: s[k] in Sort(le, s)
  {
    hide Sort;
    var sorted := Sort(le, s);
    assert |multiset(sorted)| == |multiset(s)|;
    forall k | 0 <= k < |s| ensures sorted[k] in s && s[k] in sorted {
      assert sorted[k] in multiset(sorted) && s[k] in multiset(s);
    }
  }

  lemma {:induction false} InsertSorts<T(!new)>(le: (T, T) -> bool, x: T, s: seq<T>)
    requires TotalOrder(le) && Sorted(le, s)
    ensures Sorted(le, Insert(le, x, s))
  {
    if s != [] {
      if le(x, s[0]) {
        assert forall j | 0 < j < |s| :: le(s[0], s[j]);
      } else {
        InsertSorts(le, x, s[1..]);
        InsertKeeps(le, x, s[1..]);
        var r := Insert(le, x, s[1..]);
        forall j | 0 <= j < |r| ensures le(s[0], r[j]) {
          if r[j] != x {
            var k :| 0 <= k < |s[1..]| && s[1..][k] == r[j];
            assert s[k + 1] == r[j];
          }
        }
      }
    }
  }

  lemma {:induction false} SortSorts<T(!new)>(le: (T, T) -> bool, s: seq<T>)
    requires TotalOrder(le)
    ensures Sorted(le, Sort(le, s))
  {
    if s != [] {
      SortSorts(le, s[1..]);
      InsertSorts(le, s[0], Sort(le, s[1..]));
    }
  }

  // ---- Stability ----

  function Keep<T>(p: T -> bool, s: seq<T>): seq<T> {
    if s == [] then [] else (if p(s[0]) then [s[0]] else []) + Keep(p, s[1..])
  }

  /** What the comparison cannot tell from `e`. */
  function Alike<T>(le: (T, T) -> bool, e: T): T -> bool {
    (x: T) => le(x, e) && le(e, x)
  }

  lemma {:induction false} InsertIsStable<T(!new)>(le: (T, T) -> bool, e: T, x: T, s: seq<T>)
    requires TotalOrder(le)
    ensures Keep(Alike(le, e), Insert(le, x, s)) == Keep(Alike(le, e), [x] + s)
  {
    var alike := Alike(le, e);
    assert ([x] + s)[1..] == s;
    if s != [] && !le(x, s[0]) {
      var rest := Insert(le, x, s[1..]);
      InsertIsStable(le, e, x, s[1..]);
      assert ([s[0]] + rest)[1..] == rest && ([x] + s[1..])[1..] == s[1..];
      var first := s[0];
      if le(x, e) && le(e, first) {
        assert false;
      }
    }
  }

  /** Elements the comparison cannot tell apart stay in the order they were in. */
  lemma {:induction false} SortIsStable<T(!new)>(le: (T, T) -> bool, e: T, s: seq<T>)
    requires TotalOrder(le)
    ensures Keep(Alike(le, e), Sort(le, s)) == Keep(Alike(le, e), s)
  {
    if s != [] {
      var rest := Sort(le, s[1..]);
      SortIsStable(le, e, s[1..]);
      InsertIsStable(le, e, s[0], rest);
      assert ([s[0]] + rest)[1..] == rest;
    }
  }

  // ---- Different keys stay different ----

  /** Different elements have different keys. */
  ghost predicate Apart<T, K>(key: T -> K, s: seq<T>) {
    forall i, j | 0 <= i < j < |s| :: key(s[i]) != key(s[j])
  }

  lemma {:induction false} InsertKeepsApart<T, K>(le: (T, T) -> bool, key: T -> K, x: T, s: seq<T>)
    requires Apart(key, s) && forall k | 0 <= k < |s| :: key(s[k]) != key(x)
    ensures Apart(key, Insert(le, x, s))
  {
    if s != [] && !le(x, s[0]) {
      InsertKeepsApart(le, key, x, s[1..]);
      InsertKeeps(le, x, s[1..]);
      var r := Insert(le, x, s[1..]);
      forall j | 0 <= j < |r| ensures key(r[j]) != key(s[0]) {
        if r[j] != x {
          var k :| 0 <= k < |s[1..]| && s[1..][k] == r[j];
          assert s[k + 1] == r[j];
        }
      }
    }
  }

  lemma InsertIntoSorted<T, K>(le: (T, T) -> bool, key: T -> K, x: T, s: seq<T>)
    requires Apart(key, Sort(le, s)) && forall k | 0 <= k < |s| :: key(s[k]) != key(x)
    ensures Apart(key, Insert(le, x, Sort(le, s)))
  {
    hide Sort, Insert;
    var r := Sort(le, s);
    SortKeeps(le, s);
    forall k | 0 <= k < |r| ensures key(r[k]) != key(x) {
      assert r[k] in s;
    }
    InsertKeepsApart(le, key, x, r);
  }

  lemma {:induction false} SortKeepsApart<T, K>(le: (T, T) -> bool, key: T -> K, s: seq<T>)
    requires Apart(key, s)
    ensures Apart(key, Sort(le, s))
  {
    if s != [] {
      SortKeepsApart(le, key, s[1..]);
      InsertIntoSorted(le, key, s[0], s[1..]);
    }
  }

  // ---- Lexicographic order ----

  predicate LexLe<T(==)>(rank: T -> int, a: seq<T>, b: seq<T>) {
    a == [] || (b != [] && (rank(a[0]) < rank(b[0]) || (a[0] == b[0] && LexLe(rank, a[1..], b[1..]))))
  }

  ghost predicate Injective<T(!new)>(rank: T -> int) {
    forall x, y :: rank(x) == rank(y) ==> x == y
  }

  lemma {:induction false} LexLeTotal<T(!new)>(rank: T -> int, a: seq<T>, b: seq<T>)
    requires Injective(rank)
    ensures LexLe(rank, a, b) || LexLe(rank, b, a)
  {
    if a != [] && b != [] && a[0] == b[0] {
      LexLeTotal(rank, a[1..], b[1..]);
    }
  }

  lemma {:induction false} LexLeAntisymmetric<T>(rank: T -> int, a: seq<T>, b: seq<T>)
    requires LexLe(rank, a, b) && LexLe(rank, b, a)
    ensures a == b
  {
    if a != [] && b != [] {
      LexLeAntisymmetric(rank, a[1..], b[1..]);
      assert a == [a[0]] + a[1..] && b == [b[0]] + b[1..];
    }
  }

  lemma {:induction false} LexLeTransitive<T>(rank: T -> int, a: seq<T>, b: seq<T>, c: seq<T>)
    requires LexLe(rank, a, b) && LexLe(rank, b, c)
    ensures LexLe(rank, a, c)
  {
    if a != [] && a[0] == b[0] == c[0] {
      LexLeTransitive(rank, a[1..], b[1..], c[1..]);
    }
  }

  /** The two agree up to `k`, where the first ends or has the lower rank. */
  ghost predicate LowerAt<T>(rank: T -> int, a: seq<T>, b: seq<T>, k: nat) {
    k <= |a| && k <= |b| && a[..k] == b[..k] && (k == |a| || (k < |b| && rank(a[k]) < rank(b[k])))
  }

  lemma LowerInTail<T>(rank: T -> int, a: seq<T>, b: seq<T>, k: nat)
    requires a != [] && b != [] && a[0] == b[0]
    ensures LowerAt(rank, a, b, k + 1) <==> LowerAt(rank, a[1..], b[1..], k)
  {
    var c, d := a[1..], b[1..];
    if k <= |c| && k <= |d| {
      assert a[..k + 1] == [a[0]] + c[..k] && b[..k + 1] == [b[0]] + d[..k];
      assert c[..k] == a[..k + 1][1..] && d[..k] == b[..k + 1][1..];
    }
  }

  lemma LowerFirst<T>(rank: T -> int, a: seq<T>, b: seq<T>, k: nat)
    requires a != [] && b != [] && a[0] != b[0]
    ensures LowerAt(rank, a, b, k) <==> k == 0 && rank(a[0]) < rank(b[0])
  {
    if k > 0 && k <= |a| && k <= |b| {
      assert a[..k][0] == a[0] && b[..k][0] == b[0];
    }
  }

  /** What the order means. */
  lemma {:induction false} LexLeIff<T>(rank: T -> int, a: seq<T>, b: seq<T>)
    ensures LexLe(rank, a, b) <==> exists k: nat :: LowerAt(rank, a, b, k)
  {
    if a == [] {
      assert LowerAt(rank, a, b, 0);
    } else if b == [] {
      assert !exists k: nat :: LowerAt(rank, a, b, k);
    } else if a[0] != b[0] {
      hide LowerAt;
      LowerFirst(rank, a, b, 0);
      forall k: nat ensures LowerAt(rank, a, b, k) <==> k == 0 && rank(a[0]) < rank(b[0]) {
        LowerFirst(rank, a, b, k);
      }
    } else {
      LexLeIff(rank, a[1..], b[1..]);
      if k: nat :| LowerAt(rank, a[1..], b[1..], k) {
        LowerInTail(rank, a, b, k);
      }
      if k: nat :| LowerAt(rank, a, b, k) {
        LowerInTail(rank, a, b, k - 1);
      }
    }
  }
}
