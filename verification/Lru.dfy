/** The decoded-chunk cache: a bounded map that forgets the least recently touched key.
    `order` lists the keys, most recently touched first. */
module Lru {
  import opened Prelude

  const DECODED_CACHE_ENTRIES: nat := 160

  datatype Cache = Cache(order: seq<Sha>, values: map<Sha, Bytes>)

  ghost predicate Distinct<T>(s: seq<T>) {
    forall i, j | 0 <= i < j < |s| :: s[i] != s[j]
  }

  ghost function Elements<T>(s: seq<T>): set<T> {
    set x | x in s
  }

  ghost predicate Valid(c: Cache, cap: nat) {
    && |c.order| <= cap
    && Distinct(c.order)
    && Elements(c.order) == c.values.Keys
  }

  function Without(s: seq<Sha>, k: Sha): (r: seq<Sha>)
    ensures k !in r
    ensures forall x :: x in r <==> x in s && x != k
  {
    if s == [] then []
    else if s[0] == k then Without(s[1..], k)
    else [s[0]] + Without(s[1..], k)
  }

  function ToFront(s: seq<Sha>, k: Sha): seq<Sha> {
    [k] + Without(s, k)
  }

  function Take<T>(s: seq<T>, n: nat): seq<T> {
    if |s| <= n then s else s[..n]
  }

  /** Insert or replace `k` as the newest entry; past `cap` entries the oldest is dropped. */
  function Put(c: Cache, cap: nat, k: Sha, v: Bytes): Cache {
    var order := Take(ToFront(c.order, k), cap);
    var values := c.values[k := v];
    Cache(order, map x | x in values && x in order :: values[x])
  }

  /** A hit makes `k` the newest entry. */
  function Promote(c: Cache, k: Sha): Cache {
    if k in c.values then c.(order := ToFront(c.order, k)) else c
  }

  function Lookup(c: Cache, k: Sha): Option<Bytes> {
    if k in c.values then Some(c.values[k]) else None
  }

  lemma {:induction false} WithoutDistinct(s: seq<Sha>, k: Sha)
    requires Distinct(s)
    ensures Distinct(Without(s, k))
    ensures |Without(s, k)| == |s| - (if k in s then 1 else 0)
  {
    if s != [] {
      var rest := s[1..];
      WithoutDistinct(rest, k);
      assert s[0] !in rest;
      assert s == [s[0]] + rest;
    }
  }

  lemma PutValid(c: Cache, cap: nat, k: Sha, v: Bytes)
    requires Valid(c, cap) && cap >= 1
    ensures Valid(Put(c, cap, k, v), cap)
    ensures Lookup(Put(c, cap, k, v), k) == Some(v)
    ensures forall x | x != k :: Lookup(Put(c, cap, k, v), x) in {None, Lookup(c, x)}
  {
    WithoutDistinct(c.order, k);
    var order := ToFront(c.order, k);
    assert Distinct(order);
    assert Take(order, cap)[0] == k;
    assert forall x | x in order :: x == k || x in Elements(c.order);
    assert Elements(Put(c, cap, k, v).order) == Put(c, cap, k, v).values.Keys;
  }

  lemma PromoteValid(c: Cache, cap: nat, k: Sha)
    requires Valid(c, cap)
    ensures Valid(Promote(c, k), cap)
    ensures Promote(c, k).values == c.values
  {
    if k in c.values {
      assert k in Elements(c.order);
      WithoutDistinct(c.order, k);
      assert Elements(ToFront(c.order, k)) == Elements(c.order);
    }
  }

  // ---- The bounded order is a window on the full recency order ----

  /** The keys of `trace`, most recently touched first, nothing ever dropped. */
  function Recency(trace: seq<Sha>): seq<Sha> {
    if trace == [] then [] else ToFront(Recency(trace[..|trace| - 1]), trace[|trace| - 1])
  }

  datatype Op = Get(key: Sha) | Insert(key: Sha, value: Bytes)

  function Apply(c: Cache, cap: nat, op: Op): Cache {
    match op
    case Get(k) => Promote(c, k)
    case Insert(k, v) => Put(c, cap, k, v)
  }

  function Replay(cap: nat, ops: seq<Op>): Cache {
    if ops == [] then Cache([], map[])
    else Apply(Replay(cap, ops[..|ops| - 1]), cap, ops[|ops| - 1])
  }

  /** The keys touched by `ops`: every insertion, and every lookup that hits. */
  function Touches(cap: nat, ops: seq<Op>): seq<Sha> {
    if ops == [] then []
    else
      var before := ops[..|ops| - 1];
      var op := ops[|ops| - 1];
      if op.Insert? || op.key in Replay(cap, before).values
      then Touches(cap, before) + [op.key]
      else Touches(cap, before)
  }

  lemma TakePrefix(front: seq<Sha>, rest: seq<Sha>, n: nat)
    requires |front| >= n
    ensures Take(front + rest, n) == Take(front, n)
  {
    assert (front + rest)[..n] == front[..n];
    assert front[..|front|] == front;
    if |front + rest| == n {
      assert front + rest == front;
    }
  }

  lemma {:induction false} WithoutConcat(a: seq<Sha>, b: seq<Sha>, k: Sha)
    ensures Without(a + b, k) == Without(a, k) + Without(b, k)
  {
    if a == [] {
      assert a + b == b;
    } else {
      var rest := a[1..];
      WithoutConcat(rest, b, k);
      assert (a + b)[0] == a[0] && (a + b)[1..] == rest + b;
      if a[0] != k {
        assert Without(a + b, k) == [a[0]] + (Without(rest, k) + Without(b, k));
        assert Without(a, k) == [a[0]] + Without(rest, k);
      }
    }
  }

  lemma WithoutTake(s: seq<Sha>, k: Sha, n: nat)
    requires Distinct(s)
    ensures Take(ToFront(Take(s, n), k), n) == Take(ToFront(s, k), n)
  {
    hide Without;
    if |s| > n {
      var kept, dropped := s[..n], s[n..];
      assert s == kept + dropped;
      WithoutConcat(kept, dropped, k);
      WithoutDistinct(kept, k);
      TakePrefix(ToFront(kept, k), Without(dropped, k), n);
      assert ToFront(s, k) == ToFront(kept, k) + Without(dropped, k);
    }
  }

  lemma {:induction false} RecencyDistinct(trace: seq<Sha>)
    ensures Distinct(Recency(trace))
    ensures forall x :: x in Recency(trace) <==> x in trace
  {
    if trace != [] {
      var before := trace[..|trace| - 1];
      RecencyDistinct(before);
      WithoutDistinct(Recency(before), trace[|trace| - 1]);
      assert trace == before + [trace[|trace| - 1]];
    }
  }

  /** Whatever the mix of lookups and insertions, the cache holds exactly the `cap` most
      recently touched keys, in order of their last touch. */
  lemma {:induction false} ReplayIsRecency(cap: nat, ops: seq<Op>)
    requires cap >= 1
    ensures Valid(Replay(cap, ops), cap)
    ensures Replay(cap, ops).order == Take(Recency(Touches(cap, ops)), cap)
  {
    if ops != [] {
      var before, op := ops[..|ops| - 1], ops[|ops| - 1];
      ReplayIsRecency(cap, before);
      var c := Replay(cap, before);
      var trace := Touches(cap, before);
      RecencyDistinct(trace);
      assert (trace + [op.key])[..|trace|] == trace;
      match op {
        case Insert(k, v) =>
          PutValid(c, cap, k, v);
          WithoutTake(Recency(trace), k, cap);
        case Get(k) =>
          PromoteValid(c, cap, k);
          if k in c.values {
            assert k in Elements(c.order);
            WithoutDistinct(c.order, k);
            WithoutTake(Recency(trace), k, cap);
          }
      }
    }
  }

  // ---- Reuse distance: when exactly a key survives ----

  /** What was touched after the last touch of `k`. */
  function Since(trace: seq<Sha>, k: Sha): seq<Sha>
    requires k in trace
  {
    var last := trace[|trace| - 1];
    if last == k then []
    else
      assert trace == trace[..|trace| - 1] + [last];
      Since(trace[..|trace| - 1], k) + [last]
  }

  lemma {:induction false} DistinctSize<T>(s: seq<T>)
    requires Distinct(s)
    ensures |Elements(s)| == |s|
  {
    if s != [] {
      var n := |s| - 1;
      DistinctSize(s[..n]);
      assert Elements(s) == Elements(s[..n]) + {s[n]};
    }
  }

  /** Touching `k` puts it before what is left of `ahead`. */
  lemma ToFrontSplits(ahead: seq<Sha>, behind: seq<Sha>, k: Sha)
    requires behind != [] && behind[0] != k
    ensures ToFront(ahead + behind, k) == ([k] + Without(ahead, k)) + Without(behind, k)
    ensures Without(behind, k) != [] && Without(behind, k)[0] == behind[0]
  {
    WithoutConcat(ahead, behind, k);
  }

  lemma FrontElements(ahead: seq<Sha>, k: Sha)
    requires Distinct(ahead)
    ensures var front := [k] + Without(ahead, k);
            Elements(front) == Elements(ahead) + {k} && |front| == |Elements(ahead) + {k}|
  {
    var front := [k] + Without(ahead, k);
    WithoutDistinct(ahead, k);
    assert Elements(front) == Elements(ahead) + {k};
    DistinctSize(front);
  }

  /** Touching `k` moves the entry at `i` back by one unless `k` was already ahead of it. */
  lemma ToFrontShifts(order: seq<Sha>, i: nat, k: Sha)
    requires Distinct(order) && i < |order| && order[i] != k
    ensures var j := |Elements(order[..i]) + {k}|;
            && j < |ToFront(order, k)|
            && ToFront(order, k)[j] == order[i]
            && Elements(ToFront(order, k)[..j]) == Elements(order[..i]) + {k}
  {
    hide Without, ToFront, Elements;
    assert order == order[..i] + order[i..];
    ToFrontSplits(order[..i], order[i..], k);
    FrontElements(order[..i], k);
    var front := [k] + Without(order[..i], k);
    assert ToFront(order, k)[..|front|] == front;
  }

  /** A key's place in the recency order is the number of distinct keys touched since. */
  lemma {:induction false} RecencyPosition(trace: seq<Sha>, k: Sha)
    requires k in trace
    ensures var i := |Elements(Since(trace, k))|;
            && i < |Recency(trace)|
            && Recency(trace)[i] == k
            && Elements(Recency(trace)[..i]) == Elements(Since(trace, k))
  {
    var before, last := trace[..|trace| - 1], trace[|trace| - 1];
    assert trace == before + [last];
    if last == k {
      assert Elements(Since(trace, k)) == {};
    } else {
      RecencyPosition(before, k);
      RecencyDistinct(before);
      var since := Elements(Since(before, k));
      ToFrontShifts(Recency(before), |since|, last);
      assert Elements(Since(trace, k)) == since + {last};
    }
  }

  lemma TakeMembership(trace: seq<Sha>, cap: nat, k: Sha)
    ensures k in Take(Recency(trace), cap) <==>
            k in trace && |Elements(Since(trace, k))| < cap
  {
    RecencyDistinct(trace);
    if k in trace {
      RecencyPosition(trace, k);
      var i := |Elements(Since(trace, k))|;
      if i < cap {
        assert Take(Recency(trace), cap)[i] == k;
      } else {
        assert k !in Recency(trace)[..cap];
      }
    }
  }

  /** A key is held if and only if it was touched and fewer than `cap` distinct other keys have
      been touched since its last touch. */
  lemma HeldIffRecentlyTouched(cap: nat, ops: seq<Op>, k: Sha)
    requires cap >= 1
    ensures Lookup(Replay(cap, ops), k).Some? <==>
            && k in Touches(cap, ops)
            && |Elements(Since(Touches(cap, ops), k))| < cap
  {
    ReplayIsRecency(cap, ops);
    TakeMembership(Touches(cap, ops), cap, k);
    assert k in Replay(cap, ops).values <==> k in Elements(Replay(cap, ops).order);
  }

  // ---- Reuse distances in passes over a file's chunks ----

  lemma {:induction false} SinceWithin(earlier: seq<Sha>, later: seq<Sha>, k: Sha)
    requires k in later
    ensures k in earlier + later && Since(earlier + later, k) == Since(later, k)
    ensures k !in Since(later, k)
    ensures forall x | x in Since(later, k) :: x in later
  {
    var n := |later|;
    assert (earlier + later)[|earlier| + n - 1] == later[n - 1];
    if later[n - 1] != k {
      assert later == later[..n - 1] + [later[n - 1]];
      SinceWithin(earlier, later[..n - 1], k);
      assert (earlier + later)[..|earlier| + n - 1] == earlier + later[..n - 1];
    }
  }

  lemma {:induction false} SubsetSize<T>(a: set<T>, b: set<T>)
    requires a <= b
    ensures |a| <= |b|
  {
    if a != {} {
      var x :| x in a;
      SubsetSize(a - {x}, b - {x});
    }
  }

  /** In a pass over a file and re-reads of it, fewer other chunks come between than the file has. */
  lemma RereadDistance(trace: seq<Sha>, file: seq<Sha>, reread: seq<Sha>, k: Sha)
    requires Elements(reread) <= Elements(file) && k in file
    ensures var passed := trace + file + reread;
            k in passed && |Elements(Since(passed, k))| < |Elements(file)|
  {
    assert trace + file + reread == trace + (file + reread);
    SinceWithin(trace, file + reread, k);
    var since := Elements(Since(file + reread, k));
    assert since <= Elements(file) - {k} by {
      assert forall x | x in file + reread :: x in Elements(file) || x in Elements(reread);
    }
    SubsetSize(since, Elements(file) - {k});
    assert k in Elements(file);
  }

  lemma {:induction false} SinceAll(k: Sha, rest: seq<Sha>)
    requires k !in rest
    ensures Since([k] + rest, k) == rest
  {
    if rest != [] {
      var n := |rest|;
      SinceAll(k, rest[..n - 1]);
      assert ([k] + rest)[..n] == [k] + rest[..n - 1];
      assert ([k] + rest)[n] == rest[n - 1];
    }
  }

  /** In a cycle over distinct chunks, all others come between a chunk and its next turn. */
  lemma CycleDistance(trace: seq<Sha>, file: seq<Sha>, i: nat)
    requires Distinct(file) && i < |file|
    ensures var passed := trace + file + file[..i];
            file[i] in passed && |Elements(Since(passed, file[i]))| == |file| - 1
  {
    var k := file[i];
    var rest := file[i + 1..] + file[..i];
    assert file == file[..i] + [k] + file[i + 1..];
    assert trace + file + file[..i] == (trace + file[..i]) + ([k] + rest);
    SinceWithin(trace + file[..i], [k] + rest, k);
    SinceAll(k, rest);
    DistinctSize(rest);
  }
}
