/** Slash-separated paths as the manifest spells them, and the byte order names are sorted in. */
module Paths {
  import opened Prelude
  import opened Sorting

  predicate SlashFree(s: string) {
    forall i | 0 <= i < |s| :: s[i] != '/'
  }

  /** A name a directory entry can have. */
  predicate ValidName(s: string) {
    s != "" && SlashFree(s) && s != "." && s != ".."
  }

  function LastSlashBelow(p: string, n: nat): (i: int)
    requires n <= |p|
    ensures -1 <= i < n
    ensures i >= 0 ==> p[i] == '/'
    ensures forall j | i < j < n :: p[j] != '/'
  {
    if n == 0 then -1 else if p[n - 1] == '/' then n - 1 else LastSlashBelow(p, n - 1)
  }

  /** Where the last slash is; -1 if there is none. */
  function LastSlash(p: string): (i: int)
    ensures -1 <= i < |p|
    ensures i >= 0 ==> p[i] == '/'
    ensures forall j | i < j < |p| :: p[j] != '/'
  {
    LastSlashBelow(p, |p|)
  }

  /** The directory a path lies in, "" for the top level. */
  function ParentKey(p: string): string {
    if LastSlash(p) == -1 then "" else p[..LastSlash(p)]
  }

  function BaseName(p: string): string {
    p[LastSlash(p) + 1..]
  }

  /** `Path::file_name` on Unix: the last component, if it is a name; trailing slashes and `.`
      components do not count. */
  function FileName(p: string): Option<string>
    decreases |p|
  {
    if p == "" then None
    else
      var last := BaseName(p);
      if last == "" || (last == "." && LastSlash(p) != -1) then FileName(p[..|p| - 1])
      else if last == "." || last == ".." then None
      else Some(last)
  }

  function Join(dir: string, name: string): string {
    if dir == "" then name else dir + "/" + name
  }

  function StripLeadingSlash(p: string): string {
    if p != "" && p[0] == '/' then p[1..] else p
  }

  /** One slash at the start is dropped, and only one. */
  lemma SlashIsStripped(p: string)
    ensures StripLeadingSlash("/" + p) == p
    ensures p == "" || p[0] != '/' ==> StripLeadingSlash(p) == p
  {
    assert ("/" + p)[1..] == p;
  }

  lemma PlainNames()
    ensures FileName("") == None && FileName(".") == None && FileName("..") == None
  {
    assert LastSlash(".") == -1 && LastSlash("..") == -1;
    assert "."[0..] == "." && ".."[0..] == "..";
  }

  lemma LastSlashOf(prefix: string, name: string)
    requires SlashFree(name)
    ensures LastSlash(name) == -1
    ensures LastSlash(prefix + "/" + name) == |prefix|
  {
    hide LastSlash;
    var p := prefix + "/" + name;
    assert p[|prefix|] == '/';
    assert forall j | |prefix| < j < |p| :: p[j] == name[j - |prefix| - 1];
  }

  /** What `FileName` makes of paths that are not spelled plainly. */
  lemma FileNameLaws(dir: string, name: string)
    requires ValidName(name)
    ensures FileName(name) == Some(name) && FileName(dir + "/" + name) == Some(name)
    ensures FileName("") == None && FileName(".") == None && FileName("..") == None && FileName(dir + "/..") == None
    ensures FileName(dir + "/") == FileName(dir)
    ensures FileName(dir + "/.") == FileName(dir + "/") == FileName(dir)
  {
    hide LastSlash;
    LastSlashOf(dir, name);
    LastSlashOf(dir, "..");
    LastSlashOf(dir, ".");
    LastSlashOf(dir, "");
    LastSlashOf(dir, "..");
    assert name[0..] == name && (dir + "/" + name)[|dir| + 1..] == name;
    assert (dir + "/..") == dir + "/" + ".." && (dir + "/..")[|dir| + 1..] == "..";
    assert (dir + "/.") == dir + "/" + "." && (dir + "/.")[|dir| + 1..] == ".";
    assert (dir + "/.")[..|dir| + 1] == dir + "/";
    assert (dir + "/") == dir + "/" + "" && (dir + "/")[|dir| + 1..] == "" && (dir + "/")[..|dir|] == dir;
    PlainNames();
  }

  /** Every component is a valid name: no empty ones, no `.` or `..`. */
  predicate Normalised(p: string)
    decreases |p|
  {
    ValidName(BaseName(p)) && (LastSlash(p) != -1 ==> Normalised(ParentKey(p)))
  }

  lemma FileNameOfNormalised(p: string)
    requires Normalised(p)
    ensures FileName(p) == Some(BaseName(p))
  {}

  /** The path with the given components. */
  function PathOf(names: seq<string>): string {
    if names == [] then "" else Join(PathOf(names[..|names| - 1]), names[|names| - 1])
  }

  function Components(p: string): seq<string>
    decreases |p|
  {
    if LastSlash(p) == -1 then [p] else Components(ParentKey(p)) + [BaseName(p)]
  }

  lemma JoinSplits(dir: string, name: string)
    requires SlashFree(name)
    ensures ParentKey(Join(dir, name)) == dir && BaseName(Join(dir, name)) == name
  {
    hide LastSlash;
    LastSlashOf(dir, name);
    var p := dir + "/" + name;
    assert p[..|dir|] == dir;
    assert p[|dir| + 1..] == name;
    assert name[0..] == name;
  }

  lemma SplitJoins(p: string)
    requires Normalised(p)
    ensures Join(ParentKey(p), BaseName(p)) == p
    ensures p != "" && p[0] != '/' && StripLeadingSlash(p) == p
    decreases |p|
  {
    hide LastSlash;
    var i := LastSlash(p);
    if i != -1 {
      SplitJoins(ParentKey(p));
      assert p == p[..i] + "/" + p[i + 1..];
      assert p[0] == ParentKey(p)[0];
    } else {
      assert p[0..] == p;
    }
  }

  lemma JoinNormalised(dir: string, name: string)
    requires ValidName(name) && (dir == "" || Normalised(dir))
    ensures Normalised(Join(dir, name))
  {
    JoinSplits(dir, name);
    LastSlashOf(dir, name);
  }

  lemma {:induction false} PathOfNormalised(names: seq<string>)
    requires forall n | n in names :: ValidName(n)
    ensures names == [] || Normalised(PathOf(names))
  {
    if names != [] {
      PathOfNormalised(names[..|names| - 1]);
      assert names[|names| - 1] in names;
      JoinNormalised(PathOf(names[..|names| - 1]), names[|names| - 1]);
    }
  }

  lemma {:induction false} PathOfComponents(p: string)
    requires Normalised(p)
    ensures Components(p) != [] && PathOf(Components(p)) == p
    ensures forall n | n in Components(p) :: ValidName(n)
    decreases |p|
  {
    SplitJoins(p);
    if LastSlash(p) == -1 {
      assert Components(p)[..0] == [];
      assert PathOf([]) == "";
    } else {
      PathOfComponents(ParentKey(p));
      var names := Components(p);
      assert names[..|names| - 1] == Components(ParentKey(p));
    }
  }

  // ---- Order ----

  function CharCode(c: char): int { c as int }

  /** Lexicographic order by character code. */
  predicate NameLe(a: string, b: string) {
    LexLe(CharCode, a, b)
  }

  /** One name comes before another if it is its beginning, or has the lower code at the first
      character that differs. */
  ghost predicate ComesBefore(a: string, b: string) {
    exists k: nat :: k <= |a| && k <= |b| && a[..k] == b[..k] && (k == |a| || (k < |b| && a[k] as int < b[k] as int))
  }

  lemma NameLeIff(a: string, b: string)
    ensures NameLe(a, b) <==> ComesBefore(a, b)
  {
    hide LexLe;
    LexLeIff(CharCode, a, b);
    assert forall k | 0 <= k < |a| :: CharCode(a[k]) == a[k] as int;
    assert forall k | 0 <= k < |b| :: CharCode(b[k]) == b[k] as int;
    if k: nat :| LowerAt(CharCode, a, b, k) {
      assert a[..k] == b[..k];
    }
    if k: nat :| k <= |a| && k <= |b| && a[..k] == b[..k] && (k == |a| || (k < |b| && a[k] as int < b[k] as int)) {
      assert LowerAt(CharCode, a, b, k);
    }
  }

  // ---- Sorting entries by name ----

  function ByName<T>(): ((string, T), (string, T)) -> bool {
    (a: (string, T), b: (string, T)) => NameLe(a.0, b.0)
  }

  function SortByName<T>(s: seq<(string, T)>): seq<(string, T)> {
    Sort(ByName(), s)
  }

  ghost predicate SortedByName<T>(s: seq<(string, T)>) {
    forall i, j | 0 <= i < j < |s| :: NameLe(s[i].0, s[j].0)
  }

  ghost predicate DistinctNames<T>(s: seq<(string, T)>) {
    forall i, j | 0 <= i < j < |s| :: s[i].0 != s[j].0
  }

  lemma NamesAreOrdered<T(!new)>()
    ensures TotalOrder(ByName<T>())
  {
    hide LexLe;
    var le := ByName<T>();
    forall a, b ensures le(a, b) || le(b, a) {
      LexLeTotal(CharCode, a.0, b.0);
    }
    forall a, b, c | le(a, b) && le(b, c) ensures le(a, c) {
      LexLeTransitive(CharCode, a.0, b.0, c.0);
    }
  }

  lemma SortByNameSorted<T(!new)>(s: seq<(string, T)>)
    ensures SortedByName(SortByName(s))
  {
    hide NameLe, Sort;
    NamesAreOrdered<T>();
    SortSorts(ByName(), s);
    var r := SortByName(s);
    forall i, j | 0 <= i < j < |r| ensures NameLe(r[i].0, r[j].0) {
      assert ByName<T>()(r[i], r[j]);
    }
  }

  lemma SortByNameKeepsEntries<T>(s: seq<(string, T)>)
    ensures |SortByName(s)| == |s|
    ensures forall k | 0 <= k < |s| :: SortByName(s)[k] in s
    ensures forall k | 0 <= k < |s| :: s[k] in SortByName(s)
  {
    hide Sort;
    SortKeeps(ByName(), s);
  }

  function NameOf<T>(): (((string, T)) -> string) {
    (e: (string, T)) => e.0
  }

  lemma SortByNameDistinct<T>(s: seq<(string, T)>)
    requires DistinctNames(s)
    ensures DistinctNames(SortByName(s))
  {
    hide Sort;
    SortKeepsApart(ByName(), NameOf(), s);
    var r := SortByName(s);
    forall i, j | 0 <= i < j < |r| ensures r[i].0 != r[j].0 {
      assert NameOf<T>()(r[i]) != NameOf<T>()(r[j]);
    }
  }

  lemma FirstsAgree<T>(a: seq<(string, T)>, b: seq<(string, T)>)
    requires SortedByName(a) && DistinctNames(a) && SortedByName(b)
    requires a != [] && b != [] && a[0] in b && b[0] in a
    ensures a[0] == b[0]
  {
    hide LexLe;
    var i :| 0 <= i < |a| && a[i] == b[0];
    var j :| 0 <= j < |b| && b[j] == a[0];
    LexLeTotal(CharCode, a[0].0, a[0].0);
    LexLeTotal(CharCode, b[0].0, b[0].0);
    LexLeAntisymmetric(CharCode, a[0].0, b[0].0);
    assert i == 0;
  }

  lemma SortedTail<T>(a: seq<(string, T)>)
    requires a != [] && SortedByName(a) && DistinctNames(a)
    ensures SortedByName(a[1..]) && DistinctNames(a[1..])
  {
    hide NameLe;
  }

  lemma TailsAgree<T>(a: seq<(string, T)>, b: seq<(string, T)>)
    requires a != [] && b != [] && a[0] == b[0] && DistinctNames(a)
    requires forall k | 0 <= k < |a| :: a[k] in b
    ensures forall k | 0 <= k < |a[1..]| :: a[1..][k] in b[1..]
  {
    forall k | 0 <= k < |a[1..]| ensures a[1..][k] in b[1..] {
      var x := a[k + 1];
      var j :| 0 <= j < |b| && b[j] == x;
      assert j > 0 && b[1..][j - 1] == x;
    }
  }

  /** Entries with different names have one sorted order only. */
  lemma {:induction false} SortedOrderIsUnique<T>(a: seq<(string, T)>, b: seq<(string, T)>)
    requires SortedByName(a) && DistinctNames(a) && SortedByName(b) && DistinctNames(b)
    requires (forall k | 0 <= k < |a| :: a[k] in b) && (forall k | 0 <= k < |b| :: b[k] in a)
    ensures a == b
  {
    assert (a != [] ==> a[0] in b) && (b != [] ==> b[0] in a);
    if a != [] && b != [] {
      hide SortedByName, DistinctNames;
      FirstsAgree(a, b);
      TailsAgree(a, b);
      TailsAgree(b, a);
      SortedTail(a);
      SortedTail(b);
      SortedOrderIsUnique(a[1..], b[1..]);
      assert a == [a[0]] + a[1..] && b == [b[0]] + b[1..];
    }
  }
}
