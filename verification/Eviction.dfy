/** Eviction from the build cache (pipeline/build_cache.py): least recently used files go first,
    down to four fifths of the cap, and young files are spared. */
module Eviction {
  import opened Ir
  import opened TextOrder

  datatype Entry = Entry(mtime: real, size: nat, path: string)

  datatype Stat = Stat(mtime: real, size: nat)

  // ---------------------------------------------------------------- the order of the entries

  /** The order of the triples (mtime, size, path). */
  predicate Before(a: Entry, b: Entry) {
    if a.mtime != b.mtime then a.mtime < b.mtime
    else if a.size != b.size then a.size < b.size
    else StrLe(a.path, b.path)
  }

  lemma BeforeTransitive(a: Entry, b: Entry, c: Entry)
    requires Before(a, b) && Before(b, c)
    ensures Before(a, c)
  {
    if a.mtime == b.mtime == c.mtime && a.size == b.size == c.size {
      StrLeTransitive(a.path, b.path, c.path);
    }
  }

  ghost predicate Sorted(s: seq<Entry>) {
    forall i, j :: 0 <= i < j < |s| ==> Before(s[i], s[j])
  }

  method Insert(s: seq<Entry>, e: Entry) returns (r: seq<Entry>)
    requires Sorted(s)
    ensures Sorted(r) && multiset(r) == multiset(s) + multiset{e}
  {
    var i := |s|;
    while i > 0 && !Before(s[i - 1], e)
      invariant 0 <= i <= |s|
      invariant forall j :: i <= j < |s| ==> Before(e, s[j])
    {
      Flip(s[i - 1], e);
      i := i - 1;
    }
    forall j | 0 <= j < i
      ensures Before(s[j], e)
    {
      if j < i - 1 { BeforeTransitive(s[j], s[i - 1], e); }
    }
    r := s[..i] + [e] + s[i..];
    assert s == s[..i] + s[i..];
    hide Before;
  }

  lemma Flip(a: Entry, b: Entry)
    requires !Before(a, b)
    ensures Before(b, a)
  {
    StrLeTotal(a.path, b.path);
  }

  function Total(s: seq<Entry>): nat {
    if s == [] then 0 else s[0].size + Total(s[1..])
  }

  // ---------------------------------------------------------------- what is removed

  /** Above four fifths of the cap. */
  predicate TooMuch(total: int, cap: nat) { total * 10 > cap * 8 }

  predicate Old(e: Entry, now: real, minAge: real) { now - e.mtime >= minAge }

  /** The first `k` go: each of them was old enough, and more than the goal was left before it went. */
  ghost predicate Removes(s: seq<Entry>, k: nat, cap: nat, now: real, minAge: real) {
    k <= |s| && forall j :: 0 <= j < k ==> now - s[j].mtime >= minAge && 5 * Total(s[j..]) > 4 * cap
  }

  /** Nothing more to do: the goal is reached, or everything left is young. */
  ghost predicate Enough(s: seq<Entry>, k: nat, cap: nat, now: real, minAge: real)
    requires k <= |s|
  {
    5 * Total(s[k..]) <= 4 * cap || forall j :: k <= j < |s| ==> now - s[j].mtime < minAge
  }

  /** Behind a young entry there are only young ones: skipping it never leads to a removal. */
  lemma YoungFromHere(s: seq<Entry>, k: nat, now: real, minAge: real)
    requires Sorted(s) && k < |s| && !Old(s[k], now, minAge)
    ensures forall j :: k <= j < |s| ==> !Old(s[j], now, minAge)
  {
    forall j | k < j < |s|
      ensures s[k].mtime <= s[j].mtime
    {
      assert Before(s[k], s[j]);
    }
  }

  method Choose(s: seq<Entry>, cap: nat, now: real, minAge: real) returns (gone: seq<Entry>)
    requires Sorted(s)
    ensures |gone| <= |s| && gone == s[..|gone|]
    ensures Total(s) <= cap ==> gone == []
    ensures Total(s) > cap ==> Removes(s, |gone|, cap, now, minAge) && Enough(s, |gone|, cap, now, minAge)
  {
    hide Before, Total;
    gone := [];
    var total: int := Total(s);
    if total <= cap { return; }
    ghost var young := false;
    assert s[0..] == s;
    for i := 0 to |s|
      invariant |gone| <= i && gone == s[..|gone|] && total == Total(s[|gone|..])
      invariant Removes(s, |gone|, cap, now, minAge)
      invariant !young ==> |gone| == i
      invariant young ==> forall j :: |gone| <= j < |s| ==> !Old(s[j], now, minAge)
    {
      if !TooMuch(total, cap) { return; }
      if !Old(s[i], now, minAge) {
        if !young {
          YoungFromHere(s, i, now, minAge);
          young := true;
        }
      } else {
        TotalOfRest(s, i);
        gone := gone + [s[i]];
        total := total - s[i].size;
      }
    }
  }

  lemma TotalOfRest(s: seq<Entry>, i: nat)
    requires i < |s|
    ensures Total(s[i..]) == s[i].size + Total(s[i + 1..])
  {
    assert s[i..][1..] == s[i + 1..];
  }

  // ---------------------------------------------------------------- the cache directory

  predicate IsMeta(path: string) { |path| >= 5 && path[|path| - 5..] == ".meta" }

  predicate IsHidden(path: string) { path != [] && path[0] == '.' }

  /** Files that count: products and stored errors, not temporaries and not the notes beside them. */
  predicate Counted(path: string) { !IsHidden(path) && !IsMeta(path) }

  /** The name does not begin with a dot and does not end in `.meta`. */
  ghost predicate IsStored(path: string) {
    (path == "" || path[0] != '.') && forall base: string :: path != base + ".meta"
  }

  lemma CountedIsStored(path: string)
    ensures Counted(path) <==> IsStored(path)
  {
    if IsMeta(path) {
      assert path == path[..|path| - 5] + ".meta";
    }
  }

  ghost predicate Lists(files: map<string, Stat>, s: seq<Entry>) {
    && Sorted(s)
    && (forall e :: e in s <==> e.path in files && IsStored(e.path) && files[e.path] == Stat(e.mtime, e.size))
    && forall i, j :: 0 <= i < j < |s| ==> s[i].path != s[j].path
  }

  function Paths(s: seq<Entry>): set<string> {
    (set e | e in s :: e.path) + (set e | e in s :: e.path + ".meta")
  }

  class Directory {
    var files: map<string, Stat>
    var evicted: nat

    constructor (files0: map<string, Stat>)
      ensures files == files0 && evicted == 0
    {
      files, evicted := files0, 0;
    }

    method List() returns (s: seq<Entry>)
      ensures Lists(files, s)
    {
      s := [];
      var todo := files.Keys;
      while todo != {}
        invariant todo <= files.Keys && Sorted(s)
        invariant forall e :: e in s <==> e.path in files && e.path !in todo && IsStored(e.path) && files[e.path] == Stat(e.mtime, e.size)
        invariant forall i, j :: 0 <= i < j < |s| ==> s[i].path != s[j].path
      {
        var path :| path in todo;
        CountedIsStored(path);
        if Counted(path) {
          var e := Entry(files[path].mtime, files[path].size, path);
          var r := Insert(s, e);
          InsertedOnce(s, e, r);
          s := r;
        }
        todo := todo - {path};
      }
    }

    /** Least recently used files go until at most four fifths of the cap are left; nothing goes when
        the total is within the cap or no cap is set. */
    method Evict(maxBytes: Option<nat>, now: real, minAge: real) returns (n: nat)
      modifies this
      ensures maxBytes.None? || maxBytes.value == 0 ==> n == 0 && files == old(files)
      ensures maxBytes.Some? && maxBytes.value > 0 ==> exists s ::
        && Lists(old(files), s) && n <= |s| && files == old(files) - Paths(s[..n])
        && (if Total(s) <= maxBytes.value then n == 0
            else Removes(s, n, maxBytes.value, now, minAge) && Enough(s, n, maxBytes.value, now, minAge))
      ensures evicted == old(evicted) + n
    {
      n := 0;
      if maxBytes.None? || maxBytes.value == 0 { return; }
      var s := List();
      var gone := Choose(s, maxBytes.value, now, minAge);
      assert s[..0] == [] && Paths([]) == {};
      files := files - Paths(gone);
      n := |gone|;
      evicted := evicted + n;
      assert Lists(old(files), s) && files == old(files) - Paths(s[..n]);
    }
  }

  lemma InsertedOnce(s: seq<Entry>, e: Entry, r: seq<Entry>)
    requires multiset(r) == multiset(s) + multiset{e}
    requires forall x :: x in s ==> x.path != e.path
    requires forall i, j :: 0 <= i < j < |s| ==> s[i].path != s[j].path
    ensures forall x :: x in r <==> x in s || x == e
    ensures forall i, j :: 0 <= i < j < |r| ==> r[i].path != r[j].path
  {
    forall x
      ensures x in r <==> x in s || x == e
    {
      assert x in r <==> x in multiset(r);
    }
    forall i, j | 0 <= i < j < |r|
      ensures r[i].path != r[j].path
    {
      if r[i].path == r[j].path {
        SamePathSame(s, e, r[i], r[j]);
        TwiceCounts(r, i, j);
        OnceCounts(s, e, r[i]);
      }
    }
  }

  lemma SamePathSame(s: seq<Entry>, e: Entry, a: Entry, b: Entry)
    requires forall x :: x in s ==> x.path != e.path
    requires forall i, j :: 0 <= i < j < |s| ==> s[i].path != s[j].path
    requires (a in s || a == e) && (b in s || b == e) && a.path == b.path
    ensures a == b
  {
    if a in s && b in s {
      var i :| 0 <= i < |s| && s[i] == a;
      var j :| 0 <= j < |s| && s[j] == b;
    }
  }

  lemma TwiceCounts(r: seq<Entry>, i: nat, j: nat)
    requires i < j < |r| && r[i] == r[j]
    ensures multiset(r)[r[i]] >= 2
  {
    assert r == r[..j] + [r[j]] + r[j + 1..];
    assert r[..j][i] == r[i];
    assert r[i] in multiset(r[..j]);
  }

  lemma {:induction false} OnceCounts(s: seq<Entry>, e: Entry, x: Entry)
    requires forall y :: y in s ==> y.path != e.path
    requires forall i, j :: 0 <= i < j < |s| ==> s[i].path != s[j].path
    ensures (multiset(s) + multiset{e})[x] <= 1
  {
    CountsAtMostOne(s, x);
    if x == e {
      assert x !in s;
    }
  }

  lemma {:induction false} CountsAtMostOne(s: seq<Entry>, x: Entry)
    requires forall i, j :: 0 <= i < j < |s| ==> s[i].path != s[j].path
    ensures multiset(s)[x] <= 1
  {
    if s != [] {
      var n := |s| - 1;
      CountsAtMostOne(s[..n], x);
      assert s == s[..n] + [s[n]];
      if s[n] == x {
        assert forall i :: 0 <= i < n ==> s[..n][i].path != x.path;
        assert x !in s[..n];
      }
    }
  }

  /** Of two files the one used longer ago comes first, then the smaller, then the one whose path comes
      first. */
  lemma ListedInOrder(s: seq<Entry>, i: nat, j: nat)
    requires Sorted(s) && i < j < |s|
    ensures s[i].mtime < s[j].mtime || (s[i].mtime == s[j].mtime &&
      (s[i].size < s[j].size || (s[i].size == s[j].size && Precedes(s[i].path, s[j].path))))
  {
    NamesCompare(s[i].path, s[j].path);
    assert Before(s[i], s[j]);
    hide StrLe, Precedes;
  }
}
