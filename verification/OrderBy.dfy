/** `SELECT ... ORDER BY key [DESC] LIMIT n` over keyed rows, ties in any order. */
module OrderBy {
  import opened Types

  datatype Keyed = Keyed(id: Uuid, key: real)

  datatype Dir = Asc | Desc

  predicate Before(d: Dir, x: real, y: real) {
    if d.Asc? then x < y else y < x
  }

  ghost predicate Sorted(d: Dir, s: seq<Keyed>) {
    forall i, j | 0 <= i < j < |s| :: !Before(d, s[j].key, s[i].key)
  }

  ghost predicate NoDup<T>(s: seq<T>) {
    forall i, j | 0 <= i < j < |s| :: s[i] != s[j]
  }

  ghost function Elems<T>(s: seq<T>): set<T> {
    set x | x in s
  }

  function Min(a: nat, b: nat): nat {
    if a <= b then a else b
  }

  /** `out` is a legal answer to "the first `n` of `rows` in direction `d`". */
  ghost predicate IsTop(rows: set<Keyed>, d: Dir, n: nat, out: seq<Keyed>) {
    && Sorted(d, out)
    && NoDup(out)
    && Elems(out) <= rows
    && |out| == Min(n, |rows|)
    && forall x, y | x in rows && x !in out && y in out :: !Before(d, x.key, y.key)
  }

  lemma {:induction false} NoDupSize<T>(s: seq<T>)
    requires NoDup(s)
    ensures |Elems(s)| == |s|
  {
    if s != [] {
      var t := s[..|s| - 1];
      NoDupSize(t);
      assert s[|s| - 1] !in Elems(t);
      assert Elems(s) == Elems(t) + {s[|s| - 1]};
    } else {
      assert Elems(s) == {};
    }
  }

  lemma SubsetSize<T>(a: set<T>, b: set<T>)
    requires a <= b
    ensures |a| <= |b|
    ensures |a| == |b| ==> a == b
  {
    assert b == a + (b - a);
    assert |b| == |a| + |b - a|;
  }

  /** Insertion sort, then the first `n`. */
  method Top(rows: seq<Keyed>, d: Dir, n: nat) returns (out: seq<Keyed>)
    requires NoDup(rows)
    ensures IsTop(Elems(rows), d, n, out)
  {
    var sorted: seq<Keyed> := [];
    for i := 0 to |rows|
      invariant Sorted(d, sorted) && NoDup(sorted)
      invariant forall x :: x in sorted <==> x in rows[..i]
    {
      assert rows[..i + 1] == rows[..i] + [rows[i]];
      assert rows[i] !in rows[..i];
      sorted := Insert(sorted, d, rows[i]);
    }
    assert rows[..|rows|] == rows;
    assert Elems(sorted) == Elems(rows);
    NoDupSize(sorted);
    out := sorted[..Min(n, |sorted|)];
    PrefixIsTop(sorted, d, n);
  }

  /** Puts `e` behind the rows that must precede it. */
  method Insert(s: seq<Keyed>, d: Dir, e: Keyed) returns (t: seq<Keyed>)
    requires Sorted(d, s) && NoDup(s) && e !in s
    ensures Sorted(d, t) && NoDup(t)
    ensures forall x :: x in t <==> x in s || x == e
  {
    var i := 0;
    while i < |s| && !Before(d, e.key, s[i].key)
      invariant 0 <= i <= |s|
      invariant forall j | 0 <= j < i :: !Before(d, e.key, s[j].key)
    {
      i := i + 1;
    }
    t := Inserted(s, i, e);
    InsertedSorted(s, d, e, i);
    InsertedNoDup(s, i, e);
    InsertedMembers(s, i, e);
  }

  function Inserted(s: seq<Keyed>, i: nat, e: Keyed): (t: seq<Keyed>)
    requires i <= |s|
    ensures |t| == |s| + 1
    ensures forall j | 0 <= j < |t| :: t[j] == if j < i then s[j] else if j == i then e else s[j - 1]
  {
    s[..i] + [e] + s[i..]
  }

  lemma InsertedSorted(s: seq<Keyed>, d: Dir, e: Keyed, i: nat)
    requires Sorted(d, s) && i <= |s|
    requires forall j | 0 <= j < i :: !Before(d, e.key, s[j].key)
    requires i < |s| ==> Before(d, e.key, s[i].key)
    ensures Sorted(d, Inserted(s, i, e))
  {
    forall j | i <= j < |s| ensures !Before(d, s[j].key, e.key) {
      assert i == j || !Before(d, s[j].key, s[i].key);
    }
  }

  lemma InsertedNoDup(s: seq<Keyed>, i: nat, e: Keyed)
    requires NoDup(s) && e !in s && i <= |s|
    ensures NoDup(Inserted(s, i, e))
  {
    var t := Inserted(s, i, e);
    forall j, k | 0 <= j < k < |t| ensures t[j] != t[k] {
      if j != i && k != i {
        assert t[j] == s[if j < i then j else j - 1] && t[k] == s[if k < i then k else k - 1];
      }
    }
  }

  lemma InsertedMembers(s: seq<Keyed>, i: nat, e: Keyed)
    requires i <= |s|
    ensures forall x :: x in Inserted(s, i, e) <==> x in s || x == e
  {
    assert s == s[..i] + s[i..];
  }

  /** A prefix of a sorted duplicate-free list answers the query over its rows. */
  lemma PrefixIsTop(s: seq<Keyed>, d: Dir, n: nat)
    requires Sorted(d, s) && NoDup(s)
    ensures IsTop(Elems(s), d, n, s[..Min(n, |s|)])
  {
    NoDupSize(s);
    var m := Min(n, |s|);
    var out := s[..m];
    forall x, y | x in Elems(s) && x !in out && y in out
      ensures !Before(d, x.key, y.key)
    {
      var i :| 0 <= i < |s| && s[i] == x;
      var j :| 0 <= j < |out| && out[j] == y;
      assert forall k | 0 <= k < m :: s[k] in out by {
        assert forall k | 0 <= k < m :: out[k] == s[k];
      }
      assert i >= m;
    }
  }

  /** Fetching one row too many tells whether there are more, and truncating it gives the page. */
  lemma TruncatedFetch(rows: set<Keyed>, d: Dir, n: nat, fetched: seq<Keyed>)
    requires IsTop(rows, d, n + 1, fetched)
    ensures IsTop(rows, d, n, fetched[..Min(n, |fetched|)])
    ensures n < |fetched| <==> n < |rows|
  {
    var m := Min(n, |fetched|);
    var page := fetched[..m];
    forall x, y | x in rows && x !in page && y in page
      ensures !Before(d, x.key, y.key)
    {
      var j :| 0 <= j < |page| && page[j] == y;
      assert fetched[j] == y;
      if x in fetched {
        var i :| 0 <= i < |fetched| && fetched[i] == x;
        assert forall k | 0 <= k < m :: fetched[k] in page by {
          assert forall k | 0 <= k < m :: page[k] == fetched[k];
        }
        assert i >= m;
      }
    }
  }

  /** The first `m`, and then the first `n` of what they leave, are the first `m + n`. */
  lemma TopThenTop(rows: set<Keyed>, d: Dir, m: nat, n: nat, p: seq<Keyed>, q: seq<Keyed>)
    requires IsTop(rows, d, m, p) && IsTop(rows - Elems(p), d, n, q)
    ensures IsTop(rows, d, m + n, p + q)
  {
    var out := p + q;
    NoDupSize(p);
    assert |rows - Elems(p)| == |rows| - |p|;
    forall j | 0 <= j < |q| ensures q[j] in rows && q[j] !in p {
      assert q[j] in Elems(q);
    }
    forall i, j | 0 <= i < j < |out| ensures !Before(d, out[j].key, out[i].key) && out[i] != out[j] {
      if i < |p| <= j {
        assert out[i] in p && out[j] == q[j - |p|];
      }
    }
    forall x, y | x in rows && x !in out && y in out ensures !Before(d, x.key, y.key) {
      assert x !in p && x !in q && (y in p || y in q);
    }
  }

  // ---------------------------------------------------------------- distinct keys, reversal

  ghost predicate DistinctKeys(rows: set<Keyed>) {
    forall x, y | x in rows && y in rows && x.key == y.key :: x == y
  }

  /** With distinct keys a query has one answer. */
  lemma {:induction false} TopUnique(rows: set<Keyed>, d: Dir, n: nat, p: seq<Keyed>, q: seq<Keyed>)
    requires DistinctKeys(rows) && IsTop(rows, d, n, p) && IsTop(rows, d, n, q)
    ensures p == q
  {
    var m := |p|;
    if m > 0 {
      AgreeUpTo(rows, d, n, p, q, m);
    }
  }

  lemma {:induction false} AgreeUpTo(rows: set<Keyed>, d: Dir, n: nat, p: seq<Keyed>, q: seq<Keyed>, m: nat)
    requires DistinctKeys(rows) && IsTop(rows, d, n, p) && IsTop(rows, d, n, q) && m <= |p|
    ensures p[..m] == q[..m]
  {
    if m > 0 {
      AgreeUpTo(rows, d, n, p, q, m - 1);
      NotBeforeOther(rows, d, n, p, q, m - 1);
      NotBeforeOther(rows, d, n, q, p, m - 1);
      assert p[m - 1] in p && q[m - 1] in q;
      assert p[..m] == p[..m - 1] + [p[m - 1]] && q[..m] == q[..m - 1] + [q[m - 1]];
    }
  }

  lemma FoundLater(p: seq<Keyed>, q: seq<Keyed>, m: nat, i: nat)
    requires NoDup(p) && m < |p| && m <= |q| && p[..m] == q[..m] && i < |q| && q[i] == p[m]
    ensures m <= i
  {
    forall k | 0 <= k < m ensures q[k] == p[k] && p[k] != p[m] {
      assert q[k] == q[..m][k] == p[..m][k];
    }
  }

  lemma NotBeforeOther(rows: set<Keyed>, d: Dir, n: nat, p: seq<Keyed>, q: seq<Keyed>, m: nat)
    requires IsTop(rows, d, n, p) && IsTop(rows, d, n, q) && m < |p| && p[..m] == q[..m]
    ensures !Before(d, p[m].key, q[m].key)
  {
    var x, y := p[m], q[m];
    assert x in p && y in q;
    if x in q {
      var i :| 0 <= i < |q| && q[i] == x;
      FoundLater(p, q, m, i);
      assert i == m || !Before(d, q[i].key, q[m].key);
    }
  }

  function Reverse<T>(s: seq<T>): (r: seq<T>)
    ensures |r| == |s| && forall i | 0 <= i < |s| :: r[i] == s[|s| - 1 - i]
  {
    if s == [] then [] else Reverse(s[1..]) + [s[0]]
  }

  lemma ReverseMembers<T>(s: seq<T>)
    ensures Elems(Reverse(s)) == Elems(s)
  {
    forall x ensures x in Reverse(s) <==> x in s {
      if x in s {
        var i :| 0 <= i < |s| && s[i] == x;
        assert Reverse(s)[|s| - 1 - i] == x;
      }
    }
  }

  function Flip(d: Dir): Dir {
    if d.Asc? then Desc else Asc
  }

  lemma ReverseSorted(d: Dir, s: seq<Keyed>)
    requires Sorted(d, s) && NoDup(s)
    ensures Sorted(Flip(d), Reverse(s)) && NoDup(Reverse(s)) && Elems(Reverse(s)) == Elems(s)
  {
    ReverseMembers(s);
  }

  /** A legal answer exists for every query. */
  lemma {:induction false} TopExists(rows: set<Keyed>, d: Dir, n: nat) returns (out: seq<Keyed>)
    ensures IsTop(rows, d, n, out)
  {
    var s := SortedListing(rows, d);
    PrefixIsTop(s, d, n);
    out := s[..Min(n, |s|)];
  }

  lemma {:induction false} SortedListing(rows: set<Keyed>, d: Dir) returns (s: seq<Keyed>)
    ensures Sorted(d, s) && NoDup(s) && Elems(s) == rows
    decreases |rows|
  {
    if rows == {} {
      s := [];
    } else {
      var m := Earliest(rows, d);
      var t := SortedListing(rows - {m}, d);
      s := [m] + t;
      forall i, j | 0 <= i < j < |s| ensures !Before(d, s[j].key, s[i].key) && s[i] != s[j] {
        assert s[j] in Elems(t);
      }
      assert Elems(s) == {m} + Elems(t);
    }
  }

  lemma {:induction false} Earliest(rows: set<Keyed>, d: Dir) returns (m: Keyed)
    requires rows != {}
    ensures m in rows && forall x | x in rows :: !Before(d, x.key, m.key)
    decreases |rows|
  {
    var a :| a in rows;
    m := a;
    if rows != {a} {
      var b := Earliest(rows - {a}, d);
      m := if Before(d, b.key, a.key) then b else a;
    }
  }
}
