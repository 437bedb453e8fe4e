/**
 * The pagination algorithm of the GraphQL Cursor Connections Specification, sections 4.4 and 5,
 * over the whole list of edges, and when a page of the resolver is its answer.
 */
module Relay {
  import opened Types
  import opened OrderBy
  import opened Paging

  /** The position of the edge with this cursor, if there is one. */
  function Find(edges: seq<Keyed>, cursor: real): (r: Option<nat>)
    ensures r.Some? ==> r.value < |edges| && edges[r.value].key == cursor
    ensures r.None? ==> forall i | 0 <= i < |edges| :: edges[i].key != cursor
  {
    if edges == [] then None
    else if edges[0].key == cursor then Some(0)
    else
      var r := Find(edges[1..], cursor);
      if r.Some? then Some(r.value + 1)
      else
        assert forall i | 0 <= i < |edges| :: i == 0 || edges[i] == edges[1..][i - 1];
        None
  }

  function AfterEdge(edges: seq<Keyed>, after: Option<real>): seq<Keyed> {
    if after.None? then edges
    else
      var i := Find(edges, after.value);
      if i.None? then edges else edges[i.value + 1..]
  }

  function BeforeEdge(edges: seq<Keyed>, before: Option<real>): seq<Keyed> {
    if before.None? then edges
    else
      var j := Find(edges, before.value);
      if j.None? then edges else edges[..j.value]
  }

  /** ApplyCursorsToEdges. */
  function ApplyCursors(all: seq<Keyed>, after: Option<real>, before: Option<real>): seq<Keyed> {
    BeforeEdge(AfterEdge(all, after), before)
  }

  /** EdgesToReturn, for a request that names one of `first` and `last`. */
  function EdgesToReturn(all: seq<Keyed>, after: Option<real>, before: Option<real>, d: Dir, n: nat): seq<Keyed> {
    var edges := ApplyCursors(all, after, before);
    if d.Asc? then (if n < |edges| then edges[..n] else edges)
    else if n < |edges| then edges[|edges| - n..] else edges
  }

  /** HasNextPage for `first`, HasPreviousPage for `last`. */
  predicate HasMore(all: seq<Keyed>, after: Option<real>, before: Option<real>, n: nat) {
    n < |ApplyCursors(all, after, before)|
  }

  // ---------------------------------------------------------------- the list

  /** `all` lists `rows` in the edge order, and `rows` lie strictly inside the default bounds. */
  ghost predicate ListsInOrder(all: seq<Keyed>, rows: set<Keyed>, lo: real, hi: real) {
    && Sorted(Asc, all) && NoDup(all) && Elems(all) == rows && DistinctKeys(rows)
    && forall x | x in rows :: lo < x.key < hi
  }

  predicate Names(all: seq<Keyed>, cursor: Option<real>) {
    cursor.None? || Find(all, cursor.value).Some?
  }

  function Or(c: Option<real>, default: real): real {
    if c.Some? then c.value else default
  }

  ghost predicate Strict(all: seq<Keyed>) {
    forall i, j | 0 <= i < j < |all| :: all[i].key < all[j].key
  }

  lemma StrictlySorted(all: seq<Keyed>)
    requires Sorted(Asc, all) && NoDup(all) && DistinctKeys(Elems(all))
    ensures Strict(all)
  {
    forall i, j | 0 <= i < j < |all| ensures all[i].key < all[j].key {
      assert all[i] in Elems(all) && all[j] in Elems(all);
    }
  }

  /** The position after the `after` edge. */
  function From(all: seq<Keyed>, after: Option<real>): (i: nat)
    requires Names(all, after)
    ensures i <= |all|
  {
    if after.Some? then Find(all, after.value).value + 1 else 0
  }

  /** The position of the `before` edge. */
  function Upto(all: seq<Keyed>, before: Option<real>): (j: nat)
    requires Names(all, before)
    ensures j <= |all|
  {
    if before.Some? then Find(all, before.value).value else |all|
  }

  /** Whether `after` lies before `before`, as far as both are given. */
  predicate InOrder(after: Option<real>, before: Option<real>) {
    after.Some? && before.Some? ==> after.value < before.value
  }

  lemma FindIs(edges: seq<Keyed>, i: nat)
    requires i < |edges| && forall k, l | 0 <= k < l < |edges| :: edges[k].key < edges[l].key
    ensures Find(edges, edges[i].key) == Some(i)
  {
    var r := Find(edges, edges[i].key);
    assert forall k | 0 <= k < |edges| && k != i :: edges[k].key != edges[i].key;
  }

  /** A listed row lies in the resolver's interval exactly if its position lies between the cursors'. */
  lemma InsideBetween(all: seq<Keyed>, lo: real, hi: real, after: Option<real>, before: Option<real>, k: nat)
    requires Strict(all) && Names(all, after) && Names(all, before) && k < |all| && lo < all[k].key < hi
    ensures Or(after, lo) < all[k].key < Or(before, hi) <==> From(all, after) <= k < Upto(all, before)
  {
  }

  lemma SliceMember(all: seq<Keyed>, i: nat, j: nat, k: nat)
    requires NoDup(all) && i <= j <= |all| && k < |all|
    ensures all[k] in all[i..j] <==> i <= k < j
  {
    if i <= k < j {
      assert all[i..j][k - i] == all[k];
    }
    if all[k] in all[i..j] {
      var l :| 0 <= l < |all[i..j]| && all[i..j][l] == all[k];
      assert l + i == k;
    }
  }

  /** The resolver's interval is a slice of the list. */
  lemma IntervalIsSlice(all: seq<Keyed>, rows: set<Keyed>, lo: real, hi: real, after: Option<real>,
                        before: Option<real>)
    requires Strict(all) && Elems(all) == rows && (forall x | x in rows :: lo < x.key < hi)
    requires Names(all, after) && Names(all, before)
    ensures var i, j := From(all, after), Upto(all, before);
            Interval(rows, Some(Or(after, lo)), Some(Or(before, hi))) == if i <= j then Elems(all[i..j]) else {}
  {
    var i, j := From(all, after), Upto(all, before);
    var slice := if i <= j then all[i..j] else [];
    forall x | x in rows ensures Or(after, lo) < x.key < Or(before, hi) <==> x in slice {
      var k :| 0 <= k < |all| && all[k] == x;
      InsideBetween(all, lo, hi, after, before, k);
      if i <= j {
        SliceMember(all, i, j, k);
      }
    }
    if i <= j {
      SliceInside(all, i, j);
    }
  }

  lemma SliceInside(all: seq<Keyed>, i: nat, j: nat)
    requires i <= j <= |all|
    ensures forall x | x in all[i..j] :: x in Elems(all)
  {
    forall x | x in all[i..j] ensures x in Elems(all) {
      var k :| 0 <= k < |all[i..j]| && all[i..j][k] == x;
      assert all[i + k] in Elems(all);
    }
  }

  lemma NotFoundBehind(all: seq<Keyed>, i: nat, key: real)
    requires Strict(all) && Find(all, key).Some? && Find(all, key).value < i <= |all|
    ensures Find(all[i..], key).None?
  {
    assert forall k | 0 <= k < |all[i..]| :: all[i..][k] == all[i + k] && all[i + k].key != key;
  }

  lemma BeforeIsSlice(all: seq<Keyed>, i: nat, before: Option<real>)
    requires Strict(all) && Names(all, before) && i <= |all|
    ensures i <= Upto(all, before) ==> BeforeEdge(all[i..], before) == all[i..Upto(all, before)]
    ensures Upto(all, before) < i ==> BeforeEdge(all[i..], before) == all[i..]
  {
    var j, rest := Upto(all, before), all[i..];
    if before.Some? {
      if i <= j {
        assert rest[j - i] == all[j];
        FindIs(rest, j - i);
        assert rest[..j - i] == all[i..j];
      } else {
        NotFoundBehind(all, i, before.value);
      }
    }
  }

  /** Cursors are in order if and only if their positions are. */
  lemma OrderOfPositions(all: seq<Keyed>, after: Option<real>, before: Option<real>)
    requires Strict(all) && Names(all, after) && Names(all, before)
    ensures InOrder(after, before) <==> From(all, after) <= Upto(all, before)
  {
  }

  /** With cursors in order, the specification's edges are the same slice. */
  lemma ApplyIsSlice(all: seq<Keyed>, after: Option<real>, before: Option<real>)
    requires Strict(all) && Names(all, after) && Names(all, before)
    ensures InOrder(after, before) <==> From(all, after) <= Upto(all, before)
    ensures ApplyCursors(all, after, before)
            == if InOrder(after, before) then all[From(all, after)..Upto(all, before)] else all[From(all, after)..]
  {
    OrderOfPositions(all, after, before);
    BeforeIsSlice(all, From(all, after), before);
    assert AfterEdge(all, after) == all[From(all, after)..];
  }

  /** A sorted list cut to `n` from either end. */
  function Cut(s: seq<Keyed>, d: Dir, n: nat): seq<Keyed> {
    if |s| <= n then s else if d.Asc? then s[..n] else s[|s| - n..]
  }

  lemma {:induction false} ReverseCut(s: seq<Keyed>, n: nat)
    ensures Reverse(Cut(s, Desc, n)) == Reverse(s)[..Min(n, |s|)]
  {
    var t := Cut(s, Desc, n);
    forall i | 0 <= i < |t| ensures Reverse(t)[i] == Reverse(s)[i] {
      assert t[|t| - 1 - i] == s[|s| - 1 - i];
    }
  }

  /** Cutting a sorted list answers the query for the first `n` in that direction. */
  lemma SliceTop(s: seq<Keyed>, d: Dir, n: nat)
    requires Sorted(Asc, s) && NoDup(s)
    ensures IsTop(Elems(s), d, n, if d.Asc? then Cut(s, d, n) else Reverse(Cut(s, d, n)))
  {
    if d.Asc? {
      PrefixIsTop(s, Asc, n);
      assert Cut(s, d, n) == s[..Min(n, |s|)];
    } else {
      ReverseSorted(Asc, s);
      PrefixIsTop(Reverse(s), Desc, n);
      ReverseCut(s, n);
    }
  }

  lemma EmptyPage(d: Dir, n: nat, c: Connection)
    requires IsConnection({}, d, n, c)
    ensures c.edges == [] && !c.hasNextPage && !c.hasPreviousPage
  {
    if d.Desc? {
      assert |Reverse(c.edges)| == 0;
    }
  }

  /** A page of the rows of a sorted slice, and its flag, are the slice cut to size. */
  lemma PageOfSlice(s: seq<Keyed>, d: Dir, n: nat, c: Connection)
    requires Sorted(Asc, s) && NoDup(s) && DistinctKeys(Elems(s)) && IsConnection(Elems(s), d, n, c)
    ensures c.edges == Cut(s, d, n)
    ensures (if d.Asc? then c.hasNextPage else c.hasPreviousPage) <==> n < |s|
  {
    SliceTop(s, d, n);
    NoDupSize(s);
    var edges := Cut(s, d, n);
    if d.Asc? {
      TopUnique(Elems(s), d, n, c.edges, edges);
    } else {
      TopUnique(Elems(s), d, n, Reverse(c.edges), Reverse(edges));
      ReverseTwice(c.edges);
      ReverseTwice(edges);
    }
  }

  /** The page and its active flag are the specification's answer over the whole list. */
  predicate IsSpec(all: seq<Keyed>, after: Option<real>, before: Option<real>, d: Dir, n: nat, c: Connection) {
    && c.edges == EdgesToReturn(all, after, before, d, n)
    && ((if d.Asc? then c.hasNextPage else c.hasPreviousPage) <==> HasMore(all, after, before, n))
  }

  /** With cursors in order the resolver's interval holds exactly the specification's edges. */
  lemma IntervalIsApplied(all: seq<Keyed>, rows: set<Keyed>, lo: real, hi: real, after: Option<real>,
                          before: Option<real>)
    requires ListsInOrder(all, rows, lo, hi) && Names(all, after) && Names(all, before) && InOrder(after, before)
    ensures Interval(rows, Some(Or(after, lo)), Some(Or(before, hi))) == Elems(ApplyCursors(all, after, before))
  {
    StrictlySorted(all);
    IntervalIsSlice(all, rows, lo, hi, after, before);
    ApplyIsSlice(all, after, before);
  }

  lemma AppliedIsSorted(all: seq<Keyed>, after: Option<real>, before: Option<real>)
    requires Strict(all) && Names(all, after) && Names(all, before)
    ensures Strict(ApplyCursors(all, after, before))
  {
    ApplyIsSlice(all, after, before);
  }

  lemma StrictIsDistinct(s: seq<Keyed>)
    requires Strict(s)
    ensures Sorted(Asc, s) && NoDup(s) && DistinctKeys(Elems(s))
  {
  }

  lemma PageOfStrict(s: seq<Keyed>, d: Dir, n: nat, c: Connection)
    requires Strict(s) && IsConnection(Elems(s), d, n, c)
    ensures c.edges == Cut(s, d, n)
    ensures (if d.Asc? then c.hasNextPage else c.hasPreviousPage) <==> n < |s|
  {
    StrictIsDistinct(s);
    PageOfSlice(s, d, n, c);
  }

  lemma PageOfApplied(all: seq<Keyed>, inside: set<Keyed>, after: Option<real>, before: Option<real>, d: Dir, n: nat,
                      c: Connection)
    requires Strict(ApplyCursors(all, after, before)) && inside == Elems(ApplyCursors(all, after, before))
    requires IsConnection(inside, d, n, c)
    ensures IsSpec(all, after, before, d, n, c)
  {
    PageOfStrict(ApplyCursors(all, after, before), d, n, c);
  }

  lemma PageInOrder(all: seq<Keyed>, rows: set<Keyed>, lo: real, hi: real,
                    after: Option<real>, before: Option<real>, d: Dir, n: nat, c: Connection)
    requires ListsInOrder(all, rows, lo, hi) && Names(all, after) && Names(all, before) && InOrder(after, before)
    requires IsConnection(Interval(rows, Some(Or(after, lo)), Some(Or(before, hi))), d, n, c)
    ensures IsSpec(all, after, before, d, n, c)
  {
    var inside := Interval(rows, Some(Or(after, lo)), Some(Or(before, hi)));
    assert inside == Elems(ApplyCursors(all, after, before)) by {
      IntervalIsApplied(all, rows, lo, hi, after, before);
    }
    assert Strict(ApplyCursors(all, after, before)) by {
      StrictlySorted(all);
      AppliedIsSorted(all, after, before);
    }
    PageOfApplied(all, inside, after, before, d, n, c);
  }

  lemma PageCrossed(all: seq<Keyed>, rows: set<Keyed>, lo: real, hi: real,
                    after: Option<real>, before: Option<real>, d: Dir, n: nat, c: Connection)
    requires ListsInOrder(all, rows, lo, hi) && Names(all, after) && Names(all, before) && !InOrder(after, before)
    requires IsConnection(Interval(rows, Some(Or(after, lo)), Some(Or(before, hi))), d, n, c)
    ensures IsSpec(all, after, before, d, n, c) <==> From(all, after) == |all|
  {
    StrictlySorted(all);
    IntervalIsSlice(all, rows, lo, hi, after, before);
    ApplyIsSlice(all, after, before);
    EmptyPage(d, n, c);
  }

  /**
   * For distinct keys and cursors that are absent or name edges, a page is the specification's
   * exactly if the cursors are in order or nothing follows the `after` edge.
   */
  lemma PageIsSpecExactly(all: seq<Keyed>, rows: set<Keyed>, lo: real, hi: real,
                          after: Option<real>, before: Option<real>, d: Dir, n: nat, c: Connection)
    requires ListsInOrder(all, rows, lo, hi) && Names(all, after) && Names(all, before)
    requires IsConnection(Interval(rows, Some(Or(after, lo)), Some(Or(before, hi))), d, n, c)
    ensures IsSpec(all, after, before, d, n, c) <==> InOrder(after, before) || From(all, after) == |all|
  {
    if InOrder(after, before) {
      PageInOrder(all, rows, lo, hi, after, before, d, n, c);
    } else {
      PageCrossed(all, rows, lo, hi, after, before, d, n, c);
    }
  }
}
