/** A client chasing cursors through all pages, in either direction, with any page sizes. */
module Traversal {
  import opened Types
  import opened OrderBy
  import opened Paging

  /** The key whose cursor the client sends next: of the last row fetched in direction `d`. */
  function EndKey(page: seq<Keyed>): real
    requires page != []
  {
    page[|page| - 1].key
  }

  /** The bounds of the next request: `after` moves when paging forward, `before` when paging backward. */
  function Beyond(d: Dir, lo: real, hi: real, key: real): (real, real) {
    if d.Asc? then (key, hi) else (lo, key)
  }

  ghost function Rows(rows: set<Keyed>, lo: real, hi: real): set<Keyed> {
    Interval(rows, Some(lo), Some(hi))
  }

  /**
   * The pages of a chase in the order in which they are requested, each in fetched order: every
   * page but the last said that there were more, the last did not. Each request may break ties
   * in its own way.
   */
  ghost predicate Chase(rows: set<Keyed>, d: Dir, lo: real, hi: real, sizes: seq<nat>, pages: seq<seq<Keyed>>)
    decreases |pages|
  {
    && |pages| > 0 && |sizes| == |pages| && sizes[0] > 0
    && IsPage(Rows(rows, lo, hi), d, sizes[0], pages[0], |pages| > 1)
    && (|pages| > 1 ==>
          pages[0] != [] &&
          var (lo', hi') := Beyond(d, lo, hi, EndKey(pages[0]));
          Chase(rows, d, lo', hi', sizes[1..], pages[1..]))
  }

  function Flatten(pages: seq<seq<Keyed>>): seq<Keyed> {
    if pages == [] then [] else pages[0] + Flatten(pages[1..])
  }

  /** `x` has the end key of a page that was not the last, and did not fit on it. */
  ghost predicate Skipped(pages: seq<seq<Keyed>>, x: Keyed) {
    exists k :: SkippedAt(pages, k, x)
  }

  ghost predicate SkippedAt(pages: seq<seq<Keyed>>, k: int, x: Keyed) {
    0 <= k < |pages| - 1 && pages[k] != [] && EndKey(pages[k]) == x.key && x !in pages[k]
  }

  // ---------------------------------------------------------------- one page

  /** What lies beyond a page's end key is what no longer ties with it or precedes it. */
  lemma NextRows(rows: set<Keyed>, d: Dir, lo: real, hi: real, page: seq<Keyed>)
    requires page != [] && Elems(page) <= Rows(rows, lo, hi)
    ensures var (lo', hi') := Beyond(d, lo, hi, EndKey(page));
            Rows(rows, lo', hi') == set x | x in Rows(rows, lo, hi) && Before(d, EndKey(page), x.key)
  {
    assert page[|page| - 1] in Elems(page);
  }

  /** The rows of a page end at its end key; rows before that key are all on the page. */
  lemma PageBounds(rows: set<Keyed>, d: Dir, n: nat, page: seq<Keyed>, x: Keyed)
    requires IsTop(rows, d, n, page) && page != [] && x in rows
    ensures x in page ==> !Before(d, EndKey(page), x.key)
    ensures x !in page ==> !Before(d, x.key, EndKey(page))
  {
    assert page[|page| - 1] in page;
    if x in page {
      var i :| 0 <= i < |page| && page[i] == x;
      assert i == |page| - 1 || !Before(d, page[|page| - 1].key, page[i].key);
    }
  }

  /** A page without more holds all rows. */
  lemma LastPageComplete(rows: set<Keyed>, d: Dir, n: nat, page: seq<Keyed>)
    requires IsPage(rows, d, n, page, false)
    ensures Elems(page) == rows
  {
    NoDupSize(page);
    SubsetSize(Elems(page), rows);
  }

  // ---------------------------------------------------------------- all pages

  lemma {:induction false} VisitsOnlyRows(rows: set<Keyed>, d: Dir, lo: real, hi: real, sizes: seq<nat>,
                                          pages: seq<seq<Keyed>>)
    requires Chase(rows, d, lo, hi, sizes, pages)
    ensures forall x | x in Flatten(pages) :: x in Rows(rows, lo, hi)
    decreases |pages|
  {
    forall x | x in pages[0] ensures x in Rows(rows, lo, hi) { assert x in Elems(pages[0]); }
    if |pages| > 1 {
      var (lo', hi') := Beyond(d, lo, hi, EndKey(pages[0]));
      VisitsOnlyRows(rows, d, lo', hi', sizes[1..], pages[1..]);
      NextRows(rows, d, lo, hi, pages[0]);
    } else {
      assert Flatten(pages[1..]) == [];
    }
  }

  lemma AppendSorted(d: Dir, p: seq<Keyed>, q: seq<Keyed>)
    requires Sorted(d, p) && NoDup(p) && Sorted(d, q) && NoDup(q)
    requires forall x, y | x in p && y in q :: Before(d, x.key, y.key)
    ensures Sorted(d, p + q) && NoDup(p + q)
  {
    var s := p + q;
    forall i, j | 0 <= i < j < |s| ensures !Before(d, s[j].key, s[i].key) && s[i] != s[j] {
      if i < |p| <= j {
        assert s[i] in p && s[j] in q;
      }
    }
  }

  /** A chase visits rows in order and no row twice. */
  lemma {:induction false} VisitsInOrder(rows: set<Keyed>, d: Dir, lo: real, hi: real, sizes: seq<nat>,
                                         pages: seq<seq<Keyed>>)
    requires Chase(rows, d, lo, hi, sizes, pages)
    ensures Sorted(d, Flatten(pages)) && NoDup(Flatten(pages))
    decreases |pages|
  {
    if |pages| > 1 {
      var page, rest := pages[0], Flatten(pages[1..]);
      var (lo', hi') := Beyond(d, lo, hi, EndKey(page));
      VisitsInOrder(rows, d, lo', hi', sizes[1..], pages[1..]);
      VisitsOnlyRows(rows, d, lo', hi', sizes[1..], pages[1..]);
      NextRows(rows, d, lo, hi, page);
      forall x, y | x in page && y in rest ensures Before(d, x.key, y.key) {
        assert x in Elems(page);
        PageBounds(Rows(rows, lo, hi), d, sizes[0], page, x);
      }
      AppendSorted(d, page, rest);
    } else {
      assert Flatten(pages[1..]) == [];
      assert Flatten(pages) == pages[0];
    }
  }

  lemma SkippedTail(pages: seq<seq<Keyed>>, x: Keyed)
    requires |pages| > 1
    ensures Skipped(pages, x) <==> SkippedAt(pages, 0, x) || Skipped(pages[1..], x)
  {
    if Skipped(pages, x) {
      var k :| SkippedAt(pages, k, x);
      assert k == 0 || SkippedAt(pages[1..], k - 1, x);
    }
    if Skipped(pages[1..], x) {
      var k :| SkippedAt(pages[1..], k, x);
      assert SkippedAt(pages, k + 1, x);
    }
  }

  lemma {:induction false} SkippedLiesBeyond(rows: set<Keyed>, d: Dir, lo: real, hi: real, sizes: seq<nat>,
                                             pages: seq<seq<Keyed>>, x: Keyed)
    requires Chase(rows, d, lo, hi, sizes, pages) && Skipped(pages, x)
    ensures lo < x.key < hi
  {
    var k :| SkippedAt(pages, k, x);
    var e := pages[k][|pages[k]| - 1];
    InFlatten(pages, k, e);
    VisitsOnlyRows(rows, d, lo, hi, sizes, pages);
  }

  lemma {:induction false} InFlatten(pages: seq<seq<Keyed>>, k: nat, x: Keyed)
    requires k < |pages| && x in pages[k]
    ensures x in Flatten(pages)
  {
    if k > 0 {
      InFlatten(pages[1..], k - 1, x);
    }
  }

  /**
   * The effect of ties: a chase misses a row exactly if the row has the end key of some page
   * that was not the last and is not on that page.
   */
  lemma {:induction false} MissesExactlyTies(rows: set<Keyed>, d: Dir, lo: real, hi: real, sizes: seq<nat>,
                                             pages: seq<seq<Keyed>>, x: Keyed)
    requires Chase(rows, d, lo, hi, sizes, pages) && x in Rows(rows, lo, hi)
    ensures x !in Flatten(pages) <==> Skipped(pages, x)
    decreases |pages|
  {
    var page := pages[0];
    if |pages| == 1 {
      LastPageComplete(Rows(rows, lo, hi), d, sizes[0], page);
      assert x in Elems(page);
    } else {
      var (lo', hi') := Beyond(d, lo, hi, EndKey(page));
      NextRows(rows, d, lo, hi, page);
      PageBounds(Rows(rows, lo, hi), d, sizes[0], page, x);
      SkippedTail(pages, x);
      if x in Rows(rows, lo', hi') {
        MissesExactlyTies(rows, d, lo', hi', sizes[1..], pages[1..], x);
      } else {
        VisitsOnlyRows(rows, d, lo', hi', sizes[1..], pages[1..]);
        if Skipped(pages[1..], x) {
          SkippedLiesBeyond(rows, d, lo', hi', sizes[1..], pages[1..], x);
        }
      }
    }
  }

  // ---------------------------------------------------------------- termination

  lemma PageTakes(rows: set<Keyed>, d: Dir, lo: real, hi: real, n: nat, page: seq<Keyed>)
    requires n > 0 && IsPage(Rows(rows, lo, hi), d, n, page, true)
    ensures page != []
    ensures var (lo', hi') := Beyond(d, lo, hi, EndKey(page));
            |Rows(rows, lo', hi')| + n <= |Rows(rows, lo, hi)|
  {
    var all := Rows(rows, lo, hi);
    var (lo', hi') := Beyond(d, lo, hi, EndKey(page));
    NextRows(rows, d, lo, hi, page);
    forall x | x in page ensures x !in Rows(rows, lo', hi') {
      assert x in Elems(page);
      PageBounds(all, d, n, page, x);
    }
    NoDupSize(page);
    SubsetSize(Rows(rows, lo', hi'), all - Elems(page));
  }

  /** A chase under way: every page so far said that there were more. */
  ghost predicate UnderWay(rows: set<Keyed>, d: Dir, lo: real, hi: real, sizes: seq<nat>, pages: seq<seq<Keyed>>)
    decreases |pages|
  {
    |sizes| == |pages| &&
    (pages != [] ==>
      && sizes[0] > 0 && IsPage(Rows(rows, lo, hi), d, sizes[0], pages[0], true)
      && pages[0] != []
      && var (lo', hi') := Beyond(d, lo, hi, EndKey(pages[0]));
         UnderWay(rows, d, lo', hi', sizes[1..], pages[1..]))
  }

  /** The rows that the requested page sizes add up to. */
  function Sum(sizes: seq<nat>): nat {
    if sizes == [] then 0 else sizes[0] + Sum(sizes[1..])
  }

  /** No chase goes on for ever: the sizes of the pages so far add up to less than the rows there are. */
  lemma {:induction false} ChaseEnds(rows: set<Keyed>, d: Dir, lo: real, hi: real, sizes: seq<nat>,
                                     pages: seq<seq<Keyed>>)
    requires UnderWay(rows, d, lo, hi, sizes, pages) && pages != []
    ensures Sum(sizes) < |Rows(rows, lo, hi)| && |pages| <= Sum(sizes)
    decreases |pages|
  {
    PageTakes(rows, d, lo, hi, sizes[0], pages[0]);
    if |pages| > 1 {
      var (lo', hi') := Beyond(d, lo, hi, EndKey(pages[0]));
      ChaseEnds(rows, d, lo', hi', sizes[1..], pages[1..]);
    } else {
      assert Sum(sizes[1..]) == 0;
    }
  }

  /** For every endless supply of page sizes, some chase goes through; with `ChaseEnds`, all do. */
  lemma {:induction false} ChaseExists(rows: set<Keyed>, d: Dir, lo: real, hi: real, size: nat -> nat, at: nat)
    returns (sizes: seq<nat>, pages: seq<seq<Keyed>>)
    requires forall i :: size(i) > 0
    ensures Chase(rows, d, lo, hi, sizes, pages)
    ensures forall i | 0 <= i < |sizes| :: sizes[i] == size(at + i)
    decreases |Rows(rows, lo, hi)|
  {
    var all, n := Rows(rows, lo, hi), size(at);
    var page := TopExists(all, d, n);
    if |all| <= n {
      sizes, pages := [n], [page];
    } else {
      PageTakes(rows, d, lo, hi, n, page);
      var (lo', hi') := Beyond(d, lo, hi, EndKey(page));
      var sizes', pages' := ChaseExists(rows, d, lo', hi', size, at + 1);
      sizes, pages := [n] + sizes', [page] + pages';
      assert sizes[1..] == sizes' && pages[1..] == pages';
    }
  }

  // ---------------------------------------------------------------- distinct keys

  /** With distinct keys nothing is missed. */
  lemma ChaseIsComplete(rows: set<Keyed>, d: Dir, lo: real, hi: real, sizes: seq<nat>, pages: seq<seq<Keyed>>)
    requires Chase(rows, d, lo, hi, sizes, pages) && DistinctKeys(Rows(rows, lo, hi))
    ensures Elems(Flatten(pages)) == Rows(rows, lo, hi)
  {
    VisitsOnlyRows(rows, d, lo, hi, sizes, pages);
    forall x | x in Rows(rows, lo, hi) ensures x in Flatten(pages) {
      MissesExactlyTies(rows, d, lo, hi, sizes, pages, x);
      forall k ensures !SkippedAt(pages, k, x) {
        if 0 <= k < |pages| - 1 && pages[k] != [] && EndKey(pages[k]) == x.key {
          var e := pages[k][|pages[k]| - 1];
          InFlatten(pages, k, e);
          assert x == e;
        }
      }
    }
  }

  /** Backward pages as the client sees them: each turned round, the last one requested first. */
  function Delivered(pages: seq<seq<Keyed>>): seq<seq<Keyed>> {
    if pages == [] then [] else Delivered(pages[1..]) + [Reverse(pages[0])]
  }

  lemma {:induction false} FlattenAppend(p: seq<seq<Keyed>>, q: seq<Keyed>)
    ensures Flatten(p + [q]) == Flatten(p) + q
  {
    if p == [] {
      assert Flatten([q][1..]) == [];
    } else {
      FlattenAppend(p[1..], q);
      assert (p + [q])[1..] == p[1..] + [q];
    }
  }

  lemma ReverseAppend(p: seq<Keyed>, q: seq<Keyed>)
    ensures Reverse(p + q) == Reverse(q) + Reverse(p)
  {
  }

  lemma {:induction false} DeliveredIsReverse(pages: seq<seq<Keyed>>)
    ensures Flatten(Delivered(pages)) == Reverse(Flatten(pages))
  {
    if pages != [] {
      DeliveredIsReverse(pages[1..]);
      FlattenAppend(Delivered(pages[1..]), Reverse(pages[0]));
      ReverseAppend(pages[0], Flatten(pages[1..]));
    }
  }

  /** A sorted duplicate-free list of everything answers the query for everything. */
  lemma WholeIsTop(s: seq<Keyed>, d: Dir)
    requires Sorted(d, s) && NoDup(s)
    ensures IsTop(Elems(s), d, |s|, s)
  {
    PrefixIsTop(s, d, |s|);
    assert s[..|s|] == s;
  }

  /**
   * With distinct keys, chasing `after` and chasing `before`, each with any page sizes, deliver
   * the same list: all rows in ascending order, each once.
   */
  lemma BothWaysAgree(rows: set<Keyed>, lo: real, hi: real,
                      fsizes: seq<nat>, forward: seq<seq<Keyed>>, bsizes: seq<nat>, backward: seq<seq<Keyed>>)
    requires DistinctKeys(Rows(rows, lo, hi))
    requires Chase(rows, Asc, lo, hi, fsizes, forward) && Chase(rows, Desc, lo, hi, bsizes, backward)
    ensures Flatten(forward) == Flatten(Delivered(backward))
    ensures Sorted(Asc, Flatten(forward)) && NoDup(Flatten(forward)) && Elems(Flatten(forward)) == Rows(rows, lo, hi)
  {
    var f, b := Flatten(forward), Flatten(backward);
    VisitsInOrder(rows, Asc, lo, hi, fsizes, forward);
    VisitsInOrder(rows, Desc, lo, hi, bsizes, backward);
    ChaseIsComplete(rows, Asc, lo, hi, fsizes, forward);
    ChaseIsComplete(rows, Desc, lo, hi, bsizes, backward);
    DeliveredIsReverse(backward);
    ReverseSorted(Desc, b);
    WholeIsTop(f, Asc);
    WholeIsTop(Reverse(b), Asc);
    NoDupSize(f);
    NoDupSize(b);
    TopUnique(Rows(rows, lo, hi), Asc, |f|, f, Reverse(b));
  }

  // ---------------------------------------------------------------- as the client sees it

  /** `hasNextPage` forward, `hasPreviousPage` backward. */
  predicate More(d: Dir, c: Connection) {
    if d.Asc? then c.hasNextPage else c.hasPreviousPage
  }

  /** `endCursor` forward, `startCursor` backward. */
  function NextCursor(d: Dir, c: Connection): real
    requires c.edges != []
  {
    if d.Asc? then c.edges[|c.edges| - 1].key else c.edges[0].key
  }

  /** A client follows cursors from page to page for as long as the flag says that there are more. */
  ghost predicate Follows(rows: set<Keyed>, d: Dir, lo: real, hi: real, sizes: seq<nat>, cs: seq<Connection>)
    decreases |cs|
  {
    && |cs| > 0 && |sizes| == |cs| && sizes[0] > 0
    && IsConnection(Rows(rows, lo, hi), d, sizes[0], cs[0])
    && (More(d, cs[0]) <==> |cs| > 1)
    && (|cs| > 1 ==>
          cs[0].edges != [] &&
          var (lo', hi') := Beyond(d, lo, hi, NextCursor(d, cs[0]));
          Follows(rows, d, lo', hi', sizes[1..], cs[1..]))
  }

  function Pages(d: Dir, cs: seq<Connection>): (pages: seq<seq<Keyed>>)
    ensures |pages| == |cs| && forall i | 0 <= i < |cs| :: pages[i] == Fetched(d, cs[i])
  {
    seq(|cs|, i requires 0 <= i < |cs| => Fetched(d, cs[i]))
  }

  lemma FetchedEnd(d: Dir, c: Connection)
    requires c.edges != []
    ensures Fetched(d, c) != [] && EndKey(Fetched(d, c)) == NextCursor(d, c)
  {
  }

  lemma {:induction false} FollowsIsChase(rows: set<Keyed>, d: Dir, lo: real, hi: real, sizes: seq<nat>,
                                          cs: seq<Connection>)
    requires Follows(rows, d, lo, hi, sizes, cs)
    ensures Chase(rows, d, lo, hi, sizes, Pages(d, cs))
    decreases |cs|
  {
    if |cs| > 1 {
      var (lo', hi') := Beyond(d, lo, hi, NextCursor(d, cs[0]));
      FollowsIsChase(rows, d, lo', hi', sizes[1..], cs[1..]);
      FetchedEnd(d, cs[0]);
      assert Pages(d, cs)[1..] == Pages(d, cs[1..]);
    }
  }

  // ---------------------------------------------------------------- following ends, and can be done

  /** A client under way: every page so far said that there were more. */
  ghost predicate Following(rows: set<Keyed>, d: Dir, lo: real, hi: real, sizes: seq<nat>, cs: seq<Connection>)
    decreases |cs|
  {
    |sizes| == |cs| &&
    (cs != [] ==>
      && sizes[0] > 0 && IsConnection(Rows(rows, lo, hi), d, sizes[0], cs[0])
      && More(d, cs[0]) && cs[0].edges != []
      && var (lo', hi') := Beyond(d, lo, hi, NextCursor(d, cs[0]));
         Following(rows, d, lo', hi', sizes[1..], cs[1..]))
  }

  lemma {:induction false} FollowingIsUnderWay(rows: set<Keyed>, d: Dir, lo: real, hi: real,
                                               sizes: seq<nat>, cs: seq<Connection>)
    requires Following(rows, d, lo, hi, sizes, cs)
    ensures UnderWay(rows, d, lo, hi, sizes, Pages(d, cs))
    decreases |cs|
  {
    if cs != [] {
      var (lo', hi') := Beyond(d, lo, hi, NextCursor(d, cs[0]));
      FollowingIsUnderWay(rows, d, lo', hi', sizes[1..], cs[1..]);
      FetchedEnd(d, cs[0]);
      assert Pages(d, cs)[1..] == Pages(d, cs[1..]);
    }
  }

  /** No client goes on for ever: the sizes of the pages so far add up to less than the cards there are. */
  lemma FollowingEnds(rows: set<Keyed>, d: Dir, lo: real, hi: real, sizes: seq<nat>, cs: seq<Connection>)
    requires Following(rows, d, lo, hi, sizes, cs) && cs != []
    ensures Sum(sizes) < |Rows(rows, lo, hi)| && |cs| <= Sum(sizes)
  {
    FollowingIsUnderWay(rows, d, lo, hi, sizes, cs);
    ChaseEnds(rows, d, lo, hi, sizes, Pages(d, cs));
  }

  /** The connection that shows a fetched page. */
  function Connected(d: Dir, page: seq<Keyed>, more: bool): Connection {
    if d.Asc? then Connection(false, more, page) else Connection(more, false, Reverse(page))
  }

  function Connections(d: Dir, pages: seq<seq<Keyed>>): (cs: seq<Connection>)
    ensures |cs| == |pages| && forall i | 0 <= i < |cs| :: cs[i] == Connected(d, pages[i], i + 1 < |pages|)
  {
    seq(|pages|, i requires 0 <= i < |pages| => Connected(d, pages[i], i + 1 < |pages|))
  }

  lemma ConnectedFetches(d: Dir, page: seq<Keyed>, more: bool)
    ensures Fetched(d, Connected(d, page, more)) == page && More(d, Connected(d, page, more)) == more
  {
    ReverseTwice(page);
  }

  /** Every chase is what some client sees. */
  lemma {:induction false} ChaseIsFollows(rows: set<Keyed>, d: Dir, lo: real, hi: real,
                                          sizes: seq<nat>, pages: seq<seq<Keyed>>)
    requires Chase(rows, d, lo, hi, sizes, pages)
    ensures Follows(rows, d, lo, hi, sizes, Connections(d, pages))
    decreases |pages|
  {
    var cs := Connections(d, pages);
    ConnectedFetches(d, pages[0], |pages| > 1);
    if |pages| > 1 {
      FetchedEnd(d, cs[0]);
      var (lo', hi') := Beyond(d, lo, hi, EndKey(pages[0]));
      ChaseIsFollows(rows, d, lo', hi', sizes[1..], pages[1..]);
      assert cs[1..] == Connections(d, pages[1..]);
    }
  }

  /** For every endless supply of page sizes a client can get to the end; with `FollowingEnds`, every client does. */
  lemma FollowingExists(rows: set<Keyed>, d: Dir, lo: real, hi: real, size: nat -> nat)
    returns (sizes: seq<nat>, cs: seq<Connection>)
    requires forall i :: size(i) > 0
    ensures Follows(rows, d, lo, hi, sizes, cs)
    ensures forall i | 0 <= i < |sizes| :: sizes[i] == size(i)
  {
    var ns, pages := ChaseExists(rows, d, lo, hi, size, 0);
    sizes, cs := ns, Connections(d, pages);
    assert Follows(rows, d, lo, hi, sizes, cs) by {
      ChaseIsFollows(rows, d, lo, hi, ns, pages);
    }
    forall i | 0 <= i < |sizes| ensures sizes[i] == size(i) {
      assert ns[i] == size(0 + i);
    }
  }

  // ---------------------------------------------------------------- what it shows

  lemma FetchedMembers(d: Dir, c: Connection, x: Keyed)
    ensures x in Fetched(d, c) <==> x in c.edges
  {
    if x in c.edges {
      var i :| 0 <= i < |c.edges| && c.edges[i] == x;
      assert d.Desc? ==> Fetched(d, c)[|c.edges| - 1 - i] == x;
    }
  }

  lemma {:induction false} FlattenMembers(pages: seq<seq<Keyed>>, x: Keyed)
    ensures x in Flatten(pages) <==> exists k :: 0 <= k < |pages| && x in pages[k]
  {
    if pages != [] {
      FlattenMembers(pages[1..], x);
      if x in Flatten(pages[1..]) {
        var k :| 0 <= k < |pages[1..]| && x in pages[1..][k];
        assert x in pages[k + 1];
      }
      if k :| 0 <= k < |pages| && x in pages[k] {
        assert k == 0 || x in pages[1..][k - 1];
      }
    }
  }

  predicate ShowsUp(cs: seq<Connection>, x: Keyed) {
    exists k :: 0 <= k < |cs| && x in cs[k].edges
  }

  /** Page `k` is not the last, its next cursor ties with `x`, and `x` is not on it. */
  predicate TiedOut(d: Dir, cs: seq<Connection>, k: int, x: Keyed) {
    0 <= k < |cs| - 1 && cs[k].edges != [] && NextCursor(d, cs[k]) == x.key && x !in cs[k].edges
  }

  /**
   * The effect of ties on a client in either direction: a card never shows up if and only if it
   * ties with the next cursor of some page that is not the last, and is not on that page.
   */
  lemma {:induction false} FollowingMissesExactlyTies(rows: set<Keyed>, d: Dir, lo: real, hi: real, sizes: seq<nat>,
                                                      cs: seq<Connection>, x: Keyed)
    requires Follows(rows, d, lo, hi, sizes, cs) && x in Rows(rows, lo, hi)
    ensures !ShowsUp(cs, x) <==> exists k :: TiedOut(d, cs, k, x)
  {
    var pages := Pages(d, cs);
    FollowsIsChase(rows, d, lo, hi, sizes, cs);
    MissesExactlyTies(rows, d, lo, hi, sizes, pages, x);
    FlattenMembers(pages, x);
    forall k | 0 <= k < |cs| ensures x in pages[k] <==> x in cs[k].edges { FetchedMembers(d, cs[k], x); }
    forall k ensures SkippedAt(pages, k, x) <==> TiedOut(d, cs, k, x) {
      if 0 <= k < |cs| - 1 && cs[k].edges != [] {
        FetchedEnd(d, cs[k]);
      }
    }
  }

  /** The edges of all pages, in the order of the pages, or the last page first. */
  function Shown(d: Dir, cs: seq<Connection>): seq<Keyed> {
    if cs == [] then []
    else if d.Asc? then cs[0].edges + Shown(d, cs[1..])
    else Shown(d, cs[1..]) + cs[0].edges
  }

  lemma {:induction false} ShownForward(cs: seq<Connection>)
    ensures Shown(Asc, cs) == Flatten(Pages(Asc, cs))
  {
    if cs != [] {
      ShownForward(cs[1..]);
      assert Pages(Asc, cs)[1..] == Pages(Asc, cs[1..]);
    }
  }

  lemma {:induction false} ShownBackward(cs: seq<Connection>)
    ensures Shown(Desc, cs) == Flatten(Delivered(Pages(Desc, cs)))
  {
    if cs != [] {
      ShownBackward(cs[1..]);
      assert Pages(Desc, cs)[1..] == Pages(Desc, cs[1..]);
      FlattenAppend(Delivered(Pages(Desc, cs[1..])), Reverse(Pages(Desc, cs)[0]));
      ReverseTwice(cs[0].edges);
    }
  }

  /**
   * With distinct keys a client that follows `after` and a client that follows `before`, each with
   * any page sizes, see the same list: all cards in ascending order, each once.
   */
  lemma FollowingBothWaysAgrees(rows: set<Keyed>, lo: real, hi: real,
                                fsizes: seq<nat>, forward: seq<Connection>, bsizes: seq<nat>, backward: seq<Connection>)
    requires DistinctKeys(Rows(rows, lo, hi))
    requires Follows(rows, Asc, lo, hi, fsizes, forward) && Follows(rows, Desc, lo, hi, bsizes, backward)
    ensures Shown(Asc, forward) == Shown(Desc, backward)
    ensures var shown := Shown(Asc, forward);
            Sorted(Asc, shown) && NoDup(shown) && Elems(shown) == Rows(rows, lo, hi)
  {
    FollowsIsChase(rows, Asc, lo, hi, fsizes, forward);
    FollowsIsChase(rows, Desc, lo, hi, bsizes, backward);
    BothWaysAgree(rows, lo, hi, fsizes, Pages(Asc, forward), bsizes, Pages(Desc, backward));
    ShownForward(forward);
    ShownBackward(backward);
  }
}
