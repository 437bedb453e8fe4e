/** A client that asks `User::cards` for page after page, and what it gets to see of the cards. */
module Browsing {
  import opened Types
  import opened OrderBy
  import opened Paging
  import opened Relay
  import opened Traversal

  /** The cursor that an edge carries for its card. */
  function CursorOf(c: Card, s: Sort): Cursor {
    match s
    case ByOwnedAt => AtOwned(c.ownedAt)
    case ByRating => AtRating(c.rating)
    case ByCreatedAt => AtCreated(c.createdAt)
  }

  /** The edge whose cursor the client sends next: the last one of a `first` page, the first one of a `last` page. */
  function EndEdge(d: Dir, c: Connection): Keyed
    requires c.edges != []
  {
    if d == Asc then c.edges[|c.edges| - 1] else c.edges[0]
  }

  function Moved(d: Dir, after: Option<Cursor>, before: Option<Cursor>, cursor: Cursor)
    : (Option<Cursor>, Option<Cursor>)
  {
    if d == Asc then (Some(cursor), before) else (after, Some(cursor))
  }

  ghost predicate Page(cards: map<Uuid, Card>, user: Uuid, s: Sort, d: Dir,
                       after: Option<Cursor>, before: Option<Cursor>, size: int, c: Connection)
  {
    if d == Asc then Answers(cards, user, s, after, before, Some(size), None, Ok(c))
    else Answers(cards, user, s, after, before, None, Some(size), Ok(c))
  }

  /**
   * The answers of a client that moves `after` to the end cursor of each `first` page, or `before`
   * to the start cursor of each `last` page, for as long as the flag says that there are more. It has
   * come to the last page if `done`, and may go on otherwise.
   */
  ghost predicate Browses(cards: map<Uuid, Card>, user: Uuid, s: Sort, d: Dir,
                          after: Option<Cursor>, before: Option<Cursor>,
                          sizes: seq<int>, cs: seq<Connection>, done: bool)
    decreases |cs|
  {
    && |cs| > 0 && |sizes| == |cs| && 0 < sizes[0]
    && Page(cards, user, s, d, after, before, sizes[0], cs[0])
    && ((if d == Asc then cs[0].hasNextPage else cs[0].hasPreviousPage) <==> |cs| > 1 || !done)
    && (|cs| > 1 ==>
          && cs[0].edges != [] && EndEdge(d, cs[0]).id in cards
          && var (after', before') := Moved(d, after, before, CursorOf(cards[EndEdge(d, cs[0]).id], s));
             Browses(cards, user, s, d, after', before', sizes[1..], cs[1..], done))
  }

  function Cut100(sizes: seq<int>): (ns: seq<nat>)
    ensures |ns| == |sizes|
    ensures forall i | 0 <= i < |ns| :: ns[i] == if sizes[i] < 0 then 0 else if 100 < sizes[i] then 100 else sizes[i]
  {
    seq(|sizes|, i requires 0 <= i < |sizes| => if sizes[i] < 0 then 0 else if 100 < sizes[i] then 100 else sizes[i])
  }

  // ---------------------------------------------------------------- browsing is following

  /** One answer is one page of the interval. */
  lemma PageIsConnection(cards: map<Uuid, Card>, user: Uuid, s: Sort, d: Dir, after: Option<Cursor>,
                         before: Option<Cursor>, lo: real, hi: real, size: int, c: Connection)
    requires Between(s, after, before, Some(lo), Some(hi))
    ensures Page(cards, user, s, d, after, before, size, c) <==>
            IsConnection(Rows(Listing(cards, user, s), lo, hi), d, Cut100([size])[0], c)
  {
    IntervalIsWanted(cards, user, s, after, before, Some(lo), Some(hi));
    PageShows(cards, s, Rows(Listing(cards, user, s), lo, hi), Wanted(cards, user, s, after, before), d,
              Cut100([size])[0], c);
  }

  /** Its edges carry the keys of their cards, and its end edge the bound of the next request. */
  lemma EndIsCursor(cards: map<Uuid, Card>, user: Uuid, s: Sort, d: Dir, after: Option<Cursor>,
                    before: Option<Cursor>, lo: real, hi: real, n: nat, c: Connection)
    requires Between(s, after, before, Some(lo), Some(hi))
    requires IsConnection(Rows(Listing(cards, user, s), lo, hi), d, n, c) && c.edges != []
    ensures EndEdge(d, c).id in cards && EndEdge(d, c).key == NextCursor(d, c)
    ensures var (after', before') := Moved(d, after, before, CursorOf(cards[EndEdge(d, c).id], s));
            var (lo', hi') := Beyond(d, lo, hi, NextCursor(d, c));
            Between(s, after', before', Some(lo'), Some(hi'))
  {
    EndIsListed(Listing(cards, user, s), d, lo, hi, n, c);
    var e := EndEdge(d, c);
    var (after', before') := Moved(d, after, before, CursorOf(cards[e.id], s));
    CursorBounds(cards, s, e);
    assert !Foreign(s, after') && !Foreign(s, before');
  }

  lemma EndIsListed(rows: set<Keyed>, d: Dir, lo: real, hi: real, n: nat, c: Connection)
    requires IsConnection(Rows(rows, lo, hi), d, n, c) && c.edges != []
    ensures EndEdge(d, c) in rows && EndEdge(d, c).key == NextCursor(d, c)
  {
    TurnedSorted(d, c);
    assert EndEdge(d, c) in Elems(c.edges);
  }

  /** A card's cursor is its key. */
  lemma CursorBounds(cards: map<Uuid, Card>, s: Sort, e: Keyed)
    requires e.id in cards && SortedBy(cards[e.id], s, e.key)
    ensures !Foreign(s, Some(CursorOf(cards[e.id], s)))
    ensures forall key :: AfterCursor(s, Some(CursorOf(cards[e.id], s)), key) <==> e.key < key
    ensures forall key :: BeforeCursor(s, Some(CursorOf(cards[e.id], s)), key) <==> key < e.key
  {
  }

  /** What a client browses to the end is what following cursors through the listing gives, and the other way round. */
  lemma {:induction false} BrowsesIsFollows(cards: map<Uuid, Card>, user: Uuid, s: Sort, d: Dir, after: Option<Cursor>,
                                            before: Option<Cursor>, lo: real, hi: real, sizes: seq<int>,
                                            cs: seq<Connection>)
    requires Between(s, after, before, Some(lo), Some(hi))
    ensures Browses(cards, user, s, d, after, before, sizes, cs, true) <==>
            Follows(Listing(cards, user, s), d, lo, hi, Cut100(sizes), cs)
    decreases |cs|
  {
    if |cs| > 0 && |sizes| == |cs| && 0 < sizes[0] {
      PageIsConnection(cards, user, s, d, after, before, lo, hi, sizes[0], cs[0]);
      if |cs| > 1 && cs[0].edges != [] && Page(cards, user, s, d, after, before, sizes[0], cs[0]) {
        EndIsCursor(cards, user, s, d, after, before, lo, hi, Cut100([sizes[0]])[0], cs[0]);
        var (after', before') := Moved(d, after, before, CursorOf(cards[EndEdge(d, cs[0]).id], s));
        var (lo', hi') := Beyond(d, lo, hi, NextCursor(d, cs[0]));
        BrowsesIsFollows(cards, user, s, d, after', before', lo', hi', sizes[1..], cs[1..]);
        CutTail(sizes);
      }
    }
  }

  lemma CutTail(sizes: seq<int>)
    requires sizes != []
    ensures Cut100(sizes)[1..] == Cut100(sizes[1..]) && Cut100(sizes)[0] == Cut100([sizes[0]])[0]
  {
  }

  lemma {:induction false} BrowsesIsFollowing(cards: map<Uuid, Card>, user: Uuid, s: Sort, d: Dir,
                                              after: Option<Cursor>, before: Option<Cursor>, lo: real, hi: real,
                                              sizes: seq<int>, cs: seq<Connection>)
    requires Between(s, after, before, Some(lo), Some(hi))
    requires Browses(cards, user, s, d, after, before, sizes, cs, false)
    ensures Following(Listing(cards, user, s), d, lo, hi, Cut100(sizes), cs)
    decreases |cs|
  {
    PageIsConnection(cards, user, s, d, after, before, lo, hi, sizes[0], cs[0]);
    CutTail(sizes);
    PageTakes(Listing(cards, user, s), d, lo, hi, Cut100(sizes)[0], Fetched(d, cs[0]));
    if |cs| > 1 {
      EndIsCursor(cards, user, s, d, after, before, lo, hi, Cut100(sizes)[0], cs[0]);
      var (after', before') := Moved(d, after, before, CursorOf(cards[EndEdge(d, cs[0]).id], s));
      var (lo', hi') := Beyond(d, lo, hi, NextCursor(d, cs[0]));
      BrowsesIsFollowing(cards, user, s, d, after', before', lo', hi', sizes[1..], cs[1..]);
    }
  }

  // ---------------------------------------------------------------- what the client sees

  /** The bounds of a request, unless a cursor is NULL, and then it asks for nothing. */
  lemma BoundsExist(cards: map<Uuid, Card>, user: Uuid, s: Sort, after: Option<Cursor>, before: Option<Cursor>)
    returns (lo: real, hi: real)
    requires !Foreign(s, after) && !Foreign(s, before)
    ensures Between(s, after, before, Some(lo), Some(hi)) || Wanted(cards, user, s, after, before) == {}
  {
    BoundIsCursor(s, after, before);
    var l, h := BoundOf(s, after, LowDefault(s)).value, BoundOf(s, before, HighDefault(s)).value;
    if l.Some? && h.Some? {
      lo, hi := l.value, h.value;
    } else {
      lo, hi := 0.0, 0.0;
    }
  }

  predicate SeenOn(cs: seq<Connection>, card: Uuid) {
    exists k :: 0 <= k < |cs| && OnPage(cs[k], card)
  }

  /** Page `k` is not the last, its end edge has the key of the card, and the card is not on it. */
  predicate TiedWithEnd(d: Dir, cs: seq<Connection>, k: int, card: Uuid, key: real) {
    0 <= k < |cs| - 1 && cs[k].edges != [] && EndEdge(d, cs[k]).key == key && !OnPage(cs[k], card)
  }

  lemma {:induction false} EdgesCarryKeys(cards: map<Uuid, Card>, user: Uuid, s: Sort, d: Dir, after: Option<Cursor>,
                                          before: Option<Cursor>, sizes: seq<int>, cs: seq<Connection>, done: bool,
                                          k: nat, e: Keyed)
    requires Browses(cards, user, s, d, after, before, sizes, cs, done) && k < |cs| && e in cs[k].edges
    ensures e.id in cards && SortedBy(cards[e.id], s, e.key)
    decreases |cs|
  {
    if k > 0 {
      var (after', before') := Moved(d, after, before, CursorOf(cards[EndEdge(d, cs[0]).id], s));
      EdgesCarryKeys(cards, user, s, d, after', before', sizes[1..], cs[1..], done, k - 1, e);
    }
  }

  /**
   * The effect of ties: of the cards asked for, the client never sees a card if and only if the card
   * ties with the end edge of a page that is not the last, and is not on that page.
   */
  lemma BrowsingMissesExactlyTies(cards: map<Uuid, Card>, user: Uuid, s: Sort, d: Dir, after: Option<Cursor>,
                                  before: Option<Cursor>, sizes: seq<int>, cs: seq<Connection>, card: Uuid, key: real)
    requires Browses(cards, user, s, d, after, before, sizes, cs, true)
    requires card in Wanted(cards, user, s, after, before) && SortedBy(cards[card], s, key)
    ensures !SeenOn(cs, card) <==> exists k :: TiedWithEnd(d, cs, k, card, key)
  {
    var lo, hi := BoundsExist(cards, user, s, after, before);
    var x := Keyed(card, key);
    IntervalIsWanted(cards, user, s, after, before, Some(lo), Some(hi));
    BrowsesIsFollows(cards, user, s, d, after, before, lo, hi, sizes, cs);
    FollowingMissesExactlyTies(Listing(cards, user, s), d, lo, hi, Cut100(sizes), cs, x);
    forall k | 0 <= k < |cs| ensures OnPage(cs[k], card) <==> x in cs[k].edges {
      OnPageWithKey(cards, user, s, d, after, before, sizes, cs, k, x);
    }
    SeenIsShown(d, cs, x);
  }

  lemma OnPageWithKey(cards: map<Uuid, Card>, user: Uuid, s: Sort, d: Dir,
                      after: Option<Cursor>, before: Option<Cursor>,
                      sizes: seq<int>, cs: seq<Connection>, k: nat, x: Keyed)
    requires Browses(cards, user, s, d, after, before, sizes, cs, true)
    requires x.id in cards && SortedBy(cards[x.id], s, x.key) && k < |cs|
    ensures OnPage(cs[k], x.id) <==> x in cs[k].edges
  {
    if OnPage(cs[k], x.id) {
      var e :| e in cs[k].edges && e.id == x.id;
      EdgesCarryKeys(cards, user, s, d, after, before, sizes, cs, true, k, e);
    }
  }

  lemma SeenIsShown(d: Dir, cs: seq<Connection>, x: Keyed)
    requires forall k | 0 <= k < |cs| :: OnPage(cs[k], x.id) <==> x in cs[k].edges
    ensures SeenOn(cs, x.id) <==> ShowsUp(cs, x)
    ensures forall k :: TiedWithEnd(d, cs, k, x.id, x.key) <==> TiedOut(d, cs, k, x)
  {
  }

  ghost predicate DistinctlyKeyed(cards: map<Uuid, Card>, s: Sort, some: set<Uuid>)
    requires some <= cards.Keys
  {
    forall x, y, key | x in some && y in some && SortedBy(cards[x], s, key) && SortedBy(cards[y], s, key) :: x == y
  }

  /** `shown` lists exactly the wanted cards, each once, by ascending key. */
  ghost predicate ListsAll(cards: map<Uuid, Card>, s: Sort, wanted: set<Uuid>, shown: seq<Keyed>)
    requires wanted <= cards.Keys
  {
    && (forall x :: x in wanted <==> exists i :: 0 <= i < |shown| && shown[i].id == x)
    && (forall i | 0 <= i < |shown| :: shown[i].id in wanted && SortedBy(cards[shown[i].id], s, shown[i].key))
    && (forall i, j | 0 <= i < j < |shown| :: shown[i].id != shown[j].id && shown[i].key <= shown[j].key)
  }

  lemma NothingWanted(cards: map<Uuid, Card>, user: Uuid, s: Sort, d: Dir,
                      after: Option<Cursor>, before: Option<Cursor>, sizes: seq<int>, cs: seq<Connection>)
    requires Browses(cards, user, s, d, after, before, sizes, cs, true) && Wanted(cards, user, s, after, before) == {}
    ensures Shown(d, cs) == []
  {
    assert Shown(d, cs[1..]) == [];
  }

  lemma ListingListsAll(cards: map<Uuid, Card>, s: Sort, rows: set<Keyed>, wanted: set<Uuid>, shown: seq<Keyed>)
    requires KeyedCards(cards, s, rows, wanted)
    requires Sorted(Asc, shown) && NoDup(shown) && Elems(shown) == rows
    ensures ListsAll(cards, s, wanted, shown)
  {
    forall i | 0 <= i < |shown| ensures shown[i] in rows { assert shown[i] in Elems(shown); }
    KeysDiffer(cards, s, shown);
    forall x | x in wanted ensures exists i :: 0 <= i < |shown| && shown[i].id == x {
      var key :| SortedBy(cards[x], s, key);
      assert Keyed(x, key) in Elems(shown);
      var i :| 0 <= i < |shown| && shown[i] == Keyed(x, key);
    }
  }

  /**
   * With distinct keys a client that browses forward and one that browses backward, each with any
   * page sizes, see the same list: all the cards asked for, in ascending order, each once.
   */
  lemma BrowsingBothWaysAgrees(cards: map<Uuid, Card>, user: Uuid, s: Sort,
                               after: Option<Cursor>, before: Option<Cursor>,
                               fsizes: seq<int>, forward: seq<Connection>, bsizes: seq<int>, backward: seq<Connection>)
    requires DistinctlyKeyed(cards, s, Wanted(cards, user, s, after, before))
    requires Browses(cards, user, s, Asc, after, before, fsizes, forward, true)
    requires Browses(cards, user, s, Desc, after, before, bsizes, backward, true)
    ensures Shown(Asc, forward) == Shown(Desc, backward)
    ensures ListsAll(cards, s, Wanted(cards, user, s, after, before), Shown(Asc, forward))
  {
    var lo, hi := BoundsExist(cards, user, s, after, before);
    if Wanted(cards, user, s, after, before) == {} {
      NothingWanted(cards, user, s, Asc, after, before, fsizes, forward);
      NothingWanted(cards, user, s, Desc, after, before, bsizes, backward);
    } else {
      WantedBothWays(cards, user, s, after, before, lo, hi, fsizes, forward, bsizes, backward);
    }
  }

  lemma DistinctRows(cards: map<Uuid, Card>, s: Sort, rows: set<Keyed>, wanted: set<Uuid>)
    requires KeyedCards(cards, s, rows, wanted) && DistinctlyKeyed(cards, s, wanted)
    ensures DistinctKeys(rows)
  {
  }

  lemma WantedBothWays(cards: map<Uuid, Card>, user: Uuid, s: Sort, after: Option<Cursor>, before: Option<Cursor>,
                       lo: real, hi: real, fsizes: seq<int>, forward: seq<Connection>,
                       bsizes: seq<int>, backward: seq<Connection>)
    requires Between(s, after, before, Some(lo), Some(hi))
    requires DistinctlyKeyed(cards, s, Wanted(cards, user, s, after, before))
    requires Browses(cards, user, s, Asc, after, before, fsizes, forward, true)
    requires Browses(cards, user, s, Desc, after, before, bsizes, backward, true)
    ensures Shown(Asc, forward) == Shown(Desc, backward)
    ensures ListsAll(cards, s, Wanted(cards, user, s, after, before), Shown(Asc, forward))
  {
    var all, wanted := Listing(cards, user, s), Wanted(cards, user, s, after, before);
    IntervalIsWanted(cards, user, s, after, before, Some(lo), Some(hi));
    DistinctRows(cards, s, Rows(all, lo, hi), wanted);
    BrowsesIsFollows(cards, user, s, Asc, after, before, lo, hi, fsizes, forward);
    BrowsesIsFollows(cards, user, s, Desc, after, before, lo, hi, bsizes, backward);
    FollowingBothWaysAgrees(all, lo, hi, Cut100(fsizes), forward, Cut100(bsizes), backward);
    ListingListsAll(cards, s, Rows(all, lo, hi), wanted, Shown(Asc, forward));
  }

  /** The pages so far, all with more to come, were asked to hold less cards than there are. */
  lemma BrowsingEnds(cards: map<Uuid, Card>, user: Uuid, s: Sort, d: Dir, after: Option<Cursor>, before: Option<Cursor>,
                     sizes: seq<int>, cs: seq<Connection>)
    requires Browses(cards, user, s, d, after, before, sizes, cs, false)
    ensures Sum(Cut100(sizes)) < |Wanted(cards, user, s, after, before)| && |cs| <= Sum(Cut100(sizes))
  {
    var lo, hi := BoundsExist(cards, user, s, after, before);
    IntervalIsWanted(cards, user, s, after, before, Some(lo), Some(hi));
    KeyedSize(cards, s, Rows(Listing(cards, user, s), lo, hi), Wanted(cards, user, s, after, before));
    BrowsesIsFollowing(cards, user, s, d, after, before, lo, hi, sizes, cs);
    FollowingEnds(Listing(cards, user, s), d, lo, hi, Cut100(sizes), cs);
  }

  /** For every endless supply of page sizes from 1 to 100 some client gets to the last page. */
  lemma BrowsingExists(cards: map<Uuid, Card>, user: Uuid, s: Sort, d: Dir, after: Option<Cursor>,
                       before: Option<Cursor>, lo: real, hi: real, size: nat -> nat)
    returns (sizes: seq<int>, cs: seq<Connection>)
    requires Between(s, after, before, Some(lo), Some(hi)) && forall i :: 1 <= size(i) <= 100
    ensures Browses(cards, user, s, d, after, before, sizes, cs, true)
    ensures forall i | 0 <= i < |sizes| :: sizes[i] == size(i)
  {
    var ns;
    ns, cs := FollowingExists(Listing(cards, user, s), d, lo, hi, size);
    sizes := seq(|ns|, i requires 0 <= i < |ns| => ns[i]);
    assert Cut100(sizes) == ns;
    BrowsesIsFollows(cards, user, s, d, after, before, lo, hi, sizes, cs);
  }

  // ---------------------------------------------------------------- one page against the specification

  function CursorAt(cards: map<Uuid, Card>, s: Sort, edge: Option<Keyed>): Option<Cursor>
    requires edge.Some? ==> edge.value.id in cards
  {
    if edge.Some? then Some(CursorOf(cards[edge.value.id], s)) else None
  }

  function KeyAt(edge: Option<Keyed>): Option<real> {
    if edge.Some? then Some(edge.value.key) else None
  }

  /**
   * The answer to a request with cursors of listed edges or without, against the specification over
   * the whole list: page and flag are the specification's if and only if the `after` edge lies
   * before the `before` edge, as far as both are given, or nothing follows the `after` edge.
   */
  lemma AnswerIsSpecExactly(cards: map<Uuid, Card>, user: Uuid, s: Sort, all: seq<Keyed>,
                            after: Option<Keyed>, before: Option<Keyed>, d: Dir, size: int, c: Connection)
    requires ListsInOrder(all, Listing(cards, user, s), LowDefault(s), HighDefault(s))
    requires (after.Some? ==> after.value in all) && (before.Some? ==> before.value in all)
    requires forall e | e in all :: e.id in cards
    requires Page(cards, user, s, d, CursorAt(cards, s, after), CursorAt(cards, s, before), size, c)
    ensures Names(all, KeyAt(after)) && Names(all, KeyAt(before))
    ensures IsSpec(all, KeyAt(after), KeyAt(before), d, Cut100([size])[0], c) <==>
            InOrder(KeyAt(after), KeyAt(before)) || From(all, KeyAt(after)) == |all|
  {
    var lo, hi := Or(KeyAt(after), LowDefault(s)), Or(KeyAt(before), HighDefault(s));
    forall e | e in all ensures e in Listing(cards, user, s) { assert e in Elems(all); }
    PageIsConnection(cards, user, s, d, CursorAt(cards, s, after), CursorAt(cards, s, before), lo, hi, size, c);
    PageIsSpecExactly(all, Listing(cards, user, s), LowDefault(s), HighDefault(s), KeyAt(after), KeyAt(before), d,
                      Cut100([size])[0], c);
  }
}
