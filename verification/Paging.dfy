/** `User::cards`: one page of a user's cards. */
module Paging {
  import opened Types
  import opened OrderBy

  datatype Sort = ByOwnedAt | ByRating | ByCreatedAt

  datatype Cursor = AtOwned(ownedAt: Option<Time>) | AtRating(rating: real) | AtCreated(createdAt: Time)

  datatype PageError = FirstAndLast | SortAndCursorDiffer

  /** Edges carry their cursor's key and their card's id. */
  datatype Connection = Connection(hasPreviousPage: bool, hasNextPage: bool, edges: seq<Keyed>)

  // 9999-01-01 and 0000-01-01, both at 00:01:01, in seconds since 1970; and the largest double, (2^53 - 1) * 2^971
  const MAX_DATETIME: Time := 253370764861.0
  const MIN_DATETIME: Time := -62167219139.0
  const TWO_64: real := 18446744073709551616.0
  const TWO_192: real := TWO_64 * TWO_64 * TWO_64
  const TWO_960: real := TWO_192 * TWO_192 * TWO_192 * TWO_192 * TWO_192
  const F64_MAX: real := 9007199254740991.0 * 2048.0 * TWO_960

  function Power(n: nat): real {
    if n == 0 then 1.0 else 2.0 * Power(n - 1)
  }

  lemma {:induction false} PowerOfSum(m: nat, n: nat)
    ensures Power(m + n) == Power(m) * Power(n)
  {
    if m > 0 {
      PowerOfSum(m - 1, n);
    }
  }

  lemma PowersOfTwo()
    ensures Power(53) == 9007199254740992.0 && Power(11) == 2048.0 && Power(64) == TWO_64
  {
    PowerOfSum(8, 8);
    PowerOfSum(16, 16);
    PowerOfSum(32, 32);
    PowerOfSum(11, 53);
    PowerOfSum(16, 32);
    PowerOfSum(5, 48);
    assert Power(5) == 32.0 && Power(8) == 256.0 && Power(11) == 2048.0;
  }

  lemma LargerPowers()
    ensures Power(960) == TWO_960
  {
    PowersOfTwo();
    PowerOfSum(64, 64);
    PowerOfSum(128, 64);
    PowerOfSum(192, 192);
    PowerOfSum(384, 384);
    PowerOfSum(768, 192);
  }

  /** (2^53 - 1) * 2^971. */
  lemma LargestDouble()
    ensures F64_MAX == (Power(53) - 1.0) * Power(971)
  {
    PowersOfTwo();
    LargerPowers();
    PowerOfSum(11, 960);
  }

  function KeyOf(c: Card, s: Sort): Option<real> {
    match s
    case ByOwnedAt => c.ownedAt
    case ByRating => Some(c.rating)
    case ByCreatedAt => Some(c.createdAt)
  }

  function LowDefault(s: Sort): real {
    if s.ByRating? then -F64_MAX else MIN_DATETIME
  }

  function HighDefault(s: Sort): real {
    if s.ByRating? then F64_MAX else MAX_DATETIME
  }

  /** The bound that a cursor or its absence gives to the query; the inner `None` is SQL's NULL. */
  function BoundOf(s: Sort, c: Option<Cursor>, default: real): Result<Option<real>, PageError> {
    match (s, c)
    case (_, None) => Ok(Some(default))
    case (ByOwnedAt, Some(AtOwned(t))) => Ok(t)
    case (ByRating, Some(AtRating(r))) => Ok(Some(r))
    case (ByCreatedAt, Some(AtCreated(t))) => Ok(Some(t))
    case _ => Err(SortAndCursorDiffer)
  }

  function Clamp(l: int): nat {
    if l <= 0 then 0 else Min(l, USER_CARDS_MAX_PAGE_SIZE)
  }

  /** Direction and page size of a request that names at most one of `first` and `last`. */
  function Window(first: Option<int>, last: Option<int>): (Dir, nat) {
    if last.Some? then (Desc, Clamp(last.value))
    else if first.Some? then (Asc, Clamp(first.value))
    else (Asc, USER_CARDS_MAX_PAGE_SIZE)
  }

  /** The user's cards that have a key under `s`. */
  ghost function Listing(cards: map<Uuid, Card>, user: Uuid, s: Sort): set<Keyed> {
    set c | c in cards && cards[c].owner == Some(user) && KeyOf(cards[c], s).Some? :: Keyed(c, KeyOf(cards[c], s).value)
  }

  /** The open interval of the `WHERE` clause; nothing compares with NULL. */
  ghost function Interval(rows: set<Keyed>, lo: Option<real>, hi: Option<real>): set<Keyed> {
    set x | x in rows && lo.Some? && hi.Some? && lo.value < x.key < hi.value
  }

  /** `page` holds the first `n` rows in direction `d`, and `more` tells whether there are others. */
  ghost predicate IsPage(rows: set<Keyed>, d: Dir, n: nat, page: seq<Keyed>, more: bool) {
    IsTop(rows, d, n, page) && (more <==> n < |rows|)
  }

  /** The rows of a connection in fetched order. */
  function Fetched(d: Dir, c: Connection): seq<Keyed> {
    if d.Asc? then c.edges else Reverse(c.edges)
  }

  /** A page of `rows` as a connection: always in ascending order, only the flag of its direction set. */
  ghost predicate IsConnection(rows: set<Keyed>, d: Dir, n: nat, c: Connection) {
    if d.Asc? then IsPage(rows, d, n, c.edges, c.hasNextPage) && !c.hasPreviousPage
    else IsPage(rows, d, n, Reverse(c.edges), c.hasPreviousPage) && !c.hasNextPage
  }

  // ---------------------------------------------------------------- what a request asks for

  /** The cursor is of another sort than the listing. */
  predicate Foreign(s: Sort, cursor: Option<Cursor>) {
    match cursor
    case None => false
    case Some(AtOwned(_)) => s != ByOwnedAt
    case Some(AtRating(_)) => s != ByRating
    case Some(AtCreated(_)) => s != ByCreatedAt
  }

  /** Strictly behind the `after` cursor, or behind 0000-01-01 or the least double if there is none. */
  predicate AfterCursor(s: Sort, after: Option<Cursor>, key: real) {
    match after
    case None => if s == ByRating then -F64_MAX < key else -62167219139.0 < key
    case Some(AtOwned(t)) => t.Some? && t.value < key
    case Some(AtRating(r)) => r < key
    case Some(AtCreated(t)) => t < key
  }

  /** Strictly before the `before` cursor, or before 9999-01-01 or the largest double if there is none. */
  predicate BeforeCursor(s: Sort, before: Option<Cursor>, key: real) {
    match before
    case None => if s == ByRating then key < F64_MAX else key < 253370764861.0
    case Some(AtOwned(t)) => t.Some? && key < t.value
    case Some(AtRating(r)) => key < r
    case Some(AtCreated(t)) => key < t
  }

  predicate Inside(s: Sort, after: Option<Cursor>, before: Option<Cursor>, key: real) {
    AfterCursor(s, after, key) && BeforeCursor(s, before, key)
  }

  /** `key` is what the listing sorts the card by. */
  predicate SortedBy(c: Card, s: Sort, key: real) {
    match s
    case ByOwnedAt => c.ownedAt == Some(key)
    case ByRating => c.rating == key
    case ByCreatedAt => c.createdAt == key
  }

  /** The cards that a request is about. */
  ghost function Wanted(cards: map<Uuid, Card>, user: Uuid, s: Sort, after: Option<Cursor>, before: Option<Cursor>)
    : set<Uuid>
  {
    set c | c in cards && cards[c].owner == Some(user)
            && exists key :: SortedBy(cards[c], s, key) && Inside(s, after, before, key)
  }

  predicate OnPage(c: Connection, card: Uuid) {
    exists e :: e in c.edges && e.id == card
  }

  /** No card that was left out lies nearer to the end from which the page was taken. */
  ghost predicate TakenFrom(cards: map<Uuid, Card>, s: Sort, wanted: set<Uuid>, d: Dir, c: Connection)
    requires wanted <= cards.Keys
  {
    forall x, key, e | x in wanted && SortedBy(cards[x], s, key) && e in c.edges && !OnPage(c, x) ::
      if d == Asc then e.key <= key else key <= e.key
  }

  /** The edges carry wanted cards with their keys, each once, in ascending order. */
  ghost predicate WantedInOrder(cards: map<Uuid, Card>, s: Sort, wanted: set<Uuid>, edges: seq<Keyed>)
    requires wanted <= cards.Keys
  {
    && (forall e | e in edges :: e.id in wanted && SortedBy(cards[e.id], s, e.key))
    && (forall i, j | 0 <= i < j < |edges| :: edges[i].id != edges[j].id && edges[i].key <= edges[j].key)
  }

  /** The page of `n` wanted cards from the near end (`first`) or from the far end (`last`). */
  ghost predicate Shows(cards: map<Uuid, Card>, s: Sort, wanted: set<Uuid>, d: Dir, n: nat, c: Connection)
    requires wanted <= cards.Keys
  {
    && |c.edges| == (if |wanted| < n then |wanted| else n)
    && WantedInOrder(cards, s, wanted, c.edges)
    && TakenFrom(cards, s, wanted, d, c)
    && (c.hasNextPage <==> d == Asc && n < |wanted|)
    && (c.hasPreviousPage <==> d == Desc && n < |wanted|)
  }

  /** The number of `first` or `last`, cut to 0..100, or 100 if there is neither. */
  function Asked(first: Option<int>, last: Option<int>): nat {
    match (first, last)
    case (_, Some(k)) => if k < 0 then 0 else if 100 < k then 100 else k
    case (Some(k), None) => if k < 0 then 0 else if 100 < k then 100 else k
    case (None, None) => 100
  }

  /** `r` answers the request. */
  ghost predicate Answers(cards: map<Uuid, Card>, user: Uuid, s: Sort, after: Option<Cursor>, before: Option<Cursor>,
                          first: Option<int>, last: Option<int>, r: Result<Connection, PageError>)
  {
    if first.Some? && last.Some? then r == Err(FirstAndLast)
    else if Foreign(s, after) || Foreign(s, before) then r == Err(SortAndCursorDiffer)
    else
      && r.Ok?
      && Shows(cards, s, Wanted(cards, user, s, after, before), if last.Some? then Desc else Asc, Asked(first, last),
               r.value)
  }

  // ---------------------------------------------------------------- the query answers it

  lemma BoundIsCursor(s: Sort, after: Option<Cursor>, before: Option<Cursor>)
    ensures BoundOf(s, after, LowDefault(s)).Err? <==> Foreign(s, after)
    ensures BoundOf(s, before, HighDefault(s)).Err? <==> Foreign(s, before)
    ensures !Foreign(s, after) ==>
              var lo := BoundOf(s, after, LowDefault(s)).value;
              forall key :: AfterCursor(s, after, key) <==> lo.Some? && lo.value < key
    ensures !Foreign(s, before) ==>
              var hi := BoundOf(s, before, HighDefault(s)).value;
              forall key :: BeforeCursor(s, before, key) <==> hi.Some? && key < hi.value
  {
  }

  lemma WindowIsAsked(first: Option<int>, last: Option<int>)
    requires first.None? || last.None?
    ensures Window(first, last) == (if last.Some? then Desc else Asc, Asked(first, last))
  {
  }

  /** The open interval between `lo` and `hi` is what the cursors ask for; nothing lies behind or before NULL. */
  ghost predicate Between(s: Sort, after: Option<Cursor>, before: Option<Cursor>, lo: Option<real>, hi: Option<real>) {
    && !Foreign(s, after) && !Foreign(s, before)
    && (forall key :: AfterCursor(s, after, key) <==> lo.Some? && lo.value < key)
    && (forall key :: BeforeCursor(s, before, key) <==> hi.Some? && key < hi.value)
  }

  /** Every wanted card stands in the interval with its key, and nothing else does. */
  lemma IntervalIsWanted(cards: map<Uuid, Card>, user: Uuid, s: Sort, after: Option<Cursor>, before: Option<Cursor>,
                         lo: Option<real>, hi: Option<real>)
    requires Between(s, after, before, lo, hi)
    ensures KeyedCards(cards, s, Interval(Listing(cards, user, s), lo, hi), Wanted(cards, user, s, after, before))
  {
    var rows, wanted := Interval(Listing(cards, user, s), lo, hi), Wanted(cards, user, s, after, before);
    forall x, key | x in cards && SortedBy(cards[x], s, key) ensures Keyed(x, key) in rows <==> x in wanted {
      assert KeyOf(cards[x], s) == Some(key);
      if x in wanted {
        var k :| SortedBy(cards[x], s, k) && Inside(s, after, before, k);
        assert k == key;
      }
    }
  }

  /** `rows` are the cards `wanted`, each with its key. */
  ghost predicate KeyedCards(cards: map<Uuid, Card>, s: Sort, rows: set<Keyed>, wanted: set<Uuid>) {
    && wanted <= cards.Keys
    && (forall e | e in rows :: e.id in wanted && SortedBy(cards[e.id], s, e.key))
    && (forall x, key | x in wanted && SortedBy(cards[x], s, key) :: Keyed(x, key) in rows)
    && (forall x | x in wanted :: exists key :: SortedBy(cards[x], s, key))
  }

  lemma {:induction false} KeyedSize(cards: map<Uuid, Card>, s: Sort, rows: set<Keyed>, wanted: set<Uuid>)
    requires KeyedCards(cards, s, rows, wanted)
    ensures |rows| == |wanted|
    decreases |rows|
  {
    if rows == {} {
      assert wanted == {};
    } else {
      var e :| e in rows;
      forall x | x in rows - {e} ensures x.id != e.id {}
      KeyedSize(cards, s, rows - {e}, wanted - {e.id});
    }
  }

  lemma TurnedSorted(d: Dir, c: Connection)
    ensures |Fetched(d, c)| == |c.edges| && Elems(Fetched(d, c)) == Elems(c.edges)
    ensures Sorted(d, Fetched(d, c)) && NoDup(Fetched(d, c)) <==> Sorted(Asc, c.edges) && NoDup(c.edges)
  {
    if d.Desc? {
      ReverseMembers(c.edges);
      TurnedRound(c.edges);
    }
  }

  lemma TurnedRound(edges: seq<Keyed>)
    ensures Sorted(Desc, Reverse(edges)) && NoDup(Reverse(edges)) <==> Sorted(Asc, edges) && NoDup(edges)
  {
    if Sorted(Asc, edges) && NoDup(edges) {
      ReverseSorted(Asc, edges);
    } else if Sorted(Desc, Reverse(edges)) && NoDup(Reverse(edges)) {
      ReverseSorted(Desc, Reverse(edges));
      ReverseTwice(edges);
    }
  }

  lemma KeysDiffer(cards: map<Uuid, Card>, s: Sort, edges: seq<Keyed>)
    requires forall e | e in edges :: e.id in cards && SortedBy(cards[e.id], s, e.key)
    ensures Sorted(Asc, edges) && NoDup(edges) <==>
            forall i, j | 0 <= i < j < |edges| :: edges[i].id != edges[j].id && edges[i].key <= edges[j].key
  {
    forall i, j | 0 <= i < j < |edges| && edges[i].id == edges[j].id ensures edges[i] == edges[j] {
      assert edges[i] in edges && edges[j] in edges;
    }
  }

  lemma ConnectionTakenFrom(cards: map<Uuid, Card>, s: Sort, rows: set<Keyed>, wanted: set<Uuid>, d: Dir, n: nat,
                            c: Connection)
    requires KeyedCards(cards, s, rows, wanted) && IsTop(rows, d, n, Fetched(d, c))
    ensures TakenFrom(cards, s, wanted, d, c)
  {
    TurnedSorted(d, c);
    forall x, key, e | x in wanted && SortedBy(cards[x], s, key) && e in c.edges && !OnPage(c, x)
      ensures !Before(d, key, e.key)
    {
      assert Keyed(x, key) in rows && Keyed(x, key) !in c.edges;
      assert e in Elems(Fetched(d, c)) && Keyed(x, key) !in Elems(Fetched(d, c));
    }
  }

  lemma ConnectionInOrder(cards: map<Uuid, Card>, s: Sort, rows: set<Keyed>, wanted: set<Uuid>, d: Dir, c: Connection)
    requires KeyedCards(cards, s, rows, wanted)
    ensures Sorted(d, Fetched(d, c)) && NoDup(Fetched(d, c)) && Elems(Fetched(d, c)) <= rows <==>
            WantedInOrder(cards, s, wanted, c.edges)
  {
    TurnedSorted(d, c);
    assert forall e :: e in c.edges <==> e in Elems(c.edges);
    if (forall e | e in c.edges :: e in rows) || WantedInOrder(cards, s, wanted, c.edges) {
      KeysDiffer(cards, s, c.edges);
    }
  }

  lemma LeftOutBehind(cards: map<Uuid, Card>, s: Sort, rows: set<Keyed>, wanted: set<Uuid>, d: Dir, c: Connection)
    requires KeyedCards(cards, s, rows, wanted) && TakenFrom(cards, s, wanted, d, c)
    requires WantedInOrder(cards, s, wanted, c.edges)
    ensures forall x, y | x in rows && x !in Fetched(d, c) && y in Fetched(d, c) :: !Before(d, x.key, y.key)
  {
    TurnedSorted(d, c);
    forall x, y | x in rows && x !in Fetched(d, c) && y in Fetched(d, c) ensures !Before(d, x.key, y.key) {
      assert y in Elems(c.edges) && x !in Elems(c.edges);
      assert !OnPage(c, x.id);
    }
  }

  /** A page of the rows, and only such a page, shows the cards. */
  lemma PageShows(cards: map<Uuid, Card>, s: Sort, rows: set<Keyed>, wanted: set<Uuid>, d: Dir, n: nat, c: Connection)
    requires KeyedCards(cards, s, rows, wanted)
    ensures IsConnection(rows, d, n, c) <==> Shows(cards, s, wanted, d, n, c)
  {
    KeyedSize(cards, s, rows, wanted);
    ConnectionInOrder(cards, s, rows, wanted, d, c);
    TurnedSorted(d, c);
    if IsTop(rows, d, n, Fetched(d, c)) {
      ConnectionTakenFrom(cards, s, rows, wanted, d, n, c);
    }
    if WantedInOrder(cards, s, wanted, c.edges) && TakenFrom(cards, s, wanted, d, c) {
      LeftOutBehind(cards, s, rows, wanted, d, c);
    }
  }

  predicate Selects(c: Card, user: Uuid, s: Sort, lo: Option<real>, hi: Option<real>) {
    var key := KeyOf(c, s);
    c.owner == Some(user) && key.Some? && lo.Some? && hi.Some? && lo.value < key.value < hi.value
  }

  lemma {:induction false} ReverseTwice<T>(s: seq<T>)
    ensures Reverse(Reverse(s)) == s
  {
  }

  /** The rows of the table that the query keeps. */
  method Filter(heap: seq<Uuid>, cards: map<Uuid, Card>, user: Uuid, s: Sort, lo: Option<real>, hi: Option<real>)
    returns (rows: seq<Keyed>)
    requires NoDup(heap) && forall c :: c in heap <==> c in cards
    ensures NoDup(rows) && Elems(rows) == Interval(Listing(cards, user, s), lo, hi)
  {
    rows := [];
    for i := 0 to |heap|
      invariant NoDup(rows)
      invariant forall x | x in rows :: x.id in heap[..i]
      invariant forall x | x in rows :: Selects(cards[x.id], user, s, lo, hi) && KeyOf(cards[x.id], s) == Some(x.key)
      invariant forall j | 0 <= j < i && Selects(cards[heap[j]], user, s, lo, hi) ::
                  Keyed(heap[j], KeyOf(cards[heap[j]], s).value) in rows
    {
      var c := heap[i];
      assert heap[..i + 1] == heap[..i] + [c];
      assert c !in heap[..i];
      if Selects(cards[c], user, s, lo, hi) {
        rows := rows + [Keyed(c, KeyOf(cards[c], s).value)];
      }
    }
    assert heap[..|heap|] == heap;
    forall x ensures x in rows <==> x in Interval(Listing(cards, user, s), lo, hi) {
      if x in Interval(Listing(cards, user, s), lo, hi) {
        var j :| 0 <= j < |heap| && heap[j] == x.id;
        assert Selects(cards[heap[j]], user, s, lo, hi);
      }
    }
  }

  /** The edges lie where the request asks, as the card's own fields say. */
  ghost predicate EdgesInside(cards: map<Uuid, Card>, user: Uuid, s: Sort,
                              after: Option<Cursor>, before: Option<Cursor>, edges: seq<Keyed>)
  {
    forall e | e in edges ::
      && e.id in cards && cards[e.id].owner == Some(user) && SortedBy(cards[e.id], s, e.key)
      && AfterCursor(s, after, e.key) && BeforeCursor(s, before, e.key)
  }

  lemma ShownInside(cards: map<Uuid, Card>, user: Uuid, s: Sort, after: Option<Cursor>, before: Option<Cursor>,
                    d: Dir, n: nat, c: Connection)
    requires Shows(cards, s, Wanted(cards, user, s, after, before), d, n, c)
    ensures EdgesInside(cards, user, s, after, before, c.edges)
  {
    forall e | e in c.edges ensures Inside(s, after, before, e.key) {
      var key :| SortedBy(cards[e.id], s, key) && Inside(s, after, before, key);
      assert key == e.key;
    }
  }

  /** A page of the interval answers the request. */
  lemma PageAnswers(cards: map<Uuid, Card>, user: Uuid, s: Sort, after: Option<Cursor>, before: Option<Cursor>,
                    first: Option<int>, last: Option<int>, lo: Option<real>, hi: Option<real>, c: Connection)
    requires (first.None? || last.None?) && Between(s, after, before, lo, hi)
    requires IsConnection(Interval(Listing(cards, user, s), lo, hi), Window(first, last).0, Window(first, last).1, c)
    ensures Answers(cards, user, s, after, before, first, last, Ok(c))
    ensures EdgesInside(cards, user, s, after, before, c.edges)
  {
    var wanted := Wanted(cards, user, s, after, before);
    WindowIsAsked(first, last);
    IntervalIsWanted(cards, user, s, after, before, lo, hi);
    var (d, n) := Window(first, last);
    PageShows(cards, s, Interval(Listing(cards, user, s), lo, hi), wanted, d, n, c);
    ShownInside(cards, user, s, after, before, d, n, c);
  }

  /**
   * The resolver: it fetches one row more than asked for, derives the page flags from what it
   * fetched, truncates, and turns a descending page round.
   */
  method Cards(heap: seq<Uuid>, cards: map<Uuid, Card>, user: Uuid, s: Sort,
               after: Option<Cursor>, before: Option<Cursor>, first: Option<int>, last: Option<int>)
    returns (r: Result<Connection, PageError>)
    requires NoDup(heap) && forall c :: c in heap <==> c in cards
    ensures first.Some? && last.Some? ==> r == Err(FirstAndLast)
    ensures (first.None? || last.None?) ==>
              var lo, hi := BoundOf(s, after, LowDefault(s)), BoundOf(s, before, HighDefault(s));
              if lo.Err? || hi.Err? then r == Err(SortAndCursorDiffer)
              else
                var (d, n) := Window(first, last);
                r.Ok? && IsConnection(Interval(Listing(cards, user, s), lo.value, hi.value), d, n, r.value)
    ensures Answers(cards, user, s, after, before, first, last, r)
    ensures r.Ok? ==> EdgesInside(cards, user, s, after, before, r.value.edges)
  {
    if first.Some? && last.Some? {
      return Err(FirstAndLast);
    }
    BoundIsCursor(s, after, before);
    var lo, hi := BoundOf(s, after, LowDefault(s)), BoundOf(s, before, HighDefault(s));
    if lo.Err? || hi.Err? {
      return Err(SortAndCursorDiffer);
    }
    var (d, limit) := Window(first, last);
    var rows := Filter(heap, cards, user, s, lo.value, hi.value);
    var page := Top(rows, d, limit + 1);
    TruncatedFetch(Elems(rows), d, limit, page);
    var hasPrevious := last.Some? && limit < |page|;
    var hasNext := last.None? && limit < |page|;
    if limit < |page| {
      page := page[..limit];
    }
    if d == Desc {
      ReverseTwice(page);
      page := Reverse(page);
    }
    r := Ok(Connection(hasPrevious, hasNext, page));
    PageAnswers(cards, user, s, after, before, first, last, lo.value, hi.value, r.value);
  }
}
