/** `gacha_card` as two interleaved steps, a check and a charge, and what runs of them hand out. */
module Gacha {
  import opened Types
  import opened OrderBy
  import opened Postgres
  import opened Paging

  datatype Draw = Draw(user: Uuid, card: Uuid)

  /** The tables, the calls that passed the check, and the cards handed out so far, in order. */
  datatype Bank = Bank(db: Db, passed: map<nat, Uuid>, drawn: seq<Draw>)

  datatype Act =
    | Check(call: nat, user: Uuid)
    | Commit(call: nat, now: Time, draw: Uuid -> real, row: Option<Uuid>)
    | Create(creator: Uuid, when: Time, newCard: Uuid, index: real)

  /** `fetch_one` answers one of the updated cards, or fails if there is none. */
  predicate Answers(cards: map<Uuid, Card>, row: Option<Uuid>) {
    if row.Some? then row.value in Hits(cards) else Hits(cards) == {}
  }

  /** Fresh numbers and ids, and distinct queue indexes at every charge. */
  ghost predicate Enabled(b: Bank, a: Act) {
    match a
    case Check(call, user) => call !in b.passed
    case Commit(call, now, draw, row) =>
      call in b.passed && DistinctIndexes(b.db.cards) && Answers(b.db.cards, row)
    case Create(creator, when, newCard, index) => newCard !in b.db.cards
  }

  function Charged(b: Bank, user: Uuid, now: Time, draw: Uuid -> real, row: Option<Uuid>): Bank {
    if !CanPay(b.db, user) then b
    else
      b.(db := ChargeSql(b.db, user, now, draw),
         drawn := if row.Some? then b.drawn + [Draw(user, row.value)] else b.drawn)
  }

  /** A missing user and a user short of points both end the call at its check. */
  function Next(b: Bank, a: Act): Bank
    requires a.Commit? ==> a.call in b.passed
  {
    match a
    case Check(call, user) =>
      if user in b.db.points && GACHA_POINTS <= b.db.points[user] then b.(passed := b.passed[call := user]) else b
    case Commit(call, now, draw, row) =>
      Charged(b.(passed := b.passed - {call}), b.passed[call], now, draw, row)
    case Create(creator, when, newCard, index) => b.(db := CreateCardSql(b.db, creator, when, newCard, index))
  }

  ghost predicate Run(bs: seq<Bank>, acts: seq<Act>) {
    && |bs| == |acts| + 1
    && forall i | 0 <= i < |acts| :: Enabled(bs[i], acts[i]) && bs[i + 1] == Next(bs[i], acts[i])
  }

  ghost predicate Initial(b: Bank) {
    && b.passed == map[] && b.drawn == []
    && forall u :: u in b.db.points ==> 0 <= b.db.points[u]
  }

  // ---------------------------------------------------------------- accounting

  /** What the accounts count: committed charges, those that find a free card, and card creations. */
  datatype Event = Charging | Drawing | Creating

  predicate Pays(b: Bank, a: Act, u: Uuid) {
    a.Commit? && a.call in b.passed && b.passed[a.call] == u && CanPay(b.db, u)
  }

  predicate Happens(e: Event, b: Bank, a: Act, u: Uuid) {
    match e
    case Charging => Pays(b, a, u)
    case Drawing => Pays(b, a, u) && exists c :: c in b.db.cards && Free(b.db.cards, c)
    case Creating => a.Create? && a.creator == u
  }

  /** How often event `e` befell user `u` in the first `n` steps. */
  function Times(e: Event, bs: seq<Bank>, acts: seq<Act>, n: nat, u: Uuid): nat
    requires n <= |acts| < |bs|
  {
    if n == 0 then 0
    else Times(e, bs, acts, n - 1, u) + if Happens(e, bs[n - 1], acts[n - 1], u) then 1 else 0
  }

  function Owned(cards: Cards, u: Uuid): set<Uuid> {
    set c | c in cards && cards[c].owner == Some(u)
  }

  type Cards = map<Uuid, Card>

  /** Initially free cards are drawn at most once and then owned by their drawer; no other card changes hands. */
  ghost predicate OwnersOk(cards0: Cards, cards: Cards, drawn: seq<Draw>) {
    && (forall c :: c in cards0 && !Free(cards0, c) ==> c in cards && cards[c] == cards0[c])
    && (forall c :: Free(cards, c) ==> Free(cards0, c) && cards[c] == cards0[c])
    && (forall i | 0 <= i < |drawn| ::
          Free(cards0, drawn[i].card) && drawn[i].card in cards && cards[drawn[i].card].owner == Some(drawn[i].user))
    && (forall c :: Free(cards0, c) ==> Free(cards, c) || HandedOut(drawn, c))
  }

  ghost predicate HandedOut(drawn: seq<Draw>, c: Uuid) {
    exists i :: 0 <= i < |drawn| && drawn[i].card == c
  }

  function IndexIn(cards: Cards, c: Uuid): real {
    if c in cards then cards[c].index else 0.0
  }

  /** Cards are handed out by ascending initial index, and those still free come after all of them. */
  ghost predicate OrderOk(cards0: Cards, cards: Cards, drawn: seq<Draw>) {
    && (forall i, j | 0 <= i < j < |drawn| :: IndexIn(cards0, drawn[i].card) < IndexIn(cards0, drawn[j].card))
    && (forall i, c | 0 <= i < |drawn| && Free(cards, c) :: IndexIn(cards0, drawn[i].card) < IndexIn(cards0, c))
  }

  /** `cards'` is `cards` with the lowest free card `c` given to `user`. */
  ghost predicate Given(cards: Cards, cards': Cards, c: Uuid, user: Uuid) {
    && LowestFree(cards, c) && DistinctIndexes(cards)
    && cards'.Keys == cards.Keys && cards'[c].owner == Some(user) && cards'[c].ownedAt.Some?
    && cards'[c].rating == cards[c].rating && cards'[c].createdAt == cards[c].createdAt
    && cards'[c].creator == cards[c].creator
    && forall x :: x in cards && x != c ==> cards'[x] == cards[x]
  }

  /** With distinct indexes a charge gives away the one card it answers, or none. */
  lemma ChargeGives(b: Bank, user: Uuid, now: Time, draw: Uuid -> real, row: Option<Uuid>)
    requires DistinctIndexes(b.db.cards) && Answers(b.db.cards, row) && CanPay(b.db, user)
    ensures var cards' := ChargeSql(b.db, user, now, draw).cards;
            if row.Some? then Given(b.db.cards, cards', row.value, user)
            else cards' == b.db.cards && forall c :: !Free(b.db.cards, c)
  {
    HitsOneLowestFree(b.db.cards);
  }

  lemma GivenOwned(cards: Cards, cards': Cards, c: Uuid, user: Uuid, u: Uuid)
    requires Given(cards, cards', c, user)
    ensures |Owned(cards', u)| == |Owned(cards, u)| + if user == u then 1 else 0
  {
    assert Free(cards, c);
    assert Owned(cards', u) == Owned(cards, u) + if user == u then {c} else {};
  }

  lemma ChargeOwned(b: Bank, a: Act, u: Uuid)
    requires Enabled(b, a) && a.Commit?
    ensures |Owned(Next(b, a).db.cards, u)| == |Owned(b.db.cards, u)| + if Happens(Drawing, b, a, u) then 1 else 0
  {
    var user, cards' := b.passed[a.call], Next(b, a).db.cards;
    if CanPay(b.db, user) {
      ChargeGives(b, user, a.now, a.draw, a.row);
      if a.row.Some? {
        GivenOwned(b.db.cards, cards', a.row.value, user, u);
        assert Free(b.db.cards, a.row.value);
      }
    }
  }

  /** One step changes the number of cards that a user owns by the events that befall the user. */
  lemma OwnedSteps(b: Bank, a: Act, u: Uuid)
    requires Enabled(b, a)
    ensures |Owned(Next(b, a).db.cards, u)| == |Owned(b.db.cards, u)|
              + (if Happens(Drawing, b, a, u) then 1 else 0) + (if Happens(Creating, b, a, u) then 1 else 0)
  {
    if a.Commit? {
      ChargeOwned(b, a, u);
    } else if a.Create? {
      CreateOwned(b.db, a.creator, a.when, a.newCard, a.index, u);
    }
  }

  lemma CreateOwned(db: Db, creator: Uuid, when: Time, newCard: Uuid, index: real, u: Uuid)
    requires newCard !in db.cards
    ensures |Owned(CreateCardSql(db, creator, when, newCard, index).cards, u)|
            == |Owned(db.cards, u)| + if creator == u then 1 else 0
  {
    assert Owned(CreateCardSql(db, creator, when, newCard, index).cards, u)
        == Owned(db.cards, u) + if creator == u then {newCard} else {};
  }

  lemma PointsStep(b: Bank, a: Act, u: Uuid)
    requires Enabled(b, a) && u in b.db.points && 0 <= b.db.points[u]
    ensures var b' := Next(b, a);
            && u in b'.db.points && 0 <= b'.db.points[u]
            && b'.db.points[u] == b.db.points[u] - if Happens(Charging, b, a, u) then 100 else 0
  {
  }

  lemma {:induction false} PointsOverRuns(bs: seq<Bank>, acts: seq<Act>, n: nat, u: Uuid)
    requires Run(bs, acts) && Initial(bs[0]) && n <= |acts| && u in bs[0].db.points
    ensures u in bs[n].db.points && 0 <= bs[n].db.points[u]
    ensures bs[0].db.points[u] - bs[n].db.points[u] == 100 * Times(Charging, bs, acts, n, u)
  {
    if n > 0 {
      PointsOverRuns(bs, acts, n - 1, u);
      PointsStep(bs[n - 1], acts[n - 1], u);
    }
  }

  lemma {:induction false} OwnedOverRuns(bs: seq<Bank>, acts: seq<Act>, n: nat, u: Uuid)
    requires Run(bs, acts) && n <= |acts|
    ensures |Owned(bs[n].db.cards, u)|
            == |Owned(bs[0].db.cards, u)| + Times(Creating, bs, acts, n, u) + Times(Drawing, bs, acts, n, u)
  {
    if n > 0 {
      OwnedOverRuns(bs, acts, n - 1, u);
      OwnedSteps(bs[n - 1], acts[n - 1], u);
    }
  }

  lemma {:induction false} EveryChargeDraws(bs: seq<Bank>, acts: seq<Act>, n: nat, u: Uuid)
    requires n <= |acts| < |bs|
    ensures Times(Drawing, bs, acts, n, u) <= Times(Charging, bs, acts, n, u)
    ensures Times(Drawing, bs, acts, n, u) == Times(Charging, bs, acts, n, u) <==>
            forall i | 0 <= i < n && Happens(Charging, bs[i], acts[i], u) :: Happens(Drawing, bs[i], acts[i], u)
  {
    if n > 0 {
      EveryChargeDraws(bs, acts, n - 1, u);
    }
  }

  lemma GivenKeepsOwners(cards0: Cards, cards: Cards, cards': Cards, drawn: seq<Draw>, c: Uuid, user: Uuid)
    requires OwnersOk(cards0, cards, drawn) && Given(cards, cards', c, user)
    ensures OwnersOk(cards0, cards', drawn + [Draw(user, c)])
  {
    var drawn' := drawn + [Draw(user, c)];
    assert drawn'[|drawn|].card == c;
    forall x | HandedOut(drawn, x) ensures HandedOut(drawn', x) {
      var i :| 0 <= i < |drawn| && drawn[i].card == x;
      assert drawn'[i].card == x;
    }
  }

  lemma GivenKeepsOrder(cards0: Cards, cards: Cards, cards': Cards, drawn: seq<Draw>, c: Uuid, user: Uuid)
    requires OwnersOk(cards0, cards, drawn) && OrderOk(cards0, cards, drawn) && Given(cards, cards', c, user)
    ensures OrderOk(cards0, cards', drawn + [Draw(user, c)])
  {
    forall x | Free(cards', x) ensures Free(cards, x) && IndexIn(cards0, c) < IndexIn(cards0, x) {
      assert x in cards && x != c;
    }
  }

  ghost predicate HandsOk(b0: Bank, b: Bank) {
    OwnersOk(b0.db.cards, b.db.cards, b.drawn) && OrderOk(b0.db.cards, b.db.cards, b.drawn)
  }

  lemma ChargeKeepsHands(b0: Bank, b: Bank, user: Uuid, now: Time, draw: Uuid -> real, row: Option<Uuid>)
    requires HandsOk(b0, b) && DistinctIndexes(b.db.cards) && Answers(b.db.cards, row)
    ensures HandsOk(b0, Charged(b, user, now, draw, row))
  {
    if CanPay(b.db, user) {
      var cards' := ChargeSql(b.db, user, now, draw).cards;
      ChargeGives(b, user, now, draw, row);
      if row.Some? {
        GivenKeepsOwners(b0.db.cards, b.db.cards, cards', b.drawn, row.value, user);
        GivenKeepsOrder(b0.db.cards, b.db.cards, cards', b.drawn, row.value, user);
      }
    }
  }

  lemma NextKeepsHands(b0: Bank, b: Bank, a: Act)
    requires HandsOk(b0, b) && Enabled(b, a)
    ensures HandsOk(b0, Next(b, a))
  {
    if a.Commit? {
      ChargeKeepsHands(b0, b.(passed := b.passed - {a.call}), b.passed[a.call], a.now, a.draw, a.row);
    }
  }

  lemma {:induction false} BankOverRuns(bs: seq<Bank>, acts: seq<Act>, n: nat)
    requires Run(bs, acts) && Initial(bs[0]) && n <= |acts|
    ensures HandsOk(bs[0], bs[n])
  {
    if n > 0 {
      BankOverRuns(bs, acts, n - 1);
      assert Enabled(bs[n - 1], acts[n - 1]) && bs[n] == Next(bs[n - 1], acts[n - 1]);
      NextKeepsHands(bs[0], bs[n - 1], acts[n - 1]);
    }
  }

  /** A check and its charge, uninterrupted: the charging statement, one call less in flight, one more draw. */
  lemma GachaUninterrupted(b: Bank, call: nat, user: Uuid, now: Time, draw: Uuid -> real, row: Option<Uuid>)
    requires Enabled(b, Check(call, user)) && user in b.db.points && DistinctIndexes(b.db.cards)
    requires Answers(b.db.cards, row)
    ensures var b1 := Next(b, Check(call, user));
            if b.db.points[user] < 100 then b1 == b
            else
              && Enabled(b1, Commit(call, now, draw, row))
              && var b2 := Next(b1, Commit(call, now, draw, row));
                 && b2.passed == b.passed && ChargedAs(b.db, b2.db, user, now, draw) && RowAnswered(b.db.cards, row)
                 && b2.drawn == if row.Some? then b.drawn + [Draw(user, row.value)] else b.drawn
  {
    ChargeEffect(b.db, user, now, draw);
    HitAnswers(b.db.cards, row);
    assert b.passed[call := user] - {call} == b.passed;
  }

  /** With distinct indexes one card at most has the lowest free index, and it is the free one. */
  lemma OneAtLowest(cards: Cards, c: Uuid, d: Uuid)
    requires DistinctIndexes(cards) && AtLowestFree(cards, c)
    ensures cards[c].owner == None && (AtLowestFree(cards, d) ==> d == c)
  {
  }

  /**
   * A drawn card shows up in its new owner's list of cards in the default order, at the time of the
   * draw; and on a page without cursors, if that time lies inside the default bounds.
   */
  lemma DrawnIsListed(db: Db, user: Uuid, now: Time, draw: Uuid -> real, c: Uuid)
    requires user in db.points && 100 <= db.points[user] && AtLowestFree(db.cards, c)
    ensures var cards' := ChargeSql(db, user, now, draw).cards;
            && Keyed(c, now) in Listing(cards', user, ByOwnedAt)
            && (c in Wanted(cards', user, ByOwnedAt, None, None) <==> -62167219139.0 < now < 253370764861.0)
  {
    ChargeEffect(db, user, now, draw);
    var cards' := ChargeSql(db, user, now, draw).cards;
    assert CardCharged(db.cards, cards', c, user, now, draw);
    OwnedIsListed(cards', user, now, c);
  }

  lemma OwnedIsListed(cards: Cards, user: Uuid, now: Time, c: Uuid)
    requires c in cards && cards[c].owner == Some(user) && cards[c].ownedAt == Some(now)
    ensures Keyed(c, now) in Listing(cards, user, ByOwnedAt)
    ensures c in Wanted(cards, user, ByOwnedAt, None, None) <==> -62167219139.0 < now < 253370764861.0
  {
    assert KeyOf(cards[c], ByOwnedAt) == Some(now) && SortedBy(cards[c], ByOwnedAt, now);
  }

  // ---------------------------------------------------------------- the results

  /**
   * Accounting, however checks and charges interleave: points never go negative, and a user loses
   * 100 for each committed charge. What a user owns at the end is what the user owned at first,
   * created since, and one card for each charge committed while some card was free; so each charge
   * is worth a card exactly if at each of them some card was free.
   */
  lemma GachaAccounts(bs: seq<Bank>, acts: seq<Act>, n: nat, u: Uuid)
    requires Run(bs, acts) && Initial(bs[0]) && n <= |acts| && u in bs[0].db.points
    ensures u in bs[n].db.points && 0 <= bs[n].db.points[u]
    ensures bs[0].db.points[u] - bs[n].db.points[u] == 100 * Times(Charging, bs, acts, n, u)
    ensures |Owned(bs[n].db.cards, u)|
            == |Owned(bs[0].db.cards, u)| + Times(Creating, bs, acts, n, u) + Times(Drawing, bs, acts, n, u)
    ensures Times(Drawing, bs, acts, n, u) <= Times(Charging, bs, acts, n, u)
    ensures Times(Drawing, bs, acts, n, u) == Times(Charging, bs, acts, n, u) <==>
            forall i | 0 <= i < n && Happens(Charging, bs[i], acts[i], u) ::
              exists c :: c in bs[i].db.cards && Free(bs[i].db.cards, c)
  {
    PointsOverRuns(bs, acts, n, u);
    OwnedOverRuns(bs, acts, n, u);
    EveryChargeDraws(bs, acts, n, u);
  }

  /** No card is handed out twice, and nobody loses a card. */
  lemma NoCardTwice(bs: seq<Bank>, acts: seq<Act>, n: nat)
    requires Run(bs, acts) && Initial(bs[0]) && n <= |acts|
    ensures forall i, j | 0 <= i < j < |bs[n].drawn| :: bs[n].drawn[i].card != bs[n].drawn[j].card
    ensures forall i | 0 <= i < |bs[n].drawn| ::
              var d := bs[n].drawn[i];
              d.card in bs[n].db.cards && bs[n].db.cards[d.card].owner == Some(d.user)
    ensures forall c :: c in bs[0].db.cards && bs[0].db.cards[c].owner.Some?
              ==> c in bs[n].db.cards && bs[n].db.cards[c] == bs[0].db.cards[c]
  {
    BankOverRuns(bs, acts, n);
  }

  /**
   * Draw order: the cards handed out so far are the free cards of smallest initial index, in
   * ascending order, although every drawn card gets a new index.
   */
  lemma DrawsAscend(bs: seq<Bank>, acts: seq<Act>, n: nat)
    requires Run(bs, acts) && Initial(bs[0]) && n <= |acts|
    ensures forall i | 0 <= i < |bs[n].drawn| :: Free(bs[0].db.cards, bs[n].drawn[i].card)
    ensures forall i, j | 0 <= i < j < |bs[n].drawn| ::
              IndexIn(bs[0].db.cards, bs[n].drawn[i].card) < IndexIn(bs[0].db.cards, bs[n].drawn[j].card)
    ensures forall i, c | 0 <= i < |bs[n].drawn| && Free(bs[0].db.cards, c)
              && (forall j | 0 <= j < |bs[n].drawn| :: bs[n].drawn[j].card != c) ::
              IndexIn(bs[0].db.cards, bs[n].drawn[i].card) < IndexIn(bs[0].db.cards, c)
  {
    BankOverRuns(bs, acts, n);
  }

  // ---------------------------------------------------------------- distinct indexes are needed

  const RICH: Uuid := 1
  const SHARED: map<Uuid, Card> := map[
    7 := Card(1000.0, 0.0, None, None, None, 0.5),
    8 := Card(1000.0, 0.0, Some(0.0), Some(2), Some(2), 0.5)]

  /** With equal indexes one charge takes the free card and another user's card as well. */
  lemma EqualIndexesSteal(now: Time, draw: Uuid -> real)
    ensures var db := ChargeSql(Db(map[], SHARED, map[RICH := 100]), RICH, now, draw);
            db.cards[7].owner == Some(RICH) && db.cards[8].owner == Some(RICH)
  {
    assert LowestFree(SHARED, 7);
    assert Hits(SHARED) == {7, 8};
  }
}
