/** The tables, and each SQL statement of the service as one atomic step over them. */
module Postgres {
  import opened Types

  datatype Db = Db(rows: map<Uuid, Row>, cards: map<Uuid, Card>, points: map<Uuid, int>)

  // ---------------------------------------------------------------- SELECT

  function ViewCard(c: Card): CardView {
    CardView(c.rating, c.createdAt, c.ownedAt, c.owner, c.creator)
  }

  function JoinCard(cards: map<Uuid, Card>, id: Option<Uuid>): Option<CardView> {
    if id.Some? && id.value in cards then Some(ViewCard(cards[id.value])) else None
  }

  function JoinPoints(points: map<Uuid, int>, id: Option<Uuid>): Option<int> {
    if id.Some? && id.value in points then Some(points[id.value]) else None
  }

  /** A battle row left-joined with its cards and users. */
  function View(db: Db, id: Uuid): DuelBattle
    requires id in db.rows
  {
    var r := db.rows[id];
    DuelBattle(id, r, JoinCard(db.cards, Some(r.card1)), JoinCard(db.cards, r.card2),
               JoinPoints(db.points, Some(r.user1)), JoinPoints(db.points, r.user2))
  }

  /** `v` is card `card` as the joins show it, or nothing if there is no such card. */
  predicate ShowsCard(cards: map<Uuid, Card>, card: Option<Uuid>, v: Option<CardView>) {
    if card.Some? && card.value in cards then
      var c := cards[card.value];
      && v.Some?
      && v.value.rating == c.rating && v.value.createdAt == c.createdAt && v.value.ownedAt == c.ownedAt
      && v.value.owner == c.owner && v.value.creator == c.creator
    else v.None?
  }

  /** `b` shows row `id` with each side's card. */
  predicate ShowsBattle(db: Db, id: Uuid, b: DuelBattle) {
    && id in db.rows && b.id == id && b.row == db.rows[id]
    && ShowsCard(db.cards, Some(db.rows[id].card1), b.card1)
    && ShowsCard(db.cards, db.rows[id].card2, b.card2)
  }

  predicate ShowsPoints(points: map<Uuid, int>, user: Option<Uuid>, v: Option<int>) {
    if user.Some? && user.value in points then v == Some(points[user.value]) else v == None
  }

  /** A row's view shows the row, its own cards and its own users' points. */
  lemma ViewShows(db: Db, id: Uuid)
    requires id in db.rows
    ensures var b := View(db, id);
            && ShowsBattle(db, id, b)
            && ShowsPoints(db.points, Some(db.rows[id].user1), b.points1)
            && ShowsPoints(db.points, db.rows[id].user2, b.points2)
  {
  }

  /** Equality with the view, points aside, means to show the row and its cards. */
  lemma SameBattleShows(db: Db, id: Uuid, b: DuelBattle)
    requires id in db.rows
    ensures SameBattle(b, View(db, id)) <==> ShowsBattle(db, id, b)
  {
  }

  // ---------------------------------------------------------------- start

  predicate Owns(cards: map<Uuid, Card>, card: Uuid, user: Uuid) {
    card in cards && cards[card].owner == Some(user)
  }

  predicate Holds(r: Row, card: Uuid) {
    r.state != Finished && (r.card1 == card || r.card2 == Some(card))
  }

  predicate Busy(rows: map<Uuid, Row>, card: Uuid) {
    exists id :: id in rows && Holds(rows[id], card)
  }

  predicate CanStart(db: Db, card: Uuid, user: Uuid) {
    Owns(db.cards, card, user) && !Busy(db.rows, card)
  }

  /** A battle that `user` may join. */
  predicate Waiting(rows: map<Uuid, Row>, user: Uuid, id: Uuid) {
    id in rows && rows[id].state == Matching && rows[id].user1 != user
  }

  function Matched(r: Row, card: Uuid, user: Uuid, now: Time): Row {
    r.(card2 := Some(card), user2 := Some(user), expiredAt := Some(now + DUEL_BATTLE_TTL), state := Fighting)
  }

  function NewRow(card: Uuid, user: Uuid, rating: real, now: Time): Row {
    Row(0, 0, Matching, now, rating, card, user, None, None, None)
  }

  /**
   * The statement of `start_duel_battle`, given the battle that its sub-select picked.
   * Answers the id of the returned row, if any.
   */
  function StartSql(db: Db, card: Uuid, user: Uuid, now: Time, newId: Uuid, pick: Option<Uuid>): (Db, Option<Uuid>)
    requires pick.Some? ==> pick.value in db.rows
  {
    if pick.Some? then
      (db.(rows := db.rows[pick.value := Matched(db.rows[pick.value], card, user, now)]), pick)
    else if CanStart(db, card, user) then
      (db.(rows := db.rows[newId := NewRow(card, user, db.cards[card].rating, now)]), Some(newId))
    else
      (db, None)
  }

  // ---------------------------------------------------------------- finish

  function Finalised(r: Row, v1: int, v2: int): Row {
    r.(voteup1 := v1, voteup2 := v2, state := Finished)
  }

  /** Sets both tallies and the state of the row `id`, if there is one. */
  function FinishSql(db: Db, id: Uuid, v1: int, v2: int): Db {
    if id in db.rows then db.(rows := db.rows[id := Finalised(db.rows[id], v1, v2)]) else db
  }

  // ---------------------------------------------------------------- gacha and card creation

  predicate Free(cards: map<Uuid, Card>, c: Uuid) {
    c in cards && cards[c].owner == None
  }

  /** The sub-select of the charge: a free card of lowest index. */
  predicate LowestFree(cards: map<Uuid, Card>, c: Uuid) {
    Free(cards, c) && forall d :: d in cards && Free(cards, d) ==> cards[c].index <= cards[d].index
  }

  /** The cards that the charge updates: every card, free or not, whose index is the selected one. */
  function Hits(cards: map<Uuid, Card>): set<Uuid> {
    set c | c in cards && exists d :: d in cards && LowestFree(cards, d) && cards[c].index == cards[d].index
  }

  function Redrawn(c: Card, user: Uuid, now: Time, index: real): Card {
    c.(owner := Some(user), ownedAt := Some(now), index := index)
  }

  predicate CanPay(db: Db, user: Uuid) {
    user in db.points && db.points[user] >= 100
  }

  /**
   * The charging statement of `gacha_card`. The user pays even if no card is hit; the trigger
   * gives each updated card the index `draw` chooses for it.
   */
  function ChargeSql(db: Db, user: Uuid, now: Time, draw: Uuid -> real): Db {
    if !CanPay(db, user) then db
    else
      var hits := Hits(db.cards);
      Db(db.rows,
         map c | c in db.cards :: if c in hits then Redrawn(db.cards[c], user, now, draw(c)) else db.cards[c],
         db.points[user := db.points[user] - 100])
  }

  /** The rating column defaults to 1000. */
  function CreateCardSql(db: Db, user: Uuid, now: Time, newId: Uuid, index: real): Db {
    db.(cards := db.cards[newId := Card(1000.0, now, Some(now), Some(user), Some(user), index)])
  }

  ghost predicate OthersKept<K(!new), V>(m: map<K, V>, m': map<K, V>, k: K) {
    m'.Keys == m.Keys + {k} && forall x | x in m && x != k :: m'[x] == m[x]
  }

  /** Row `id` is settled with the two totals; nothing else of it changes, nor any other row. */
  ghost predicate Settled(db: Db, db': Db, id: Uuid, total1: int, total2: int) {
    && id in db.rows && OthersKept(db.rows, db'.rows, id) && db'.cards == db.cards && db'.points == db.points
    && var r, r' := db.rows[id], db'.rows[id];
       && r'.state == Finished && r'.voteup1 == total1 && r'.voteup2 == total2
       && r'.createdAt == r.createdAt && r'.rating == r.rating && r'.expiredAt == r.expiredAt
       && r'.card1 == r.card1 && r'.user1 == r.user1 && r'.card2 == r.card2 && r'.user2 == r.user2
  }

  /** One card more, made and owned by the user, and nothing else. */
  ghost predicate CardAdded(db: Db, db': Db, user: Uuid, now: Time, newCard: Uuid, index: real) {
    && OthersKept(db.cards, db'.cards, newCard) && db'.rows == db.rows && db'.points == db.points
    && var c := db'.cards[newCard];
       && c.owner == Some(user) && c.creator == Some(user) && c.ownedAt == Some(now) && c.createdAt == now
       && c.rating == 1000.0 && c.index == index
  }

  // ---------------------------------------------------------------- what the charge hits

  /** Card `c` has the index of a free card than which no free card has a lower one. */
  predicate AtLowestFree(cards: map<Uuid, Card>, c: Uuid) {
    c in cards &&
    exists d :: d in cards && cards[d].owner == None && cards[d].index == cards[c].index
                && forall e :: e in cards && cards[e].owner == None ==> cards[d].index <= cards[e].index
  }

  /** Card `c` after a charge: given to the user if its index is the lowest free one, and as it was otherwise. */
  predicate CardCharged(cards: map<Uuid, Card>, cards': map<Uuid, Card>, c: Uuid, user: Uuid, now: Time,
                        draw: Uuid -> real)
  {
    c in cards && c in cards' &&
    if AtLowestFree(cards, c) then
      && cards'[c].owner == Some(user) && cards'[c].ownedAt == Some(now) && cards'[c].index == draw(c)
      && cards'[c].rating == cards[c].rating && cards'[c].createdAt == cards[c].createdAt
      && cards'[c].creator == cards[c].creator
    else cards'[c] == cards[c]
  }

  /** A user with 100 points pays them and takes the cards; for anyone else nothing changes. */
  ghost predicate ChargedAs(db: Db, db': Db, user: Uuid, now: Time, draw: Uuid -> real) {
    if user in db.points && 100 <= db.points[user] then
      && db'.rows == db.rows && db'.cards.Keys == db.cards.Keys
      && db'.points == db.points[user := db.points[user] - 100]
      && forall c | c in db.cards :: CardCharged(db.cards, db'.cards, c, user, now, draw)
    else db' == db
  }

  /** The charging statement in terms of users' points and cards' fields alone. */
  lemma ChargeEffect(db: Db, user: Uuid, now: Time, draw: Uuid -> real)
    ensures ChargedAs(db, ChargeSql(db, user, now, draw), user, now, draw)
  {
    forall c | c in db.cards ensures c in Hits(db.cards) <==> AtLowestFree(db.cards, c) {
      HitsMeansLowest(db.cards, c);
    }
  }

  /** The answer is a card at the lowest free index, or nothing if no card is free. */
  ghost predicate RowAnswered(cards: map<Uuid, Card>, row: Option<Uuid>) {
    if row.Some? then AtLowestFree(cards, row.value) else forall c :: c in cards ==> cards[c].owner != None
  }

  lemma HitAnswers(cards: map<Uuid, Card>, row: Option<Uuid>)
    requires if row.Some? then row.value in Hits(cards) else Hits(cards) == {}
    ensures RowAnswered(cards, row)
  {
    if row.Some? {
      HitsMeansLowest(cards, row.value);
    } else if c :| c in cards && cards[c].owner == None {
      SomeHit(cards, c);
    }
  }

  lemma SomeHit(cards: map<Uuid, Card>, c: Uuid)
    requires Free(cards, c)
    ensures Hits(cards) != {}
  {
    var free := set d | d in cards && Free(cards, d);
    assert c in free;
    var d := LowestExists(cards, free);
    assert LowestFree(cards, d) && d in Hits(cards);
  }

  lemma HitsMeansLowest(cards: map<Uuid, Card>, c: Uuid)
    ensures c in Hits(cards) <==> AtLowestFree(cards, c)
  {
    if c in Hits(cards) {
      var d :| d in cards && LowestFree(cards, d) && cards[c].index == cards[d].index;
    }
    if AtLowestFree(cards, c) {
      var d :| d in cards && cards[d].owner == None && cards[d].index == cards[c].index
               && forall e :: e in cards && cards[e].owner == None ==> cards[d].index <= cards[e].index;
      assert LowestFree(cards, d);
    }
  }

  ghost predicate DistinctIndexes(cards: map<Uuid, Card>) {
    forall a, b | a in cards && b in cards && a != b :: cards[a].index != cards[b].index
  }

  lemma {:induction false} LowestExists(cards: map<Uuid, Card>, some: set<Uuid>) returns (c: Uuid)
    requires some != {} && some <= cards.Keys
    ensures c in some && forall d | d in some :: cards[c].index <= cards[d].index
    decreases |some|
  {
    var a :| a in some;
    c := a;
    if some != {a} {
      var b := LowestExists(cards, some - {a});
      c := if cards[b].index < cards[a].index then b else a;
    }
  }

  /** With distinct indexes a charge hits exactly one card, the lowest free one, or none if all are owned. */
  lemma HitsOneLowestFree(cards: map<Uuid, Card>)
    requires DistinctIndexes(cards)
    ensures forall c :: c in Hits(cards) <==> LowestFree(cards, c)
    ensures forall a, b :: a in Hits(cards) && b in Hits(cards) ==> a == b
    ensures Hits(cards) == {} <==> forall c :: c in cards ==> !Free(cards, c)
  {
    var free := set c | c in cards && Free(cards, c);
    if free != {} {
      var c := LowestExists(cards, free);
      assert LowestFree(cards, c) && c in Hits(cards);
    } else {
      forall c | c in cards ensures !Free(cards, c) {
        assert c !in free;
      }
    }
  }

  /**
   * Without that assumption: a charge takes a card away from its owner if and only if that
   * card's index equals the lowest free index.
   */
  lemma ChargeStealsExactly(db: Db, user: Uuid, now: Time, draw: Uuid -> real, c: Uuid)
    requires c in db.cards && db.cards[c].owner.Some? && db.cards[c].owner != Some(user)
    ensures ChargeSql(db, user, now, draw).cards[c].owner != db.cards[c].owner
       <==> CanPay(db, user)
            && exists d :: d in db.cards && LowestFree(db.cards, d) && db.cards[d].index == db.cards[c].index
  {
  }
}
