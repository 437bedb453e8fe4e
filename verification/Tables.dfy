/** What every statement keeps true of the tables, over whole runs of statements. */
module Tables {
  import opened Types
  import opened Postgres
  import opened Matching

  // ---------------------------------------------------------------- the invariant

  /** Matching rows have one side; all others have both, with different users, and an expiry. */
  predicate Shaped(r: Row) {
    if r.state == Matching then r.card2.None? && r.user2.None? && r.expiredAt.None?
    else r.card2.Some? && r.user2.Some? && r.expiredAt.Some? && r.user2.value != r.user1
  }

  ghost predicate RowShape(rows: map<Uuid, Row>) {
    forall id :: id in rows ==> Shaped(rows[id])
  }

  /** All waiting battles belong to one user. */
  ghost predicate SingleWaiter(rows: map<Uuid, Row>) {
    forall a, b :: a in rows && b in rows && rows[a].state == Matching && rows[b].state == Matching
                   ==> rows[a].user1 == rows[b].user1
  }

  /** Over all unfinished battles and both columns, a card fills at most one slot. */
  ghost predicate Exclusive(rows: map<Uuid, Row>) {
    && (forall id :: id in rows && rows[id].state != Finished ==> rows[id].card2 != Some(rows[id].card1))
    && (forall a, b, card :: a in rows && b in rows && Holds(rows[a], card) && Holds(rows[b], card) ==> a == b)
  }

  /** The users of a battle own its cards, and its rating is that of its first card. */
  predicate RowCoherent(cards: map<Uuid, Card>, r: Row) {
    && Owns(cards, r.card1, r.user1)
    && r.rating == cards[r.card1].rating
    && (r.card2.Some? && r.user2.Some? ==> Owns(cards, r.card2.value, r.user2.value))
  }

  ghost predicate Coherent(db: Db) {
    forall id :: id in db.rows ==> RowCoherent(db.cards, db.rows[id])
  }

  ghost predicate TableInv(db: Db) {
    RowShape(db.rows) && SingleWaiter(db.rows) && Exclusive(db.rows) && Coherent(db)
  }

  /** The two partial unique indexes on `card_id1` and `card_id2`. */
  ghost predicate UniqueIndexes(rows: map<Uuid, Row>) {
    && (forall a, b :: a in rows && b in rows && a != b && rows[a].state != Finished && rows[b].state != Finished
                       ==> rows[a].card1 != rows[b].card1)
    && (forall a, b :: a in rows && b in rows && a != b && rows[a].state != Finished && rows[b].state != Finished
                       && rows[a].card2.Some? && rows[b].card2.Some?
                       ==> rows[a].card2 != rows[b].card2)
  }

  lemma ExclusiveMeetsUniqueIndexes(rows: map<Uuid, Row>)
    requires Exclusive(rows)
    ensures UniqueIndexes(rows)
  {
    forall a, b | a in rows && b in rows && a != b && rows[a].state != Finished && rows[b].state != Finished
      ensures rows[a].card1 != rows[b].card1
      ensures rows[a].card2.Some? && rows[b].card2.Some? ==> rows[a].card2 != rows[b].card2
    {
      assert Holds(rows[a], rows[a].card1) && Holds(rows[b], rows[b].card1);
      if rows[a].card2.Some? && rows[a].card2 == rows[b].card2 {
        var card := rows[a].card2.value;
        assert Holds(rows[a], card) && Holds(rows[b], card);
      }
    }
  }

  // ---------------------------------------------------------------- counting

  ghost function InState(rows: map<Uuid, Row>, waiting: bool): set<Uuid> {
    set id | id in rows && (rows[id].state == Matching) == waiting
  }

  /** Slots taken: one by a waiting battle, two by any other. */
  ghost function Slots(rows: map<Uuid, Row>): nat {
    |InState(rows, true)| + 2 * |InState(rows, false)|
  }

  lemma SlotsOfInsert(rows: map<Uuid, Row>, id: Uuid, r: Row)
    requires id !in rows && r.state == Matching
    ensures Slots(rows[id := r]) == Slots(rows) + 1
  {
    assert InState(rows[id := r], true) == InState(rows, true) + {id};
    assert InState(rows[id := r], false) == InState(rows, false);
  }

  lemma SlotsOfUpdate(rows: map<Uuid, Row>, id: Uuid, r: Row)
    requires id in rows && r.state != Matching
    ensures Slots(rows[id := r]) == Slots(rows) + if rows[id].state == Matching then 1 else 0
  {
    var rows' := rows[id := r];
    var was := rows[id].state == Matching;
    assert id in InState(rows, was) && id !in InState(rows, !was);
    assert InState(rows', true) == InState(rows, true) - {id};
    assert InState(rows', false) == InState(rows, false) + {id};
    assert was ==> |InState(rows', true)| == |InState(rows, true)| - 1;
    assert !was ==> InState(rows', true) == InState(rows, true) && InState(rows', false) == InState(rows, false);
  }

  // ---------------------------------------------------------------- one statement at a time

  lemma MatchKeepsExclusive(rows: map<Uuid, Row>, b: Uuid, card: Uuid, user: Uuid, now: Time)
    requires Exclusive(rows) && !Busy(rows, card)
    requires b in rows && rows[b].state == Matching && rows[b].card2.None?
    ensures Exclusive(rows[b := Matched(rows[b], card, user, now)])
  {
    var rows' := rows[b := Matched(rows[b], card, user, now)];
    assert Holds(rows[b], rows[b].card1);
    forall x, y, c | x in rows' && y in rows' && Holds(rows'[x], c) && Holds(rows'[y], c)
      ensures x == y
    {
      if c != card {
        assert Holds(rows[x], c) && Holds(rows[y], c);
      } else {
        assert !Holds(rows[x], c) && !Holds(rows[y], c);
      }
    }
  }

  lemma StartKeepsTables(db: Db, card: Uuid, user: Uuid, now: Time, newId: Uuid, pick: Option<Uuid>)
    requires TableInv(db) && newId !in db.rows && MatchPick(db, card, user, pick)
    ensures TableInv(StartSql(db, card, user, now, newId, pick).0)
  {
    MatchPickMeaning(db, card, user, pick);
    if pick.Some? {
      assert Waiting(db.rows, user, pick.value);
      MatchKeepsExclusive(db.rows, pick.value, card, user, now);
    } else if CanStart(db, card, user) {
      forall id | id in db.rows && db.rows[id].state == Matching ensures db.rows[id].user1 == user {
        assert !Waiting(db.rows, user, id);
      }
      assert forall id :: id in db.rows ==> !Holds(db.rows[id], card);
    }
  }

  /** A successful start takes exactly one more slot; a failed one changes nothing. */
  lemma StartTakesOneSlot(db: Db, card: Uuid, user: Uuid, now: Time, newId: Uuid, pick: Option<Uuid>)
    requires newId !in db.rows && MatchPick(db, card, user, pick)
    ensures var (db', r) := StartSql(db, card, user, now, newId, pick);
            Slots(db'.rows) == Slots(db.rows) + if r.Some? then 1 else 0
  {
    MatchPickMeaning(db, card, user, pick);
    if pick.Some? {
      assert Waiting(db.rows, user, pick.value);
      SlotsOfUpdate(db.rows, pick.value, Matched(db.rows[pick.value], card, user, now));
    } else if CanStart(db, card, user) {
      SlotsOfInsert(db.rows, newId, NewRow(card, user, db.cards[card].rating, now));
    }
  }

  /** Finishing keeps the tables in order exactly if it does not finish a battle that still waits. */
  lemma FinishKeepsTables(db: Db, id: Uuid, v1: int, v2: int)
    requires TableInv(db)
    ensures TableInv(FinishSql(db, id, v1, v2)) <==> (id in db.rows ==> db.rows[id].state != Matching)
    ensures (id in db.rows ==> db.rows[id].state != Matching) ==>
              Slots(FinishSql(db, id, v1, v2).rows) == Slots(db.rows)
  {
    var rows' := FinishSql(db, id, v1, v2).rows;
    if id in db.rows {
      SlotsOfUpdate(db.rows, id, rows'[id]);
      assert Shaped(db.rows[id]) && (Shaped(rows'[id]) <==> db.rows[id].state != Matching);
    }
    forall x, c | x in rows' && Holds(rows'[x], c) ensures Holds(db.rows[x], c) {}
  }

  /** A charge never touches an owned card, given distinct indexes. */
  lemma ChargeKeepsOwned(db: Db, user: Uuid, now: Time, draw: Uuid -> real)
    requires DistinctIndexes(db.cards)
    ensures var db' := ChargeSql(db, user, now, draw);
            && db'.rows == db.rows
            && db'.cards.Keys == db.cards.Keys
            && forall c | c in db.cards && db.cards[c].owner.Some? :: db'.cards[c] == db.cards[c]
  {
    HitsOneLowestFree(db.cards);
  }

  lemma ChargeKeepsTables(db: Db, user: Uuid, now: Time, draw: Uuid -> real)
    requires TableInv(db) && DistinctIndexes(db.cards)
    ensures TableInv(ChargeSql(db, user, now, draw))
  {
    ChargeKeepsOwned(db, user, now, draw);
  }

  lemma CreateCardKeepsTables(db: Db, user: Uuid, now: Time, newId: Uuid, index: real)
    requires TableInv(db) && newId !in db.cards
    ensures TableInv(CreateCardSql(db, user, now, newId, index))
  {
  }

  // ---------------------------------------------------------------- what a row shows

  /** Rows that a change of one row leaves alone keep their view, as long as the cards stay. */
  lemma ViewFrame(db: Db, db': Db, id: Uuid)
    requires id in db.rows && id in db'.rows && db.rows[id] == db'.rows[id] && RowCoherent(db.cards, db.rows[id])
    requires Shaped(db.rows[id]) && OwnedKept(db.cards, db'.cards)
    ensures SameBattle(View(db, id), View(db', id))
  {
  }

  ghost predicate OwnedKept(cards: map<Uuid, Card>, cards': map<Uuid, Card>) {
    forall c :: c in cards && cards[c].owner.Some? ==> c in cards' && cards'[c] == cards[c]
  }

  /** With the tables in order, a battle shows each side's own card, and its rating is its first card's. */
  lemma ViewShowsOwnCards(db: Db, id: Uuid)
    requires TableInv(db) && id in db.rows
    ensures var b := View(db, id);
            && b.card1.Some? && b.card1.value.owner == Some(b.row.user1) && b.card1.value.rating == b.row.rating
            && (b.row.state == Matching <==> b.card2.None?)
            && (b.row.state != Matching ==> b.card2.value.owner == b.row.user2 && b.row.user2 != Some(b.row.user1))
            && b.row == db.rows[id] && b.card1.value.rating == db.cards[db.rows[id].card1].rating
            && (b.card2.Some? ==> db.rows[id].card2.Some? && db.rows[id].card2.value in db.cards
                                  && b.card2.value.rating == db.cards[db.rows[id].card2.value].rating)
            && ShowsBattle(db, id, b)
  {
    assert RowCoherent(db.cards, db.rows[id]) && Shaped(db.rows[id]);
  }

  // ---------------------------------------------------------------- runs of statements

  datatype Statement =
    | Start(card: Uuid, user: Uuid, now: Time, newId: Uuid, pick: Option<Uuid>)
    | Finish(id: Uuid, v1: int, v2: int)
    | Charge(payer: Uuid, at: Time, draw: Uuid -> real)
    | Create(creator: Uuid, when: Time, newCard: Uuid, index: real)

  /** Fresh ids, distinct queue indexes, and finishing only battles that were matched. */
  ghost predicate Legal(db: Db, s: Statement) {
    match s
    case Start(card, user, now, newId, pick) => newId !in db.rows && MatchPick(db, card, user, pick)
    case Finish(id, v1, v2) => id in db.rows ==> db.rows[id].state != Matching
    case Charge(payer, at, draw) => DistinctIndexes(db.cards)
    case Create(creator, when, newCard, index) => newCard !in db.cards
  }

  ghost function Execute(db: Db, s: Statement): Db
    requires Legal(db, s)
  {
    match s
    case Start(card, user, now, newId, pick) =>
      MatchPickMeaning(db, card, user, pick);
      StartSql(db, card, user, now, newId, pick).0
    case Finish(id, v1, v2) => FinishSql(db, id, v1, v2)
    case Charge(payer, at, draw) => ChargeSql(db, payer, at, draw)
    case Create(creator, when, newCard, index) => CreateCardSql(db, creator, when, newCard, index)
  }

  predicate Succeeds(db: Db, s: Statement)
    requires s.Start? && s.pick.Some? ==> s.pick.value in db.rows
  {
    s.Start? && StartSql(db, s.card, s.user, s.now, s.newId, s.pick).1.Some?
  }

  ghost predicate StatementRun(dbs: seq<Db>, ss: seq<Statement>) {
    && |dbs| == |ss| + 1
    && forall i | 0 <= i < |ss| :: Legal(dbs[i], ss[i]) && dbs[i + 1] == Execute(dbs[i], ss[i])
  }

  ghost function Starts(dbs: seq<Db>, ss: seq<Statement>, n: nat): nat
    requires StatementRun(dbs, ss) && n <= |ss|
  {
    if n == 0 then 0
    else
      assert Legal(dbs[n - 1], ss[n - 1]);
      if ss[n - 1].Start? then
        MatchPickMeaning(dbs[n - 1], ss[n - 1].card, ss[n - 1].user, ss[n - 1].pick);
        Starts(dbs, ss, n - 1) + if Succeeds(dbs[n - 1], ss[n - 1]) then 1 else 0
      else Starts(dbs, ss, n - 1)
  }

  lemma ExecuteKeepsTables(db: Db, s: Statement)
    requires TableInv(db) && Legal(db, s)
    ensures TableInv(Execute(db, s))
  {
    match s
    case Start(card, user, now, newId, pick) =>
      MatchPickMeaning(db, card, user, pick);
      StartKeepsTables(db, card, user, now, newId, pick);
    case Finish(id, v1, v2) => FinishKeepsTables(db, id, v1, v2);
    case Charge(payer, at, draw) => ChargeKeepsTables(db, payer, at, draw);
    case Create(creator, when, newCard, index) => CreateCardKeepsTables(db, creator, when, newCard, index);
  }

  /**
   * From an empty battle table, after any run of starts, finishes, draws and card creations: one
   * waiting user, no card in two slots (so neither unique index rejects a write), users own their
   * cards, rows keep their shape, and the successful starts are the slots taken.
   */
  lemma {:induction false} TablesOverRuns(dbs: seq<Db>, ss: seq<Statement>, n: nat)
    requires StatementRun(dbs, ss) && n <= |ss| && dbs[0].rows == map[]
    ensures TableInv(dbs[n]) && UniqueIndexes(dbs[n].rows)
    ensures Starts(dbs, ss, n) == Slots(dbs[n].rows)
  {
    if n == 0 {
      assert InState(dbs[0].rows, true) == {} && InState(dbs[0].rows, false) == {};
    } else {
      TablesOverRuns(dbs, ss, n - 1);
      var db, s := dbs[n - 1], ss[n - 1];
      assert Legal(db, s) && dbs[n] == Execute(db, s);
      ExecuteKeepsTables(db, s);
      match s {
        case Start(card, user, now, newId, pick) => StartTakesOneSlot(db, card, user, now, newId, pick);
        case Finish(id, v1, v2) => FinishKeepsTables(db, id, v1, v2);
        case Charge(payer, at, draw) => ChargeKeepsOwned(db, payer, at, draw);
        case Create(creator, when, newCard, index) =>
      }
    }
    ExclusiveMeetsUniqueIndexes(dbs[n].rows);
  }
}
