/** The server's shared state and its calls, each updating that state command by command. */
module Server {
  import opened Types
  import opened OrderBy
  import opened Postgres
  import opened Matching
  import opened Redis
  import opened Battles
  import opened Worlds
  import opened Expiry
  import opened Effects

  datatype GachaError = NotEnoughPoints | RowNotFound

  /** Every card of index `index` given to `user` and redrawn. */
  function WithIndex(cards: map<Uuid, Card>, index: real, user: Uuid, now: Time, draw: Uuid -> real): map<Uuid, Card> {
    map c | c in cards :: if cards[c].index == index then Redrawn(cards[c], user, now, draw(c)) else cards[c]
  }

  /** With a free card of lowest index, the charge updates the cards of that index. */
  lemma ChargeByIndex(db: Db, lowest: Uuid, user: Uuid, now: Time, draw: Uuid -> real)
    requires CanPay(db, user) && LowestFree(db.cards, lowest)
    ensures forall c :: c in Hits(db.cards) <==> c in db.cards && db.cards[c].index == db.cards[lowest].index
    ensures ChargeSql(db, user, now, draw).cards == WithIndex(db.cards, db.cards[lowest].index, user, now, draw)
  {
  }

  /** Without a free card it updates none. */
  lemma ChargeDry(db: Db, user: Uuid, now: Time, draw: Uuid -> real)
    requires CanPay(db, user) && forall c :: !Free(db.cards, c)
    ensures Hits(db.cards) == {} && ChargeSql(db, user, now, draw).cards == db.cards
  {
  }

  lemma ChargeTakes(db: Db, taken: map<Uuid, Card>, user: Uuid, now: Time, draw: Uuid -> real)
    requires CanPay(db, user) && taken == ChargeSql(db, user, now, draw).cards
    ensures Db(db.rows, taken, db.points[user := db.points[user] - 100]) == ChargeSql(db, user, now, draw)
  {
  }

  /** What a charge makes of the tables, and the card that it answers, if any. */
  ghost predicate ChargeOutcome(db: Db, db': Db, user: Uuid, now: Time, draw: Uuid -> real, row: Option<Uuid>) {
    && ChargedAs(db, db', user, now, draw)
    && if user in db.points && 100 <= db.points[user] then RowAnswered(db.cards, row) else row.None?
  }

  lemma OutcomeOfSql(db: Db, db': Db, user: Uuid, now: Time, draw: Uuid -> real, row: Option<Uuid>)
    requires db' == ChargeSql(db, user, now, draw)
    requires if !CanPay(db, user) then row.None?
             else if row.Some? then row.value in Hits(db.cards) else Hits(db.cards) == {}
    ensures ChargeOutcome(db, db', user, now, draw, row)
  {
    ChargeEffect(db, user, now, draw);
    if CanPay(db, user) {
      HitAnswers(db.cards, row);
    }
  }

  /** `UPDATE cards ... WHERE gacha_queue_index = index`, with the trigger; answers the first row it updates. */
  method UpdateIndex(heap: seq<Uuid>, was: map<Uuid, Card>, index: real, user: Uuid, now: Time, draw: Uuid -> real)
    returns (cards: map<Uuid, Card>, row: Option<Uuid>)
    requires NoDup(heap) && forall c :: c in heap <==> c in was
    ensures cards == WithIndex(was, index, user, now, draw)
    ensures row.Some? ==> row.value in was && was[row.value].index == index
    ensures row.None? ==> forall c | c in was :: was[c].index != index
  {
    cards, row := was, None;
    for i := 0 to |heap|
      invariant cards.Keys == was.Keys
      invariant forall j | i <= j < |heap| :: cards[heap[j]] == was[heap[j]]
      invariant forall j | 0 <= j < i :: var c := heap[j];
                  cards[c] == if was[c].index == index then Redrawn(was[c], user, now, draw(c)) else was[c]
      invariant row.Some? ==> row.value in was && was[row.value].index == index
      invariant row.None? ==> forall j | 0 <= j < i :: was[heap[j]].index != index
    {
      var c := heap[i];
      if cards[c].index == index {
        cards := cards[c := Redrawn(cards[c], user, now, draw(c))];
        row := if row.None? then Some(c) else row;
      }
    }
    forall c | c in was
      ensures cards[c] == if was[c].index == index then Redrawn(was[c], user, now, draw(c)) else was[c]
      ensures row.None? ==> was[c].index != index
    {
      var j :| 0 <= j < |heap| && heap[j] == c;
    }
  }

  class Pools {
    const profile: Profile

    // Postgres: the tables, and the row ids in the order in which a scan meets them
    var rows: map<Uuid, Row>
    var heap: seq<Uuid>
    var cards: map<Uuid, Card>
    var cardHeap: seq<Uuid>
    var points: map<Uuid, int>

    // Redis
    var store: Store
    var queue: Queue
    var history: History

    ghost predicate Valid()
      reads this
    {
      && NoDup(heap) && Matching.Lists(heap, rows)
      && NoDup(cardHeap) && forall c :: c in cardHeap <==> c in cards
    }

    function Tables(): Db
      reads this
    {
      Db(rows, cards, points)
    }

    function State(): Sys
      reads this
    {
      Sys(Tables(), Redis(store, queue, history))
    }

    constructor (profile: Profile)
      ensures Valid() && this.profile == profile
      ensures State() == Sys(Db(map[], map[], map[]), Redis(map[], [], map[]))
    {
      this.profile := profile;
      rows, heap, cards, cardHeap, points := map[], [], map[], [], map[];
      store, queue, history := map[], [], map[];
    }

    // ---------------------------------------------------------------- battles

    /** Joins a nearest waiting battle, or waits; fails exactly if the card is busy or not the user's. */
    method Start(card: Uuid, user: Uuid, now: Time, newId: Uuid)
      returns (r: Result<DuelBattle, Error>, ghost pick: Option<Uuid>)
      requires Valid() && newId !in rows
      modifies this
      ensures Valid()
      ensures MatchPick(old(Tables()), card, user, pick) && (pick.Some? ==> pick.value in old(rows))
      ensures pick.Some? ==> CanStart(old(Tables()), card, user)
                             && Nearest(old(rows), user, old(cards)[card].rating, pick)
      ensures (State(), r) == StartCall(profile, old(State()), card, user, now, newId, pick)
      ensures r.Err? <==> !(card in old(cards) && old(cards)[card].owner == Some(user)) || InUse(old(rows), card)
      ensures cards == old(cards) && cardHeap == old(cardHeap) && points == old(points) && history == old(history)
    {
      BusyIsInUse(rows, card);
      var found, startable := FindOpponent(heap, Tables(), card, user);
      pick := found;
      MatchPickMeaning(Tables(), card, user, pick);
      if !startable {
        return Err(AnotherBattleInProgress), pick;
      }
      var id := newId;
      if found.Some? {
        id := found.value;
        assert Waiting(rows, user, id);
        rows := rows[id := Matched(rows[id], card, user, now)];
      } else {
        rows := rows[id := NewRow(card, user, cards[card].rating, now)];
        heap := heap + [id];
      }
      var b := View(Tables(), id);
      if b.row.state == Fighting {
        store := HSet(profile, store, id, b);
        queue := ZAdd(queue, id, now);
      }
      r := Ok(b);
    }

    /** Counts a vote and sends the battle to the back of the queue, unless the voter is remembered. */
    method Vote(id: Uuid, idx: Byte, fp: Fingerprint, now: Time) returns (r: Result<int, Error>)
      requires Valid()
      modifies this`store, this`queue, this`history
      ensures Valid() && (State(), r) == VoteCall(profile, old(State()), id, idx, fp, now)
      ensures r.Err? <==> Remembered(old(history), id, fp, now)
    {
      if Remembered(history, id, fp, now) {
        return Err(VoteDuplicated);
      }
      history := SetEx(history, id, fp, now);
      var (store', voteup) := HIncrBy(store, id, VoteField(profile, idx));
      store := store';
      queue := ZAdd(queue, id, now);
      r := Ok(voteup);
    }

    /** Reads the tallies, forgets the battle in Redis, then settles its row. */
    method Finish(id: Uuid)
      requires Valid()
      modifies this`store, this`queue, this`rows
      ensures Valid() && State() == FinishCall(old(State()), id)
      ensures rows.Keys == old(rows).Keys
    {
      var h := HashAt(store, id);
      var v1, v2 := FieldAt(h, TallyField(1)), FieldAt(h, TallyField(2));
      store := Del(store, id);
      queue := ZRem(queue, id);
      if v1.Some? && v2.Some? && id in rows {
        rows := rows[id := Finalised(rows[id], v1.value, v2.value)];
      }
    }

    /** The battle at the head of the queue. */
    method Sample() returns (r: Result<DuelBattle, Error>)
      ensures r == SampleCall(State())
      ensures r.Ok? <==> queue != [] && HGet(store, queue[0].id).Some?
      ensures StoreOk(State()) ==>
                if queue == [] then r == Err(NoBattleAvailable)
                else r.Ok? && ShowsBattle(Tables(), queue[0].id, r.value)
    {
      var head := Head(queue);
      if head.None? {
        return Err(NoBattleAvailable);
      }
      var b := HGet(store, head.value);
      r := if b.Some? then Ok(b.value) else Err(NoBattleAvailable);
    }

    /** The stored battle, or else the row. */
    method Get(id: Uuid) returns (r: Result<DuelBattle, Error>)
      ensures r == GetCall(State(), id)
      ensures r.Err? <==> HGet(store, id).None? && id !in rows
      ensures StoreOk(State()) ==>
                if id in rows then r.Ok? && ShowsBattle(Tables(), id, r.value) else r == Err(BattleNotFound)
    {
      GetEffect(State(), id);
      if id in rows {
        SameBattleShows(Tables(), id, View(Tables(), id));
      }
      var b := HGet(store, id);
      if b.Some? {
        return Ok(b.value);
      }
      r := if id in rows then Ok(View(Tables(), id)) else Err(BattleNotFound);
    }

    /** The first hundred due battles by expiry. */
    method SelectDue(now: Time) returns (sel: seq<Keyed>)
      requires Valid()
      ensures Selected(profile, rows, now, sel)
      ensures SelectsFirst(if profile == Intended then Overdue(rows, now) else Unexpired(rows, now), sel)
    {
      var due: seq<Keyed> := [];
      for i := 0 to |heap|
        invariant NoDup(due)
        invariant forall x | x in due :: x.id in heap[..i]
        invariant forall x | x in due :: Due(profile, rows[x.id], now) && rows[x.id].expiredAt == Some(x.key)
        invariant forall j | 0 <= j < i && Due(profile, rows[heap[j]], now) ::
                    Keyed(heap[j], rows[heap[j]].expiredAt.value) in due
      {
        var id := heap[i];
        assert heap[..i + 1] == heap[..i] + [id];
        assert id !in heap[..i];
        if Due(profile, rows[id], now) {
          due := due + [Keyed(id, rows[id].expiredAt.value)];
        }
      }
      assert heap[..|heap|] == heap;
      forall x ensures x in due <==> x in DueSet(profile, rows, now) {
        if x in DueSet(profile, rows, now) {
          var j :| 0 <= j < |heap| && heap[j] == x.id;
          assert Due(profile, rows[heap[j]], now);
        }
      }
      assert Elems(due) == DueSet(profile, rows, now);
      sel := Top(due, Asc, EXPIRY_BATCH);
      SelectedFirst(profile, rows, now, sel);
    }

    /** Finishes the selected battles one by one and answers how many there were. */
    method Expire(now: Time) returns (count: nat, ghost sel: seq<Keyed>)
      requires Valid()
      modifies this`store, this`queue, this`rows
      ensures Valid() && Selected(profile, old(rows), now, sel)
      ensures State() == FinishAll(old(State()), Ids(sel)) && count == |sel|
      ensures SelectsFirst(if profile == Intended then Overdue(old(rows), now) else Unexpired(old(rows), now), sel)
      ensures forall id | id in old(rows) && id !in Ids(sel) :: id in rows && rows[id] == old(rows)[id]
      ensures forall id | id in Ids(sel) :: id !in store
    {
      var due := SelectDue(now);
      sel := due;
      count := 0;
      var ids := Ids(due);
      for i := 0 to |ids|
        invariant Valid() && count == i
        invariant FinishAll(State(), ids[i..]) == FinishAll(old(State()), ids)
      {
        assert ids[i..][0] == ids[i] && ids[i..][1..] == ids[i + 1..];
        Finish(ids[i]);
        count := count + 1;
      }
      forall id | id in ids ensures id !in store { Dropped(old(State()), ids, id); }
      forall id | id in old(rows) && id !in ids ensures id in rows && rows[id] == old(rows)[id] {
        FinishAllFrame(old(State()), ids, id);
      }
    }

    // ---------------------------------------------------------------- cards

    /** The sub-select of the charge: some free card of lowest index. */
    method FindLowestFree() returns (c: Option<Uuid>)
      requires Valid()
      ensures c.Some? ==> LowestFree(cards, c.value)
      ensures c.None? ==> forall d :: !Free(cards, d)
    {
      c := None;
      for i := 0 to |cardHeap|
        invariant c.Some? ==> Free(cards, c.value)
        invariant forall j | 0 <= j < i && Free(cards, cardHeap[j]) ::
                    c.Some? && cards[c.value].index <= cards[cardHeap[j]].index
      {
        var d := cardHeap[i];
        if Free(cards, d) && (c.None? || cards[d].index < cards[c.value].index) {
          c := Some(d);
        }
      }
    }

    /** The charging statement, for a user who can pay: takes the points, then every card of the lowest free index. */
    method Charge(user: Uuid, now: Time, draw: Uuid -> real) returns (row: Option<Uuid>)
      requires Valid()
      modifies this`points, this`cards
      ensures Valid() && Tables() == ChargeSql(old(Tables()), user, now, draw)
      ensures ChargeOutcome(old(Tables()), Tables(), user, now, draw, row)
    {
      ghost var db := Tables();
      row := PayAndTake(user, now, draw);
      OutcomeOfSql(db, Tables(), user, now, draw, row);
    }

    method PayAndTake(user: Uuid, now: Time, draw: Uuid -> real) returns (row: Option<Uuid>)
      requires Valid()
      modifies this`points, this`cards
      ensures Valid() && Tables() == ChargeSql(old(Tables()), user, now, draw)
      ensures if !CanPay(old(Tables()), user) then row.None?
              else if row.Some? then row.value in Hits(old(cards)) else Hits(old(cards)) == {}
    {
      if !CanPay(Tables(), user) {
        return None;
      }
      var taken;
      taken, row := TakeLowest(user, now, draw);
      ChargeTakes(Tables(), taken, user, now, draw);
      points, cards := points[user := points[user] - 100], taken;
    }

    /** What becomes of the cards when a user who can pay takes those of the lowest free index. */
    method TakeLowest(user: Uuid, now: Time, draw: Uuid -> real) returns (taken: map<Uuid, Card>, row: Option<Uuid>)
      requires Valid() && CanPay(Tables(), user)
      ensures taken == ChargeSql(Tables(), user, now, draw).cards && taken.Keys == cards.Keys
      ensures if row.Some? then row.value in Hits(cards) else Hits(cards) == {}
    {
      var lowest := FindLowestFree();
      if lowest.None? {
        ChargeDry(Tables(), user, now, draw);
        return cards, None;
      }
      ChargeByIndex(Tables(), lowest.value, user, now, draw);
      taken, row := UpdateIndex(cardHeap, cards, cards[lowest.value].index, user, now, draw);
    }

    /** Check, then charge. An empty pool still costs the points, and only then fails. */
    method GachaCard(user: Uuid, now: Time, draw: Uuid -> real) returns (r: Result<Uuid, GachaError>)
      requires Valid()
      modifies this`points, this`cards
      ensures Valid() && Tables() == ChargeSql(old(Tables()), user, now, draw)
      ensures r == Err(NotEnoughPoints) <==> user in old(points) && old(points)[user] < 100
      ensures ChargedAs(old(Tables()), Tables(), user, now, draw)
      ensures if user in old(points) && 100 <= old(points)[user]
              then RowAnswered(old(cards), if r.Ok? then Some(r.value) else None) else r.Err?
      ensures r.Ok? ==> r.value in old(cards) && r.value in cards
      ensures r.Ok? ==>
                var was, c := old(cards)[r.value], cards[r.value];
                && c.owner == Some(user) && c.ownedAt == Some(now) && c.index == draw(r.value)
                && c.rating == was.rating && c.createdAt == was.createdAt && c.creator == was.creator
      ensures r.Ok? && DistinctIndexes(old(cards)) ==>
                && old(cards)[r.value].owner == None
                && forall c | c in old(cards) && c != r.value :: c in cards && cards[c] == old(cards)[c]
    {
      if user !in points {
        return Err(RowNotFound);
      }
      if points[user] < GACHA_POINTS {
        return Err(NotEnoughPoints);
      }
      var row := Charge(user, now, draw);
      r := if row.Some? then Ok(row.value) else Err(RowNotFound);
    }

    /** Adds one card, owned and created by the user, and changes nothing else. */
    method CreateCard(user: Uuid, now: Time, newId: Uuid, index: real)
      requires Valid() && newId !in cards
      modifies this`cards, this`cardHeap
      ensures Valid() && Tables() == CreateCardSql(old(Tables()), user, now, newId, index)
      ensures CardAdded(old(Tables()), Tables(), user, now, newId, index)
    {
      cards := cards[newId := Card(1000.0, now, Some(now), Some(user), Some(user), index)];
      cardHeap := cardHeap + [newId];
    }
  }
}
