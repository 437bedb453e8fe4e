/**
 * What each call changes and answers, in terms of rows, hashes, history and queue entries alone,
 * without the functions that the calls are composed of.
 */
module Effects {
  import opened Types
  import opened OrderBy
  import opened Postgres
  import opened Matching
  import opened Tables
  import opened Redis
  import opened Battles
  import Worlds

  // ---------------------------------------------------------------- start

  /** An unfinished battle has the card on either side. */
  predicate InUse(rows: map<Uuid, Row>, card: Uuid) {
    exists id :: id in rows && rows[id].state != Finished && (rows[id].card1 == card || rows[id].card2 == Some(card))
  }

  /** Another user's battle waits. */
  predicate Opponent(rows: map<Uuid, Row>, user: Uuid, id: Uuid) {
    id in rows && rows[id].state == Matching && rows[id].user1 != user
  }

  function Distance(a: real, b: real): real {
    if a <= b then b - a else a - b
  }

  /** The card joins battle `id`, which of all opponents is nearest in rating. */
  ghost predicate Joins(db: Db, db': Db, id: Uuid, card: Uuid, user: Uuid, now: Time) {
    && card in db.cards && Opponent(db.rows, user, id)
    && (forall x | Opponent(db.rows, user, x) ::
          Distance(db.cards[card].rating, db.rows[id].rating) <= Distance(db.cards[card].rating, db.rows[x].rating))
    && OthersKept(db.rows, db'.rows, id) && db'.cards == db.cards && db'.points == db.points
    && var r, r' := db.rows[id], db'.rows[id];
       && r'.state == Fighting && r'.card2 == Some(card) && r'.user2 == Some(user) && r'.expiredAt == Some(now + 600.0)
       && r'.voteup1 == r.voteup1 && r'.voteup2 == r.voteup2 && r'.createdAt == r.createdAt
       && r'.rating == r.rating && r'.card1 == r.card1 && r'.user1 == r.user1
  }

  /** The card waits in a new battle, because there is no opponent. */
  ghost predicate Waits(db: Db, db': Db, newId: Uuid, card: Uuid, user: Uuid, now: Time) {
    && card in db.cards && (forall x :: !Opponent(db.rows, user, x))
    && OthersKept(db.rows, db'.rows, newId) && db'.cards == db.cards && db'.points == db.points
    && var r := db'.rows[newId];
       && r.state == Matching && r.card1 == card && r.user1 == user && r.rating == db.cards[card].rating
       && r.card2.None? && r.user2.None? && r.expiredAt.None?
       && r.voteup1 == 0 && r.voteup2 == 0 && r.createdAt == now
  }

  /** The queue is sorted by score and then by id, and holds a battle once. */
  ghost predicate InOrder(q: Queue) {
    forall i, j | 0 <= i < j < |q| ::
      q[i].id != q[j].id && (q[i].key < q[j].key || (q[i].key == q[j].key && q[i].id < q[j].id))
  }

  /** Battle `id` enters or moves to `score`, and the other entries stay. */
  ghost predicate Requeued(q: Queue, q': Queue, id: Uuid, score: real) {
    InOrder(q') && forall e :: e in q' <==> (e in q && e.id != id) || e == Keyed(id, score)
  }

  /** A match is stored with its blob and its two counters, and queued. */
  ghost predicate Publishes(p: Profile, r: Redis, r': Redis, b: DuelBattle, score: real) {
    && OthersKept(r.store, r'.store, b.id) && r'.history == r.history && Requeued(r.queue, r'.queue, b.id, score)
    && var h, f1, f2 := r'.store[b.id], if p == Intended then "voteup1" else "vote1",
                        if p == Intended then "voteup2" else "vote2";
       && h.blob == Some(b)
       && f1 in h.fields && h.fields[f1] == b.row.voteup1 && f2 in h.fields && h.fields[f2] == b.row.voteup2
       && var was := if b.id in r.store then r.store[b.id].fields else map[];
          h.fields.Keys == was.Keys + {f1, f2} && forall f | f in was && f != f1 && f != f2 :: h.fields[f] == was[f]
  }

  /** A start fails if and only if the card is not the user's or an unfinished battle has it on either side. */
  lemma StartFailsExactly(p: Profile, s: Sys, card: Uuid, user: Uuid, now: Time, newId: Uuid, pick: Option<Uuid>)
    requires MatchPick(s.db, card, user, pick) && (pick.Some? ==> pick.value in s.db.rows)
    ensures StartCall(p, s, card, user, now, newId, pick).1.Err? <==>
            !(card in s.db.cards && s.db.cards[card].owner == Some(user)) || InUse(s.db.rows, card)
  {
    MatchPickMeaning(s.db, card, user, pick);
    BusyIsInUse(s.db.rows, card);
  }

  lemma BusyIsInUse(rows: map<Uuid, Row>, card: Uuid)
    ensures Busy(rows, card) <==> InUse(rows, card)
  {
    if Busy(rows, card) {
      var id :| id in rows && Holds(rows[id], card);
    }
    if InUse(rows, card) {
      var id :| id in rows && rows[id].state != Finished && (rows[id].card1 == card || rows[id].card2 == Some(card));
      assert Holds(rows[id], card);
    }
  }

  /** What a start does to the tables. */
  lemma StartRows(db: Db, card: Uuid, user: Uuid, now: Time, newId: Uuid, pick: Option<Uuid>)
    requires MatchPick(db, card, user, pick) && newId !in db.rows && (pick.Some? ==> pick.value in db.rows)
    ensures var (db', id) := StartSql(db, card, user, now, newId, pick);
            if id.None? then db' == db
            else if pick.Some? then id == pick && Joins(db, db', id.value, card, user, now)
            else id == Some(newId) && Waits(db, db', newId, card, user, now)
  {
    MatchPickMeaning(db, card, user, pick);
    forall x ensures Opponent(db.rows, user, x) <==> Waiting(db.rows, user, x) {}
  }

  lemma ZAddRequeues(q: Queue, id: Uuid, score: real)
    requires QueueOk(q)
    ensures Requeued(q, ZAdd(q, id, score), id, score)
  {
    ZRemMembers(q, id);
    InsertMembers(ZRem(q, id), Keyed(id, score));
    ZCommandsKeepOk(q, id, score);
  }

  lemma PublishEffect(p: Profile, r: Redis, b: DuelBattle, score: real)
    requires QueueOk(r.queue)
    ensures Publishes(p, r, Publish(p, r, b, score), b, score)
  {
    ZAddRequeues(r.queue, b.id, score);
  }

  /**
   * A start that does not fail answers its row with both cards and all points. It joins a nearest
   * opponent and publishes the match, or waits alone and leaves Redis as it is.
   */
  lemma StartEffect(p: Profile, s: Sys, card: Uuid, user: Uuid, now: Time, newId: Uuid, pick: Option<Uuid>)
    requires MatchPick(s.db, card, user, pick) && newId !in s.db.rows && (pick.Some? ==> pick.value in s.db.rows)
    requires QueueOk(s.redis.queue)
    ensures var (s', r) := StartCall(p, s, card, user, now, newId, pick);
            if r.Err? then s' == s && r == Err(AnotherBattleInProgress)
            else
              && ShowsBattle(s'.db, r.value.id, r.value)
              && ShowsPoints(s'.db.points, Some(r.value.row.user1), r.value.points1)
              && ShowsPoints(s'.db.points, r.value.row.user2, r.value.points2)
              && if r.value.row.state == Fighting then
                   Joins(s.db, s'.db, r.value.id, card, user, now) && Publishes(p, s.redis, s'.redis, r.value, now)
                 else r.value.id == newId && Waits(s.db, s'.db, newId, card, user, now) && s'.redis == s.redis
  {
    StartRows(s.db, card, user, now, newId, pick);
    var (db, id) := StartSql(s.db, card, user, now, newId, pick);
    if id.Some? {
      ViewShows(db, id.value);
      PublishEffect(p, s.redis, View(db, id.value), now);
    }
  }

  // ---------------------------------------------------------------- vote

  /** `f` is the counter that a vote for `idx` raises: `voteup` and its digit, or as written the byte itself. */
  predicate Counter(p: Profile, idx: Byte, f: string) {
    |f| == 7 && f[..6] == "voteup" && f[6] as int == if p == Intended then (idx + 48) % 256 else idx
  }

  /** A vote is refused while its voter is remembered; otherwise it counts by one, for this counter alone. */
  lemma VoteEffect(p: Profile, s: Sys, id: Uuid, idx: Byte, fp: Fingerprint, now: Time)
    requires QueueOk(s.redis.queue)
    ensures var (s', r) := VoteCall(p, s, id, idx, fp, now);
            if (id, fp) in s.redis.history && now <= s.redis.history[(id, fp)] then s' == s && r == Err(VoteDuplicated)
            else
              && s'.db == s.db && s'.redis.history == s.redis.history[(id, fp) := now + 600.0]
              && Requeued(s.redis.queue, s'.redis.queue, id, now)
              && r.Ok? && Counted(p, s.redis.store, s'.redis.store, id, idx, r.value)
  {
    ZAddRequeues(s.redis.queue, id, now);
    VoteCounts(p, s.redis.store, id, idx);
  }

  /** Counter `idx` of battle `id` has risen by one, to `total`, from 0 if it was missing. */
  ghost predicate Counted(p: Profile, store: Store, store': Store, id: Uuid, idx: Byte, total: int) {
    && OthersKept(store, store', id)
    && store'[id].blob == (if id in store then store[id].blob else None)
    && exists f ::
         && Counter(p, idx, f)
         && OthersKept(if id in store then store[id].fields else map[], store'[id].fields, f)
         && store'[id].fields[f] == total
         && total == 1 + if id in store && f in store[id].fields then store[id].fields[f] else 0
  }

  lemma VoteCounts(p: Profile, store: Store, id: Uuid, idx: Byte)
    ensures var (store', v) := HIncrBy(store, id, VoteField(p, idx)); Counted(p, store, store', id, idx, v)
  {
    assert Counter(p, idx, VoteField(p, idx));
  }

  // ---------------------------------------------------------------- finish

  /** A finish takes the battle out of Redis, and settles its row with the counters if it finds both. */
  lemma FinishEffect(s: Sys, id: Uuid)
    requires QueueOk(s.redis.queue)
    ensures var s' := FinishCall(s, id);
            && s'.redis.store == s.redis.store - {id} && s'.redis.history == s.redis.history
            && InOrder(s'.redis.queue) && (forall e :: e in s'.redis.queue <==> e in s.redis.queue && e.id != id)
            && if id in s.db.rows && id in s.redis.store
                  && "voteup1" in s.redis.store[id].fields && "voteup2" in s.redis.store[id].fields
               then Settled(s.db, s'.db, id, s.redis.store[id].fields["voteup1"], s.redis.store[id].fields["voteup2"])
               else s'.db == s.db
  {
    ZRemMembers(s.redis.queue, id);
    ZCommandsKeepOk(s.redis.queue, id, 0.0);
  }

  /**
   * After a finish that settles its row, each of the two users can start the user's card again:
   * in no reachable state does a finished battle keep a card busy.
   */
  lemma FinishFreesCards(p: Profile, ws: seq<Worlds.World>, cs: seq<Worlds.Call>, n: nat, id: Uuid, c: Worlds.Call)
    requires Worlds.Run(p, ws, cs) && Worlds.Initial(ws[0]) && n < |cs| && cs[n] == Worlds.Finish(id)
    requires id in ws[n].sys.db.rows && ws[n].sys.db.rows[id].state != Finished
    requires id in ws[n + 1].sys.db.rows && ws[n + 1].sys.db.rows[id].state == Finished
    requires c.Start? && MatchPick(ws[n + 1].sys.db, c.card, c.user, c.pick)
    requires c.pick.Some? ==> c.pick.value in ws[n + 1].sys.db.rows
    requires var r := ws[n].sys.db.rows[id];
             (c.card == r.card1 && c.user == r.user1) || (Some(c.card) == r.card2 && Some(c.user) == r.user2)
    ensures StartCall(p, ws[n + 1].sys, c.card, c.user, c.now, c.newId, c.pick).1.Ok?
  {
    TablesOfRun(p, ws, cs, n);
    assert ws[n + 1] == Worlds.After(p, ws[n], cs[n]);
    SettledFrees(ws[n].sys.db, ws[n + 1].sys.db, id, c.card, c.user);
    StartFailsExactly(p, ws[n + 1].sys, c.card, c.user, c.now, c.newId, c.pick);
  }

  lemma TablesOfRun(p: Profile, ws: seq<Worlds.World>, cs: seq<Worlds.Call>, n: nat)
    requires Worlds.Run(p, ws, cs) && Worlds.Initial(ws[0]) && n <= |cs|
    ensures TableInv(ws[n].sys.db)
  {
    Worlds.WorldOverRuns(p, ws, cs, n);
  }

  lemma SettledFrees(db: Db, db': Db, id: Uuid, card: Uuid, user: Uuid)
    requires TableInv(db) && id in db.rows && db.rows[id].state != Finished && OthersKept(db.rows, db'.rows, id)
    requires db'.rows[id].state == Finished && db'.cards == db.cards
    requires var r := db.rows[id];
             (card == r.card1 && user == r.user1) || (Some(card) == r.card2 && Some(user) == r.user2)
    ensures card in db'.cards && db'.cards[card].owner == Some(user) && !InUse(db'.rows, card)
  {
    assert Holds(db.rows[id], card) && RowCoherent(db.cards, db.rows[id]);
    forall x | x in db'.rows && x != id ensures !Holds(db'.rows[x], card) {
      assert db'.rows[x] == db.rows[x];
    }
    BusyIsInUse(db'.rows, card);
  }

  // ---------------------------------------------------------------- runs

  /** The statements of a run settle rows, charge users and add cards, and nothing else. */
  lemma StatementEffect(db: Db, s: Statement)
    requires Legal(db, s)
    ensures var db' := Execute(db, s);
            match s
            case Start(card, user, now, newId, pick) =>
              || (db' == db && (InUse(db.rows, card) || !(card in db.cards && db.cards[card].owner == Some(user))))
              || (exists id :: Joins(db, db', id, card, user, now))
              || Waits(db, db', newId, card, user, now)
            case Finish(id, v1, v2) => if id in db.rows then Settled(db, db', id, v1, v2) else db' == db
            case Charge(payer, at, draw) => ChargedAs(db, db', payer, at, draw)
            case Create(creator, when, newCard, index) => CardAdded(db, db', creator, when, newCard, index)
  {
    match s
    case Start(card, user, now, newId, pick) =>
      MatchPickMeaning(db, card, user, pick);
      StartRows(db, card, user, now, newId, pick);
      BusyIsInUse(db.rows, card);
    case Charge(payer, at, draw) => ChargeEffect(db, payer, at, draw);
    case _ =>
  }

  /** A run of calls charges users and adds cards in the same way, and leaves Redis alone then. */
  lemma CardCallEffect(p: Profile, w: Worlds.World, c: Worlds.Call)
    requires Worlds.Allowed(w, c) && (c.Charge? || c.Create?)
    ensures var w' := Worlds.After(p, w, c);
            && w'.sys.redis == w.sys.redis && w'.log == w.log && w'.now == w.now
            && (c.Charge? ==> ChargedAs(w.sys.db, w'.sys.db, c.payer, c.time, c.draw))
            && (c.Create? ==> CardAdded(w.sys.db, w'.sys.db, c.creator, c.when, c.newCard, c.index))
  {
    if c.Charge? {
      ChargeEffect(w.sys.db, c.payer, c.time, c.draw);
    }
  }

  // ---------------------------------------------------------------- reads

  /** A read answers the blob, or else the row with its cards and points, or fails for want of both. */
  lemma GetEffect(s: Sys, id: Uuid)
    ensures var r := GetCall(s, id);
            if id in s.redis.store && s.redis.store[id].blob.Some? then r == Ok(s.redis.store[id].blob.value)
            else if id in s.db.rows then
              && r.Ok? && ShowsBattle(s.db, id, r.value)
              && ShowsPoints(s.db.points, Some(s.db.rows[id].user1), r.value.points1)
              && ShowsPoints(s.db.points, s.db.rows[id].user2, r.value.points2)
            else r == Err(BattleNotFound)
  {
    if id in s.db.rows {
      ViewShows(s.db, id);
    }
  }

  /** In every reachable state a read shows the row and both cards, and a sample those of the queue's head. */
  lemma ReadsShowBattles(p: Profile, ws: seq<Worlds.World>, cs: seq<Worlds.Call>, n: nat, id: Uuid)
    requires Worlds.Run(p, ws, cs) && n <= |cs| && Worlds.Initial(ws[0])
    ensures var s := ws[n].sys;
            && (id in s.db.rows ==> GetCall(s, id).Ok? && ShowsBattle(s.db, id, GetCall(s, id).value))
            && (id !in s.db.rows ==> GetCall(s, id) == Err(BattleNotFound))
            && (s.redis.queue != [] ==>
                  SampleCall(s).Ok? && ShowsBattle(s.db, s.redis.queue[0].id, SampleCall(s).value))
            && (s.redis.queue == [] ==> SampleCall(s) == Err(NoBattleAvailable))
  {
    var s := ws[n].sys;
    Worlds.WorldOverRuns(p, ws, cs, n);
    Worlds.GetShowsRow(s, id);
    Worlds.SampleShowsHead(s);
    if id in s.db.rows {
      SameBattleShows(s.db, id, GetCall(s, id).value);
    }
    if s.redis.queue != [] {
      SameBattleShows(s.db, s.redis.queue[0].id, SampleCall(s).value);
    }
  }
}
