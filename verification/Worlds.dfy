/** Whole runs of atomic calls, and what every reachable state of the service satisfies. */
module Worlds {
  import opened Types
  import opened OrderBy
  import opened Postgres
  import opened Matching
  import opened Tables
  import opened Redis
  import opened Battles

  /** An accepted vote. */
  datatype Vote = Vote(id: Uuid, idx: Byte, fp: Fingerprint, at: Time)

  /** The shared state, the latest clock reading that was used as a score, and the votes accepted so far. */
  datatype World = World(sys: Sys, now: Time, log: seq<Vote>)

  datatype Call =
    | Start(card: Uuid, user: Uuid, now: Time, newId: Uuid, pick: Option<Uuid>)
    | Cast(id: Uuid, idx: Byte, fp: Fingerprint, at: Time)
    | Finish(battle: Uuid)
    | Charge(payer: Uuid, time: Time, draw: Uuid -> real)
    | Create(creator: Uuid, when: Time, newCard: Uuid, index: real)

  /** A battle is stored when Redis holds its blob. */
  predicate Stored(s: Sys, id: Uuid) {
    HGet(s.redis.store, id).Some?
  }

  /** Fresh ids, distinct queue indexes, a clock that never runs backwards, and votes on stored battles only. */
  ghost predicate Allowed(w: World, c: Call) {
    match c
    case Start(card, user, now, newId, pick) =>
      w.now <= now && newId !in w.sys.db.rows && MatchPick(w.sys.db, card, user, pick)
    case Cast(id, idx, fp, at) => w.now <= at && Stored(w.sys, id)
    case Finish(battle) => true
    case Charge(payer, time, draw) => DistinctIndexes(w.sys.db.cards)
    case Create(creator, when, newCard, index) => newCard !in w.sys.db.cards
  }

  ghost function After(p: Profile, w: World, c: Call): World
    requires Allowed(w, c)
  {
    match c
    case Start(card, user, now, newId, pick) =>
      MatchPickMeaning(w.sys.db, card, user, pick);
      w.(sys := StartCall(p, w.sys, card, user, now, newId, pick).0, now := now)
    case Cast(id, idx, fp, at) =>
      var (s, r) := VoteCall(p, w.sys, id, idx, fp, at);
      World(s, at, if r.Ok? then w.log + [Vote(id, idx, fp, at)] else w.log)
    case Finish(battle) => w.(sys := FinishCall(w.sys, battle))
    case Charge(payer, time, draw) => w.(sys := w.sys.(db := ChargeSql(w.sys.db, payer, time, draw)))
    case Create(creator, when, newCard, index) =>
      w.(sys := w.sys.(db := CreateCardSql(w.sys.db, creator, when, newCard, index)))
  }

  ghost predicate Initial(w: World) {
    && w.sys.db.rows == map[]
    && w.sys.redis == Redis(map[], [], map[])
    && w.log == []
  }

  ghost predicate Run(p: Profile, ws: seq<World>, cs: seq<Call>) {
    && |ws| == |cs| + 1
    && forall i | 0 <= i < |cs| :: Allowed(ws[i], cs[i]) && ws[i + 1] == After(p, ws[i], cs[i])
  }

  // ---------------------------------------------------------------- counting votes

  /** The accepted votes for battle `id` that were counted in field `f`. */
  function Count(p: Profile, log: seq<Vote>, id: Uuid, f: string): nat {
    if log == [] then 0
    else
      var v := log[|log| - 1];
      Count(p, log[..|log| - 1], id, f) + if v.id == id && VoteField(p, v.idx) == f then 1 else 0
  }

  /** The accepted votes for battle `id` that named slot `idx`. */
  function VotesFor(log: seq<Vote>, id: Uuid, idx: int): nat {
    if log == [] then 0
    else
      var v := log[|log| - 1];
      VotesFor(log[..|log| - 1], id, idx) + if v.id == id && v.idx == idx then 1 else 0
  }

  lemma CountSnoc(p: Profile, log: seq<Vote>, v: Vote, id: Uuid, f: string)
    ensures Count(p, log + [v], id, f) == Count(p, log, id, f) + if v.id == id && VoteField(p, v.idx) == f then 1 else 0
  {
    assert (log + [v])[..|log + [v]| - 1] == log;
  }

  lemma {:induction false} CountNone(p: Profile, log: seq<Vote>, id: Uuid, f: string)
    requires forall v | v in log :: v.id != id
    ensures Count(p, log, id, f) == 0
  {
    if log != [] {
      assert log[|log| - 1] in log;
      CountNone(p, log[..|log| - 1], id, f);
    }
  }

  /** Votes per field are votes per slot, on the field of that slot. */
  lemma {:induction false} CountIsVotesFor(p: Profile, log: seq<Vote>, id: Uuid, idx: Byte)
    ensures Count(p, log, id, VoteField(p, idx)) == VotesFor(log, id, idx)
  {
    if log != [] {
      CountIsVotesFor(p, log[..|log| - 1], id, idx);
      VoteFieldInjective(p, log[|log| - 1].idx, idx);
    }
  }

  // ---------------------------------------------------------------- the invariant

  /** Stored battles are the queued ones; their rows are fighting; their blobs show the row. */
  ghost predicate StoreOk(s: Sys) {
    && QueueOk(s.redis.queue)
    && (forall id :: Queued(s.redis.queue, id) <==> id in s.redis.store)
    && (forall id :: id in s.redis.store ==>
          && id in s.db.rows && s.db.rows[id].state == Fighting
          && s.redis.store[id].blob.Some?
          && SameBattle(s.redis.store[id].blob.value, View(s.db, id)))
  }

  predicate Seeded(p: Profile, f: string) {
    f == SeedField(p, 1) || f == SeedField(p, 2)
  }

  ghost predicate HashCounts(p: Profile, log: seq<Vote>, id: Uuid, h: Hash) {
    forall f :: && (f in h.fields <==> Seeded(p, f) || Count(p, log, id, f) > 0)
                && (f in h.fields ==> h.fields[f] == Count(p, log, id, f))
  }

  /** Each stored counter is the number of votes accepted for it since the match. */
  ghost predicate CountersOk(p: Profile, w: World) {
    forall id :: id in w.sys.redis.store ==> HashCounts(p, w.log, id, w.sys.redis.store[id])
  }

  /** Finished rows carry their totals; other rows carry none. */
  ghost predicate TalliesOk(p: Profile, w: World) {
    forall id :: id in w.sys.db.rows ==>
      var r := w.sys.db.rows[id];
      if r.state == Finished then
        r.voteup1 == Count(p, w.log, id, TallyField(1)) && r.voteup2 == Count(p, w.log, id, TallyField(2))
      else r.voteup1 == 0 && r.voteup2 == 0
  }

  /** Votes were only accepted for matched battles, after their match. */
  ghost predicate LogOk(w: World) {
    forall v :: v in w.log ==>
      && v.id in w.sys.db.rows && w.sys.db.rows[v.id].state != Matching
      && w.sys.db.rows[v.id].expiredAt.Some? && w.sys.db.rows[v.id].expiredAt.value <= v.at + DUEL_BATTLE_TTL
  }

  /** With the names repaired, every fighting battle is stored. */
  ghost predicate FightingStored(s: Sys) {
    forall id :: id in s.db.rows && s.db.rows[id].state == Fighting ==> id in s.redis.store
  }

  /** The history remembers each accepted vote for its whole time to live, and no vote repeated one in that time. */
  ghost predicate HistoryOk(w: World) {
    && (forall v :: v in w.log ==> v.at <= w.now)
    && (forall v :: v in w.log ==>
          (v.id, v.fp) in w.sys.redis.history && v.at + DUEL_BATTLE_TTL <= w.sys.redis.history[(v.id, v.fp)])
    && (forall i, j | 0 <= i < j < |w.log| && w.log[i].id == w.log[j].id && w.log[i].fp == w.log[j].fp ::
          w.log[i].at + DUEL_BATTLE_TTL < w.log[j].at)
  }

  ghost predicate ClockOk(w: World) {
    && (forall e | e in w.sys.redis.queue :: e.key <= w.now)
    && (forall id :: id in w.sys.db.rows && w.sys.db.rows[id].expiredAt.Some? ==>
          w.sys.db.rows[id].expiredAt.value <= w.now + DUEL_BATTLE_TTL)
  }

  ghost predicate WorldInv(p: Profile, w: World) {
    && TableInv(w.sys.db)
    && StoreOk(w.sys)
    && CountersOk(p, w)
    && TalliesOk(p, w)
    && LogOk(w)
    && HistoryOk(w)
    && ClockOk(w)
    && (p.Intended? ==> FightingStored(w.sys))
  }

  // ---------------------------------------------------------------- queue and history steps

  lemma ZAddClock(q: Queue, id: Uuid, now: Time, was: Time)
    requires (forall e | e in q :: e.key <= was) && was <= now
    ensures forall e | e in ZAdd(q, id, now) :: e.key <= now
    ensures forall e | e in ZRem(q, id) :: e.key <= was
  {
    ZRemMembers(q, id);
    InsertMembers(ZRem(q, id), Keyed(id, now));
  }

  lemma VoteKeepsHistory(p: Profile, w: World, id: Uuid, idx: Byte, fp: Fingerprint, at: Time)
    requires HistoryOk(w) && Allowed(w, Cast(id, idx, fp, at))
    ensures HistoryOk(After(p, w, Cast(id, idx, fp, at)))
  {
    if !Remembered(w.sys.redis.history, id, fp, at) {
      var w' := After(p, w, Cast(id, idx, fp, at));
      assert w'.log == w.log + [Vote(id, idx, fp, at)];
      forall i | 0 <= i < |w.log| && w.log[i].id == id && w.log[i].fp == fp
        ensures w.log[i].at + DUEL_BATTLE_TTL < at
      {
        assert w.log[i] in w.log;
      }
    }
  }

  // ---------------------------------------------------------------- start

  /** The store agrees with any tables that keep the stored rows and the owned cards. */
  lemma StoreFrame(s: Sys, db': Db)
    requires TableInv(s.db) && StoreOk(s) && OwnedKept(s.db.cards, db'.cards)
    requires forall id :: id in s.redis.store ==> id in db'.rows && db'.rows[id] == s.db.rows[id]
    ensures StoreOk(Sys(db', s.redis))
  {
    forall id | id in s.redis.store ensures SameBattle(s.redis.store[id].blob.value, View(db', id)) {
      ViewFrame(s.db, db', id);
    }
  }

  /** Publishing stores and queues one battle and leaves the others. */
  lemma PublishAdds(p: Profile, r: Redis, b: DuelBattle, score: real)
    requires QueueOk(r.queue) && forall id :: Queued(r.queue, id) <==> id in r.store
    ensures var r' := Publish(p, r, b, score);
            && QueueOk(r'.queue) && (forall id :: Queued(r'.queue, id) <==> id in r'.store)
            && r'.store.Keys == r.store.Keys + {b.id} && r'.store[b.id].blob == Some(b)
            && forall id :: id in r.store && id != b.id ==> r'.store[id] == r.store[id]
  {
    ZCommandsKeepOk(r.queue, b.id, score);
  }

  lemma PublishKeepsStore(p: Profile, s: Sys, id: Uuid, score: real)
    requires StoreOk(s) && id in s.db.rows && s.db.rows[id].state == Fighting
    ensures StoreOk(s.(redis := Publish(p, s.redis, View(s.db, id), score)))
  {
    PublishAdds(p, s.redis, View(s.db, id), score);
  }

  lemma StartKeepsStore(p: Profile, w: World, c: Call)
    requires TableInv(w.sys.db) && StoreOk(w.sys) && Allowed(w, c) && c.Start?
    ensures StoreOk(After(p, w, c).sys)
  {
    MatchPickMeaning(w.sys.db, c.card, c.user, c.pick);
    var db := StartSql(w.sys.db, c.card, c.user, c.now, c.newId, c.pick).0;
    if c.pick.Some? {
      assert Waiting(w.sys.db.rows, c.user, c.pick.value);
      StoreFrame(w.sys, db);
      PublishKeepsStore(p, Sys(db, w.sys.redis), c.pick.value, c.now);
    } else {
      StoreFrame(w.sys, db);
    }
  }

  lemma StartKeepsFighting(p: Profile, w: World, c: Call)
    requires FightingStored(w.sys) && Allowed(w, c) && c.Start?
    ensures FightingStored(After(p, w, c).sys)
  {
    MatchPickMeaning(w.sys.db, c.card, c.user, c.pick);
  }

  /** A battle nobody voted for is seeded with its counts, which are zero. */
  lemma SeedsCount(p: Profile, log: seq<Vote>, store: Store, id: Uuid, b: DuelBattle)
    requires (forall v | v in log :: v.id != id) && id !in store && b.row.voteup1 == 0 && b.row.voteup2 == 0
    ensures HashCounts(p, log, id, HSet(p, store, id, b)[id])
  {
    forall f ensures Count(p, log, id, f) == 0 { CountNone(p, log, id, f); }
  }

  lemma StartKeepsCounts(p: Profile, w: World, c: Call)
    requires TalliesOk(p, w) && LogOk(w) && Allowed(w, c) && c.Start?
    ensures TalliesOk(p, After(p, w, c)) && LogOk(After(p, w, c))
  {
    MatchPickMeaning(w.sys.db, c.card, c.user, c.pick);
    if c.pick.Some? {
      assert Waiting(w.sys.db.rows, c.user, c.pick.value);
    }
  }

  lemma StartKeepsCounters(p: Profile, w: World, c: Call)
    requires WorldInv(p, w) && Allowed(w, c) && c.Start?
    ensures CountersOk(p, After(p, w, c))
  {
    MatchPickMeaning(w.sys.db, c.card, c.user, c.pick);
    if c.pick.Some? {
      var b := c.pick.value;
      assert Waiting(w.sys.db.rows, c.user, b);
      var db := StartSql(w.sys.db, c.card, c.user, c.now, c.newId, c.pick).0;
      SeedsCount(p, w.log, w.sys.redis.store, b, View(db, b));
    }
  }

  lemma StartKeepsClock(p: Profile, w: World, c: Call)
    requires ClockOk(w) && HistoryOk(w) && Allowed(w, c) && c.Start?
    ensures ClockOk(After(p, w, c)) && HistoryOk(After(p, w, c))
  {
    MatchPickMeaning(w.sys.db, c.card, c.user, c.pick);
    if c.pick.Some? {
      ZAddClock(w.sys.redis.queue, c.pick.value, c.now, w.now);
    }
  }

  lemma StartKeepsDb(p: Profile, w: World, c: Call)
    requires TableInv(w.sys.db) && Allowed(w, c) && c.Start?
    ensures TableInv(After(p, w, c).sys.db)
  {
    MatchPickMeaning(w.sys.db, c.card, c.user, c.pick);
    StartKeepsTables(w.sys.db, c.card, c.user, c.now, c.newId, c.pick);
  }

  lemma StartKeepsWorld(p: Profile, w: World, c: Call)
    requires WorldInv(p, w) && Allowed(w, c) && c.Start?
    ensures WorldInv(p, After(p, w, c))
  {
    StartKeepsDb(p, w, c);
    StartKeepsStore(p, w, c);
    if p.Intended? {
      StartKeepsFighting(p, w, c);
    }
    StartKeepsCounts(p, w, c);
    StartKeepsCounters(p, w, c);
    StartKeepsClock(p, w, c);
  }

  /**
   * What a start does in a reachable state: it joins the waiting battle, which is then stored, and
   * queued at the back exactly if all others precede it; or it waits under the new id, and nobody
   * else was waiting; or it fails, because the card is busy or not the user's, and changes nothing.
   */
  lemma StartOutcome(p: Profile, w: World, c: Call)
    requires StoreOk(w.sys) && Allowed(w, c) && c.Start? && (c.pick.Some? ==> c.pick.value in w.sys.db.rows)
    ensures var (s', r) := StartCall(p, w.sys, c.card, c.user, c.now, c.newId, c.pick);
            if !CanStart(w.sys.db, c.card, c.user) then r == Err(AnotherBattleInProgress) && s' == w.sys
            else
              && r.Ok?
              && (c.pick.Some? <==> r.value.row.state == Fighting)
              && (c.pick.Some? ==>
                    && r.value.id == c.pick.value && r.value.row.user1 != c.user
                    && r.value.row.user2 == Some(c.user) && r.value.row.card2 == Some(c.card)
                    && r.value.row.expiredAt == Some(c.now + DUEL_BATTLE_TTL)
                    && !Queued(w.sys.redis.queue, r.value.id) && Queued(s'.redis.queue, r.value.id)
                    && (s'.redis.queue == w.sys.redis.queue + [Keyed(r.value.id, c.now)] <==>
                        Behind(w.sys.redis.queue, Keyed(r.value.id, c.now)))
                    && HGet(s'.redis.store, r.value.id) == Some(r.value))
              && (c.pick.None? ==>
                    && r.value.id == c.newId
                    && r.value.row == NewRow(c.card, c.user, w.sys.db.cards[c.card].rating, c.now)
                    && s'.redis == w.sys.redis && forall id :: !Waiting(w.sys.db.rows, c.user, id))
  {
    MatchPickMeaning(w.sys.db, c.card, c.user, c.pick);
    if c.pick.Some? {
      assert Waiting(w.sys.db.rows, c.user, c.pick.value);
      JoinsAtBack(w.sys.redis.queue, c.pick.value, c.now);
    }
  }

  lemma JoinsAtBack(q: Queue, id: Uuid, score: real)
    requires QueueOk(q) && !Queued(q, id)
    ensures Queued(ZAdd(q, id, score), id)
    ensures ZAdd(q, id, score) == q + [Keyed(id, score)] <==> Behind(q, Keyed(id, score))
  {
    NotQueuedRem(q, id);
    ZAddMovesToBackExactly(q, id, score);
    ZCommandsKeepOk(q, id, score);
  }

  lemma {:induction false} NotQueuedRem(q: Queue, id: Uuid)
    requires !Queued(q, id)
    ensures ZRem(q, id) == q
  {
    if q != [] {
      assert q[0].id != id;
      forall i | 0 <= i < |q[1..]| ensures q[1..][i].id != id { assert q[i + 1].id != id; }
      NotQueuedRem(q[1..], id);
    }
  }

  // ---------------------------------------------------------------- vote

  lemma BallotCounts(p: Profile, log: seq<Vote>, store: Store, v: Vote)
    requires v.id in store && HashCounts(p, log, v.id, store[v.id])
    ensures HashCounts(p, log + [v], v.id, HIncrBy(store, v.id, VoteField(p, v.idx)).0[v.id])
  {
    forall f
      ensures Count(p, log + [v], v.id, f) == Count(p, log, v.id, f) + if VoteField(p, v.idx) == f then 1 else 0
    {
      CountSnoc(p, log, v, v.id, f);
    }
  }

  lemma OtherCounts(p: Profile, log: seq<Vote>, id: Uuid, h: Hash, v: Vote)
    requires v.id != id && HashCounts(p, log, id, h)
    ensures HashCounts(p, log + [v], id, h)
  {
    forall f ensures Count(p, log + [v], id, f) == Count(p, log, id, f) { CountSnoc(p, log, v, id, f); }
  }

  lemma VoteKeepsTallies(p: Profile, w: World, c: Call)
    requires TalliesOk(p, w) && StoreOk(w.sys) && Allowed(w, c) && c.Cast?
    ensures TalliesOk(p, After(p, w, c))
  {
    if !Remembered(w.sys.redis.history, c.id, c.fp, c.at) {
      var v := Vote(c.id, c.idx, c.fp, c.at);
      forall id | id in w.sys.db.rows && w.sys.db.rows[id].state == Finished
        ensures Count(p, w.log + [v], id, TallyField(1)) == Count(p, w.log, id, TallyField(1))
        ensures Count(p, w.log + [v], id, TallyField(2)) == Count(p, w.log, id, TallyField(2))
      {
        CountSnoc(p, w.log, v, id, TallyField(1));
        CountSnoc(p, w.log, v, id, TallyField(2));
      }
    }
  }

  lemma VoteKeepsLog(p: Profile, w: World, c: Call)
    requires LogOk(w) && ClockOk(w) && RowShape(w.sys.db.rows) && StoreOk(w.sys) && Allowed(w, c) && c.Cast?
    ensures LogOk(After(p, w, c))
  {
    var w' := After(p, w, c);
    assert w'.sys.db == w.sys.db && c.id in w.sys.redis.store;
    var r := w.sys.db.rows[c.id];
    assert r.state == Fighting && r.expiredAt.Some? && r.expiredAt.value <= c.at + DUEL_BATTLE_TTL;
    assert forall v :: v in w'.log ==> v in w.log || v == Vote(c.id, c.idx, c.fp, c.at);
  }

  lemma VoteKeepsStore(p: Profile, w: World, c: Call)
    requires StoreOk(w.sys) && Allowed(w, c) && c.Cast?
    ensures StoreOk(After(p, w, c).sys)
    ensures FightingStored(w.sys) ==> FightingStored(After(p, w, c).sys)
  {
    ZCommandsKeepOk(w.sys.redis.queue, c.id, c.at);
  }

  lemma VoteKeepsClock(p: Profile, w: World, c: Call)
    requires ClockOk(w) && Allowed(w, c) && c.Cast?
    ensures ClockOk(After(p, w, c))
  {
    ZAddClock(w.sys.redis.queue, c.id, c.at, w.now);
  }

  lemma StoreCounts(p: Profile, log: seq<Vote>, store: Store, v: Vote)
    requires v.id in store && forall id :: id in store ==> HashCounts(p, log, id, store[id])
    ensures var store' := HIncrBy(store, v.id, VoteField(p, v.idx)).0;
            forall id :: id in store' ==> HashCounts(p, log + [v], id, store'[id])
  {
    BallotCounts(p, log, store, v);
    forall id | id in store && id != v.id ensures HashCounts(p, log + [v], id, store[id]) {
      OtherCounts(p, log, id, store[id], v);
    }
  }

  lemma VoteKeepsCounters(p: Profile, w: World, c: Call)
    requires CountersOk(p, w) && Allowed(w, c) && c.Cast?
    ensures CountersOk(p, After(p, w, c))
  {
    if !Remembered(w.sys.redis.history, c.id, c.fp, c.at) {
      StoreCounts(p, w.log, w.sys.redis.store, Vote(c.id, c.idx, c.fp, c.at));
    }
  }

  lemma VoteKeepsWorld(p: Profile, w: World, c: Call)
    requires WorldInv(p, w) && Allowed(w, c) && c.Cast?
    ensures WorldInv(p, After(p, w, c))
  {
    VoteKeepsHistory(p, w, c.id, c.idx, c.fp, c.at);
    VoteKeepsTallies(p, w, c);
    VoteKeepsLog(p, w, c);
    VoteKeepsCounters(p, w, c);
    VoteKeepsStore(p, w, c);
    VoteKeepsClock(p, w, c);
  }

  // ---------------------------------------------------------------- finish

  lemma FinishKeepsDb(s: Sys, id: Uuid)
    requires TableInv(s.db) && StoreOk(s)
    ensures TableInv(FinishCall(s, id).db)
  {
    if id in s.redis.store && Tallied(s.redis.store[id]) {
      var h := s.redis.store[id];
      FinishKeepsTables(s.db, id, h.fields[TallyField(1)], h.fields[TallyField(2)]);
    }
  }

  lemma FinishKeepsStore(s: Sys, id: Uuid)
    requires TableInv(s.db) && StoreOk(s)
    ensures StoreOk(FinishCall(s, id))
  {
    var s' := FinishCall(s, id);
    ZCommandsKeepOk(s.redis.queue, id, 0.0);
    forall x | x in s'.redis.store ensures SameBattle(s'.redis.store[x].blob.value, View(s'.db, x)) {
      ViewFrame(s.db, s'.db, x);
    }
  }

  lemma FinishKeepsTallies(p: Profile, w: World, id: Uuid)
    requires StoreOk(w.sys) && CountersOk(p, w) && TalliesOk(p, w)
    ensures TalliesOk(p, w.(sys := FinishCall(w.sys, id)))
  {
    if id in w.sys.redis.store {
      assert HashCounts(p, w.log, id, w.sys.redis.store[id]);
    }
  }

  lemma FinishKeepsLog(w: World, id: Uuid)
    requires LogOk(w) && ClockOk(w)
    ensures LogOk(w.(sys := FinishCall(w.sys, id))) && ClockOk(w.(sys := FinishCall(w.sys, id)))
  {
    ZRemMembers(w.sys.redis.queue, id);
  }

  lemma FinishKeepsStored(p: Profile, w: World, id: Uuid)
    requires p.Intended? && StoreOk(w.sys) && CountersOk(p, w) && FightingStored(w.sys)
    ensures FightingStored(FinishCall(w.sys, id))
  {
    if id in w.sys.redis.store {
      assert HashCounts(p, w.log, id, w.sys.redis.store[id]);
      assert Seeded(p, TallyField(1)) && Seeded(p, TallyField(2));
    }
  }

  lemma FinishKeepsWorld(p: Profile, w: World, id: Uuid)
    requires WorldInv(p, w)
    ensures WorldInv(p, w.(sys := FinishCall(w.sys, id)))
  {
    FinishKeepsLog(w, id);
    FinishKeepsDb(w.sys, id);
    FinishKeepsStore(w.sys, id);
    FinishKeepsTallies(p, w, id);
    if p.Intended? {
      FinishKeepsStored(p, w, id);
    }
  }

  // ---------------------------------------------------------------- the cards

  lemma CardsKeepWorld(p: Profile, w: World, db': Db)
    requires WorldInv(p, w) && db'.rows == w.sys.db.rows && TableInv(db') && OwnedKept(w.sys.db.cards, db'.cards)
    ensures WorldInv(p, w.(sys := w.sys.(db := db')))
  {
    StoreFrame(w.sys, db');
  }

  lemma CallKeepsWorld(p: Profile, w: World, c: Call)
    requires WorldInv(p, w) && Allowed(w, c)
    ensures WorldInv(p, After(p, w, c))
  {
    match c
    case Start(_, _, _, _, _) => StartKeepsWorld(p, w, c);
    case Cast(_, _, _, _) => VoteKeepsWorld(p, w, c);
    case Finish(battle) => FinishKeepsWorld(p, w, battle);
    case Charge(payer, time, draw) =>
      ChargeKeepsOwned(w.sys.db, payer, time, draw);
      ChargeKeepsTables(w.sys.db, payer, time, draw);
      CardsKeepWorld(p, w, ChargeSql(w.sys.db, payer, time, draw));
    case Create(creator, when, newCard, index) =>
      CreateCardKeepsTables(w.sys.db, creator, when, newCard, index);
      CardsKeepWorld(p, w, CreateCardSql(w.sys.db, creator, when, newCard, index));
  }

  lemma {:induction false} WorldOverRuns(p: Profile, ws: seq<World>, cs: seq<Call>, n: nat)
    requires Run(p, ws, cs) && n <= |cs| && Initial(ws[0])
    ensures WorldInv(p, ws[n])
  {
    if n > 0 {
      WorldOverRuns(p, ws, cs, n - 1);
      assert Allowed(ws[n - 1], cs[n - 1]) && ws[n] == After(p, ws[n - 1], cs[n - 1]);
      CallKeepsWorld(p, ws[n - 1], cs[n - 1]);
    }
  }

  // ---------------------------------------------------------------- reads

  /** A read answers the row if there is one, and fails only if there is none. */
  lemma GetShowsRow(s: Sys, id: Uuid)
    requires StoreOk(s)
    ensures var r := GetCall(s, id);
            if id in s.db.rows then r.Ok? && SameBattle(r.value, View(s.db, id)) else r == Err(BattleNotFound)
  {
  }

  /** A sample shows the fighting row of the queue's head, and fails only on an empty queue. */
  lemma SampleShowsHead(s: Sys)
    requires StoreOk(s)
    ensures var q, r := s.redis.queue, SampleCall(s);
            if q == [] then r == Err(NoBattleAvailable)
            else
              && r.Ok? && q[0].id in s.db.rows && s.db.rows[q[0].id].state == Fighting
              && SameBattle(r.value, View(s.db, q[0].id))
  {
    if s.redis.queue != [] {
      assert Queued(s.redis.queue, s.redis.queue[0].id);
    }
  }

  /** So reads never tell the stores apart: in every reachable state they answer from the rows. */
  lemma ReadsShowRows(p: Profile, ws: seq<World>, cs: seq<Call>, n: nat, id: Uuid)
    requires Run(p, ws, cs) && n <= |cs| && Initial(ws[0])
    ensures var s := ws[n].sys;
            && (GetCall(s, id).Ok? <==> id in s.db.rows)
            && (id in s.db.rows ==> SameBattle(GetCall(s, id).value, View(s.db, id)))
            && (SampleCall(s).Ok? <==> s.redis.queue != [])
            && (SampleCall(s).Ok? ==>
                  var head := s.redis.queue[0].id;
                  && head in s.db.rows && s.db.rows[head].state == Fighting
                  && SameBattle(SampleCall(s).value, View(s.db, head)))
  {
    WorldOverRuns(p, ws, cs, n);
    GetShowsRow(ws[n].sys, id);
    SampleShowsHead(ws[n].sys);
  }
}
