/** The calls of the battle service, each as one function on the shared state. */
module Battles {
  import opened Types
  import opened Postgres
  import opened Redis

  datatype Error = AnotherBattleInProgress | VoteDuplicated | NoBattleAvailable | BattleNotFound

  datatype Sys = Sys(db: Db, redis: Redis)

  /** The two Redis commands that publish a match. */
  function Publish(p: Profile, r: Redis, b: DuelBattle, score: real): Redis {
    r.(store := HSet(p, r.store, b.id, b), queue := ZAdd(r.queue, b.id, score))
  }

  function StartCall(p: Profile, s: Sys, card: Uuid, user: Uuid, now: Time, newId: Uuid, pick: Option<Uuid>)
    : (Sys, Result<DuelBattle, Error>)
    requires pick.Some? ==> pick.value in s.db.rows
  {
    var (db, id) := StartSql(s.db, card, user, now, newId, pick);
    if id.None? then (s, Err(AnotherBattleInProgress))
    else
      var b := View(db, id.value);
      if b.row.state == Fighting then (Sys(db, Publish(p, s.redis, b, now)), Ok(b))
      else (Sys(db, s.redis), Ok(b))
  }

  /** The three Redis commands of an accepted vote. */
  function Ballot(p: Profile, r: Redis, id: Uuid, idx: Byte, fp: Fingerprint, now: Time): Redis {
    Redis(HIncrBy(r.store, id, VoteField(p, idx)).0, ZAdd(r.queue, id, now), SetEx(r.history, id, fp, now))
  }

  function VoteCall(p: Profile, s: Sys, id: Uuid, idx: Byte, fp: Fingerprint, now: Time): (Sys, Result<int, Error>) {
    if Remembered(s.redis.history, id, fp, now) then (s, Err(VoteDuplicated))
    else (s.(redis := Ballot(p, s.redis, id, idx, fp, now)),
          Ok(HIncrBy(s.redis.store, id, VoteField(p, idx)).1))
  }

  /** Whether finish finds both tallies, which decides whether it updates the row. */
  predicate Tallied(h: Hash) {
    TallyField(1) in h.fields && TallyField(2) in h.fields
  }

  function FinishCall(s: Sys, id: Uuid): Sys {
    var h := HashAt(s.redis.store, id);
    Sys(if Tallied(h) then FinishSql(s.db, id, h.fields[TallyField(1)], h.fields[TallyField(2)]) else s.db,
        s.redis.(store := Del(s.redis.store, id), queue := ZRem(s.redis.queue, id)))
  }

  function SampleCall(s: Sys): Result<DuelBattle, Error> {
    var head := Head(s.redis.queue);
    if head.None? then Err(NoBattleAvailable)
    else
      var b := HGet(s.redis.store, head.value);
      if b.None? then Err(NoBattleAvailable) else Ok(b.value)
  }

  function GetCall(s: Sys, id: Uuid): Result<DuelBattle, Error> {
    var b := HGet(s.redis.store, id);
    if b.Some? then Ok(b.value)
    else if id in s.db.rows then Ok(View(s.db, id))
    else Err(BattleNotFound)
  }

  function FinishAll(s: Sys, ids: seq<Uuid>): Sys
    decreases ids
  {
    if ids == [] then s else FinishAll(FinishCall(s, ids[0]), ids[1..])
  }
}
