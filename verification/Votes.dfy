/** What the votes of a run add up to. */
module Votes {
  import opened Types
  import opened Tables
  import opened Redis
  import opened Battles
  import opened Worlds

  /**
   * Conservation, names repaired: a stored counter is the number of votes accepted for its slot,
   * and finishing writes exactly these totals and takes the battle out of store and queue.
   */
  lemma VotesConserved(ws: seq<World>, cs: seq<Call>, n: nat, id: Uuid)
    requires Run(Intended, ws, cs) && n <= |cs| && Initial(ws[0]) && id in ws[n].sys.redis.store
    ensures var h := ws[n].sys.redis.store[id];
            && FieldAt(h, TallyField(1)) == Some(VotesFor(ws[n].log, id, 1))
            && FieldAt(h, TallyField(2)) == Some(VotesFor(ws[n].log, id, 2))
    ensures var s' := FinishCall(ws[n].sys, id);
            && id in s'.db.rows && s'.db.rows[id].state == Finished
            && s'.db.rows[id].voteup1 == VotesFor(ws[n].log, id, 1)
            && s'.db.rows[id].voteup2 == VotesFor(ws[n].log, id, 2)
            && id !in s'.redis.store && !Queued(s'.redis.queue, id)
  {
    WorldOverRuns(Intended, ws, cs, n);
    assert HashCounts(Intended, ws[n].log, id, ws[n].sys.redis.store[id]);
    FieldsMeet(Intended, 1);
    FieldsMeet(Intended, 2);
    CountIsVotesFor(Intended, ws[n].log, id, 1);
    CountIsVotesFor(Intended, ws[n].log, id, 2);
    assert Seeded(Intended, TallyField(1)) && Seeded(Intended, TallyField(2));
    ZCommandsKeepOk(ws[n].sys.redis.queue, id, 0.0);
  }

  /** The totals of a finished battle stay right for the rest of the run. */
  lemma TotalsStay(ws: seq<World>, cs: seq<Call>, n: nat, id: Uuid)
    requires Run(Intended, ws, cs) && n <= |cs| && Initial(ws[0])
    requires id in ws[n].sys.db.rows && ws[n].sys.db.rows[id].state == Finished
    ensures ws[n].sys.db.rows[id].voteup1 == VotesFor(ws[n].log, id, 1)
    ensures ws[n].sys.db.rows[id].voteup2 == VotesFor(ws[n].log, id, 2)
  {
    WorldOverRuns(Intended, ws, cs, n);
    FieldsMeet(Intended, 1);
    FieldsMeet(Intended, 2);
    CountIsVotesFor(Intended, ws[n].log, id, 1);
    CountIsVotesFor(Intended, ws[n].log, id, 2);
  }

  /**
   * The names as written: finishing a stored battle finishes its row exactly if somebody voted
   * with `card_idx` 49 and somebody with 50; otherwise the row fights on, unstored and unqueued.
   */
  lemma FinishAsWritten(ws: seq<World>, cs: seq<Call>, n: nat, id: Uuid)
    requires Run(AsWritten, ws, cs) && n <= |cs| && Initial(ws[0]) && id in ws[n].sys.redis.store
    ensures var s' := FinishCall(ws[n].sys, id);
            && id in s'.db.rows
            && (s'.db.rows[id].state == Finished <==>
                VotesFor(ws[n].log, id, 49) > 0 && VotesFor(ws[n].log, id, 50) > 0)
            && (s'.db.rows[id].state != Finished ==> s'.db == ws[n].sys.db && s'.db.rows[id].state == Fighting)
            && id !in s'.redis.store && !Queued(s'.redis.queue, id)
  {
    WorldOverRuns(AsWritten, ws, cs, n);
    assert HashCounts(AsWritten, ws[n].log, id, ws[n].sys.redis.store[id]);
    FieldsMeet(AsWritten, 49);
    FieldsMeet(AsWritten, 50);
    CountIsVotesFor(AsWritten, ws[n].log, id, 49);
    CountIsVotesFor(AsWritten, ws[n].log, id, 50);
    assert !Seeded(AsWritten, TallyField(1)) && !Seeded(AsWritten, TallyField(2));
    ZCommandsKeepOk(ws[n].sys.redis.queue, id, 0.0);
  }

  /** A fingerprint's second accepted vote for a battle, whatever its slot, comes after the battle's expiry. */
  lemma OneVotePerFight(p: Profile, ws: seq<World>, cs: seq<Call>, n: nat, i: nat, j: nat)
    requires Run(p, ws, cs) && n <= |cs| && Initial(ws[0])
    requires i < j < |ws[n].log| && ws[n].log[i].id == ws[n].log[j].id && ws[n].log[i].fp == ws[n].log[j].fp
    ensures var id := ws[n].log[i].id;
            && id in ws[n].sys.db.rows && ws[n].sys.db.rows[id].expiredAt.Some?
            && var expiry := ws[n].sys.db.rows[id].expiredAt.value;
               expiry - DUEL_BATTLE_TTL <= ws[n].log[i].at && expiry < ws[n].log[j].at
  {
    WorldOverRuns(p, ws, cs, n);
    assert ws[n].log[i] in ws[n].log;
  }

  /** An accepted vote answers the number of votes for its slot, itself included, whatever the counters are called. */
  lemma VoteAnswersCount(p: Profile, ws: seq<World>, cs: seq<Call>, n: nat, id: Uuid, idx: Byte, fp: Fingerprint,
                         at: Time)
    requires Run(p, ws, cs) && n <= |cs| && Initial(ws[0]) && Stored(ws[n].sys, id)
    ensures var r := VoteCall(p, ws[n].sys, id, idx, fp, at).1;
            r.Ok? ==> r.value == VotesFor(ws[n].log, id, idx) + 1
  {
    WorldOverRuns(p, ws, cs, n);
    assert HashCounts(p, ws[n].log, id, ws[n].sys.redis.store[id]);
    CountIsVotesFor(p, ws[n].log, id, idx);
  }

  /**
   * `vote_duel_battle` does not ask whether the battle is stored. An accepted vote keeps store,
   * queue and rows in step exactly if it is.
   */
  lemma VoteKeepsStoreExactlyIfStored(p: Profile, s: Sys, id: Uuid, idx: Byte, fp: Fingerprint, at: Time)
    requires TableInv(s.db) && StoreOk(s) && !Remembered(s.redis.history, id, fp, at)
    ensures StoreOk(VoteCall(p, s, id, idx, fp, at).0) <==> Stored(s, id)
  {
    ZCommandsKeepOk(s.redis.queue, id, at);
    var s' := VoteCall(p, s, id, idx, fp, at).0;
    assert id in s'.redis.store && s'.redis.store[id].blob == HGet(s.redis.store, id);
    if Stored(s, id) {
      assert forall x :: x in s'.redis.store <==> x in s.redis.store;
      assert forall x :: x in s.redis.store ==> s'.redis.store[x].blob == s.redis.store[x].blob;
    }
  }
}
