/**
 * What interleaving does to the rest of Redis, exactly: which votes the history stops, and what
 * the queue and the store hold of a battle.
 */
module Races {
  import opened Types
  import opened Redis
  import opened Interleaving
  import opened Agreement

  // ---------------------------------------------------------------- the vote history

  /** The clock never runs backwards from one command to a later one. */
  ghost predicate Clocked(acts: seq<Action>) {
    forall i, j | 0 <= i < j < |acts| && acts[i].Advance? && acts[j].Advance? :: acts[i].now <= acts[j].now
  }

  /** The GET of a vote of `fp` for battle `id`. */
  predicate Asks(n: Net, a: Action, id: Uuid, fp: Fingerprint) {
    a.Advance? && a.call in n.calls && n.calls[a.call].Asking? && n.calls[a.call].id == id && n.calls[a.call].fp == fp
  }

  /** The SETEX of such a vote. */
  predicate Remembers(n: Net, a: Action, id: Uuid, fp: Fingerprint) {
    && a.Advance? && a.call in n.calls
    && n.calls[a.call].Remembering? && n.calls[a.call].id == id && n.calls[a.call].fp == fp
  }

  /** The HINCRBY of a vote for battle `id`. */
  predicate CountsFor(n: Net, a: Action, id: Uuid) {
    a.Advance? && a.call in n.calls && n.calls[a.call].Counting? && n.calls[a.call].id == id
  }

  lemma HistorySteps(p: Profile, n: Net, a: Action, id: Uuid, fp: Fingerprint)
    requires Enabled(n, a)
    ensures var h, h' := n.redis.history, Next(p, n, a).redis.history;
            if Remembers(n, a, id, fp) then (id, fp) in h' && h'[(id, fp)] == a.now + DUEL_BATTLE_TTL
            else ((id, fp) in h' <==> (id, fp) in h) && ((id, fp) in h ==> h'[(id, fp)] == h[(id, fp)])
  {
  }

  /** Step `s`, before state `i`, is such a SETEX. */
  ghost predicate SetBefore(ns: seq<Net>, acts: seq<Action>, s: int, i: nat, id: Uuid, fp: Fingerprint) {
    0 <= s < i <= |acts| < |ns| && Remembers(ns[s], acts[s], id, fp)
  }

  /** A deadline in the history is that of the latest SETEX. */
  lemma {:induction false} LatestDeadline(p: Profile, ns: seq<Net>, acts: seq<Action>, i: nat, id: Uuid,
                                          fp: Fingerprint)
    requires Run(p, ns, acts) && Initial(ns[0]) && Clocked(acts) && i <= |acts|
    ensures var h := ns[i].redis.history;
            && ((id, fp) in h ==>
                  exists s :: SetBefore(ns, acts, s, i, id, fp) && h[(id, fp)] == acts[s].now + DUEL_BATTLE_TTL)
            && (forall s :: SetBefore(ns, acts, s, i, id, fp) ==>
                  (id, fp) in h && acts[s].now + DUEL_BATTLE_TTL <= h[(id, fp)])
  {
    if i > 0 {
      LatestDeadline(p, ns, acts, i - 1, id, fp);
      var n, a := ns[i - 1], acts[i - 1];
      HistorySteps(p, n, a, id, fp);
      assert ns[i] == Next(p, n, a);
      if Remembers(n, a, id, fp) {
        assert SetBefore(ns, acts, i - 1, i, id, fp);
      } else if (id, fp) in n.redis.history {
        var s :| SetBefore(ns, acts, s, i - 1, id, fp)
                 && n.redis.history[(id, fp)] == acts[s].now + DUEL_BATTLE_TTL;
        assert SetBefore(ns, acts, s, i, id, fp);
      }
      forall s | SetBefore(ns, acts, s, i, id, fp)
        ensures (id, fp) in ns[i].redis.history && acts[s].now + DUEL_BATTLE_TTL <= ns[i].redis.history[(id, fp)]
      {
        assert s == i - 1 || SetBefore(ns, acts, s, i - 1, id, fp);
      }
    }
  }

  /** In every interleaving: a voter is remembered if and only if a SETEX came before that has not expired. */
  lemma RememberedExactly(p: Profile, ns: seq<Net>, acts: seq<Action>, i: nat, id: Uuid, fp: Fingerprint, now: Time)
    requires Run(p, ns, acts) && Initial(ns[0]) && Clocked(acts) && i <= |acts|
    ensures Remembered(ns[i].redis.history, id, fp, now) <==>
            exists s :: SetBefore(ns, acts, s, i, id, fp) && now <= acts[s].now + DUEL_BATTLE_TTL
  {
    LatestDeadline(p, ns, acts, i, id, fp);
  }

  /** A counted vote: its call, and the steps that are its GET, SETEX and HINCRBY. */
  datatype Passage = Passage(call: nat, asked: nat, noted: nat, counted: nat)

  ghost predicate CountedVote(ns: seq<Net>, acts: seq<Action>, v: Passage, id: Uuid, fp: Fingerprint) {
    && v.asked < v.noted < v.counted < |acts| < |ns|
    && Asks(ns[v.asked], acts[v.asked], id, fp) && acts[v.asked].call == v.call
    && Remembers(ns[v.noted], acts[v.noted], id, fp) && acts[v.noted].call == v.call
    && CountsFor(ns[v.counted], acts[v.counted], id) && acts[v.counted].call == v.call
    && !Remembered(ns[v.asked].redis.history, id, fp, acts[v.asked].now)
  }

  /** The call `k` stands in state `j` where its GET, or its GET and SETEX, led. */
  ghost predicate PassedGet(ns: seq<Net>, acts: seq<Action>, k: nat, g: int, j: nat, id: Uuid, fp: Fingerprint) {
    && 0 <= g < j <= |acts| < |ns|
    && Asks(ns[g], acts[g], id, fp) && acts[g].call == k
    && !Remembered(ns[g].redis.history, id, fp, acts[g].now)
  }

  /** A vote gets past its GET or its SETEX by its own step alone. */
  lemma VoteSteps(p: Profile, n: Net, a: Action, k: nat)
    requires Enabled(n, a) && k in Next(p, n, a).calls
    ensures var pc := Next(p, n, a).calls[k];
            && (pc.Remembering? ==>
                  || (k in n.calls && n.calls[k] == pc)
                  || (Asks(n, a, pc.id, pc.fp) && a.call == k && !Remembered(n.redis.history, pc.id, pc.fp, a.now)))
            && (pc.Counting? ==>
                  || (k in n.calls && n.calls[k] == pc)
                  || (a.Advance? && a.call == k && k in n.calls && n.calls[k].Remembering? && n.calls[k].id == pc.id))
  {
    if a.Charge? || a.Create? || a.call != k {
      OthersStay(p, n, a, k);
    }
  }

  lemma {:induction false} RememberingPassed(p: Profile, ns: seq<Net>, acts: seq<Action>, j: nat, k: nat)
    returns (g: nat)
    requires Run(p, ns, acts) && Initial(ns[0]) && j <= |acts| && k in ns[j].calls && ns[j].calls[k].Remembering?
    ensures PassedGet(ns, acts, k, g, j, ns[j].calls[k].id, ns[j].calls[k].fp)
  {
    var n, a, pc := ns[j - 1], acts[j - 1], ns[j].calls[k];
    assert ns[j] == Next(p, n, a);
    VoteSteps(p, n, a, k);
    if k in n.calls && n.calls[k] == pc {
      g := RememberingPassed(p, ns, acts, j - 1, k);
    } else {
      g := j - 1;
    }
  }

  /** Every HINCRBY was let through by a GET, and remembered by a SETEX, of the same call. */
  lemma {:induction false} CountingPassed(p: Profile, ns: seq<Net>, acts: seq<Action>, j: nat, k: nat)
    returns (g: nat, s: nat, fp: Fingerprint)
    requires Run(p, ns, acts) && Initial(ns[0]) && j <= |acts| && k in ns[j].calls && ns[j].calls[k].Counting?
    ensures PassedGet(ns, acts, k, g, s, ns[j].calls[k].id, fp)
    ensures s < j && acts[s].Advance? && acts[s].call == k && Remembers(ns[s], acts[s], ns[j].calls[k].id, fp)
  {
    var n, a, pc := ns[j - 1], acts[j - 1], ns[j].calls[k];
    assert ns[j] == Next(p, n, a);
    VoteSteps(p, n, a, k);
    if k in n.calls && n.calls[k] == pc {
      g, s, fp := CountingPassed(p, ns, acts, j - 1, k);
    } else {
      s, fp := j - 1, n.calls[k].fp;
      g := RememberingPassed(p, ns, acts, j - 1, k);
    }
  }

  lemma EveryCountIsPassage(p: Profile, ns: seq<Net>, acts: seq<Action>, c: nat, id: Uuid)
    returns (v: Passage, fp: Fingerprint)
    requires Run(p, ns, acts) && Initial(ns[0]) && c < |acts| && CountsFor(ns[c], acts[c], id)
    ensures v.counted == c && CountedVote(ns, acts, v, id, fp)
  {
    var g, s;
    g, s, fp := CountingPassed(p, ns, acts, c, acts[c].call);
    v := Passage(acts[c].call, g, s, c);
  }

  /** The GET of neither came after the other's SETEX had expired. */
  predicate WithinTtl(acts: seq<Action>, v: Passage, w: Passage)
    requires v.asked < |acts| && v.noted < |acts| && w.asked < |acts| && w.noted < |acts|
    requires acts[v.asked].Advance? && acts[v.noted].Advance? && acts[w.asked].Advance? && acts[w.noted].Advance?
  {
    acts[w.asked].now <= acts[v.noted].now + DUEL_BATTLE_TTL && acts[v.asked].now <= acts[w.noted].now + DUEL_BATTLE_TTL
  }

  /** A GET after another vote's SETEX lets its call through only once that has expired. */
  lemma LaterGetWaits(p: Profile, ns: seq<Net>, acts: seq<Action>, v: Passage, w: Passage, id: Uuid, fp: Fingerprint)
    requires Run(p, ns, acts) && Initial(ns[0]) && Clocked(acts)
    requires CountedVote(ns, acts, v, id, fp) && CountedVote(ns, acts, w, id, fp) && v.noted < w.asked
    ensures acts[v.noted].now + DUEL_BATTLE_TTL < acts[w.asked].now
  {
    RememberedExactly(p, ns, acts, w.asked, id, fp, acts[w.asked].now);
    assert SetBefore(ns, acts, v.noted, w.asked, id, fp);
  }

  /**
   * Two calls of one fingerprint for one battle are both counted within the time to live if and
   * only if each one's GET precedes the other's SETEX.
   */
  lemma VotesOverlapExactly(p: Profile, ns: seq<Net>, acts: seq<Action>, v: Passage, w: Passage, id: Uuid,
                            fp: Fingerprint)
    requires Run(p, ns, acts) && Initial(ns[0]) && Clocked(acts)
    requires CountedVote(ns, acts, v, id, fp) && CountedVote(ns, acts, w, id, fp) && v.call != w.call
    ensures WithinTtl(acts, v, w) <==> v.asked < w.noted && w.asked < v.noted
  {
    if v.noted < w.asked {
      LaterGetWaits(p, ns, acts, v, w, id, fp);
    }
    if w.noted < v.asked {
      LaterGetWaits(p, ns, acts, w, v, id, fp);
    }
  }

  // ---------------------------------------------------------------- the queue and the store

  /** The ZADD of a start or a vote. */
  predicate Enqueues(n: Net, a: Action, id: Uuid) {
    && a.Advance? && a.call in n.calls
    && ((n.calls[a.call].Queueing? && n.calls[a.call].shown.id == id)
        || (n.calls[a.call].Requeueing? && n.calls[a.call].id == id))
  }

  /** The ZREM of a finish. */
  predicate Dequeues(n: Net, a: Action, id: Uuid) {
    a.Advance? && a.call in n.calls && n.calls[a.call].Dequeueing? && n.calls[a.call].id == id
  }

  /** The DEL of a finish. */
  predicate Deletes(n: Net, a: Action, id: Uuid) {
    a.Advance? && a.call in n.calls && n.calls[a.call].Deleting? && n.calls[a.call].id == id
  }

  lemma QueueSteps(p: Profile, n: Net, a: Action, id: Uuid)
    requires Enabled(n, a) && QueueOk(n.redis.queue)
    ensures var q := Next(p, n, a).redis.queue;
            QueueOk(q) && (Queued(q, id) <==> Enqueues(n, a, id) || (Queued(n.redis.queue, id) && !Dequeues(n, a, id)))
  {
    if a.Advance? {
      var pc := n.calls[a.call];
      if pc.Queueing? {
        ZCommandsKeepOk(n.redis.queue, pc.shown.id, a.now);
      } else if pc.Requeueing? || pc.Dequeueing? {
        ZCommandsKeepOk(n.redis.queue, pc.id, a.now);
      }
    }
  }

  lemma StoreSteps(p: Profile, n: Net, a: Action, id: Uuid)
    requires Enabled(n, a)
    ensures HGet(Next(p, n, a).redis.store, id).Some? <==>
            Publishes(n, a, id) || (HGet(n.redis.store, id).Some? && !Deletes(n, a, id))
  {
  }

  /** Step `z` is a ZADD of `id`, with no ZREM of it between `z` and state `i`. */
  ghost predicate EnqueuedSince(ns: seq<Net>, acts: seq<Action>, z: int, i: nat, id: Uuid) {
    && 0 <= z < i <= |acts| < |ns| && Enqueues(ns[z], acts[z], id)
    && forall r | z < r < i :: !Dequeues(ns[r], acts[r], id)
  }

  /** Step `h` is the HSET of `id`, with no DEL of it between `h` and state `i`. */
  ghost predicate StoredSince(ns: seq<Net>, acts: seq<Action>, h: int, i: nat, id: Uuid) {
    && 0 <= h < i <= |acts| < |ns| && Publishes(ns[h], acts[h], id)
    && forall r | h < r < i :: !Deletes(ns[r], acts[r], id)
  }

  lemma EnqueuedSinceStep(ns: seq<Net>, acts: seq<Action>, z: int, i: nat, id: Uuid)
    requires 0 < i <= |acts| < |ns|
    ensures EnqueuedSince(ns, acts, z, i, id) <==>
            if z == i - 1 then Enqueues(ns[z], acts[z], id)
            else EnqueuedSince(ns, acts, z, i - 1, id) && !Dequeues(ns[i - 1], acts[i - 1], id)
  {
  }

  lemma StoredSinceStep(ns: seq<Net>, acts: seq<Action>, h: int, i: nat, id: Uuid)
    requires 0 < i <= |acts| < |ns|
    ensures StoredSince(ns, acts, h, i, id) <==>
            if h == i - 1 then Publishes(ns[h], acts[h], id)
            else StoredSince(ns, acts, h, i - 1, id) && !Deletes(ns[i - 1], acts[i - 1], id)
  {
  }

  /** In every interleaving the queue is in order, and holds a battle if and only if no ZREM followed some ZADD. */
  lemma {:induction false} QueuedExactly(p: Profile, ns: seq<Net>, acts: seq<Action>, i: nat, id: Uuid)
    requires Run(p, ns, acts) && Initial(ns[0]) && i <= |acts|
    ensures QueueOk(ns[i].redis.queue)
    ensures Queued(ns[i].redis.queue, id) <==> exists z :: EnqueuedSince(ns, acts, z, i, id)
  {
    if i > 0 {
      QueuedExactly(p, ns, acts, i - 1, id);
      QueueSteps(p, ns[i - 1], acts[i - 1], id);
      assert ns[i] == Next(p, ns[i - 1], acts[i - 1]);
      forall z { EnqueuedSinceStep(ns, acts, z, i, id); }
      assert EnqueuedSince(ns, acts, i - 1, i, id) <==> Enqueues(ns[i - 1], acts[i - 1], id);
    }
  }

  /** And the store has a battle's blob if and only if no DEL followed its HSET. */
  lemma {:induction false} StoredExactly(p: Profile, ns: seq<Net>, acts: seq<Action>, i: nat, id: Uuid)
    requires Run(p, ns, acts) && Initial(ns[0]) && i <= |acts|
    ensures HGet(ns[i].redis.store, id).Some? <==> exists h :: StoredSince(ns, acts, h, i, id)
  {
    if i > 0 {
      StoredExactly(p, ns, acts, i - 1, id);
      StoreSteps(p, ns[i - 1], acts[i - 1], id);
      assert ns[i] == Next(p, ns[i - 1], acts[i - 1]);
      forall h { StoredSinceStep(ns, acts, h, i, id); }
      assert StoredSince(ns, acts, i - 1, i, id) <==> Publishes(ns[i - 1], acts[i - 1], id);
    }
  }

  // ---------------------------------------------------------------- queued without a blob

  /** Some finish of `id` stands between its DEL and its ZREM. */
  ghost predicate HalfWay(n: Net, id: Uuid) {
    exists k :: k in n.calls && n.calls[k].Dequeueing? && n.calls[k].id == id
  }

  lemma {:induction false} HalfWayUntilZRem(p: Profile, ns: seq<Net>, acts: seq<Action>, d: nat, i: nat, id: Uuid)
    requires Run(p, ns, acts) && d < i <= |acts| && Deletes(ns[d], acts[d], id)
    requires forall r | d < r < i :: !Dequeues(ns[r], acts[r], id)
    ensures acts[d].call in ns[i].calls
    ensures ns[i].calls[acts[d].call].Dequeueing? && ns[i].calls[acts[d].call].id == id
  {
    var n, a := ns[i - 1], acts[i - 1];
    assert ns[i] == Next(p, n, a);
    if d < i - 1 {
      HalfWayUntilZRem(p, ns, acts, d, i - 1, id);
      OthersStay(p, n, a, acts[d].call);
    }
  }

  /**
   * Step `z` is a ZADD of `id` while its blob is not stored, and up to state `i` neither a ZREM nor
   * an HSET of it follows.
   */
  ghost predicate Strays(ns: seq<Net>, acts: seq<Action>, z: int, i: nat, id: Uuid) {
    && EnqueuedSince(ns, acts, z, i, id) && HGet(ns[z].redis.store, id).None?
    && forall r | z < r < i :: !Publishes(ns[r], acts[r], id)
  }

  lemma StaysUnstored(p: Profile, ns: seq<Net>, acts: seq<Action>, z: nat, i: nat, id: Uuid)
    requires Run(p, ns, acts) && Initial(ns[0]) && z < i <= |acts| && HGet(ns[z].redis.store, id).None?
    requires forall r | z <= r < i :: !Publishes(ns[r], acts[r], id)
    ensures HGet(ns[i].redis.store, id).None?
  {
    StoredExactly(p, ns, acts, z, id);
    StoredExactly(p, ns, acts, i, id);
    forall h ensures !StoredSince(ns, acts, h, i, id) {
      assert StoredSince(ns, acts, h, i, id) ==> StoredSince(ns, acts, h, z, id);
    }
  }

  /** A battle that was stored at its ZADD or after it, and lost its blob without a ZREM, is being finished. */
  lemma LostBlobHalfWay(p: Profile, ns: seq<Net>, acts: seq<Action>, z: nat, h: nat, i: nat, id: Uuid)
    requires Run(p, ns, acts) && Initial(ns[0]) && EnqueuedSince(ns, acts, z, i, id)
    requires z <= h < i && HGet(ns[h + 1].redis.store, id).Some? && HGet(ns[i].redis.store, id).None?
    ensures HalfWay(ns[i], id)
  {
    StoredExactly(p, ns, acts, h + 1, id);
    StoredExactly(p, ns, acts, i, id);
    var s :| StoredSince(ns, acts, s, h + 1, id);
    assert !StoredSince(ns, acts, s, i, id);
    var d :| s < d < i && Deletes(ns[d], acts[d], id);
    assert h < d;
    HalfWayUntilZRem(p, ns, acts, d, i, id);
  }

  /**
   * In every interleaving, while no finish of the battle stands between its DEL and its ZREM: the
   * battle is queued without a blob, so that sampling fails once it heads the queue, if and only
   * if some ZADD came when there was no blob, with no ZREM and no HSET since.
   */
  lemma QueuedUnstoredExactly(p: Profile, ns: seq<Net>, acts: seq<Action>, i: nat, id: Uuid)
    requires Run(p, ns, acts) && Initial(ns[0]) && i <= |acts| && !HalfWay(ns[i], id)
    ensures Queued(ns[i].redis.queue, id) && HGet(ns[i].redis.store, id).None? <==>
            exists z :: Strays(ns, acts, z, i, id)
  {
    QueuedExactly(p, ns, acts, i, id);
    if Queued(ns[i].redis.queue, id) && HGet(ns[i].redis.store, id).None? {
      var z :| EnqueuedSince(ns, acts, z, i, id);
      StoreSteps(p, ns[z], acts[z], id);
      if HGet(ns[z].redis.store, id).Some? {
        LostBlobHalfWay(p, ns, acts, z, z, i, id);
      }
      forall r | z < r < i ensures !Publishes(ns[r], acts[r], id) {
        if Publishes(ns[r], acts[r], id) {
          StoreSteps(p, ns[r], acts[r], id);
          LostBlobHalfWay(p, ns, acts, z, r, i, id);
        }
      }
      assert Strays(ns, acts, z, i, id);
    }
    if z :| Strays(ns, acts, z, i, id) {
      StaysUnstored(p, ns, acts, z, i, id);
    }
  }

  // ---------------------------------------------------------------- for polite callers

  /** The HSET of `id` and then a DEL of it came before step `z`. */
  ghost predicate Late(ns: seq<Net>, acts: seq<Action>, z: int, id: Uuid) {
    exists h, d :: 0 <= h < d < z < |acts| < |ns| && Publishes(ns[h], acts[h], id) && Deletes(ns[d], acts[d], id)
  }

  lemma PublishedGrows(p: Profile, n: Net, a: Action, id: Uuid)
    requires Enabled(n, a)
    ensures id in Next(p, n, a).published <==> id in n.published || Publishes(n, a, id)
  {
  }

  lemma {:induction false} PublishedByHSet(p: Profile, ns: seq<Net>, acts: seq<Action>, i: nat, id: Uuid)
    requires Run(p, ns, acts) && Initial(ns[0]) && i <= |acts|
    ensures id in ns[i].published <==> exists h :: 0 <= h < i && Publishes(ns[h], acts[h], id)
  {
    if i > 0 {
      PublishedByHSet(p, ns, acts, i - 1, id);
      PublishedGrows(p, ns[i - 1], acts[i - 1], id);
      assert ns[i] == Next(p, ns[i - 1], acts[i - 1]);
    }
  }

  /** A battle has one HSET. */
  lemma OneHSet(p: Profile, ns: seq<Net>, acts: seq<Action>, h: nat, r: nat, id: Uuid)
    requires Run(p, ns, acts) && Initial(ns[0]) && h < r < |acts| && Publishes(ns[h], acts[h], id)
    ensures !Publishes(ns[r], acts[r], id)
  {
    PublishedByHSet(p, ns, acts, r, id);
    FreeOverRuns(p, ns, acts, r);
    if Publishes(ns[r], acts[r], id) {
      PendingBegun(ns[r], acts[r].call, id);
    }
  }

  lemma PoliteZAdd(p: Profile, ns: seq<Net>, acts: seq<Action>, z: nat, id: Uuid)
    requires Run(p, ns, acts) && Initial(ns[0]) && PoliteAbout(ns, acts, id)
    requires z < |acts| && Enqueues(ns[z], acts[z], id)
    ensures id in ns[z].published
  {
    FreeOverRuns(p, ns, acts, z);
    PoliteOverRuns(p, ns, acts, z, id);
    var pc := ns[z].calls[acts[z].call];
    assert CallFree(ns[z].db, ns[z].published, pc) && CallPolite(ns[z], pc, id);
  }

  lemma StraysAreLate(p: Profile, ns: seq<Net>, acts: seq<Action>, z: nat, i: nat, id: Uuid)
    requires Run(p, ns, acts) && Initial(ns[0]) && PoliteAbout(ns, acts, id) && EnqueuedSince(ns, acts, z, i, id)
    ensures Strays(ns, acts, z, i, id) <==> Late(ns, acts, z, id)
  {
    PoliteZAdd(p, ns, acts, z, id);
    PublishedByHSet(p, ns, acts, z, id);
    var h :| 0 <= h < z && Publishes(ns[h], acts[h], id);
    forall r | h < r < i ensures !Publishes(ns[r], acts[r], id) { OneHSet(p, ns, acts, h, r, id); }
    StoredExactly(p, ns, acts, z, id);
    if Late(ns, acts, z, id) {
      var h', d :| 0 <= h' < d < z && Publishes(ns[h'], acts[h'], id) && Deletes(ns[d], acts[d], id);
      forall s ensures !StoredSince(ns, acts, s, z, id) {
        if StoredSince(ns, acts, s, z, id) && s != h' {
          OneHSet(p, ns, acts, if s < h' then s else h', if s < h' then h' else s, id);
        }
      }
    } else {
      assert StoredSince(ns, acts, h, z, id);
    }
  }

  /**
   * As long as nobody votes for the battle before its HSET, this comes from late calls alone: the
   * battle is queued without a blob if and only if a ZADD of it came after its DEL, with no ZREM since.
   */
  lemma LateZAddsExactly(p: Profile, ns: seq<Net>, acts: seq<Action>, i: nat, id: Uuid)
    requires Run(p, ns, acts) && Initial(ns[0]) && PoliteAbout(ns, acts, id) && i <= |acts| && !HalfWay(ns[i], id)
    ensures Queued(ns[i].redis.queue, id) && HGet(ns[i].redis.store, id).None? <==>
            exists z :: EnqueuedSince(ns, acts, z, i, id) && Late(ns, acts, z, id)
  {
    QueuedUnstoredExactly(p, ns, acts, i, id);
    forall z | EnqueuedSince(ns, acts, z, i, id) ensures Strays(ns, acts, z, i, id) <==> Late(ns, acts, z, id) {
      StraysAreLate(p, ns, acts, z, i, id);
    }
  }
}
