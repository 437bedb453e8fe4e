/** No queued battle starves: who is ahead of it only ever goes away. */
module Fairness {
  import opened Types
  import opened OrderBy
  import opened Postgres
  import opened Matching
  import opened Redis
  import opened Battles
  import opened Worlds

  /** The battles queued ahead of `t`. */
  ghost function Ahead(q: Queue, t: Uuid): set<Uuid> {
    if q == [] || q[0].id == t then {} else {q[0].id} + Ahead(q[1..], t)
  }

  /** The position of `t` in the queue. */
  function Rank(q: Queue, t: Uuid): nat {
    if q == [] || q[0].id == t then 0 else 1 + Rank(q[1..], t)
  }

  /** Ahead of an entry is what precedes it. */
  lemma {:induction false} AheadIsPreceding(q: Queue, e: Keyed, x: Uuid)
    requires QueueOk(q) && e in q
    ensures x in Ahead(q, e.id) <==> exists y :: y in q && y.id == x && Precedes(y, e)
  {
    if q[0] == e {
      forall y | y in q ensures !Precedes(y, e) {
        var j :| 0 <= j < |q| && q[j] == y;
      }
    } else {
      var i :| 0 <= i < |q| && q[i] == e;
      assert q[1..][i - 1] == e && q[0].id != e.id && Precedes(q[0], e);
      AheadIsPreceding(q[1..], e, x);
      assert forall y :: y in q <==> y == q[0] || y in q[1..];
    }
  }

  lemma {:induction false} RankIsAhead(q: Queue, e: Keyed)
    requires QueueOk(q) && e in q
    ensures Rank(q, e.id) == |Ahead(q, e.id)|
  {
    if q[0].id != e.id {
      RankIsAhead(q[1..], e);
      AheadIsPreceding(q[1..], e, q[0].id);
    }
  }

  /** ZADD puts its member ahead of another entry exactly if it precedes that entry. */
  lemma AheadAfterZAdd(q: Queue, a: Keyed, e: Keyed)
    requires QueueOk(q) && e in q && a.id != e.id
    ensures e in ZAdd(q, a.id, a.key)
    ensures Ahead(ZAdd(q, a.id, a.key), e.id) == Ahead(q, e.id) - {a.id} + if Precedes(a, e) then {a.id} else {}
  {
    ZRemMembers(q, a.id);
    InsertMembers(ZRem(q, a.id), a);
    ZCommandsKeepOk(q, a.id, a.key);
    forall x
      ensures x in Ahead(ZAdd(q, a.id, a.key), e.id) <==> if x == a.id then Precedes(a, e) else x in Ahead(q, e.id)
    {
      AheadIsPreceding(q, e, x);
      AheadIsPreceding(ZAdd(q, a.id, a.key), e, x);
    }
  }

  lemma AheadAfterZRem(q: Queue, id: Uuid, e: Keyed)
    requires QueueOk(q) && e in q && id != e.id
    ensures e in ZRem(q, id) && Ahead(ZRem(q, id), e.id) == Ahead(q, e.id) - {id}
  {
    ZRemMembers(q, id);
    ZCommandsKeepOk(q, id, 0.0);
    forall x ensures x in Ahead(ZRem(q, id), e.id) <==> x in Ahead(q, e.id) && x != id {
      AheadIsPreceding(q, e, x);
      AheadIsPreceding(ZRem(q, id), e, x);
    }
  }

  // ---------------------------------------------------------------- one call

  ghost predicate AcceptedVote(w: World, c: Call, id: Uuid) {
    c.Cast? && c.id == id && !Remembered(w.sys.redis.history, c.id, c.fp, c.at)
  }

  /** The entry that a call puts into the queue: by a match or by an accepted vote. */
  function Added(w: World, c: Call): Option<Keyed> {
    match c
    case Start(_, _, now, _, pick) => if pick.Some? then Some(Keyed(pick.value, now)) else None
    case Cast(id, _, fp, at) => if Remembered(w.sys.redis.history, id, fp, at) then None else Some(Keyed(id, at))
    case _ => None
  }

  /** The battle, if any, whose place in the queue a call changes. */
  function Moved(w: World, c: Call): set<Uuid> {
    if Added(w, c).Some? then {Added(w, c).value.id} else if c.Finish? then {c.battle} else {}
  }

  /** Whatever the call puts into the queue goes behind `e`. */
  predicate Yields(w: World, c: Call, e: Keyed) {
    Added(w, c).Some? ==> Precedes(e, Added(w, c).value)
  }

  /** With a clock that never runs backwards this fails only by a tie that a smaller id wins. */
  lemma YieldsUnlessTied(w: World, c: Call, e: Keyed)
    requires ClockOk(w) && Allowed(w, c) && e in w.sys.redis.queue && e.id !in Moved(w, c)
    ensures Yields(w, c, e) <==>
            !(Added(w, c).Some? && Added(w, c).value.key == e.key && Added(w, c).value.id < e.id)
  {
  }

  /** What one call does to those ahead of a battle that it does not move. */
  lemma AheadAfterCall(p: Profile, w: World, c: Call, e: Keyed)
    requires QueueOk(w.sys.redis.queue) && Allowed(w, c) && e in w.sys.redis.queue && e.id !in Moved(w, c)
    ensures var q, q', a := w.sys.redis.queue, After(p, w, c).sys.redis.queue, Added(w, c);
            && e in q'
            && Ahead(q', e.id) == Ahead(q, e.id) - Moved(w, c)
                                  + if a.Some? && Precedes(a.value, e) then {a.value.id} else {}
  {
    var q := w.sys.redis.queue;
    match c {
      case Start(card, user, now, newId, pick) =>
        MatchPickMeaning(w.sys.db, card, user, pick);
        if pick.Some? {
          AheadAfterZAdd(q, Keyed(pick.value, now), e);
        }
      case Cast(id, idx, fp, at) =>
        if Added(w, c).Some? {
          AheadAfterZAdd(q, Keyed(id, at), e);
        }
      case Finish(battle) => AheadAfterZRem(q, battle, e);
      case Charge(_, _, _) =>
      case Create(_, _, _, _) =>
    }
  }

  /** A call only takes the battle it moves from the front of another, exactly if it yields to that other. */
  lemma AheadFallsExactly(p: Profile, w: World, c: Call, e: Keyed)
    requires QueueOk(w.sys.redis.queue) && Allowed(w, c) && e in w.sys.redis.queue && e.id !in Moved(w, c)
    ensures Ahead(After(p, w, c).sys.redis.queue, e.id) == Ahead(w.sys.redis.queue, e.id) - Moved(w, c)
            <==> Yields(w, c, e)
  {
    AheadAfterCall(p, w, c, e);
  }

  /** An accepted vote on the head lowers another rank, and by exactly one, if and only if it goes behind it. */
  lemma HeadVoteLowersRanks(p: Profile, w: World, c: Call, h: Uuid, e: Keyed)
    requires QueueOk(w.sys.redis.queue) && Allowed(w, c) && AcceptedVote(w, c, h) && Head(w.sys.redis.queue) == Some(h)
    requires e in w.sys.redis.queue && e.id != h
    ensures Rank(After(p, w, c).sys.redis.queue, e.id)
            == Rank(w.sys.redis.queue, e.id) - if Precedes(e, Keyed(h, c.at)) then 1 else 0
  {
    AheadAfterCall(p, w, c, e);
    ZCommandsKeepOk(w.sys.redis.queue, c.id, c.at);
    RankIsAhead(w.sys.redis.queue, e);
    RankIsAhead(After(p, w, c).sys.redis.queue, e);
    assert h in Ahead(w.sys.redis.queue, e.id);
  }

  /** So it lowers every other rank if and only if it moves to the back. */
  lemma HeadVoteLowersAllExactly(p: Profile, w: World, c: Call, h: Uuid)
    requires QueueOk(w.sys.redis.queue) && Allowed(w, c) && AcceptedVote(w, c, h) && Head(w.sys.redis.queue) == Some(h)
    ensures (forall e | e in w.sys.redis.queue && e.id != h ::
               Rank(After(p, w, c).sys.redis.queue, e.id) == Rank(w.sys.redis.queue, e.id) - 1)
            <==> After(p, w, c).sys.redis.queue == ZRem(w.sys.redis.queue, h) + [Keyed(h, c.at)]
  {
    ZAddMovesToBackExactly(w.sys.redis.queue, h, c.at);
    forall e | e in w.sys.redis.queue && e.id != h
      ensures Rank(After(p, w, c).sys.redis.queue, e.id)
              == Rank(w.sys.redis.queue, e.id) - if Precedes(e, Keyed(h, c.at)) then 1 else 0
    {
      HeadVoteLowersRanks(p, w, c, h, e);
    }
  }

  lemma NextHead(q: Queue, score: real)
    requires QueueOk(q) && 2 <= |q|
    ensures q[1].id != q[0].id
    ensures Head(ZAdd(q, q[0].id, score)) == Some(if Precedes(q[1], Keyed(q[0].id, score)) then q[1].id else q[0].id)
  {
    var rest := q[1..];
    forall i | 0 <= i < |rest| ensures rest[i].id != q[0].id { assert rest[i] == q[i + 1]; }
    assert !Queued(rest, q[0].id);
    NotQueuedRem(rest, q[0].id);
    assert ZRem(q, q[0].id) == rest;
  }

  /** So, once voted for, the shown battle gives way to the next one if and only if it goes behind that one. */
  lemma VoteShowsNext(p: Profile, w: World, c: Call)
    requires StoreOk(w.sys) && Allowed(w, c) && 2 <= |w.sys.redis.queue|
    requires AcceptedVote(w, c, w.sys.redis.queue[0].id)
    ensures var q, shown := w.sys.redis.queue, SampleCall(After(p, w, c).sys);
            && shown.Ok? && q[1].id != q[0].id
            && shown.value.id == if Precedes(q[1], Keyed(q[0].id, c.at)) then q[1].id else q[0].id
  {
    var q := w.sys.redis.queue;
    NextHead(q, c.at);
    VoteKeepsStore(p, w, c);
    SampleShowsHead(After(p, w, c).sys);
  }

  /** With a clock that never runs backwards it stays exactly if the next one has its score and a larger id. */
  lemma TiedScoreKeepsHead(p: Profile, w: World, c: Call)
    requires StoreOk(w.sys) && ClockOk(w) && Allowed(w, c) && 2 <= |w.sys.redis.queue|
    requires AcceptedVote(w, c, w.sys.redis.queue[0].id)
    ensures var q, shown := w.sys.redis.queue, SampleCall(After(p, w, c).sys);
            shown.Ok? && (shown.value.id == q[0].id <==> q[1].key == c.at && q[0].id < q[1].id)
  {
    var q := w.sys.redis.queue;
    VoteShowsNext(p, w, c);
    assert q[1] in q;
  }

  // ---------------------------------------------------------------- runs

  /** No call from `a` to `b` moves the battle of entry `e` or puts another one ahead of it. */
  ghost predicate LeftAlone(ws: seq<World>, cs: seq<Call>, a: nat, b: nat, e: Keyed) {
    && a <= b <= |cs| < |ws|
    && forall i | a <= i < b :: e.id !in Moved(ws[i], cs[i]) && Yields(ws[i], cs[i], e)
  }

  lemma QueueOverRuns(p: Profile, ws: seq<World>, cs: seq<Call>, n: nat)
    requires Run(p, ws, cs) && n <= |cs| && Initial(ws[0])
    ensures QueueOk(ws[n].sys.redis.queue)
  {
    WorldOverRuns(p, ws, cs, n);
  }

  /** Entry `e` is queued, and nobody but `some` is ahead of it. */
  ghost predicate BehindOnly(q: Queue, e: Keyed, some: set<Uuid>) {
    e in q && Ahead(q, e.id) <= some
  }

  lemma BehindOnlyStep(p: Profile, w: World, c: Call, e: Keyed, some: set<Uuid>)
    requires QueueOk(w.sys.redis.queue) && Allowed(w, c)
    requires e.id !in Moved(w, c) && Yields(w, c, e) && BehindOnly(w.sys.redis.queue, e, some)
    ensures BehindOnly(After(p, w, c).sys.redis.queue, e, some - Moved(w, c))
  {
    AheadAfterCall(p, w, c, e);
  }

  lemma {:induction false} AheadOverRuns(p: Profile, ws: seq<World>, cs: seq<Call>, a: nat, b: nat, e: Keyed,
                                         some: set<Uuid>)
    requires Run(p, ws, cs) && Initial(ws[0]) && LeftAlone(ws, cs, a, b, e)
    requires BehindOnly(ws[a].sys.redis.queue, e, some)
    ensures BehindOnly(ws[b].sys.redis.queue, e, some)
    decreases b
  {
    if a < b {
      AheadOverRuns(p, ws, cs, a, b - 1, e, some);
      QueueOverRuns(p, ws, cs, b - 1);
      var w, c := ws[b - 1], cs[b - 1];
      BehindOnlyStep(p, w, c, e, some);
      assert ws[b] == After(p, w, c);
    }
  }

  lemma RanksShrink(q: Queue, q': Queue, e: Keyed, gone: set<Uuid>)
    requires QueueOk(q) && QueueOk(q') && e in q && e in q'
    requires gone <= Ahead(q, e.id) && Ahead(q', e.id) <= Ahead(q, e.id) - gone
    ensures Rank(q', e.id) + |gone| <= Rank(q, e.id)
  {
    RankIsAhead(q, e);
    RankIsAhead(q', e);
    SubsetSize(Ahead(q', e.id), Ahead(q, e.id) - gone);
  }

  /** A rank never rises while its battle is left alone. */
  lemma RankNeverRises(p: Profile, ws: seq<World>, cs: seq<Call>, a: nat, b: nat, e: Keyed)
    requires Run(p, ws, cs) && Initial(ws[0]) && LeftAlone(ws, cs, a, b, e) && e in ws[a].sys.redis.queue
    ensures e in ws[b].sys.redis.queue
    ensures Rank(ws[b].sys.redis.queue, e.id) <= Rank(ws[a].sys.redis.queue, e.id)
  {
    AheadOverRuns(p, ws, cs, a, b, e, Ahead(ws[a].sys.redis.queue, e.id));
    QueueOverRuns(p, ws, cs, a);
    QueueOverRuns(p, ws, cs, b);
    RanksShrink(ws[a].sys.redis.queue, ws[b].sys.redis.queue, e, {});
  }

  /** Somebody samples in state `sampled`, and the call `voted` is the accepted vote on what was shown. */
  datatype Round = Round(sampled: nat, voted: nat)

  ghost predicate IsRound(ws: seq<World>, cs: seq<Call>, r: Round) {
    && r.sampled <= r.voted < |cs| < |ws|
    && var head := Head(ws[r.sampled].sys.redis.queue);
       head.Some? && AcceptedVote(ws[r.voted], cs[r.voted], head.value)
  }

  /** Rounds between states `a` and `b`, one after the other; any other calls may lie inside and between them. */
  ghost predicate Rounds(ws: seq<World>, cs: seq<Call>, a: nat, b: nat, rs: seq<Round>)
    decreases |rs|
  {
    if rs == [] then a <= b
    else
      var r := rs[|rs| - 1];
      IsRound(ws, cs, r) && r.voted < b && Rounds(ws, cs, a, r.sampled, rs[..|rs| - 1])
  }

  lemma {:induction false} RoundsStartLater(ws: seq<World>, cs: seq<Call>, a: nat, b: nat, rs: seq<Round>)
    requires Rounds(ws, cs, a, b, rs)
    ensures a <= b
    decreases |rs|
  {
    if rs != [] {
      RoundsStartLater(ws, cs, a, rs[|rs| - 1].sampled, rs[..|rs| - 1]);
    }
  }

  lemma RoundLowersRank(p: Profile, ws: seq<World>, cs: seq<Call>, b: nat, r: Round, e: Keyed)
    requires Run(p, ws, cs) && Initial(ws[0]) && b <= |cs| && IsRound(ws, cs, r) && r.voted < b
    requires LeftAlone(ws, cs, r.sampled, b, e) && e in ws[r.sampled].sys.redis.queue
    ensures Rank(ws[b].sys.redis.queue, e.id) + 1 <= Rank(ws[r.sampled].sys.redis.queue, e.id)
  {
    var i, j := r.sampled, r.voted;
    var h := Head(ws[i].sys.redis.queue).value;
    assert Moved(ws[j], cs[j]) == {h};
    var some := Ahead(ws[i].sys.redis.queue, e.id);
    AheadOverRuns(p, ws, cs, i, j, e, some);
    QueueOverRuns(p, ws, cs, j);
    BehindOnlyStep(p, ws[j], cs[j], e, some);
    assert ws[j + 1] == After(p, ws[j], cs[j]);
    AheadOverRuns(p, ws, cs, j + 1, b, e, some - {h});
    QueueOverRuns(p, ws, cs, i);
    QueueOverRuns(p, ws, cs, b);
    RanksShrink(ws[i].sys.redis.queue, ws[b].sys.redis.queue, e, {h});
  }

  /** Each round lowers the rank of a battle left alone by at least one. */
  lemma {:induction false} RoundsLowerRank(p: Profile, ws: seq<World>, cs: seq<Call>, a: nat, b: nat,
                                           rs: seq<Round>, e: Keyed)
    requires Run(p, ws, cs) && Initial(ws[0]) && LeftAlone(ws, cs, a, b, e) && Rounds(ws, cs, a, b, rs)
    requires e in ws[a].sys.redis.queue
    ensures Rank(ws[b].sys.redis.queue, e.id) + |rs| <= Rank(ws[a].sys.redis.queue, e.id)
    decreases |rs|
  {
    if rs == [] {
      RankNeverRises(p, ws, cs, a, b, e);
    } else {
      var r, rest := rs[|rs| - 1], rs[..|rs| - 1];
      RoundsStartLater(ws, cs, a, r.sampled, rest);
      RoundsLowerRank(p, ws, cs, a, r.sampled, rest, e);
      RankNeverRises(p, ws, cs, a, r.sampled, e);
      RoundLowersRank(p, ws, cs, b, r, e);
    }
  }

  lemma HeadOfRankZero(q: Queue, t: Uuid)
    requires q != []
    ensures Head(q) == Some(t) <==> Rank(q, t) == 0
  {
  }

  lemma StoreOverRuns(p: Profile, ws: seq<World>, cs: seq<Call>, n: nat)
    requires Run(p, ws, cs) && n <= |cs| && Initial(ws[0])
    ensures StoreOk(ws[n].sys)
  {
    WorldOverRuns(p, ws, cs, n);
  }

  /**
   * Starvation freedom. A battle at rank r that is left alone sees at most r rounds, whatever
   * starts, votes and finishes interleave; after r of them it is the one that sampling shows.
   */
  lemma NoStarvation(p: Profile, ws: seq<World>, cs: seq<Call>, a: nat, b: nat, rs: seq<Round>, e: Keyed)
    requires Run(p, ws, cs) && Initial(ws[0]) && LeftAlone(ws, cs, a, b, e) && Rounds(ws, cs, a, b, rs)
    requires e in ws[a].sys.redis.queue
    ensures |rs| <= Rank(ws[a].sys.redis.queue, e.id)
    ensures |rs| == Rank(ws[a].sys.redis.queue, e.id) ==>
              var shown := SampleCall(ws[b].sys);
              shown.Ok? && e.id in ws[b].sys.db.rows && SameBattle(shown.value, View(ws[b].sys.db, e.id))
  {
    RoundsLowerRank(p, ws, cs, a, b, rs, e);
    RankNeverRises(p, ws, cs, a, b, e);
    StoreOverRuns(p, ws, cs, b);
    HeadOfRankZero(ws[b].sys.redis.queue, e.id);
  }
}
