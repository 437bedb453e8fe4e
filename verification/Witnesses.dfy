/** Interleaved runs that break what atomic calls keep; each begins with empty battle tables. */
module Witnesses {
  import opened Types
  import opened OrderBy
  import opened Postgres
  import opened Matching
  import opened Redis
  import opened Battles
  import opened Interleaving
  import opened Agreement
  import opened Races

  datatype Trace = Trace(ns: seq<Net>, acts: seq<Action>)

  /** A run, of polite callers if `polite`, whose commands all happen at time 0. */
  ghost predicate Legal(polite: bool, t: Trace) {
    && Run(Intended, t.ns, t.acts) && Initial(t.ns[0])
    && (polite ==> PoliteRun(Intended, t.ns, t.acts))
    && forall i | 0 <= i < |t.acts| && t.acts[i].Advance? :: t.acts[i].now == 0.0
  }

  function Last(t: Trace): Net
    requires t.ns != []
  {
    t.ns[|t.ns| - 1]
  }

  function Extended(t: Trace, a: Action, n: Net): Trace {
    Trace(t.ns + [n], t.acts + [a])
  }

  /** One more action. */
  lemma Then(polite: bool, t: Trace, a: Action) returns (t': Trace)
    requires Legal(polite, t) && Enabled(Last(t), a) && (polite ==> Polite(Last(t), a))
    requires a.Advance? ==> a.now == 0.0
    ensures Legal(polite, t') && t' == Extended(t, a, Next(Intended, Last(t), a))
    ensures Last(t') == Next(Intended, Last(t), a)
  {
    t' := Extended(t, a, Next(Intended, Last(t), a));
  }

  /** The next command of call `k`. */
  lemma Continue(polite: bool, t: Trace, k: nat) returns (t': Trace)
    requires Legal(polite, t) && k in Last(t).calls && !Done(Last(t).calls[k])
    ensures Legal(polite, t') && t' == Extended(t, Advance(k, 0.0), Command(Intended, Last(t), k, 0.0))
    ensures Last(t') == Command(Intended, Last(t), k, 0.0)
  {
    t' := Then(polite, t, Advance(k, 0.0));
  }

  // ---------------------------------------------------------------- calls

  lemma VoteUpToGet(polite: bool, t: Trace, k: nat, id: Uuid, idx: Byte, fp: Fingerprint) returns (t': Trace)
    requires Legal(polite, t) && k !in Last(t).calls && (id, fp) !in Last(t).redis.history
    requires polite ==> id in Last(t).published
    ensures Legal(polite, t') && Last(t') == Last(t).(calls := Last(t).calls[k := Remembering(id, idx, fp)])
  {
    t' := Then(polite, t, Cast(k, id, idx, fp));
    t' := Continue(polite, t', k);
    assert Last(t).calls[k := Asking(id, idx, fp)][k := Remembering(id, idx, fp)]
        == Last(t).calls[k := Remembering(id, idx, fp)];
  }

  /** A vote up to and including its SETEX. */
  lemma VoteUpToNote(polite: bool, t: Trace, k: nat, id: Uuid, idx: Byte, fp: Fingerprint) returns (t': Trace)
    requires Legal(polite, t) && k !in Last(t).calls && (id, fp) !in Last(t).redis.history
    requires polite ==> id in Last(t).published
    ensures Legal(polite, t')
    ensures var n := Last(t);
            Last(t') == n.(redis := n.redis.(history := SetEx(n.redis.history, id, fp, 0.0)),
                           calls := n.calls[k := Counting(id, idx)])
  {
    t' := VoteUpToGet(polite, t, k, id, idx, fp);
    t' := Continue(polite, t', k);
    assert Last(t).calls[k := Remembering(id, idx, fp)][k := Counting(id, idx)]
        == Last(t).calls[k := Counting(id, idx)];
  }

  lemma VoteUpToCount(polite: bool, t: Trace, k: nat, id: Uuid, idx: Byte, fp: Fingerprint) returns (t': Trace)
    requires Legal(polite, t) && k !in Last(t).calls && (id, fp) !in Last(t).redis.history
    requires polite ==> id in Last(t).published
    ensures Legal(polite, t')
    ensures var n, n' := Last(t), Last(t');
            && n'.db == n.db && n'.redis.store == HIncrBy(n.redis.store, id, VoteField(Intended, idx)).0
            && n'.redis.history.Keys == n.redis.history.Keys + {(id, fp)} && n'.calls.Keys == n.calls.Keys + {k}
  {
    t' := VoteUpToNote(polite, t, k, id, idx, fp);
    t' := Continue(polite, t', k);
  }

  lemma FinishUpToRead(polite: bool, t: Trace, k: nat, id: Uuid) returns (t': Trace)
    requires Legal(polite, t) && k !in Last(t).calls
    ensures Legal(polite, t')
    ensures var n, h := Last(t), HashAt(Last(t).redis.store, id);
            Last(t') == n.(calls := n.calls[k := Deleting(id, FieldAt(h, TallyField(1)), FieldAt(h, TallyField(2)))])
  {
    t' := Then(polite, t, Finish(k, id));
    t' := Continue(polite, t', k);
    var pc := Last(t').calls[k];
    assert Last(t).calls[k := Reading(id)][k := pc] == Last(t).calls[k := pc];
  }

  lemma FinishUpToZRem(polite: bool, t: Trace, k: nat, id: Uuid) returns (t': Trace)
    requires Legal(polite, t) && k !in Last(t).calls
    ensures Legal(polite, t')
    ensures var n, h := Last(t), HashAt(Last(t).redis.store, id);
            Last(t') == n.(redis := n.redis.(store := Del(n.redis.store, id), queue := ZRem(n.redis.queue, id)),
                           calls := n.calls[k := Updating(id, FieldAt(h, TallyField(1)), FieldAt(h, TallyField(2)))])
  {
    t' := FinishUpToRead(polite, t, k, id);
    var v1, v2 := Last(t').calls[k].v1, Last(t').calls[k].v2;
    t' := Continue(polite, t', k);
    t' := Continue(polite, t', k);
    assert Last(t).calls[k := Deleting(id, v1, v2)][k := Dequeueing(id, v1, v2)][k := Updating(id, v1, v2)]
        == Last(t).calls[k := Updating(id, v1, v2)];
  }

  lemma WholeFinish(polite: bool, t: Trace, k: nat, id: Uuid) returns (t': Trace)
    requires Legal(polite, t) && k !in Last(t).calls
    ensures Legal(polite, t')
    ensures SysOf(Last(t')) == FinishCall(SysOf(Last(t)), id) && Last(t').calls == Last(t).calls[k := Ended]
    ensures Last(t').published == Last(t).published
  {
    t' := FinishUpToZRem(polite, t, k, id);
    var pc := Last(t').calls[k];
    t' := Continue(polite, t', k);
    assert Last(t).calls[k := pc][k := Ended] == Last(t).calls[k := Ended];
  }

  // ---------------------------------------------------------------- a battle to vote for

  const FIRST: Card := Card(5.0, 0.0, Some(0.0), Some(10), Some(10), 0.25)
  const SECOND: Card := Card(7.0, 0.0, Some(0.0), Some(20), Some(20), 0.75)
  const CARDS: map<Uuid, Card> := map[1 := FIRST, 2 := SECOND]
  const EMPTY: Net := Net(Db(map[], CARDS, map[]), Redis(map[], [], map[]), map[], {})
  const WAITING: Row := NewRow(1, 10, 5.0, 0.0)

  lemma WaitAlone(n: Net)
    requires n == EMPTY
    ensures Enabled(n, Start(0, 1, 10, 0.0, 100, None))
    ensures Next(Intended, n, Start(0, 1, 10, 0.0, 100, None)).db.rows == map[100 := WAITING]
  {
    assert TwoScans(n.db.rows, 10, 5.0, None, None, None);
  }

  lemma JoinWaiting(n: Net)
    requires n.db == Db(map[100 := WAITING], CARDS, map[]) && 3 !in n.calls
    ensures Enabled(n, Start(3, 2, 20, 0.0, 101, Some(100)))
    ensures var n' := Next(Intended, n, Start(3, 2, 20, 0.0, 101, Some(100)));
            && n'.redis == n.redis && n'.db.rows == map[100 := Matched(WAITING, 2, 20, 0.0)]
            && n'.calls == n.calls[3 := Publishing(View(n'.db, 100))] && n'.published == n.published
  {
    assert !Busy(n.db.rows, 2);
    assert Below(n.db.rows, 20, 7.0, 100);
    assert TwoScans(n.db.rows, 20, 7.0, Some(100), None, Some(100));
  }

  lemma OneWaits(polite: bool) returns (t: Trace)
    ensures Legal(polite, t) && Last(t).db == Db(map[100 := WAITING], CARDS, map[])
    ensures Last(t).redis == EMPTY.redis && Last(t).calls.Keys == {0} && Last(t).calls[0].Started?
    ensures Last(t).published == {}
  {
    WaitAlone(EMPTY);
    t := Then(polite, Trace([EMPTY], []), Start(0, 1, 10, 0.0, 100, None));
  }

  // ---------------------------------------------------------------- votes before the HSET

  /** Both tallies of the waiting battle exist before it has been matched. */
  lemma CountedEarly() returns (t: Trace)
    ensures Legal(false, t) && Last(t).db == Db(map[100 := WAITING], CARDS, map[])
    ensures 100 in Last(t).redis.store && Tallied(Last(t).redis.store[100])
    ensures 3 !in Last(t).calls && 4 !in Last(t).calls
  {
    t := OneWaits(false);
    t := VoteUpToCount(false, t, 1, 100, 1, "a");
    assert VoteField(Intended, 1) in Last(t).redis.store[100].fields;
    t := VoteUpToCount(false, t, 2, 100, 2, "b");
    FieldsMeet(Intended, 1);
    FieldsMeet(Intended, 2);
  }

  /** Then it is matched, but its HSET is still to come. */
  lemma MatchedEarly() returns (t: Trace)
    ensures Legal(false, t) && 4 !in Last(t).calls && 100 in Last(t).db.rows
    ensures 3 in Last(t).calls && Last(t).calls[3] == Publishing(View(Last(t).db, 100))
    ensures Last(t).db.rows[100].state == Fighting && Tallied(HashAt(Last(t).redis.store, 100))
  {
    t := CountedEarly();
    JoinWaiting(Last(t));
    t := Then(false, t, Start(3, 2, 20, 0.0, 101, Some(100)));
  }

  /**
   * Two votes on a waiting battle, then its match, a finish between the match's statement and its
   * HSET: Redis shows a fight that Postgres has finished.
   */
  lemma RudeVotesBreakAgreement() returns (ns: seq<Net>, acts: seq<Action>)
    ensures Run(Intended, ns, acts) && Initial(ns[0])
    ensures !AgreesOn(ns[|acts|], 100)
  {
    var t := MatchedEarly();
    t := WholeFinish(false, t, 4, 100);
    t := Continue(false, t, 3);
    ns, acts := t.ns, t.acts;
  }

  // ---------------------------------------------------------------- polite callers that race

  /** The match is published and queued, and everybody may vote. */
  lemma FightOpen() returns (t: Trace)
    ensures Legal(true, t) && Last(t).published == {100} && Last(t).calls.Keys == {0, 3}
    ensures Last(t).redis.history == map[] && Last(t).redis.queue == [Keyed(100, 0.0)]
    ensures Last(t).calls[0].Started? && Last(t).calls[3].Started?
    ensures HGet(Last(t).redis.store, 100).Some? && Last(t).redis.store.Keys == {100}
    ensures FieldAt(HashAt(Last(t).redis.store, 100), TallyField(1)) == Some(0)
    ensures FieldAt(HashAt(Last(t).redis.store, 100), TallyField(2)) == Some(0)
  {
    t := OneWaits(true);
    JoinWaiting(Last(t));
    t := Then(true, t, Start(3, 2, 20, 0.0, 101, Some(100)));
    t := Continue(true, t, 3);
    t := Continue(true, t, 3);
  }

  ghost predicate Grows(t: Trace, t': Trace) {
    t.ns <= t'.ns && t.acts <= t'.acts
  }

  /** Two commands, of call 1 and then of call 2. */
  lemma BothContinue(t: Trace) returns (t': Trace)
    requires Legal(true, t) && {1, 2} <= Last(t).calls.Keys && !Done(Last(t).calls[1]) && !Done(Last(t).calls[2])
    ensures Legal(true, t') && Grows(t, t') && t'.acts == t.acts + [Advance(1, 0.0), Advance(2, 0.0)]
    ensures t'.ns[|t.acts|] == Last(t) && t'.ns[|t.acts| + 1] == Command(Intended, Last(t), 1, 0.0)
    ensures Last(t') == t'.ns[|t.acts| + 2] == Command(Intended, t'.ns[|t.acts| + 1], 2, 0.0)
  {
    var u := Continue(true, t, 1);
    t' := Continue(true, u, 2);
  }

  lemma BothBegin(t: Trace) returns (t': Trace)
    requires Legal(true, t) && 100 in Last(t).published && 1 !in Last(t).calls && 2 !in Last(t).calls
    ensures Legal(true, t')
    ensures Last(t') == Last(t).(calls := Last(t).calls[1 := Asking(100, 1, "a")][2 := Asking(100, 1, "a")])
  {
    t' := Then(true, t, Cast(1, 100, 1, "a"));
    t' := Then(true, t', Cast(2, 100, 1, "a"));
  }

  /** Both GETs of call 1 and call 2 come before both SETEX, and these before both HINCRBY. */
  lemma RacersPass(t: Trace) returns (t': Trace)
    requires Legal(true, t) && Last(t).redis.history == map[] && {1, 2} <= Last(t).calls.Keys
    requires Last(t).calls[1] == Last(t).calls[2] == Asking(100, 1, "a")
    ensures Legal(true, t') && Grows(t, t')
    ensures var m := |t.acts|;
            && CountedVote(t'.ns, t'.acts, Passage(1, m, m + 2, m + 4), 100, "a")
            && CountedVote(t'.ns, t'.acts, Passage(2, m + 1, m + 3, m + 5), 100, "a")
    ensures var f := VoteField(Intended, 1);
            Last(t').redis.store == HIncrBy(HIncrBy(Last(t).redis.store, 100, f).0, 100, f).0
  {
    var u := BothContinue(t);
    var v := BothContinue(u);
    t' := BothContinue(v);
  }

  lemma CountedTwice(store: Store, id: Uuid, f: string)
    requires FieldAt(HashAt(store, id), f) == Some(0)
    ensures FieldAt(HashAt(HIncrBy(HIncrBy(store, id, f).0, id, f).0, id), f) == Some(2)
  {
  }

  lemma RacersBegun() returns (t: Trace)
    ensures Legal(true, t) && Last(t).redis.history == map[] && {1, 2} <= Last(t).calls.Keys
    ensures Last(t).calls[1] == Last(t).calls[2] == Asking(100, 1, "a")
    ensures FieldAt(HashAt(Last(t).redis.store, 100), TallyField(1)) == Some(0)
  {
    t := FightOpen();
    t := BothBegin(t);
  }

  /**
   * Polite callers: two votes of one fingerprint on an open fight, both GETs before both SETEX.
   * Both are counted, at one time, and the counter rises from 0 to 2.
   */
  lemma RacingVotesBothCount() returns (ns: seq<Net>, acts: seq<Action>, v: Passage, w: Passage)
    ensures PoliteRun(Intended, ns, acts) && Initial(ns[0]) && Clocked(acts)
    ensures CountedVote(ns, acts, v, 100, "a") && CountedVote(ns, acts, w, 100, "a") && v.call != w.call
    ensures WithinTtl(acts, v, w)
    ensures FieldAt(HashAt(ns[v.asked].redis.store, 100), TallyField(1)) == Some(0)
    ensures FieldAt(HashAt(ns[|acts|].redis.store, 100), TallyField(1)) == Some(2)
  {
    var t := RacersBegun();
    var m := |t.acts|;
    var t' := RacersPass(t);
    FieldsMeet(Intended, 1);
    CountedTwice(Last(t).redis.store, 100, TallyField(1));
    assert t'.ns[m] == Last(t);
    ns, acts, v, w := t'.ns, t'.acts, Passage(1, m, m + 2, m + 4), Passage(2, m + 1, m + 3, m + 5);
  }

  /** The HINCRBY and the ZADD of a vote. */
  lemma VoteFromNote(polite: bool, t: Trace, k: nat, id: Uuid, idx: Byte) returns (t': Trace)
    requires Legal(polite, t) && k in Last(t).calls && Last(t).calls[k] == Counting(id, idx)
    ensures Legal(polite, t')
    ensures var r := Last(t).redis;
            Last(t').redis == r.(store := HIncrBy(r.store, id, VoteField(Intended, idx)).0,
                                 queue := ZAdd(r.queue, id, 0.0))
    ensures Last(t').calls.Keys == Last(t).calls.Keys
    ensures forall j | j in Last(t).calls && j != k :: Last(t').calls[j] == Last(t).calls[j]
    ensures Last(t').calls[k].Voted?
  {
    t' := Continue(polite, t, k);
    t' := Continue(polite, t', k);
  }

  lemma LoneMember(id: Uuid)
    ensures ZRem([Keyed(id, 0.0)], id) == [] && ZAdd([], id, 0.0) == [Keyed(id, 0.0)]
  {
    assert [Keyed(id, 0.0)][1..] == [];
  }

  /**
   * Polite callers: a finish runs between a vote's SETEX and its HINCRBY. The vote's ZADD leaves
   * the finished battle alone in the queue, without a blob, and sampling fails.
   */
  lemma LateVoteBlocksSampling() returns (ns: seq<Net>, acts: seq<Action>)
    ensures PoliteRun(Intended, ns, acts) && Initial(ns[0])
    ensures var n := ns[|acts|];
            && Head(n.redis.queue) == Some(100) && HGet(n.redis.store, 100).None? && !HalfWay(n, 100)
            && SampleCall(SysOf(n)) == Err(NoBattleAvailable)
  {
    var t := FightOpen();
    t := VoteUpToNote(true, t, 1, 100, 1, "a");
    t := WholeFinish(true, t, 2, 100);
    LoneMember(100);
    assert Last(t).redis.queue == [];
    t := VoteFromNote(true, t, 1, 100, 1);
    ns, acts := t.ns, t.acts;
  }
}
