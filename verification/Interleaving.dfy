/**
 * Calls in flight, interleaved command by command: each Redis command and each SQL statement is
 * one atomic step.
 */
module Interleaving {
  import opened Types
  import opened Postgres
  import opened Matching
  import opened Redis
  import opened Battles

  /** Where a call stands: the command it issues next, with what it has read so far. */
  datatype Pc =
    // start_duel_battle, after its statement
    | Publishing(shown: DuelBattle)
    | Queueing(shown: DuelBattle)
    | Started(started: Result<DuelBattle, Error>)
    // finish_duel_battle
    | Reading(id: Uuid)
    | Deleting(id: Uuid, v1: Option<int>, v2: Option<int>)
    | Dequeueing(id: Uuid, v1: Option<int>, v2: Option<int>)
    | Updating(id: Uuid, v1: Option<int>, v2: Option<int>)
    | Ended
    // vote_duel_battle
    | Asking(id: Uuid, idx: Byte, fp: Fingerprint)
    | Remembering(id: Uuid, idx: Byte, fp: Fingerprint)
    | Counting(id: Uuid, idx: Byte)
    | Requeueing(id: Uuid, voteup: int)
    | Voted(answer: Result<int, Error>)
    // get_duel_battle
    | Looking(id: Uuid)
    | Selecting(id: Uuid)
    | Got(id: Uuid, got: Result<DuelBattle, Error>)
    // sample_duel_battle
    | Sampling
    | Fetching(id: Uuid)
    | Sampled(sample: Result<DuelBattle, Error>)

  predicate Done(pc: Pc) {
    pc.Started? || pc.Ended? || pc.Voted? || pc.Got? || pc.Sampled?
  }

  /** The shared state, the calls by number, and the battles whose HSET has happened. */
  datatype Net = Net(db: Db, redis: Redis, calls: map<nat, Pc>, published: set<Uuid>)

  datatype Action =
    | Start(call: nat, card: Uuid, user: Uuid, now: Time, newId: Uuid, pick: Option<Uuid>)
    | Finish(call: nat, battle: Uuid)
    | Cast(call: nat, battle: Uuid, idx: Byte, fp: Fingerprint)
    | Get(call: nat, battle: Uuid)
    | Sample(call: nat)
    | Advance(call: nat, now: Time)
    | Charge(payer: Uuid, now: Time, draw: Uuid -> real)
    | Create(creator: Uuid, now: Time, newCard: Uuid, index: real)

  ghost predicate Enabled(n: Net, a: Action) {
    match a
    case Start(call, card, user, now, newId, pick) =>
      call !in n.calls && newId !in n.db.rows && MatchPick(n.db, card, user, pick)
    case Advance(call, now) => call in n.calls && !Done(n.calls[call])
    case Charge(payer, now, draw) => DistinctIndexes(n.db.cards)
    case Create(creator, now, newCard, index) => newCard !in n.db.cards
    case _ => a.call !in n.calls
  }

  /** The assumption on callers: nobody votes for a battle before its HSET. */
  predicate Polite(n: Net, a: Action) {
    a.Cast? ==> a.battle in n.published
  }

  function Begin(n: Net, call: nat, pc: Pc): Net {
    n.(calls := n.calls[call := pc])
  }

  /** The next command of call `k`. */
  function Command(p: Profile, n: Net, k: nat, now: Time): Net
    requires k in n.calls && !Done(n.calls[k])
  {
    var r := n.redis;
    match n.calls[k]
    case Publishing(b) =>
      Begin(n, k, Queueing(b)).(redis := r.(store := HSet(p, r.store, b.id, b)), published := n.published + {b.id})
    case Queueing(b) => Begin(n, k, Started(Ok(b))).(redis := r.(queue := ZAdd(r.queue, b.id, now)))
    case Reading(id) =>
      var h := HashAt(r.store, id);
      Begin(n, k, Deleting(id, FieldAt(h, TallyField(1)), FieldAt(h, TallyField(2))))
    case Deleting(id, v1, v2) => Begin(n, k, Dequeueing(id, v1, v2)).(redis := r.(store := Del(r.store, id)))
    case Dequeueing(id, v1, v2) => Begin(n, k, Updating(id, v1, v2)).(redis := r.(queue := ZRem(r.queue, id)))
    case Updating(id, v1, v2) =>
      if v1.Some? && v2.Some? then Begin(n, k, Ended).(db := FinishSql(n.db, id, v1.value, v2.value))
      else Begin(n, k, Ended)
    case Asking(id, idx, fp) =>
      if Remembered(r.history, id, fp, now) then Begin(n, k, Voted(Err(VoteDuplicated)))
      else Begin(n, k, Remembering(id, idx, fp))
    case Remembering(id, idx, fp) =>
      Begin(n, k, Counting(id, idx)).(redis := r.(history := SetEx(r.history, id, fp, now)))
    case Counting(id, idx) =>
      var (store, v) := HIncrBy(r.store, id, VoteField(p, idx));
      Begin(n, k, Requeueing(id, v)).(redis := r.(store := store))
    case Requeueing(id, v) => Begin(n, k, Voted(Ok(v))).(redis := r.(queue := ZAdd(r.queue, id, now)))
    case Looking(id) =>
      var b := HGet(r.store, id);
      Begin(n, k, if b.Some? then Got(id, Ok(b.value)) else Selecting(id))
    case Selecting(id) =>
      Begin(n, k, Got(id, if id in n.db.rows then Ok(View(n.db, id)) else Err(BattleNotFound)))
    case Sampling =>
      var head := Head(r.queue);
      Begin(n, k, if head.Some? then Fetching(head.value) else Sampled(Err(NoBattleAvailable)))
    case Fetching(id) =>
      var b := HGet(r.store, id);
      Begin(n, k, Sampled(if b.Some? then Ok(b.value) else Err(NoBattleAvailable)))
  }

  function StartPc(db: Db, id: Option<Uuid>): Pc
    requires id.Some? ==> id.value in db.rows
  {
    if id.None? then Started(Err(AnotherBattleInProgress))
    else if db.rows[id.value].state == Fighting then Publishing(View(db, id.value))
    else Started(Ok(View(db, id.value)))
  }

  ghost function Next(p: Profile, n: Net, a: Action): Net
    requires Enabled(n, a)
  {
    match a
    case Start(call, card, user, now, newId, pick) =>
      MatchPickMeaning(n.db, card, user, pick);
      var (db, id) := StartSql(n.db, card, user, now, newId, pick);
      Begin(n, call, StartPc(db, id)).(db := db)
    case Finish(call, battle) => Begin(n, call, Reading(battle))
    case Cast(call, battle, idx, fp) => Begin(n, call, Asking(battle, idx, fp))
    case Get(call, battle) => Begin(n, call, Looking(battle))
    case Sample(call) => Begin(n, call, Sampling)
    case Advance(call, now) => Command(p, n, call, now)
    case Charge(payer, now, draw) => n.(db := ChargeSql(n.db, payer, now, draw))
    case Create(creator, now, newCard, index) => n.(db := CreateCardSql(n.db, creator, now, newCard, index))
  }

  ghost predicate Initial(n: Net) {
    n.db.rows == map[] && n.redis == Redis(map[], [], map[]) && n.calls == map[] && n.published == {}
  }

  /** Any interleaving. */
  ghost predicate Run(p: Profile, ns: seq<Net>, acts: seq<Action>) {
    && |ns| == |acts| + 1
    && forall i | 0 <= i < |acts| :: Enabled(ns[i], acts[i]) && ns[i + 1] == Next(p, ns[i], acts[i])
  }

  /** Nobody votes for battle `id` before its HSET. */
  ghost predicate PoliteAbout(ns: seq<Net>, acts: seq<Action>, id: Uuid) {
    |acts| < |ns| && forall i | 0 <= i < |acts| && acts[i].Cast? && acts[i].battle == id :: Polite(ns[i], acts[i])
  }

  ghost predicate PoliteRun(p: Profile, ns: seq<Net>, acts: seq<Action>) {
    Run(p, ns, acts) && forall i | 0 <= i < |acts| :: Polite(ns[i], acts[i])
  }

  // ---------------------------------------------------------------- uninterrupted calls

  function SysOf(n: Net): Sys {
    Sys(n.db, n.redis)
  }

  /** Every call but a start begins with its first command, and changes nothing yet. */
  lemma CallsBegin(p: Profile, n: Net, k: nat, id: Uuid, idx: Byte, fp: Fingerprint)
    requires k !in n.calls
    ensures var n' := Next(p, n, Finish(k, id)); n'.calls[k] == Reading(id) && SysOf(n') == SysOf(n)
    ensures var n' := Next(p, n, Cast(k, id, idx, fp)); n'.calls[k] == Asking(id, idx, fp) && SysOf(n') == SysOf(n)
    ensures var n' := Next(p, n, Get(k, id)); n'.calls[k] == Looking(id) && SysOf(n') == SysOf(n)
    ensures var n' := Next(p, n, Sample(k)); n'.calls[k] == Sampling && SysOf(n') == SysOf(n)
  {
  }

  /** The statements on cards are single steps. */
  lemma CardSteps(p: Profile, n: Net, a: Action)
    requires Enabled(n, a) && (a.Charge? || a.Create?)
    ensures var n' := Next(p, n, a);
            && n'.redis == n.redis && n'.calls == n.calls && n'.published == n.published
            && (a.Charge? ==> ChargedAs(n.db, n'.db, a.payer, a.now, a.draw))
            && (a.Create? ==> CardAdded(n.db, n'.db, a.creator, a.now, a.newCard, a.index))
  {
    if a.Charge? {
      ChargeEffect(n.db, a.payer, a.now, a.draw);
    }
  }

  /** The four commands of a finish, uninterrupted, are the atomic finish. */
  lemma FinishUninterrupted(p: Profile, n: Net, k: nat, id: Uuid, now: Time)
    requires k in n.calls && n.calls[k] == Reading(id)
    ensures var n1 := Command(p, n, k, now);
            var n2 := Command(p, n1, k, now);
            var n3 := Command(p, n2, k, now);
            var n4 := Command(p, n3, k, now);
            n4.calls[k] == Ended && SysOf(n4) == FinishCall(SysOf(n), id)
  {
  }

  /** The commands of a vote, uninterrupted, are the atomic vote, with the same answer. */
  lemma VoteUninterrupted(p: Profile, n: Net, k: nat, id: Uuid, idx: Byte, fp: Fingerprint, now: Time)
    requires k in n.calls && n.calls[k] == Asking(id, idx, fp)
    ensures var (s, r) := VoteCall(p, SysOf(n), id, idx, fp, now);
            var n1 := Command(p, n, k, now);
            if r.Err? then n1.calls[k] == Voted(r) && SysOf(n1) == s
            else
              n1.calls[k] == Remembering(id, idx, fp) &&
              var n2 := Command(p, n1, k, now);
              var n3 := Command(p, n2, k, now);
              var n4 := Command(p, n3, k, now);
              n4.calls[k] == Voted(r) && SysOf(n4) == s
  {
  }

  /** The commands of a start, uninterrupted, are the atomic start, with the same answer. */
  lemma StartUninterrupted(p: Profile, n: Net, a: Action)
    requires a.Start? && Enabled(n, a) && (a.pick.Some? ==> a.pick.value in n.db.rows)
    ensures var (s, r) := StartCall(p, SysOf(n), a.card, a.user, a.now, a.newId, a.pick);
            var n1 := Next(p, n, a);
            if n1.calls[a.call].Started? then n1.calls[a.call] == Started(r) && SysOf(n1) == s
            else
              n1.calls[a.call].Publishing? &&
              var n2 := Command(p, n1, a.call, a.now);
              var n3 := Command(p, n2, a.call, a.now);
              n3.calls[a.call] == Started(r) && SysOf(n3) == s
  {
  }

  /** The command or two of a read, uninterrupted, are the atomic read. */
  lemma GetUninterrupted(p: Profile, n: Net, k: nat, id: Uuid, now: Time)
    requires k in n.calls && n.calls[k] == Looking(id)
    ensures var n1 := Command(p, n, k, now);
            && SysOf(n1) == SysOf(n)
            && if n1.calls[k].Got? then n1.calls[k] == Got(id, GetCall(SysOf(n), id))
               else
                 n1.calls[k] == Selecting(id) &&
                 var n2 := Command(p, n1, k, now);
                 n2.calls[k] == Got(id, GetCall(SysOf(n), id)) && SysOf(n2) == SysOf(n)
  {
  }

  /** So are those of a sample. */
  lemma SampleUninterrupted(p: Profile, n: Net, k: nat, now: Time)
    requires k in n.calls && n.calls[k] == Sampling
    ensures var n1 := Command(p, n, k, now);
            && SysOf(n1) == SysOf(n)
            && if n1.calls[k].Sampled? then n1.calls[k] == Sampled(SampleCall(SysOf(n)))
               else
                 n1.calls[k].Fetching? &&
                 var n2 := Command(p, n1, k, now);
                 n2.calls[k] == Sampled(SampleCall(SysOf(n))) && SysOf(n2) == SysOf(n)
  {
  }
}
