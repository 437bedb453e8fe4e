/**
 * When what Redis shows of a battle agrees with Postgres: exactly when, over every interleaving,
 * and a condition that callers can see to. What the reads answer follows.
 */
module Agreement {
  import opened Types
  import opened Postgres
  import opened Matching
  import opened Tables
  import opened Redis
  import opened Battles
  import opened Interleaving

  /** The blob of battle `id`, if there is one, is its row joined with its cards, users' points aside. */
  predicate AgreesOn(n: Net, id: Uuid) {
    var b := HGet(n.redis.store, id);
    b.Some? ==> id in n.db.rows && SameBattle(b.value, View(n.db, id))
  }

  // ---------------------------------------------------------------- what every interleaving keeps

  /** What rows keep even if battles are finished while they wait: owners stay right. */
  predicate LooseRow(cards: map<Uuid, Card>, r: Row) {
    && Owns(cards, r.card1, r.user1)
    && (r.card2.Some? <==> r.user2.Some?)
    && (r.card2.Some? ==> Owns(cards, r.card2.value, r.user2.value))
  }

  ghost predicate Loose(db: Db) {
    forall id :: id in db.rows ==> LooseRow(db.cards, db.rows[id])
  }

  predicate Begun(db: Db, id: Uuid) {
    id in db.rows && db.rows[id].state != Matching
  }

  /** A call between match and HSET shows a fight of its own battle, not published before. */
  predicate CallFree(db: Db, published: set<Uuid>, pc: Pc) {
    && (pc.Publishing? ==>
          pc.shown.row.state == Fighting && Begun(db, pc.shown.id) && pc.shown.id !in published)
    && (pc.Queueing? ==> pc.shown.id in published)
  }

  ghost predicate CallsFree(db: Db, published: set<Uuid>, calls: map<nat, Pc>) {
    forall k :: k in calls ==> CallFree(db, published, calls[k])
  }

  ghost predicate OnePublisher(calls: map<nat, Pc>) {
    forall j, k :: j in calls && k in calls && j != k && calls[j].Publishing? && calls[k].Publishing?
                   ==> calls[j].shown.id != calls[k].shown.id
  }

  /** A blob is the fight that was published under its own id. */
  ghost predicate BlobsFree(store: Store, published: set<Uuid>) {
    forall id :: HGet(store, id).Some? ==>
      id in published && HGet(store, id).value.id == id && HGet(store, id).value.row.state == Fighting
  }

  ghost predicate PublishedBegun(db: Db, published: set<Uuid>) {
    forall id :: id in published ==> Begun(db, id)
  }

  ghost predicate FreeInv(n: Net) {
    && Loose(n.db)
    && CallsFree(n.db, n.published, n.calls)
    && OnePublisher(n.calls)
    && BlobsFree(n.redis.store, n.published)
    && PublishedBegun(n.db, n.published)
  }

  ghost predicate BegunStays(db: Db, db': Db) {
    forall id :: Begun(db, id) ==> Begun(db', id)
  }

  lemma DbKeepsFree(n: Net, db': Db)
    requires FreeInv(n) && Loose(db') && BegunStays(n.db, db')
    ensures FreeInv(n.(db := db'))
  {
  }

  lemma StoreKeepsFree(n: Net, r: Redis)
    requires FreeInv(n)
    requires forall id :: HGet(r.store, id) == None || HGet(r.store, id) == HGet(n.redis.store, id)
    ensures FreeInv(n.(redis := r))
  {
  }

  ghost predicate Pending(n: Net, id: Uuid) {
    exists k :: PendingAt(n, k, id)
  }

  /** Call `k` has matched battle `id` and not yet published it. */
  predicate PendingAt(n: Net, k: nat, id: Uuid) {
    k in n.calls && n.calls[k].Publishing? && n.calls[k].shown.id == id
  }

  lemma BeginKeepsFree(n: Net, k: nat, pc: Pc)
    requires FreeInv(n) && CallFree(n.db, n.published, pc)
    requires pc.Publishing? ==> !Pending(n, pc.shown.id)
    ensures FreeInv(Begin(n, k, pc))
  {
    forall j | pc.Publishing? && j in n.calls && n.calls[j].Publishing? ensures n.calls[j].shown.id != pc.shown.id {
      assert !PendingAt(n, j, pc.shown.id);
    }
  }

  lemma StartGrows(n: Net, a: Action)
    requires FreeInv(n) && a.Start? && Enabled(n, a)
    ensures a.pick.Some? ==> a.pick.value in n.db.rows
    ensures var (db, id) := StartSql(n.db, a.card, a.user, a.now, a.newId, a.pick);
            && Loose(db) && BegunStays(n.db, db) && OwnedKept(n.db.cards, db.cards)
            && (forall x :: Begun(n.db, x) ==> db.rows[x] == n.db.rows[x])
            && (id.Some? ==> id.value in db.rows && !Begun(n.db, id.value))
  {
    MatchPickMeaning(n.db, a.card, a.user, a.pick);
    if a.pick.Some? {
      assert Waiting(n.db.rows, a.user, a.pick.value);
    }
  }

  lemma NotBegunNotPending(n: Net, id: Uuid)
    requires FreeInv(n) && !Begun(n.db, id)
    ensures !Pending(n, id) && id !in n.published
  {
    forall k ensures !PendingAt(n, k, id) {
      assert k in n.calls ==> CallFree(n.db, n.published, n.calls[k]);
    }
  }

  lemma StartKeepsFree(p: Profile, n: Net, a: Action)
    requires FreeInv(n) && a.Start? && Enabled(n, a)
    ensures FreeInv(Next(p, n, a))
  {
    StartGrows(n, a);
    var (db, id) := StartSql(n.db, a.card, a.user, a.now, a.newId, a.pick);
    DbKeepsFree(n, db);
    if id.Some? {
      NotBegunNotPending(n, id.value);
      assert !Pending(n.(db := db), id.value) by {
        assert forall k :: PendingAt(n.(db := db), k, id.value) <==> PendingAt(n, k, id.value);
      }
    }
    BeginKeepsFree(n.(db := db), a.call, StartPc(db, id));
  }

  lemma PublishKeepsFree(p: Profile, n: Net, k: nat, now: Time)
    requires FreeInv(n) && k in n.calls && n.calls[k].Publishing?
    ensures FreeInv(Command(p, n, k, now))
  {
    assert CallFree(n.db, n.published, n.calls[k]);
  }

  lemma UpdateKeepsFree(p: Profile, n: Net, k: nat, now: Time)
    requires FreeInv(n) && k in n.calls && n.calls[k].Updating?
    ensures FreeInv(Command(p, n, k, now))
  {
    var db' := Command(p, n, k, now).db;
    DbKeepsFree(n, db');
    BeginKeepsFree(n.(db := db'), k, Ended);
  }

  /** Every other command changes the stores without adding a blob. */
  lemma QuietKeepsFree(p: Profile, n: Net, k: nat, now: Time)
    requires FreeInv(n) && k in n.calls && !Done(n.calls[k]) && !n.calls[k].Publishing? && !n.calls[k].Updating?
    ensures FreeInv(Command(p, n, k, now))
  {
    var n' := Command(p, n, k, now);
    assert CallFree(n.db, n.published, n.calls[k]);
    StoreKeepsFree(n, n'.redis);
    BeginKeepsFree(n.(redis := n'.redis), k, n'.calls[k]);
  }

  lemma CardsKeepFree(n: Net, db': Db)
    requires FreeInv(n) && db'.rows == n.db.rows && OwnedKept(n.db.cards, db'.cards)
    ensures FreeInv(n.(db := db'))
  {
    DbKeepsFree(n, db');
  }

  lemma ActionKeepsFree(p: Profile, n: Net, a: Action)
    requires FreeInv(n) && Enabled(n, a)
    ensures FreeInv(Next(p, n, a))
  {
    match a
    case Start(_, _, _, _, _, _) => StartKeepsFree(p, n, a);
    case Finish(call, battle) => BeginKeepsFree(n, call, Reading(battle));
    case Cast(call, battle, idx, fp) => BeginKeepsFree(n, call, Asking(battle, idx, fp));
    case Get(call, battle) => BeginKeepsFree(n, call, Looking(battle));
    case Sample(call) => BeginKeepsFree(n, call, Sampling);
    case Advance(call, now) =>
      if n.calls[call].Publishing? {
        PublishKeepsFree(p, n, call, now);
      } else if n.calls[call].Updating? {
        UpdateKeepsFree(p, n, call, now);
      } else {
        QuietKeepsFree(p, n, call, now);
      }
    case Charge(payer, now, draw) =>
      ChargeKeepsOwned(n.db, payer, now, draw);
      CardsKeepFree(n, ChargeSql(n.db, payer, now, draw));
    case Create(creator, now, newCard, index) =>
      CardsKeepFree(n, CreateCardSql(n.db, creator, now, newCard, index));
  }

  lemma {:induction false} FreeOverRuns(p: Profile, ns: seq<Net>, acts: seq<Action>, i: nat)
    requires Run(p, ns, acts) && Initial(ns[0]) && i <= |acts|
    ensures FreeInv(ns[i])
  {
    if i > 0 {
      FreeOverRuns(p, ns, acts, i - 1);
      ActionKeepsFree(p, ns[i - 1], acts[i - 1]);
      assert ns[i] == Next(p, ns[i - 1], acts[i - 1]);
    }
  }

  // ---------------------------------------------------------------- the steps that matter for a battle

  /** One action moves one call. */
  lemma OthersStay(p: Profile, n: Net, a: Action, k: nat)
    requires Enabled(n, a) && (a.Charge? || a.Create? || k != a.call)
    ensures var n' := Next(p, n, a); (k in n'.calls <==> k in n.calls) && (k in n.calls ==> n'.calls[k] == n.calls[k])
  {
  }

  /** The UPDATE of a finish that read both tallies of `id`. */
  predicate Settles(n: Net, a: Action, id: Uuid) {
    && a.Advance? && a.call in n.calls && id in n.db.rows
    && n.calls[a.call].Updating? && n.calls[a.call].id == id
    && n.calls[a.call].v1.Some? && n.calls[a.call].v2.Some?
  }

  /** The HSET of `id`. */
  predicate Publishes(n: Net, a: Action, id: Uuid) {
    a.Advance? && PendingAt(n, a.call, id)
  }

  /** Only its UPDATE changes the row of a battle that has begun. */
  lemma RowSteps(p: Profile, n: Net, a: Action, id: Uuid)
    requires FreeInv(n) && Enabled(n, a) && Begun(n.db, id) && !Settles(n, a, id)
    ensures var n' := Next(p, n, a);
            id in n'.db.rows && n'.db.rows[id] == n.db.rows[id] && OwnedKept(n.db.cards, n'.db.cards)
  {
    match a {
      case Start(_, _, _, _, _, _) => StartGrows(n, a);
      case Charge(payer, now, draw) => ChargeKeepsOwned(n.db, payer, now, draw);
      case _ =>
    }
  }

  /** And nothing else changes what it shows. */
  lemma ViewSteps(p: Profile, n: Net, a: Action, id: Uuid)
    requires FreeInv(n) && Enabled(n, a) && Begun(n.db, id) && !Settles(n, a, id)
    ensures var n' := Next(p, n, a);
            Begun(n'.db, id) && SameBattle(View(n.db, id), View(n'.db, id))
  {
    RowSteps(p, n, a, id);
    LooseView(n.db, Next(p, n, a).db, id);
  }

  lemma LooseView(db: Db, db': Db, id: Uuid)
    requires Loose(db) && OwnedKept(db.cards, db'.cards)
    requires id in db.rows && id in db'.rows && db.rows[id] == db'.rows[id]
    ensures SameBattle(View(db, id), View(db', id))
  {
    assert LooseRow(db.cards, db.rows[id]);
  }

  lemma SettledSteps(p: Profile, n: Net, a: Action, id: Uuid)
    requires FreeInv(n) && Enabled(n, a) && Begun(n.db, id)
    requires Settles(n, a, id) || n.db.rows[id].state == Finished
    ensures id in Next(p, n, a).db.rows && Next(p, n, a).db.rows[id].state == Finished
  {
    if !Settles(n, a, id) {
      ViewSteps(p, n, a, id);
    }
  }

  lemma BlobSteps(p: Profile, n: Net, a: Action, id: Uuid)
    requires Enabled(n, a)
    ensures var b := HGet(Next(p, n, a).redis.store, id);
            if Publishes(n, a, id) then b == Some(n.calls[a.call].shown)
            else b == None || b == HGet(n.redis.store, id)
  {
  }

  /** A call waits for its HSET with what it showed, or has just matched and shows the row. */
  lemma PendingSteps(p: Profile, n: Net, a: Action, k: nat, id: Uuid)
    requires FreeInv(n) && Enabled(n, a) && PendingAt(Next(p, n, a), k, id)
    ensures var n' := Next(p, n, a);
            || (PendingAt(n, k, id) && n'.calls[k] == n.calls[k])
            || (id in n'.db.rows && n'.calls[k].shown == View(n'.db, id))
  {
    if a.Charge? || a.Create? || k != a.call {
      OthersStay(p, n, a, k);
    } else if a.Start? {
      StartGrows(n, a);
    }
  }

  // ---------------------------------------------------------------- exactly when

  /**
   * Step `u` settles the row of `id` under its blob, or between its match statement and an HSET
   * that still follows.
   */
  ghost predicate Spoils(ns: seq<Net>, acts: seq<Action>, u: int, id: Uuid) {
    && 0 <= u < |acts| < |ns| && Settles(ns[u], acts[u], id)
    && (HGet(ns[u].redis.store, id).Some?
        || (Pending(ns[u], id) && exists h :: u < h < |acts| && Publishes(ns[h], acts[h], id)))
  }

  /** What an unpublished match shows is still true, unless its row was settled meanwhile. */
  ghost predicate PendingTrue(ns: seq<Net>, acts: seq<Action>, i: nat, id: Uuid)
    requires i < |ns| && |acts| < |ns|
  {
    forall k :: PendingAt(ns[i], k, id) ==>
      || (id in ns[i].db.rows && SameBattle(ns[i].calls[k].shown, View(ns[i].db, id)))
      || SettledSoFar(ns, acts, i, id)
  }

  ghost predicate SettledSoFar(ns: seq<Net>, acts: seq<Action>, i: nat, id: Uuid)
    requires |acts| < |ns|
  {
    exists u :: 0 <= u < i && u < |acts| && Settles(ns[u], acts[u], id) && Pending(ns[u], id)
  }

  lemma PendingBegun(n: Net, k: nat, id: Uuid)
    requires FreeInv(n) && PendingAt(n, k, id)
    ensures Begun(n.db, id) && id !in n.published && Pending(n, id)
    ensures n.calls[k].shown.row.state == Fighting && HGet(n.redis.store, id).None?
  {
    assert CallFree(n.db, n.published, n.calls[k]);
  }

  lemma PendingStaysTrue(p: Profile, ns: seq<Net>, acts: seq<Action>, i: nat, id: Uuid)
    requires |acts| < |ns| && i < |acts|
    requires FreeInv(ns[i]) && Enabled(ns[i], acts[i]) && ns[i + 1] == Next(p, ns[i], acts[i])
    requires PendingTrue(ns, acts, i, id)
    ensures PendingTrue(ns, acts, i + 1, id)
  {
    var n, a, n' := ns[i], acts[i], ns[i + 1];
    forall k | PendingAt(n', k, id)
      ensures (id in n'.db.rows && SameBattle(n'.calls[k].shown, View(n'.db, id))) || SettledSoFar(ns, acts, i + 1, id)
    {
      PendingSteps(p, n, a, k, id);
      if PendingAt(n, k, id) && n'.calls[k] == n.calls[k] {
        PendingBegun(n, k, id);
        if SettledSoFar(ns, acts, i, id) {
          var u :| 0 <= u < i && u < |acts| && Settles(ns[u], acts[u], id) && Pending(ns[u], id);
        } else if !Settles(n, a, id) {
          ViewSteps(p, n, a, id);
        }
      }
    }
  }

  lemma AgreementStep(p: Profile, ns: seq<Net>, acts: seq<Action>, i: nat, id: Uuid)
    requires |acts| < |ns| && i < |acts|
    requires FreeInv(ns[i]) && Enabled(ns[i], acts[i]) && ns[i + 1] == Next(p, ns[i], acts[i])
    requires PendingTrue(ns, acts, i, id) && AgreesOn(ns[i], id) && !exists u :: Spoils(ns, acts, u, id)
    ensures AgreesOn(ns[i + 1], id)
  {
    var n, a := ns[i], acts[i];
    BlobSteps(p, n, a, id);
    assert !Spoils(ns, acts, i, id);
    if Publishes(n, a, id) {
      PendingBegun(n, a.call, id);
      if SettledSoFar(ns, acts, i, id) {
        var u :| 0 <= u < i && u < |acts| && Settles(ns[u], acts[u], id) && Pending(ns[u], id);
        assert Spoils(ns, acts, u, id);
      }
      ViewSteps(p, n, a, id);
    } else if HGet(ns[i + 1].redis.store, id).Some? {
      assert Begun(n.db, id) && !Settles(n, a, id);
      ViewSteps(p, n, a, id);
    }
  }

  lemma {:induction false} UnspoiledAgrees(p: Profile, ns: seq<Net>, acts: seq<Action>, i: nat, id: Uuid)
    requires Run(p, ns, acts) && Initial(ns[0]) && i <= |acts| && !exists u :: Spoils(ns, acts, u, id)
    ensures AgreesOn(ns[i], id) && PendingTrue(ns, acts, i, id)
  {
    if i > 0 {
      UnspoiledAgrees(p, ns, acts, i - 1, id);
      FreeOverRuns(p, ns, acts, i - 1);
      PendingStaysTrue(p, ns, acts, i - 1, id);
      AgreementStep(p, ns, acts, i - 1, id);
    }
  }

  /** Once settled, a row stays finished. */
  lemma {:induction false} SettledStays(p: Profile, ns: seq<Net>, acts: seq<Action>, u: nat, i: nat, id: Uuid)
    requires Run(p, ns, acts) && Initial(ns[0]) && u < i <= |acts| && Settles(ns[u], acts[u], id) && Begun(ns[u].db, id)
    ensures id in ns[i].db.rows && ns[i].db.rows[id].state == Finished
    decreases i
  {
    FreeOverRuns(p, ns, acts, i - 1);
    if i > u + 1 {
      SettledStays(p, ns, acts, u, i - 1, id);
    }
    SettledSteps(p, ns[i - 1], acts[i - 1], id);
  }

  lemma StaleBlob(n: Net, id: Uuid)
    requires FreeInv(n) && id in n.db.rows && n.db.rows[id].state == Finished && HGet(n.redis.store, id).Some?
    ensures !AgreesOn(n, id)
  {
  }

  /** A spoiled run has a state that disagrees: right after the UPDATE, or right after the HSET. */
  lemma SpoiledDisagrees(p: Profile, ns: seq<Net>, acts: seq<Action>, u: nat, id: Uuid) returns (i: nat)
    requires Run(p, ns, acts) && Initial(ns[0]) && Spoils(ns, acts, u, id)
    ensures i <= |acts| && !AgreesOn(ns[i], id)
  {
    FreeOverRuns(p, ns, acts, u);
    if HGet(ns[u].redis.store, id).Some? {
      i := u + 1;
      BlobSteps(p, ns[u], acts[u], id);
      SettledStays(p, ns, acts, u, u + 1, id);
      assert ns[u + 1].redis == ns[u].redis;
    } else {
      var h :| u < h < |acts| && Publishes(ns[h], acts[h], id);
      var k :| PendingAt(ns[u], k, id);
      PendingBegun(ns[u], k, id);
      i := h + 1;
      BlobSteps(p, ns[h], acts[h], id);
      SettledStays(p, ns, acts, u, h + 1, id);
    }
    FreeOverRuns(p, ns, acts, i);
    StaleBlob(ns[i], id);
  }

  /**
   * Over every interleaving, polite or not, with the names as written or repaired: Redis agrees
   * with Postgres about battle `id` in every state, if and only if no finish settles its row
   * between its match statement and its HSET, nor while its blob is stored.
   */
  lemma AgreesExactlyUnspoiled(p: Profile, ns: seq<Net>, acts: seq<Action>, id: Uuid)
    requires Run(p, ns, acts) && Initial(ns[0])
    ensures (forall i | 0 <= i <= |acts| :: AgreesOn(ns[i], id)) <==> !exists u :: Spoils(ns, acts, u, id)
  {
    if u :| Spoils(ns, acts, u, id) {
      var i := SpoiledDisagrees(p, ns, acts, u, id);
    } else {
      forall i | 0 <= i <= |acts| ensures AgreesOn(ns[i], id) {
        UnspoiledAgrees(p, ns, acts, i, id);
      }
    }
  }

  // ---------------------------------------------------------------- a condition callers can see to

  predicate Tallying(pc: Pc, id: Uuid) {
    (pc.Deleting? || pc.Dequeueing? || pc.Updating?) && pc.id == id && pc.v1.Some? && pc.v2.Some?
  }

  predicate VotingFor(pc: Pc, id: Uuid) {
    (pc.Asking? || pc.Remembering? || pc.Counting? || pc.Requeueing?) && pc.id == id
  }

  /** What a call relies on about battle `id`, if nobody votes for it too early. */
  predicate CallPolite(n: Net, pc: Pc, id: Uuid) {
    && (Tallying(pc, id) ==> id in n.published && (!pc.Deleting? ==> HGet(n.redis.store, id).None?))
    && (VotingFor(pc, id) ==> id in n.published)
  }

  ghost predicate PoliteInv(n: Net, id: Uuid) {
    && (id in n.redis.store ==> id in n.published)
    && forall k :: k in n.calls ==> CallPolite(n, n.calls[k], id)
  }

  /** What is published stays so, and a published battle's blob never comes back. */
  lemma PublishedSteps(p: Profile, n: Net, a: Action, id: Uuid)
    requires FreeInv(n) && Enabled(n, a)
    ensures var n' := Next(p, n, a);
            && n.published <= n'.published
            && (id in n.published && HGet(n.redis.store, id).None? ==> HGet(n'.redis.store, id).None?)
  {
    BlobSteps(p, n, a, id);
    if Publishes(n, a, id) {
      PendingBegun(n, a.call, id);
    }
  }

  lemma StoreKeySteps(p: Profile, n: Net, a: Action, id: Uuid)
    requires PoliteInv(n, id) && Enabled(n, a)
    ensures id in Next(p, n, a).redis.store ==> id in Next(p, n, a).published
  {
    if a.Advance? {
      assert CallPolite(n, n.calls[a.call], id);
    }
  }

  /** The call that acts still relies on what holds. */
  lemma ActingPolite(p: Profile, n: Net, a: Action, id: Uuid)
    requires PoliteInv(n, id) && Enabled(n, a) && a.Advance?
    ensures CallPolite(Next(p, n, a), Next(p, n, a).calls[a.call], id)
  {
    assert CallPolite(n, n.calls[a.call], id);
    if n.calls[a.call].Reading? {
      assert FieldAt(HashAt(n.redis.store, id), TallyField(1)).Some? ==> id in n.redis.store;
    }
  }

  lemma BeginningPolite(p: Profile, n: Net, a: Action, id: Uuid)
    requires Enabled(n, a) && !a.Advance? && !a.Charge? && !a.Create?
    requires a.Cast? && a.battle == id ==> Polite(n, a)
    ensures CallPolite(Next(p, n, a), Next(p, n, a).calls[a.call], id)
  {
  }

  lemma PoliteSteps(p: Profile, n: Net, a: Action, id: Uuid)
    requires FreeInv(n) && PoliteInv(n, id) && Enabled(n, a) && (a.Cast? && a.battle == id ==> Polite(n, a))
    ensures PoliteInv(Next(p, n, a), id)
  {
    PublishedSteps(p, n, a, id);
    StoreKeySteps(p, n, a, id);
    forall k | k in Next(p, n, a).calls ensures CallPolite(Next(p, n, a), Next(p, n, a).calls[k], id) {
      if a.Charge? || a.Create? || k != a.call {
        OthersStay(p, n, a, k);
        assert CallPolite(n, n.calls[k], id);
      } else if a.Advance? {
        ActingPolite(p, n, a, id);
      } else {
        BeginningPolite(p, n, a, id);
      }
    }
  }

  lemma {:induction false} PoliteOverRuns(p: Profile, ns: seq<Net>, acts: seq<Action>, i: nat, id: Uuid)
    requires Run(p, ns, acts) && Initial(ns[0]) && PoliteAbout(ns, acts, id) && i <= |acts|
    ensures PoliteInv(ns[i], id)
  {
    if i > 0 {
      PoliteOverRuns(p, ns, acts, i - 1, id);
      FreeOverRuns(p, ns, acts, i - 1);
      PoliteSteps(p, ns[i - 1], acts[i - 1], id);
    }
  }

  /**
   * Cache agreement: as long as nobody votes for battle `id` before its HSET, whatever happens to
   * other battles, its blob is its row with both joined cards in every state of every interleaving.
   */
  lemma CacheAgrees(p: Profile, ns: seq<Net>, acts: seq<Action>, i: nat, id: Uuid)
    requires Run(p, ns, acts) && Initial(ns[0]) && PoliteAbout(ns, acts, id) && i <= |acts|
    ensures HGet(ns[i].redis.store, id).Some? ==>
              id in ns[i].db.rows && SameBattle(HGet(ns[i].redis.store, id).value, View(ns[i].db, id))
  {
    forall u ensures !Spoils(ns, acts, u, id) {
      if 0 <= u < |acts| && Settles(ns[u], acts[u], id) {
        PoliteOverRuns(p, ns, acts, u, id);
        FreeOverRuns(p, ns, acts, u);
        PublishedNotPending(ns[u], acts[u], id);
      }
    }
    AgreesExactlyUnspoiled(p, ns, acts, id);
    assert AgreesOn(ns[i], id);
  }

  lemma PublishedNotPending(n: Net, a: Action, id: Uuid)
    requires FreeInv(n) && PoliteInv(n, id) && Settles(n, a, id)
    ensures id in n.published && HGet(n.redis.store, id).None? && !Pending(n, id)
  {
    assert CallPolite(n, n.calls[a.call], id);
    forall k ensures !PendingAt(n, k, id) {
      assert k in n.calls ==> CallFree(n.db, n.published, n.calls[k]);
    }
  }

  // ---------------------------------------------------------------- the tables

  /** The UPDATE of a finish settles a battle that still waits. */
  predicate SettlesWaiting(n: Net, a: Action, id: Uuid) {
    Settles(n, a, id) && n.db.rows[id].state == Matching
  }

  lemma ActionKeepsTablesExactly(p: Profile, n: Net, a: Action)
    requires TableInv(n.db) && Enabled(n, a)
    ensures TableInv(Next(p, n, a).db) <==> !exists id :: SettlesWaiting(n, a, id)
  {
    match a {
      case Start(_, card, user, now, newId, pick) =>
        MatchPickMeaning(n.db, card, user, pick);
        StartKeepsTables(n.db, card, user, now, newId, pick);
      case Charge(payer, now, draw) => ChargeKeepsTables(n.db, payer, now, draw);
      case Create(creator, now, newCard, index) => CreateCardKeepsTables(n.db, creator, now, newCard, index);
      case Advance(call, now) =>
        var pc := n.calls[call];
        if pc.Updating? && Settles(n, a, pc.id) {
          FinishKeepsTables(n.db, pc.id, pc.v1.value, pc.v2.value);
          assert SettlesWaiting(n, a, pc.id) <==> n.db.rows[pc.id].state == Matching;
        }
      case _ =>
    }
  }

  lemma {:induction false} TablesKept(p: Profile, ns: seq<Net>, acts: seq<Action>, i: nat)
    requires Run(p, ns, acts) && Initial(ns[0]) && i <= |acts|
    requires forall u, id | 0 <= u < |acts| :: !SettlesWaiting(ns[u], acts[u], id)
    ensures TableInv(ns[i].db)
  {
    if i > 0 {
      TablesKept(p, ns, acts, i - 1);
      ActionKeepsTablesExactly(p, ns[i - 1], acts[i - 1]);
      assert ns[i] == Next(p, ns[i - 1], acts[i - 1]);
    }
  }

  /**
   * Over every interleaving, polite or not: the tables are in order in every state if and only if
   * no finish settles a battle that still waits.
   */
  lemma TablesInOrderExactly(p: Profile, ns: seq<Net>, acts: seq<Action>)
    requires Run(p, ns, acts) && Initial(ns[0])
    ensures (forall i | 0 <= i <= |acts| :: TableInv(ns[i].db)) <==>
            forall u, id | 0 <= u < |acts| :: !SettlesWaiting(ns[u], acts[u], id)
  {
    if forall u, id | 0 <= u < |acts| :: !SettlesWaiting(ns[u], acts[u], id) {
      forall i | 0 <= i <= |acts| ensures TableInv(ns[i].db) { TablesKept(p, ns, acts, i); }
    }
    if forall i | 0 <= i <= |acts| :: TableInv(ns[i].db) {
      forall u, id | 0 <= u < |acts| ensures !SettlesWaiting(ns[u], acts[u], id) {
        assert TableInv(ns[u].db) && TableInv(ns[u + 1].db);
        ActionKeepsTablesExactly(p, ns[u], acts[u]);
      }
    }
  }

  /** Polite callers finish only what has been matched, so both partial unique indexes hold as well. */
  lemma TablesInterleaved(p: Profile, ns: seq<Net>, acts: seq<Action>, i: nat)
    requires PoliteRun(p, ns, acts) && Initial(ns[0]) && i <= |acts|
    ensures TableInv(ns[i].db) && UniqueIndexes(ns[i].db.rows)
  {
    forall u, id | 0 <= u < |acts| ensures !SettlesWaiting(ns[u], acts[u], id) {
      if Settles(ns[u], acts[u], id) {
        PoliteOverRuns(p, ns, acts, u, id);
        FreeOverRuns(p, ns, acts, u);
        PublishedNotPending(ns[u], acts[u], id);
        assert Begun(ns[u].db, id);
      }
    }
    TablesKept(p, ns, acts, i);
    ExclusiveMeetsUniqueIndexes(ns[i].db.rows);
  }

  // ---------------------------------------------------------------- reads

  /** State `n` explains the answer `r` about battle `id`. */
  predicate Explains(n: Net, id: Uuid, r: Result<DuelBattle, Error>) {
    match r
    case Ok(b) => id in n.db.rows && SameBattle(b, View(n.db, id))
    case Err(_) => id !in n.db.rows
  }

  /** Some state strictly between `i` and `j` explains `r`. */
  ghost predicate ExplainedIn(ns: seq<Net>, i: nat, j: nat, id: Uuid, r: Result<DuelBattle, Error>)
    requires j <= |ns|
  {
    exists m :: i < m < j && Explains(ns[m], id, r)
  }

  predicate ReadingFor(n: Net, k: nat, id: Uuid) {
    k in n.calls && (n.calls[k] == Looking(id) || n.calls[k] == Selecting(id))
  }

  predicate Answered(n: Net, k: nat, id: Uuid) {
    k in n.calls && n.calls[k].Got? && n.calls[k].id == id
  }

  lemma GetBegins(p: Profile, n: Net, k: nat, id: Uuid)
    requires Enabled(n, Get(k, id))
    ensures ReadingFor(Next(p, n, Get(k, id)), k, id)
  {
  }

  /** One action moves a read on, answers it with what is true now, or leaves its answer alone. */
  lemma ReadAdvances(p: Profile, n: Net, a: Action, k: nat, id: Uuid)
    requires Enabled(n, a) && AgreesOn(n, id) && (ReadingFor(n, k, id) || Answered(n, k, id))
    ensures var n' := Next(p, n, a);
            && (ReadingFor(n', k, id) || Answered(n', k, id))
            && (Answered(n', k, id) ==>
                  Explains(n, id, n'.calls[k].got) || (Answered(n, k, id) && n'.calls[k] == n.calls[k]))
  {
    if a.Charge? || a.Create? || k != a.call {
      OthersStay(p, n, a, k);
    }
  }

  lemma {:induction false} ReadOverRuns(p: Profile, ns: seq<Net>, acts: seq<Action>, i: nat, j: nat, k: nat, id: Uuid)
    requires Run(p, ns, acts) && Initial(ns[0]) && PoliteAbout(ns, acts, id)
    requires i < j <= |acts| && acts[i] == Get(k, id)
    ensures ReadingFor(ns[j], k, id) || Answered(ns[j], k, id)
    ensures Answered(ns[j], k, id) ==> ExplainedIn(ns, i, j, id, ns[j].calls[k].got)
    decreases j
  {
    if j == i + 1 {
      GetBegins(p, ns[i], k, id);
    } else {
      ReadOverRuns(p, ns, acts, i, j - 1, k, id);
      CacheAgrees(p, ns, acts, j - 1, id);
      ReadAdvances(p, ns[j - 1], acts[j - 1], k, id);
    }
  }

  /**
   * Every finished `get_duel_battle` answers the battle as it was at some moment of the call,
   * or misses it at a moment when there was no such row.
   */
  lemma GetIsCurrent(p: Profile, ns: seq<Net>, acts: seq<Action>, i: nat, j: nat, k: nat, id: Uuid)
    requires Run(p, ns, acts) && Initial(ns[0]) && PoliteAbout(ns, acts, id)
    requires i < j <= |acts| && acts[i] == Get(k, id) && k in ns[j].calls && Done(ns[j].calls[k])
    ensures ns[j].calls[k].Got? && ExplainedIn(ns, i, j, id, ns[j].calls[k].got)
  {
    ReadOverRuns(p, ns, acts, i, j, k, id);
  }

  // ---------------------------------------------------------------- samples

  /** Battle `id` headed the queue at some moment between `i` and `m`. */
  ghost predicate HeadedIn(ns: seq<Net>, i: nat, m: nat, id: Uuid)
    requires m < |ns|
  {
    exists l :: i < l <= m && Head(ns[l].redis.queue) == Some(id)
  }

  /**
   * What explains a sample in state `m`: the blob of a battle that headed the queue before; or an
   * empty queue, or the missing blob of such a battle.
   */
  ghost predicate SampleExplained(ns: seq<Net>, i: nat, m: nat, r: Result<DuelBattle, Error>)
    requires m < |ns|
  {
    match r
    case Ok(b) => HeadedIn(ns, i, m, b.id) && HGet(ns[m].redis.store, b.id) == Some(b)
    case Err(_) =>
      || Head(ns[m].redis.queue).None?
      || exists id :: HeadedIn(ns, i, m, id) && HGet(ns[m].redis.store, id).None?
  }

  ghost predicate SampleExplainedIn(ns: seq<Net>, i: nat, j: nat, r: Result<DuelBattle, Error>)
    requires j < |ns|
  {
    exists m :: i < m < j && SampleExplained(ns, i, m, r)
  }

  /** Where the sample `k` that began with action `i` stands in state `j`. */
  ghost predicate SampleUnderWay(ns: seq<Net>, i: nat, j: nat, k: nat)
    requires i < j < |ns|
  {
    k in ns[j].calls &&
    match ns[j].calls[k]
    case Sampling => true
    case Fetching(id) => HeadedIn(ns, i, j - 1, id)
    case Sampled(r) => SampleExplainedIn(ns, i, j, r)
    case _ => false
  }

  lemma HeadedStays(ns: seq<Net>, i: nat, m: nat, m': nat, id: Uuid)
    requires m <= m' < |ns| && HeadedIn(ns, i, m, id)
    ensures HeadedIn(ns, i, m', id)
  {
    var l :| i < l <= m && Head(ns[l].redis.queue) == Some(id);
  }

  lemma ExplanationStays(ns: seq<Net>, i: nat, j: nat, r: Result<DuelBattle, Error>)
    requires j + 1 < |ns| && SampleExplainedIn(ns, i, j, r)
    ensures SampleExplainedIn(ns, i, j + 1, r)
  {
    var m :| i < m < j && SampleExplained(ns, i, m, r);
  }

  /** The ZRANGE remembers the head; the HGET answers the blob it finds now, which carries its own id. */
  lemma SampleAdvances(p: Profile, ns: seq<Net>, acts: seq<Action>, i: nat, j: nat, k: nat)
    requires Run(p, ns, acts) && i < j < |acts| && FreeInv(ns[j]) && SampleUnderWay(ns, i, j, k)
    requires acts[j].Advance? && acts[j].call == k
    ensures SampleUnderWay(ns, i, j + 1, k)
  {
    var n := ns[j];
    assert ns[j + 1] == Next(p, n, acts[j]) == Command(p, n, k, acts[j].now);
    if n.calls[k].Sampling? {
      var head := Head(n.redis.queue);
      if head.Some? {
        assert HeadedIn(ns, i, j, head.value);
      } else {
        assert SampleExplained(ns, i, j, Err(NoBattleAvailable));
      }
    } else {
      var id := n.calls[k].id;
      HeadedStays(ns, i, j - 1, j, id);
      assert SampleExplained(ns, i, j, ns[j + 1].calls[k].sample);
    }
  }

  lemma SampleStep(p: Profile, ns: seq<Net>, acts: seq<Action>, i: nat, j: nat, k: nat)
    requires Run(p, ns, acts) && i < j < |acts| && FreeInv(ns[j]) && SampleUnderWay(ns, i, j, k)
    ensures SampleUnderWay(ns, i, j + 1, k)
  {
    var n, a := ns[j], acts[j];
    if a.Charge? || a.Create? || k != a.call {
      OthersStay(p, n, a, k);
      assert k in ns[j + 1].calls && ns[j + 1].calls[k] == n.calls[k];
      if n.calls[k].Fetching? {
        HeadedStays(ns, i, j - 1, j, n.calls[k].id);
      } else if n.calls[k].Sampled? {
        ExplanationStays(ns, i, j, n.calls[k].sample);
      }
    } else {
      SampleAdvances(p, ns, acts, i, j, k);
    }
  }

  lemma {:induction false} SampleOverRuns(p: Profile, ns: seq<Net>, acts: seq<Action>, i: nat, j: nat, k: nat)
    requires Run(p, ns, acts) && Initial(ns[0]) && i < j <= |acts| && acts[i] == Sample(k)
    ensures SampleUnderWay(ns, i, j, k)
    decreases j
  {
    if j == i + 1 {
      assert ns[j] == Next(p, ns[i], Sample(k));
    } else {
      SampleOverRuns(p, ns, acts, i, j - 1, k);
      FreeOverRuns(p, ns, acts, j - 1);
      SampleStep(p, ns, acts, i, j - 1, k);
    }
  }

  /**
   * Every finished `sample_duel_battle` answers the blob, stored at some moment of the call, of a
   * battle that headed the queue earlier in the call; and unless somebody votes for that battle
   * too early, the blob is the battle as it is at that moment. It fails because the queue was
   * empty or because such a battle had no blob.
   */
  lemma SampleIsCurrent(p: Profile, ns: seq<Net>, acts: seq<Action>, i: nat, j: nat, k: nat) returns (m: nat)
    requires Run(p, ns, acts) && Initial(ns[0])
    requires i < j <= |acts| && acts[i] == Sample(k) && k in ns[j].calls && Done(ns[j].calls[k])
    ensures i < m < j && ns[j].calls[k].Sampled?
    ensures var r := ns[j].calls[k].sample;
            && SampleExplained(ns, i, m, r)
            && (r.Ok? && PoliteAbout(ns, acts, r.value.id) ==> Explains(ns[m], r.value.id, r))
  {
    SampleOverRuns(p, ns, acts, i, j, k);
    var r := ns[j].calls[k].sample;
    m :| i < m < j && SampleExplained(ns, i, m, r);
    if r.Ok? && PoliteAbout(ns, acts, r.value.id) {
      CacheAgrees(p, ns, acts, m, r.value.id);
    }
  }
}
