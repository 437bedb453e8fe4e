/** The Redis keys, and each Redis command of the service as one atomic step. */
module Redis {
  import opened Types
  import opened OrderBy

  // ---------------------------------------------------------------- keys

  /** An identifier as its sixteen bytes. */
  type RawId = s: string | |s| == 16 witness "0123456789abcdef"
  type Fingerprint = string

  const QUEUE_KEY: string := "q:db"

  function StoreKey(id: RawId): string { "st:db:" + id }

  function HistoryKey(id: RawId, fp: Fingerprint): string { "ht:db:" + id + fp }

  /** No two Redis objects of the service share a key, so each may be kept in a map of its own. */
  lemma KeysNeverCollide(a: RawId, b: RawId, fa: Fingerprint, fb: Fingerprint)
    ensures StoreKey(a) == StoreKey(b) ==> a == b
    ensures HistoryKey(a, fa) == HistoryKey(b, fb) ==> a == b && fa == fb
    ensures StoreKey(a) != HistoryKey(b, fb) && StoreKey(a) != QUEUE_KEY && HistoryKey(b, fb) != QUEUE_KEY
  {
    assert StoreKey(a)[0] == 's' && HistoryKey(b, fb)[0] == 'h' && QUEUE_KEY[0] == 'q';
    assert StoreKey(a)[6..] == a && StoreKey(b)[6..] == b;
    assert HistoryKey(a, fa)[6..22] == a && HistoryKey(b, fb)[6..22] == b;
    assert HistoryKey(a, fa)[22..] == fa && HistoryKey(b, fb)[22..] == fb;
  }

  // ---------------------------------------------------------------- the battle hash

  type Byte = b: int | 0 <= b < 256

  datatype Hash = Hash(blob: Option<DuelBattle>, fields: map<string, int>)

  type Store = map<Uuid, Hash>

  /** The field that `finish_duel_battle` reads for a slot. */
  function TallyField(slot: nat): string {
    if slot == 1 then "voteup1" else "voteup2"
  }

  /** The field that `start_duel_battle` seeds for a slot. */
  function SeedField(p: Profile, slot: nat): string {
    if p.Intended? then TallyField(slot)
    else if slot == 1 then "vote1" else "vote2"
  }

  /** The last byte is `card_idx` itself; repaired, it is its digit. */
  function VoteField(p: Profile, idx: Byte): string {
    if p.Intended? then "voteup" + [((idx + 48) % 256) as char] else "voteup" + [idx as char]
  }

  lemma VoteFieldInjective(p: Profile, a: Byte, b: Byte)
    ensures VoteField(p, a) == VoteField(p, b) ==> a == b
  {
    assert VoteField(p, a)[6] == VoteField(p, b)[6] ==> a == b;
  }

  /** Which `card_idx` feeds the tallies that finish reads: 1 and 2 by intent, 49 and 50 as written. */
  lemma FieldsMeet(p: Profile, idx: Byte)
    ensures p.Intended? ==> (VoteField(p, idx) == TallyField(1) <==> idx == 1)
    ensures p.Intended? ==> (VoteField(p, idx) == TallyField(2) <==> idx == 2)
    ensures p.AsWritten? ==> (VoteField(p, idx) == TallyField(1) <==> idx == 49)
    ensures p.AsWritten? ==> (VoteField(p, idx) == TallyField(2) <==> idx == 50)
    ensures p.AsWritten? ==> VoteField(p, idx) != SeedField(p, 1) && VoteField(p, idx) != SeedField(p, 2)
  {
    assert TallyField(1) == "voteup" + ['1'] && TallyField(2) == "voteup" + ['2'];
    assert '1' as int == 49 && '2' as int == 50;
    assert VoteField(p, idx)[6] == '1' ==> VoteField(p, idx) == TallyField(1);
    assert VoteField(p, idx)[6] == '2' ==> VoteField(p, idx) == TallyField(2);
    assert TallyField(1)[6] == '1' && TallyField(2)[6] == '2';
  }

  function HashAt(store: Store, id: Uuid): Hash {
    if id in store then store[id] else Hash(None, map[])
  }

  function HGet(store: Store, id: Uuid): Option<DuelBattle> {
    HashAt(store, id).blob
  }

  function HSet(p: Profile, store: Store, id: Uuid, b: DuelBattle): Store {
    var fields := HashAt(store, id).fields[SeedField(p, 1) := b.row.voteup1][SeedField(p, 2) := b.row.voteup2];
    store[id := Hash(Some(b), fields)]
  }

  function FieldAt(h: Hash, f: string): Option<int> {
    if f in h.fields then Some(h.fields[f]) else None
  }

  function HIncrBy(store: Store, id: Uuid, f: string): (Store, int) {
    var h := HashAt(store, id);
    var n := FieldAt(h, f);
    var v := 1 + if n.Some? then n.value else 0;
    (store[id := h.(fields := h.fields[f := v])], v)
  }

  function Del(store: Store, id: Uuid): Store {
    store - {id}
  }

  // ---------------------------------------------------------------- the vote history

  type History = map<(Uuid, Fingerprint), Time>

  /** A key with a time to live is there up to and including its deadline. */
  predicate Remembered(h: History, id: Uuid, fp: Fingerprint, now: Time) {
    (id, fp) in h && now <= h[(id, fp)]
  }

  function SetEx(h: History, id: Uuid, fp: Fingerprint, now: Time): History {
    h[(id, fp) := now + DUEL_BATTLE_TTL]
  }

  // ---------------------------------------------------------------- the vote queue

  /** A sorted set: by score, then by member. */
  type Queue = seq<Keyed>

  predicate Precedes(a: Keyed, b: Keyed) {
    a.key < b.key || (a.key == b.key && a.id < b.id)
  }

  ghost predicate QueueOk(q: Queue) {
    forall i, j | 0 <= i < j < |q| :: Precedes(q[i], q[j]) && q[i].id != q[j].id
  }

  ghost predicate Queued(q: Queue, id: Uuid) {
    exists i :: 0 <= i < |q| && q[i].id == id
  }

  function Insert(q: Queue, e: Keyed): Queue {
    if q == [] || Precedes(e, q[0]) then [e] + q else [q[0]] + Insert(q[1..], e)
  }

  function ZRem(q: Queue, id: Uuid): Queue {
    if q == [] then []
    else if q[0].id == id then ZRem(q[1..], id)
    else [q[0]] + ZRem(q[1..], id)
  }

  function ZAdd(q: Queue, id: Uuid, score: real): Queue {
    Insert(ZRem(q, id), Keyed(id, score))
  }

  /** `ZRANGE 0 0`. */
  function Head(q: Queue): Option<Uuid> {
    if q == [] then None else Some(q[0].id)
  }

  lemma {:induction false} ZRemMembers(q: Queue, id: Uuid)
    ensures forall e :: e in ZRem(q, id) <==> e in q && e.id != id
  {
    if q != [] {
      ZRemMembers(q[1..], id);
      assert forall e :: e in q <==> e == q[0] || e in q[1..];
    }
  }

  lemma {:induction false} ZRemOk(q: Queue, id: Uuid)
    requires QueueOk(q)
    ensures QueueOk(ZRem(q, id))
  {
    if q != [] {
      ZRemOk(q[1..], id);
      ZRemMembers(q[1..], id);
      var r := ZRem(q[1..], id);
      forall j | 0 <= j < |r| ensures Precedes(q[0], r[j]) && q[0].id != r[j].id {
        assert r[j] in q[1..];
      }
    }
  }

  lemma {:induction false} InsertMembers(q: Queue, e: Keyed)
    ensures forall x :: x in Insert(q, e) <==> x in q || x == e
  {
    if q != [] && !Precedes(e, q[0]) {
      InsertMembers(q[1..], e);
      assert forall x :: x in q <==> x == q[0] || x in q[1..];
    }
  }

  lemma {:induction false} InsertOk(q: Queue, e: Keyed)
    requires QueueOk(q) && forall x | x in q :: x.id != e.id
    ensures QueueOk(Insert(q, e))
  {
    if q != [] && !Precedes(e, q[0]) {
      InsertOk(q[1..], e);
      InsertMembers(q[1..], e);
      var r := Insert(q[1..], e);
      forall j | 0 <= j < |r| ensures Precedes(q[0], r[j]) && q[0].id != r[j].id {
        assert r[j] in q[1..] || r[j] == e;
        assert q[0] in q;
      }
    } else {
      forall j | 0 <= j < |q| ensures Precedes(e, q[j]) && e.id != q[j].id {
        assert q[j] in q;
        assert j == 0 || Precedes(q[0], q[j]);
      }
    }
  }

  lemma QueuedMember(q: Queue, id: Uuid)
    ensures Queued(q, id) <==> exists e :: e in q && e.id == id
  {
    if Queued(q, id) {
      var i :| 0 <= i < |q| && q[i].id == id;
      assert q[i] in q;
    }
  }

  /** Both queue commands keep the set sorted with one entry a member. */
  lemma ZCommandsKeepOk(q: Queue, id: Uuid, score: real)
    requires QueueOk(q)
    ensures QueueOk(ZRem(q, id)) && QueueOk(ZAdd(q, id, score))
    ensures forall x :: Queued(ZRem(q, id), x) <==> Queued(q, x) && x != id
    ensures forall x :: Queued(ZAdd(q, id, score), x) <==> Queued(q, x) || x == id
  {
    ZRemMembers(q, id);
    ZRemOk(q, id);
    InsertMembers(ZRem(q, id), Keyed(id, score));
    InsertOk(ZRem(q, id), Keyed(id, score));
    forall x
      ensures Queued(ZRem(q, id), x) <==> Queued(q, x) && x != id
      ensures Queued(ZAdd(q, id, score), x) <==> Queued(q, x) || x == id
    {
      QueuedMember(q, x);
      QueuedMember(ZRem(q, id), x);
      QueuedMember(ZAdd(q, id, score), x);
      assert Keyed(id, score) in ZAdd(q, id, score);
    }
  }

  /** The other entries of the queue precede `e`. */
  ghost predicate Behind(q: Queue, e: Keyed) {
    forall x | x in q && x.id != e.id :: Precedes(x, e)
  }

  lemma {:induction false} InsertLast(q: Queue, e: Keyed)
    requires forall x | x in q :: Precedes(x, e)
    ensures Insert(q, e) == q + [e]
  {
    if q != [] {
      assert q[0] in q;
      InsertLast(q[1..], e);
      assert q == [q[0]] + q[1..];
    }
  }

  /**
   * ZADD moves the member to the back, and leaves the order of the rest, if and only if every
   * other entry precedes the new one: by a smaller score or, at the same score, a smaller member.
   */
  lemma ZAddMovesToBackExactly(q: Queue, id: Uuid, score: real)
    requires QueueOk(q)
    ensures ZAdd(q, id, score) == ZRem(q, id) + [Keyed(id, score)] <==> Behind(q, Keyed(id, score))
  {
    var e, rest := Keyed(id, score), ZRem(q, id);
    ZRemMembers(q, id);
    if Behind(q, e) {
      InsertLast(rest, e);
    } else if ZAdd(q, id, score) == rest + [e] {
      ZCommandsKeepOk(q, id, score);
      LastBehind(rest, e);
    }
  }

  lemma LastBehind(q: Queue, e: Keyed)
    requires QueueOk(q + [e])
    ensures forall x | x in q :: Precedes(x, e)
  {
    forall x | x in q ensures Precedes(x, e) {
      var i :| 0 <= i < |q| && q[i] == x;
      assert (q + [e])[i] == x && (q + [e])[|q|] == e;
    }
  }

  datatype Redis = Redis(store: Store, queue: Queue, history: History)
}
