/** What `expire_duel_battles` retires, call after call. */
module Expiry {
  import opened Types
  import opened OrderBy
  import opened Redis
  import opened Battles
  import opened Worlds

  /** The `WHERE` clause: as written it keeps the rows that expire later; repaired, the overdue fights. */
  predicate Due(p: Profile, r: Row, now: Time) {
    r.expiredAt.Some? &&
    if p.AsWritten? then now <= r.expiredAt.value
    else r.state == Fighting && r.expiredAt.value <= now
  }

  function DueSet(p: Profile, rows: map<Uuid, Row>, now: Time): set<Keyed> {
    set id | id in rows && Due(p, rows[id], now) :: Keyed(id, rows[id].expiredAt.value)
  }

  /** The answer of the sub-select: the first hundred by expiry. */
  ghost predicate Selected(p: Profile, rows: map<Uuid, Row>, now: Time, sel: seq<Keyed>) {
    IsTop(DueSet(p, rows, now), Asc, EXPIRY_BATCH, sel)
  }

  function Ids(sel: seq<Keyed>): (ids: seq<Uuid>)
    ensures |ids| == |sel| && forall i | 0 <= i < |sel| :: ids[i] == sel[i].id
  {
    seq(|sel|, i requires 0 <= i < |sel| => sel[i].id)
  }

  /** A fight whose expiry has come. */
  predicate IsOverdue(rows: map<Uuid, Row>, now: Time, id: Uuid) {
    id in rows && rows[id].state == Fighting && rows[id].expiredAt.Some? && rows[id].expiredAt.value <= now
  }

  /** All of them, each with its expiry. */
  function Overdue(rows: map<Uuid, Row>, now: Time): set<Keyed> {
    set id | id in rows && IsOverdue(rows, now, id) :: Keyed(id, rows[id].expiredAt.value)
  }

  /** The rows of any state whose expiry has not passed. */
  function Unexpired(rows: map<Uuid, Row>, now: Time): set<Keyed> {
    set id | id in rows && rows[id].expiredAt.Some? && now <= rows[id].expiredAt.value
           :: Keyed(id, rows[id].expiredAt.value)
  }

  /** What the filter keeps: repaired, the overdue fights; as written, what has not expired. */
  lemma DueExactly(rows: map<Uuid, Row>, now: Time)
    ensures DueSet(Intended, rows, now) == Overdue(rows, now) && DueSet(AsWritten, rows, now) == Unexpired(rows, now)
  {
  }

  /** The selection in terms of rows: the first hundred by expiry, or all, of what the filter keeps. */
  ghost predicate SelectsFirst(due: set<Keyed>, sel: seq<Keyed>) {
    && |sel| == (if |due| < 100 then |due| else 100)
    && (forall e | e in sel :: e in due)
    && (forall i, j | 0 <= i < j < |sel| :: sel[i] != sel[j] && sel[i].key <= sel[j].key)
    && (forall e, x | e in sel && x in due && x !in sel :: e.key <= x.key)
  }

  lemma SelectedFirst(p: Profile, rows: map<Uuid, Row>, now: Time, sel: seq<Keyed>)
    requires Selected(p, rows, now, sel)
    ensures SelectsFirst(if p == Intended then Overdue(rows, now) else Unexpired(rows, now), sel)
  {
    DueExactly(rows, now);
    forall e | e in sel ensures e in DueSet(p, rows, now) { assert e in Elems(sel); }
  }

  // ---------------------------------------------------------------- finishing a batch

  lemma FinishFrame(s: Sys, id: Uuid, x: Uuid)
    requires x != id
    ensures var s' := FinishCall(s, id);
            && (x in s'.db.rows <==> x in s.db.rows) && (x in s.db.rows ==> s'.db.rows[x] == s.db.rows[x])
            && (x in s'.redis.store <==> x in s.redis.store) && HashAt(s'.redis.store, x) == HashAt(s.redis.store, x)
            && s'.db.cards == s.db.cards && s'.db.points == s.db.points
  {
  }

  /** A batch touches no battle outside it. */
  lemma {:induction false} FinishAllFrame(s: Sys, ids: seq<Uuid>, x: Uuid)
    requires x !in ids
    ensures var s' := FinishAll(s, ids);
            && (x in s'.db.rows <==> x in s.db.rows) && (x in s.db.rows ==> s'.db.rows[x] == s.db.rows[x])
            && (x in s'.redis.store <==> x in s.redis.store) && HashAt(s'.redis.store, x) == HashAt(s.redis.store, x)
    decreases ids
  {
    if ids != [] {
      FinishFrame(s, ids[0], x);
      FinishAllFrame(FinishCall(s, ids[0]), ids[1..], x);
    }
  }

  lemma {:induction false} FinishAllQueue(s: Sys, ids: seq<Uuid>)
    requires QueueOk(s.redis.queue)
    ensures QueueOk(FinishAll(s, ids).redis.queue)
    ensures forall x :: Queued(FinishAll(s, ids).redis.queue, x) <==> Queued(s.redis.queue, x) && x !in ids
    decreases ids
  {
    if ids != [] {
      ZCommandsKeepOk(s.redis.queue, ids[0], 0.0);
      FinishAllQueue(FinishCall(s, ids[0]), ids[1..]);
      assert forall x :: x in ids <==> x == ids[0] || x in ids[1..];
    }
  }

  lemma {:induction false} FinishAllKeepsWorld(p: Profile, w: World, ids: seq<Uuid>)
    requires WorldInv(p, w)
    ensures WorldInv(p, w.(sys := FinishAll(w.sys, ids)))
    decreases ids
  {
    if ids != [] {
      FinishKeepsWorld(p, w, ids[0]);
      var w' := w.(sys := FinishCall(w.sys, ids[0]));
      FinishAllKeepsWorld(p, w', ids[1..]);
      assert w'.(sys := FinishAll(w'.sys, ids[1..])) == w.(sys := FinishAll(w.sys, ids));
    }
  }

  /** Row `id` is finished with its totals, otherwise what it was, and gone from Redis. */
  ghost predicate Retired(w: World, s: Sys, id: Uuid) {
    && id in w.sys.db.rows
    && s.db.rows.Keys == w.sys.db.rows.Keys
    && id !in s.redis.store && !Queued(s.redis.queue, id)
    && var r, r' := w.sys.db.rows[id], s.db.rows[id];
       && r'.state == Finished && r'.voteup1 == VotesFor(w.log, id, 1) && r'.voteup2 == VotesFor(w.log, id, 2)
       && r'.createdAt == r.createdAt && r'.rating == r.rating && r'.expiredAt == r.expiredAt
       && r'.card1 == r.card1 && r'.user1 == r.user1 && r'.card2 == r.card2 && r'.user2 == r.user2
  }

  lemma {:induction false} RowsKept(s: Sys, ids: seq<Uuid>)
    ensures FinishAll(s, ids).db.rows.Keys == s.db.rows.Keys
    decreases ids
  {
    if ids != [] {
      RowsKept(FinishCall(s, ids[0]), ids[1..]);
    }
  }

  lemma RetiredStays(w: World, s: Sys, rest: seq<Uuid>, id: Uuid)
    requires Retired(w, s, id) && id !in rest && QueueOk(s.redis.queue)
    ensures Retired(w, FinishAll(s, rest), id)
  {
    FinishAllFrame(s, rest, id);
    FinishAllQueue(s, rest);
    RowsKept(s, rest);
  }

  /** Battle `id` is in `s` as it was in `w`: fighting, with a counter for each slot. */
  ghost predicate Kept(w: World, s: Sys, id: Uuid) {
    && id in w.sys.redis.store && HashCounts(Intended, w.log, id, w.sys.redis.store[id])
    && id in w.sys.db.rows && s.db.rows.Keys == w.sys.db.rows.Keys && s.db.rows[id] == w.sys.db.rows[id]
    && HashAt(s.redis.store, id) == w.sys.redis.store[id]
    && QueueOk(s.redis.queue)
  }

  lemma FinishRetires(w: World, s: Sys, id: Uuid)
    requires Kept(w, s, id)
    ensures Retired(w, FinishCall(s, id), id)
  {
    FieldsMeet(Intended, 1);
    FieldsMeet(Intended, 2);
    CountIsVotesFor(Intended, w.log, id, 1);
    CountIsVotesFor(Intended, w.log, id, 2);
    assert Seeded(Intended, TallyField(1)) && Seeded(Intended, TallyField(2));
    ZCommandsKeepOk(s.redis.queue, id, 0.0);
  }

  lemma {:induction false} FinishAllRetires(w: World, s: Sys, ids: seq<Uuid>, id: Uuid)
    requires Kept(w, s, id) && NoDup(ids) && id in ids
    ensures Retired(w, FinishAll(s, ids), id)
    decreases ids
  {
    var s', rest := FinishCall(s, ids[0]), ids[1..];
    ZCommandsKeepOk(s.redis.queue, ids[0], 0.0);
    if id == ids[0] {
      FinishRetires(w, s, id);
      RetiredStays(w, s', rest, id);
    } else {
      FinishFrame(s, ids[0], id);
      RowsKept(s, [ids[0]]);
      FinishAllRetires(w, s', rest, id);
    }
  }

  // ---------------------------------------------------------------- one call, repaired

  lemma SelectionIds(p: Profile, rows: map<Uuid, Row>, now: Time, sel: seq<Keyed>)
    requires Selected(p, rows, now, sel)
    ensures NoDup(Ids(sel))
    ensures forall id :: id in Ids(sel) <==>
              id in rows && Due(p, rows[id], now) && Keyed(id, rows[id].expiredAt.value) in sel
  {
    forall i | 0 <= i < |sel| ensures sel[i].id in rows && Due(p, rows[sel[i].id], now)
                                      && sel[i] == Keyed(sel[i].id, rows[sel[i].id].expiredAt.value) {
      assert sel[i] in DueSet(p, rows, now);
    }
    forall id | id in rows && Due(p, rows[id], now) && Keyed(id, rows[id].expiredAt.value) in sel
      ensures id in Ids(sel)
    {
      var i :| 0 <= i < |sel| && sel[i] == Keyed(id, rows[id].expiredAt.value);
      assert Ids(sel)[i] == id;
    }
  }

  lemma SelectedRetire(w: World, now: Time, sel: seq<Keyed>, e: Keyed)
    requires WorldInv(Intended, w) && Selected(Intended, w.sys.db.rows, now, sel) && e in sel
    ensures Retired(w, FinishAll(w.sys, Ids(sel)), e.id)
  {
    SelectedDue(Intended, w.sys.db.rows, now, sel, e);
    KeptNow(w, e.id);
    FinishAllRetires(w, w.sys, Ids(sel), e.id);
  }

  lemma SelectedDue(p: Profile, rows: map<Uuid, Row>, now: Time, sel: seq<Keyed>, e: Keyed)
    requires Selected(p, rows, now, sel) && e in sel
    ensures NoDup(Ids(sel)) && e.id in Ids(sel) && e.id in rows && Due(p, rows[e.id], now)
  {
    SelectionIds(p, rows, now, sel);
    var i :| 0 <= i < |sel| && sel[i] == e;
    assert Ids(sel)[i] == e.id;
  }

  lemma KeptNow(w: World, id: Uuid)
    requires WorldInv(Intended, w) && id in w.sys.db.rows && w.sys.db.rows[id].state == Fighting
    ensures Kept(w, w.sys, id)
  {
  }

  /** Battle `id` is in `s'` what it was in `s`. */
  ghost predicate Unchanged(s: Sys, s': Sys, id: Uuid) {
    && (id in s'.db.rows <==> id in s.db.rows) && (id in s.db.rows ==> s'.db.rows[id] == s.db.rows[id])
    && HashAt(s'.redis.store, id) == HashAt(s.redis.store, id)
    && (Queued(s'.redis.queue, id) <==> Queued(s.redis.queue, id))
  }

  lemma OthersUnchanged(s: Sys, ids: seq<Uuid>, id: Uuid)
    requires QueueOk(s.redis.queue) && id !in ids
    ensures Unchanged(s, FinishAll(s, ids), id)
  {
    FinishAllFrame(s, ids, id);
    FinishAllQueue(s, ids);
  }

  /**
   * One call in a reachable state, filter and names repaired: it retires exactly the selected
   * overdue fights, whose number it answers, and changes no other battle.
   */
  lemma ExpiryRetiresExactly(w: World, now: Time, sel: seq<Keyed>)
    requires WorldInv(Intended, w) && Selected(Intended, w.sys.db.rows, now, sel)
    ensures |sel| == Min(EXPIRY_BATCH, |DueSet(Intended, w.sys.db.rows, now)|)
    ensures forall e | e in sel :: Retired(w, FinishAll(w.sys, Ids(sel)), e.id)
    ensures forall id | id !in Ids(sel) :: Unchanged(w.sys, FinishAll(w.sys, Ids(sel)), id)
  {
    forall e | e in sel ensures Retired(w, FinishAll(w.sys, Ids(sel)), e.id) {
      SelectedRetire(w, now, sel, e);
    }
    forall id | id !in Ids(sel) ensures Unchanged(w.sys, FinishAll(w.sys, Ids(sel)), id) {
      OthersUnchanged(w.sys, Ids(sel), id);
    }
  }

  /** The same call in terms of rows: it changes only fights whose expiry has come, and retires those. */
  lemma ExpiryEffect(w: World, now: Time, sel: seq<Keyed>)
    requires WorldInv(Intended, w) && Selected(Intended, w.sys.db.rows, now, sel)
    ensures var rows, s' := w.sys.db.rows, FinishAll(w.sys, Ids(sel));
            && s'.db.rows.Keys == rows.Keys && SelectsFirst(Overdue(rows, now), sel)
            && forall id | id in rows ::
                 if s'.db.rows[id] == rows[id] then Unchanged(w.sys, s', id)
                 else Retired(w, s', id) && IsOverdue(rows, now, id)
  {
    var rows, s' := w.sys.db.rows, FinishAll(w.sys, Ids(sel));
    SelectedFirst(Intended, rows, now, sel);
    RowsKept(w.sys, Ids(sel));
    SelectionIds(Intended, rows, now, sel);
    forall id | id in rows
      ensures if s'.db.rows[id] == rows[id] then Unchanged(w.sys, s', id)
              else Retired(w, s', id) && IsOverdue(rows, now, id)
    {
      ChangedIsSelected(w, now, sel, id);
      if id !in Ids(sel) {
        OthersUnchanged(w.sys, Ids(sel), id);
      }
    }
  }

  /**
   * A fight whose expiry has come is left only if a hundred such fights, all of them retired, expire
   * no later. So, with at most a hundred, a call changes exactly the fights whose expiry has come.
   */
  lemma ExpiryLeaves(w: World, now: Time, sel: seq<Keyed>, id: Uuid)
    requires WorldInv(Intended, w) && Selected(Intended, w.sys.db.rows, now, sel) && id in w.sys.db.rows
    ensures var rows, s', over := w.sys.db.rows, FinishAll(w.sys, Ids(sel)), Overdue(w.sys.db.rows, now);
            && id in s'.db.rows
            && (IsOverdue(rows, now, id) && s'.db.rows[id] == rows[id] ==>
                  && |Elems(sel)| == 100 && |over| > 100
                  && forall e | e in sel :: e in over && e.key <= rows[id].expiredAt.value && Retired(w, s', e.id))
            && (|over| <= 100 ==> (s'.db.rows[id] != rows[id] <==> IsOverdue(rows, now, id)))
  {
    var rows := w.sys.db.rows;
    ChangedIsSelected(w, now, sel, id);
    SelectedFirst(Intended, rows, now, sel);
    NoDupSize(sel);
    if IsOverdue(rows, now, id) && id !in Ids(sel) {
      LeftOverdue(rows, now, sel, id);
      forall e | e in sel ensures Retired(w, FinishAll(w.sys, Ids(sel)), e.id) { SelectedRetire(w, now, sel, e); }
    }
    SelectionIds(Intended, rows, now, sel);
  }

  lemma ChangedIsSelected(w: World, now: Time, sel: seq<Keyed>, id: Uuid)
    requires WorldInv(Intended, w) && Selected(Intended, w.sys.db.rows, now, sel) && id in w.sys.db.rows
    ensures var s' := FinishAll(w.sys, Ids(sel));
            && id in s'.db.rows && (s'.db.rows[id] != w.sys.db.rows[id] <==> id in Ids(sel))
            && (id in Ids(sel) ==> Retired(w, s', id))
  {
    DueAfter(w, now, sel, now, id);
    SelectionIds(Intended, w.sys.db.rows, now, sel);
    if id in Ids(sel) {
      SelectedRetire(w, now, sel, Keyed(id, w.sys.db.rows[id].expiredAt.value));
    }
  }

  lemma LeftOverdue(rows: map<Uuid, Row>, now: Time, sel: seq<Keyed>, id: Uuid)
    requires Selected(Intended, rows, now, sel) && id in rows && id !in Ids(sel)
    requires rows[id].state == Fighting && rows[id].expiredAt.Some? && rows[id].expiredAt.value <= now
    ensures |Overdue(rows, now)| > 100 && |sel| == 100
    ensures forall e | e in sel :: e.key <= rows[id].expiredAt.value
  {
    var x := Keyed(id, rows[id].expiredAt.value);
    SelectedFirst(Intended, rows, now, sel);
    SelectionIds(Intended, rows, now, sel);
    NoDupSize(sel);
    assert x in Overdue(rows, now) && x !in sel;
    forall e | e in sel ensures e in Overdue(rows, now) {}
    SubsetSize(Elems(sel) + {x}, Overdue(rows, now));
  }

  /** Of the due battles the selection takes those that expire first. */
  lemma EarliestFirst(p: Profile, rows: map<Uuid, Row>, now: Time, sel: seq<Keyed>, e: Keyed, id: Uuid)
    requires Selected(p, rows, now, sel) && e in sel && id in rows && Due(p, rows[id], now) && id !in Ids(sel)
    ensures e.key <= rows[id].expiredAt.value
  {
    SelectionIds(p, rows, now, sel);
    var x := Keyed(id, rows[id].expiredAt.value);
    assert x in DueSet(p, rows, now) && x !in sel;
  }

  lemma DueAfter(w: World, t: Time, sel: seq<Keyed>, now: Time, id: Uuid)
    requires WorldInv(Intended, w) && Selected(Intended, w.sys.db.rows, t, sel) && id in w.sys.db.rows
    ensures var rows' := FinishAll(w.sys, Ids(sel)).db.rows;
            && id in rows' && (id !in Ids(sel) ==> rows'[id] == w.sys.db.rows[id])
            && (Due(Intended, rows'[id], now) <==> Due(Intended, w.sys.db.rows[id], now) && id !in Ids(sel))
  {
    if id in Ids(sel) {
      SelectionIds(Intended, w.sys.db.rows, t, sel);
      SelectedRetire(w, t, sel, Keyed(id, w.sys.db.rows[id].expiredAt.value));
    } else {
      FinishAllFrame(w.sys, Ids(sel), id);
    }
  }

  /** Of the fights overdue at `now`, those that a call did not select stay overdue, and no others. */
  lemma ExpiryShrinksDue(w: World, t: Time, sel: seq<Keyed>, now: Time)
    requires WorldInv(Intended, w) && Selected(Intended, w.sys.db.rows, t, sel)
    ensures DueSet(Intended, FinishAll(w.sys, Ids(sel)).db.rows, now)
            == DueSet(Intended, w.sys.db.rows, now) - Elems(sel)
  {
    var rows, rows' := w.sys.db.rows, FinishAll(w.sys, Ids(sel)).db.rows;
    RowsKept(w.sys, Ids(sel));
    forall id | id in rows
      ensures Due(Intended, rows'[id], now) <==> Due(Intended, rows[id], now) && id !in Ids(sel)
      ensures id !in Ids(sel) ==> rows'[id] == rows[id]
    {
      DueAfter(w, t, sel, now, id);
    }
    DueWithout(rows, rows', t, sel, now);
  }

  lemma DueWithout(rows: map<Uuid, Row>, rows': map<Uuid, Row>, t: Time, sel: seq<Keyed>, now: Time)
    requires Selected(Intended, rows, t, sel) && rows'.Keys == rows.Keys
    requires forall id | id in rows ::
               Due(Intended, rows'[id], now) <==> Due(Intended, rows[id], now) && id !in Ids(sel)
    requires forall id | id in rows && id !in Ids(sel) :: rows'[id] == rows[id]
    ensures DueSet(Intended, rows', now) == DueSet(Intended, rows, now) - Elems(sel)
  {
    SelectionIds(Intended, rows, t, sel);
    forall e ensures e in DueSet(Intended, rows', now) <==> e in DueSet(Intended, rows, now) && e !in sel {
      if e in DueSet(Intended, rows', now) {
        assert e.id in rows && Due(Intended, rows'[e.id], now) && e == Keyed(e.id, rows[e.id].expiredAt.value);
        assert e in DueSet(Intended, rows, now);
      }
      if e in DueSet(Intended, rows, now) && e !in sel {
        assert e.id !in Ids(sel);
      }
    }
  }

  /** A later selection serves the fights overdue at `now` before any other. */
  lemma OldestServed(rows: map<Uuid, Row>, t: Time, sel: seq<Keyed>, now: Time)
    requires Selected(Intended, rows, t, sel) && now <= t
    ensures var due := DueSet(Intended, rows, now); |due - Elems(sel)| == |due| - Min(EXPIRY_BATCH, |due|)
  {
    var due, all := DueSet(Intended, rows, now), DueSet(Intended, rows, t);
    assert due <= all;
    NoDupSize(sel);
    if due <= Elems(sel) {
      SubsetSize(due, Elems(sel));
      assert due - Elems(sel) == {};
    } else {
      var x :| x in due && x !in sel;
      forall y | y in sel ensures y in due {
        assert y in all && y.key <= x.key;
      }
      assert Elems(sel) <= due;
      SubsetSize(Elems(sel) + {x}, all);
      SubsetSize(Elems(sel), due);
    }
  }

  // ---------------------------------------------------------------- repeated calls

  /** Calls one after the other, each with its own clock reading. */
  ghost predicate ExpiryRun(p: Profile, ss: seq<Sys>, sels: seq<seq<Keyed>>, nows: seq<Time>) {
    && |ss| == |sels| + 1 && |nows| == |sels|
    && forall i | 0 <= i < |sels| ::
         Selected(p, ss[i].db.rows, nows[i], sels[i]) && ss[i + 1] == FinishAll(ss[i], Ids(sels[i]))
  }

  /** All that the calls selected, in order. */
  function Cat(sels: seq<seq<Keyed>>): seq<Keyed> {
    if sels == [] then [] else Cat(sels[..|sels| - 1]) + sels[|sels| - 1]
  }

  lemma CatSnoc(sels: seq<seq<Keyed>>, k: nat)
    requires 0 < k <= |sels|
    ensures Cat(sels[..k]) == Cat(sels[..k - 1]) + sels[k - 1]
  {
    assert sels[..k][..k - 1] == sels[..k - 1];
  }

  lemma NoneOverdue(rows: map<Uuid, Row>, now: Time)
    requires |Overdue(rows, now)| == 0
    ensures forall id :: id in rows && rows[id].state == Fighting && rows[id].expiredAt.Some?
              ==> now < rows[id].expiredAt.value
  {
    forall id | id in rows && rows[id].state == Fighting && rows[id].expiredAt.Some?
      ensures now < rows[id].expiredAt.value
    {
      assert Keyed(id, rows[id].expiredAt.value) !in Overdue(rows, now);
    }
  }

  /** Exactly the battles of `all` are retired in `s`, with the totals of `w`. */
  ghost predicate RetiredExactly(w: World, s: Sys, all: seq<Keyed>) {
    && s.db.rows.Keys == w.sys.db.rows.Keys
    && (forall e | e in all :: Retired(w, s, e.id))
    && (forall id | (forall e | e in all :: e.id != id) :: Unchanged(w.sys, s, id))
  }

  lemma StillRetired(w: World, s: Sys, id: Uuid, now: Time, sel: seq<Keyed>)
    requires QueueOk(s.redis.queue) && Retired(w, s, id) && Selected(Intended, s.db.rows, now, sel)
    ensures Retired(w, FinishAll(s, Ids(sel)), id)
  {
    SelectionIds(Intended, s.db.rows, now, sel);
    RetiredStays(w, s, Ids(sel), id);
  }

  lemma NowRetired(w: World, s: Sys, e: Keyed, now: Time, sel: seq<Keyed>)
    requires WorldInv(Intended, w.(sys := s)) && Selected(Intended, s.db.rows, now, sel) && e in sel
    requires s.db.rows.Keys == w.sys.db.rows.Keys && Unchanged(w.sys, s, e.id)
    ensures Retired(w, FinishAll(s, Ids(sel)), e.id)
  {
    SelectedRetire(w.(sys := s), now, sel, e);
  }

  lemma NotRetiredYet(w: World, s: Sys, all: seq<Keyed>, e: Keyed, now: Time, sel: seq<Keyed>)
    requires RetiredExactly(w, s, all) && Selected(Intended, s.db.rows, now, sel) && e in sel
    ensures Unchanged(w.sys, s, e.id)
  {
    SelectedDue(Intended, s.db.rows, now, sel, e);
    forall a | a in all ensures a.id != e.id {
      assert Retired(w, s, a.id);
    }
  }

  lemma RetiresMore(w: World, s: Sys, all: seq<Keyed>, now: Time, sel: seq<Keyed>)
    requires WorldInv(Intended, w.(sys := s)) && RetiredExactly(w, s, all) && Selected(Intended, s.db.rows, now, sel)
    ensures RetiredExactly(w, FinishAll(s, Ids(sel)), all + sel)
  {
    var s' := FinishAll(s, Ids(sel));
    RowsKept(s, Ids(sel));
    forall e | e in all + sel ensures Retired(w, s', e.id) {
      if e in all {
        StillRetired(w, s, e.id, now, sel);
      } else {
        NotRetiredYet(w, s, all, e, now, sel);
        NowRetired(w, s, e, now, sel);
      }
    }
    forall id | forall e | e in all + sel :: e.id != id ensures Unchanged(w.sys, s', id) {
      OthersStayUnchanged(w, s, all, sel, id);
    }
  }

  lemma OthersStayUnchanged(w: World, s: Sys, all: seq<Keyed>, sel: seq<Keyed>, id: Uuid)
    requires QueueOk(s.redis.queue) && RetiredExactly(w, s, all) && forall e | e in all + sel :: e.id != id
    ensures Unchanged(w.sys, FinishAll(s, Ids(sel)), id)
  {
    assert Unchanged(w.sys, s, id) by {
      assert forall e | e in all :: e in all + sel;
    }
    assert id !in Ids(sel) by {
      forall i | 0 <= i < |sel| ensures Ids(sel)[i] != id { assert sel[i] in all + sel; }
    }
    OthersUnchanged(s, Ids(sel), id);
  }

  /** Whatever the clock reads, k calls retire exactly what they selected, each with its totals, and nothing else. */
  lemma {:induction false} ExpiryOverCalls(w: World, ss: seq<Sys>, sels: seq<seq<Keyed>>, nows: seq<Time>, k: nat)
    requires WorldInv(Intended, w) && ExpiryRun(Intended, ss, sels, nows) && ss[0] == w.sys && k <= |sels|
    ensures WorldInv(Intended, w.(sys := ss[k]))
    ensures RetiredExactly(w, ss[k], Cat(sels[..k]))
  {
    if k == 0 {
      assert w.(sys := ss[0]) == w;
    } else {
      ExpiryOverCalls(w, ss, sels, nows, k - 1);
      var v, sel := w.(sys := ss[k - 1]), sels[k - 1];
      FinishAllKeepsWorld(Intended, v, Ids(sel));
      assert v.(sys := FinishAll(v.sys, Ids(sel))) == w.(sys := ss[k]);
      RetiresMore(w, ss[k - 1], Cat(sels[..k - 1]), nows[k - 1], sel);
      CatSnoc(sels, k);
    }
  }

  /** One more call takes a hundred, or all, of the fights overdue at `now`. */
  lemma DueStep(w: World, ss: seq<Sys>, sels: seq<seq<Keyed>>, nows: seq<Time>, now: Time, k: nat)
    requires WorldInv(Intended, w) && ExpiryRun(Intended, ss, sels, nows) && ss[0] == w.sys && k < |sels|
    requires now <= nows[k]
    ensures var due, due' := DueSet(Intended, ss[k].db.rows, now), DueSet(Intended, ss[k + 1].db.rows, now);
            due' == due - Elems(sels[k]) && |due'| == |due| - Min(EXPIRY_BATCH, |due|)
  {
    ExpiryOverCalls(w, ss, sels, nows, k);
    ExpiryShrinksDue(w.(sys := ss[k]), nows[k], sels[k], now);
    OldestServed(ss[k].db.rows, nows[k], sels[k], now);
  }

  lemma {:induction false} DueOverCalls(w: World, ss: seq<Sys>, sels: seq<seq<Keyed>>, nows: seq<Time>, now: Time,
                                        k: nat)
    requires WorldInv(Intended, w) && ExpiryRun(Intended, ss, sels, nows) && ss[0] == w.sys && k <= |sels|
    requires forall i | 0 <= i < k :: now <= nows[i]
    ensures var n := |DueSet(Intended, ss[0].db.rows, now)|;
            |DueSet(Intended, ss[k].db.rows, now)| == n - Min(100 * k, n)
  {
    if k > 0 {
      DueOverCalls(w, ss, sels, nows, now, k - 1);
      DueStep(w, ss, sels, nows, now, k - 1);
    }
  }

  /**
   * Of n fights overdue at some time, k calls at that time or later leave n - 100 k, whatever
   * becomes overdue in between; after ceil(n / 100) calls every fight still has time to go.
   */
  lemma ExpiryDrains(w: World, ss: seq<Sys>, sels: seq<seq<Keyed>>, nows: seq<Time>, now: Time, k: nat)
    requires WorldInv(Intended, w) && ExpiryRun(Intended, ss, sels, nows) && ss[0] == w.sys && k <= |sels|
    requires forall i | 0 <= i < k :: now <= nows[i]
    ensures var n := |Overdue(w.sys.db.rows, now)|;
            && |Overdue(ss[k].db.rows, now)| == (if n <= 100 * k then 0 else n - 100 * k)
            && (n <= 100 * k ==>
                  forall id :: id in ss[k].db.rows && ss[k].db.rows[id].state == Fighting
                    ==> ss[k].db.rows[id].expiredAt.Some? && now < ss[k].db.rows[id].expiredAt.value)
  {
    DueOverCalls(w, ss, sels, nows, now, k);
    ExpiryOverCalls(w, ss, sels, nows, k);
    DueExactly(w.sys.db.rows, now);
    DueExactly(ss[k].db.rows, now);
    if |Overdue(ss[k].db.rows, now)| == 0 {
      NoneOverdue(ss[k].db.rows, now);
    }
  }

  /** Query after query takes the next hundred rows of what is left. */
  ghost predicate Batches(dues: seq<set<Keyed>>, sels: seq<seq<Keyed>>) {
    && |dues| == |sels| + 1
    && forall i | 0 <= i < |sels| ::
         IsTop(dues[i], Asc, EXPIRY_BATCH, sels[i]) && dues[i + 1] == dues[i] - Elems(sels[i])
  }

  /** The first `m` of `due` are gone, in this order, and the others are left. */
  ghost predicate Taken(due: set<Keyed>, m: nat, all: seq<Keyed>, left: set<Keyed>) {
    IsTop(due, Asc, m, all) && left == due - Elems(all)
  }

  lemma TakenNext(due: set<Keyed>, m: nat, all: seq<Keyed>, left: set<Keyed>, n: nat, sel: seq<Keyed>)
    requires Taken(due, m, all, left) && IsTop(left, Asc, n, sel)
    ensures Taken(due, m + n, all + sel, left - Elems(sel))
  {
    TopThenTop(due, Asc, m, n, all, sel);
    assert Elems(all + sel) == Elems(all) + Elems(sel);
  }

  lemma {:induction false} BatchesTakeTop(dues: seq<set<Keyed>>, sels: seq<seq<Keyed>>, k: nat)
    requires Batches(dues, sels) && k <= |sels|
    ensures Taken(dues[0], 100 * k, Cat(sels[..k]), dues[k])
  {
    if k > 0 {
      BatchesTakeTop(dues, sels, k - 1);
      TakenNext(dues[0], 100 * (k - 1), Cat(sels[..k - 1]), dues[k - 1], EXPIRY_BATCH, sels[k - 1]);
      CatSnoc(sels, k);
    }
  }

  /**
   * At one time, k calls retire exactly the first 100 k overdue fights, in the order of their
   * expiry, each with its totals, and change no other battle.
   */
  lemma ExpiryTakesEarliest(w: World, ss: seq<Sys>, sels: seq<seq<Keyed>>, nows: seq<Time>, now: Time, k: nat)
    requires WorldInv(Intended, w) && ExpiryRun(Intended, ss, sels, nows) && ss[0] == w.sys && k <= |sels|
    requires forall i | 0 <= i < k :: nows[i] == now
    ensures IsTop(Overdue(w.sys.db.rows, now), Asc, 100 * k, Cat(sels[..k]))
    ensures forall e | e in Cat(sels[..k]) :: Retired(w, ss[k], e.id)
    ensures forall id | (forall e | e in Cat(sels[..k]) :: e.id != id) :: Unchanged(w.sys, ss[k], id)
  {
    var dues := seq(k + 1, i requires 0 <= i <= k => DueSet(Intended, ss[i].db.rows, now));
    forall i | 0 <= i < k ensures dues[i + 1] == dues[i] - Elems(sels[i]) {
      DueStep(w, ss, sels, nows, now, i);
    }
    assert Batches(dues, sels[..k]);
    BatchesTakeTop(dues, sels[..k], k);
    DueExactly(w.sys.db.rows, now);
    assert sels[..k][..k] == sels[..k];
    ExpiryOverCalls(w, ss, sels, nows, k);
  }

  // ---------------------------------------------------------------- as written

  /** The filter as written: once its expiry has passed, no call ever retires a battle. */
  lemma {:induction false} OverdueStayAsWritten(ss: seq<Sys>, sels: seq<seq<Keyed>>, nows: seq<Time>, k: nat, id: Uuid)
    requires ExpiryRun(AsWritten, ss, sels, nows) && k <= |sels|
    requires id in ss[0].db.rows && ss[0].db.rows[id].expiredAt.Some?
    requires forall i | 0 <= i < k :: ss[0].db.rows[id].expiredAt.value < nows[i]
    ensures id in ss[k].db.rows && ss[k].db.rows[id] == ss[0].db.rows[id]
    ensures HashAt(ss[k].redis.store, id) == HashAt(ss[0].redis.store, id)
  {
    if k > 0 {
      OverdueStayAsWritten(ss, sels, nows, k - 1, id);
      assert Selected(AsWritten, ss[k - 1].db.rows, nows[k - 1], sels[k - 1]);
      SelectionIds(AsWritten, ss[k - 1].db.rows, nows[k - 1], sels[k - 1]);
      FinishAllFrame(ss[k - 1], Ids(sels[k - 1]), id);
    }
  }

  predicate DueRow(p: Profile, rows: map<Uuid, Row>, now: Time, id: Uuid) {
    id in rows && Due(p, rows[id], now)
  }

  /** The due rows that expire before `t`, and those that expire at `t` at the latest. */
  function DueBefore(p: Profile, rows: map<Uuid, Row>, now: Time, t: Time): set<Keyed> {
    set e | e in DueSet(p, rows, now) && e.key < t
  }

  function DueUpTo(p: Profile, rows: map<Uuid, Row>, now: Time, t: Time): set<Keyed> {
    set e | e in DueSet(p, rows, now) && e.key <= t
  }

  /** A selected row has less than a hundred before it; a row that has at most a hundred up to it is selected. */
  lemma SelectedByPlace(p: Profile, rows: map<Uuid, Row>, now: Time, sel: seq<Keyed>, id: Uuid)
    requires Selected(p, rows, now, sel) && DueRow(p, rows, now, id)
    ensures id in Ids(sel) ==> |DueBefore(p, rows, now, rows[id].expiredAt.value)| < EXPIRY_BATCH
    ensures id !in Ids(sel) ==> |DueUpTo(p, rows, now, rows[id].expiredAt.value)| > EXPIRY_BATCH
  {
    var e, due := Keyed(id, rows[id].expiredAt.value), DueSet(p, rows, now);
    SelectionIds(p, rows, now, sel);
    NoDupSize(sel);
    assert e in due;
    if id in Ids(sel) {
      forall x | x in DueBefore(p, rows, now, e.key) ensures x in sel && x != e {
        assert x in sel || !Before(Asc, x.key, e.key);
      }
      SubsetSize(DueBefore(p, rows, now, e.key), Elems(sel) - {e});
    } else {
      forall y | y in sel ensures y in DueUpTo(p, rows, now, e.key) {
        assert y in due && !Before(Asc, e.key, y.key);
      }
      SubsetSize(Elems(sel) + {e}, DueUpTo(p, rows, now, e.key));
      SubsetSize(Elems(sel) + {e}, due);
    }
  }

  /**
   * And the filter drops live fights. A stored fight is dropped only if it has not expired and less
   * than a hundred unexpired rows expire before it; it is if at most a hundred expire by its time.
   * So, with at most a hundred unexpired rows, a stored fight is dropped exactly if it has not expired.
   */
  lemma LiveDroppedAsWritten(s: Sys, now: Time, sel: seq<Keyed>, id: Uuid)
    requires QueueOk(s.redis.queue) && Selected(AsWritten, s.db.rows, now, sel) && id in s.redis.store
    ensures var dropped := id !in FinishAll(s, Ids(sel)).redis.store;
            && (dropped <==> id in Ids(sel))
            && (dropped ==>
                  && id in s.db.rows && s.db.rows[id].expiredAt.Some? && now <= s.db.rows[id].expiredAt.value
                  && |DueBefore(AsWritten, s.db.rows, now, s.db.rows[id].expiredAt.value)| < 100)
            && (DueRow(AsWritten, s.db.rows, now, id) ==>
                  |DueUpTo(AsWritten, s.db.rows, now, s.db.rows[id].expiredAt.value)| <= 100 ==> dropped)
            && (|DueSet(AsWritten, s.db.rows, now)| <= 100 ==>
                  (dropped <==>
                   id in s.db.rows && s.db.rows[id].expiredAt.Some? && now <= s.db.rows[id].expiredAt.value))
  {
    SelectionIds(AsWritten, s.db.rows, now, sel);
    if id in Ids(sel) {
      Dropped(s, Ids(sel), id);
    } else {
      FinishAllFrame(s, Ids(sel), id);
    }
    if DueRow(AsWritten, s.db.rows, now, id) {
      SelectedByPlace(AsWritten, s.db.rows, now, sel, id);
      SubsetSize(DueUpTo(AsWritten, s.db.rows, now, s.db.rows[id].expiredAt.value), DueSet(AsWritten, s.db.rows, now));
    }
  }

  lemma {:induction false} Dropped(s: Sys, ids: seq<Uuid>, id: Uuid)
    requires id in ids || id !in s.redis.store
    ensures id !in FinishAll(s, ids).redis.store
    decreases ids
  {
    if ids != [] {
      Dropped(FinishCall(s, ids[0]), ids[1..], id);
    }
  }
}
