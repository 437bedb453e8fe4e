/**
 * The opponent search of `start_duel_battle`: two one-sided scans whose winners are merged.
 * Its partner is the plain nearest-rating search over all waiting battles.
 */
module Matching {
  import opened Types
  import opened Postgres

  predicate Below(rows: map<Uuid, Row>, user: Uuid, rating: real, id: Uuid) {
    Waiting(rows, user, id) && rows[id].rating < rating
  }

  predicate AtOrAbove(rows: map<Uuid, Row>, user: Uuid, rating: real, id: Uuid) {
    Waiting(rows, user, id) && rating <= rows[id].rating
  }

  function Gap(x: real, y: real): real {
    if x < y then y - x else x - y
  }

  /** First scan: the highest rating strictly below. */
  ghost predicate BestBelow(rows: map<Uuid, Row>, user: Uuid, rating: real, best: Option<Uuid>) {
    match best
    case None => forall id :: !Below(rows, user, rating, id)
    case Some(b) =>
      && Below(rows, user, rating, b)
      && forall id :: Below(rows, user, rating, id) ==> rows[id].rating <= rows[b].rating
  }

  /** Second scan: the lowest rating at or above. */
  ghost predicate BestAbove(rows: map<Uuid, Row>, user: Uuid, rating: real, best: Option<Uuid>) {
    match best
    case None => forall id :: !AtOrAbove(rows, user, rating, id)
    case Some(b) =>
      && AtOrAbove(rows, user, rating, b)
      && forall id :: AtOrAbove(rows, user, rating, id) ==> rows[b].rating <= rows[id].rating
  }

  /** `UNION` of the scans, `ORDER BY rating_diff LIMIT 1`; equal differences in any order. */
  predicate Merged(rows: map<Uuid, Row>, rating: real, lo: Option<Uuid>, hi: Option<Uuid>, pick: Option<Uuid>)
    requires lo.Some? ==> lo.value in rows
    requires hi.Some? ==> hi.value in rows
  {
    if lo.None? then pick == hi
    else if hi.None? then pick == lo
    else
      var dlo, dhi := rating - rows[lo.value].rating, rows[hi.value].rating - rating;
      (pick == lo && dlo <= dhi) || (pick == hi && dhi <= dlo)
  }

  ghost predicate TwoScans(rows: map<Uuid, Row>, user: Uuid, rating: real,
                           lo: Option<Uuid>, hi: Option<Uuid>, pick: Option<Uuid>) {
    && BestBelow(rows, user, rating, lo)
    && BestAbove(rows, user, rating, hi)
    && Merged(rows, rating, lo, hi, pick)
  }

  ghost predicate TwoSided(rows: map<Uuid, Row>, user: Uuid, rating: real, pick: Option<Uuid>) {
    exists lo, hi :: TwoScans(rows, user, rating, lo, hi, pick)
  }

  /** The simple search: a waiting battle of another user at the least absolute rating difference. */
  ghost predicate Nearest(rows: map<Uuid, Row>, user: Uuid, rating: real, pick: Option<Uuid>) {
    match pick
    case None => forall id :: !Waiting(rows, user, id)
    case Some(b) =>
      && Waiting(rows, user, b)
      && forall id :: Waiting(rows, user, id) ==> Gap(rating, rows[b].rating) <= Gap(rating, rows[id].rating)
  }

  /** What the sub-select of the `match` CTE may answer. */
  ghost predicate MatchPick(db: Db, card: Uuid, user: Uuid, pick: Option<Uuid>) {
    if CanStart(db, card, user) then TwoSided(db.rows, user, db.cards[card].rating, pick)
    else pick == None
  }

  lemma {:induction false} HighestOf(rows: map<Uuid, Row>, some: set<Uuid>) returns (b: Uuid)
    requires some != {} && some <= rows.Keys
    ensures b in some && forall id | id in some :: rows[id].rating <= rows[b].rating
    decreases |some|
  {
    var a :| a in some;
    b := a;
    if some != {a} {
      var c := HighestOf(rows, some - {a});
      b := if rows[a].rating < rows[c].rating then c else a;
    }
  }

  lemma {:induction false} LowestOf(rows: map<Uuid, Row>, some: set<Uuid>) returns (b: Uuid)
    requires some != {} && some <= rows.Keys
    ensures b in some && forall id | id in some :: rows[b].rating <= rows[id].rating
    decreases |some|
  {
    var a :| a in some;
    b := a;
    if some != {a} {
      var c := LowestOf(rows, some - {a});
      b := if rows[c].rating < rows[a].rating then c else a;
    }
  }

  lemma BestBelowExists(rows: map<Uuid, Row>, user: Uuid, rating: real) returns (best: Option<Uuid>)
    ensures BestBelow(rows, user, rating, best)
  {
    var some := set id | id in rows && Below(rows, user, rating, id);
    if some == {} {
      best := None;
      forall id ensures !Below(rows, user, rating, id) { assert id !in some; }
    } else {
      var b := HighestOf(rows, some);
      best := Some(b);
      forall id | Below(rows, user, rating, id) ensures rows[id].rating <= rows[b].rating { assert id in some; }
    }
  }

  lemma BestAboveExists(rows: map<Uuid, Row>, user: Uuid, rating: real) returns (best: Option<Uuid>)
    ensures BestAbove(rows, user, rating, best)
  {
    var some := set id | id in rows && AtOrAbove(rows, user, rating, id);
    if some == {} {
      best := None;
      forall id ensures !AtOrAbove(rows, user, rating, id) { assert id !in some; }
    } else {
      var b := LowestOf(rows, some);
      best := Some(b);
      forall id | AtOrAbove(rows, user, rating, id) ensures rows[b].rating <= rows[id].rating { assert id in some; }
    }
  }

  lemma WaitingSplits(rows: map<Uuid, Row>, user: Uuid, rating: real)
    ensures forall id :: Waiting(rows, user, id) <==> Below(rows, user, rating, id) || AtOrAbove(rows, user, rating, id)
  {
  }

  /** The two-sided search answers exactly what the nearest search may answer, in both directions. */
  lemma TwoSidedIsNearest(rows: map<Uuid, Row>, user: Uuid, rating: real, pick: Option<Uuid>)
    ensures TwoSided(rows, user, rating, pick) <==> Nearest(rows, user, rating, pick)
  {
    WaitingSplits(rows, user, rating);
    if TwoSided(rows, user, rating, pick) {
      var lo, hi :| TwoScans(rows, user, rating, lo, hi, pick);
    }
    if Nearest(rows, user, rating, pick) {
      var lo := BestBelowExists(rows, user, rating);
      var hi := BestAboveExists(rows, user, rating);
      if pick.None? {
        assert TwoScans(rows, user, rating, lo, hi, pick);
      } else if rows[pick.value].rating < rating {
        assert TwoScans(rows, user, rating, pick, hi, pick);
      } else {
        assert TwoScans(rows, user, rating, lo, pick, pick);
      }
    }
  }

  /**
   * The whole sub-select: it picks a nearest opponent when the card may start and somebody waits,
   * and picks nothing exactly when the card is not owned, is busy, or nobody else waits.
   */
  lemma MatchPickMeaning(db: Db, card: Uuid, user: Uuid, pick: Option<Uuid>)
    requires MatchPick(db, card, user, pick)
    ensures pick.Some? ==> CanStart(db, card, user) && Nearest(db.rows, user, db.cards[card].rating, pick)
    ensures pick.None? <==> !CanStart(db, card, user) || forall id :: !Waiting(db.rows, user, id)
  {
    if CanStart(db, card, user) {
      TwoSidedIsNearest(db.rows, user, db.cards[card].rating, pick);
    }
  }

  // ---------------------------------------------------------------- the scans as loops

  ghost predicate Lists(heap: seq<Uuid>, rows: map<Uuid, Row>) {
    forall id :: id in heap <==> id in rows
  }

  method ScanBelow(heap: seq<Uuid>, rows: map<Uuid, Row>, user: Uuid, rating: real) returns (best: Option<Uuid>)
    requires Lists(heap, rows)
    ensures BestBelow(rows, user, rating, best)
  {
    best := None;
    for i := 0 to |heap|
      invariant best.Some? ==> Below(rows, user, rating, best.value)
      invariant forall j | 0 <= j < i && Below(rows, user, rating, heap[j]) ::
          best.Some? && rows[heap[j]].rating <= rows[best.value].rating
    {
      var id := heap[i];
      if Below(rows, user, rating, id) && (best.None? || rows[best.value].rating < rows[id].rating) {
        best := Some(id);
      }
    }
  }

  method ScanAbove(heap: seq<Uuid>, rows: map<Uuid, Row>, user: Uuid, rating: real) returns (best: Option<Uuid>)
    requires Lists(heap, rows)
    ensures BestAbove(rows, user, rating, best)
  {
    best := None;
    for i := 0 to |heap|
      invariant best.Some? ==> AtOrAbove(rows, user, rating, best.value)
      invariant forall j | 0 <= j < i && AtOrAbove(rows, user, rating, heap[j]) ::
          best.Some? && rows[best.value].rating <= rows[heap[j]].rating
    {
      var id := heap[i];
      if AtOrAbove(rows, user, rating, id) && (best.None? || rows[id].rating < rows[best.value].rating) {
        best := Some(id);
      }
    }
  }

  method IsBusy(heap: seq<Uuid>, rows: map<Uuid, Row>, card: Uuid) returns (busy: bool)
    requires Lists(heap, rows)
    ensures busy <==> Busy(rows, card)
    ensures busy <==> exists id ::
              id in rows && rows[id].state != Finished && (rows[id].card1 == card || rows[id].card2 == Some(card))
  {
    busy := false;
    for i := 0 to |heap|
      invariant busy <==> exists j :: 0 <= j < i && Holds(rows[heap[j]], card)
    {
      if Holds(rows[heap[i]], card) {
        busy := true;
      }
    }
  }

  /** The sub-select. Its answer is a nearest opponent, or nothing if there is no legal one. */
  method FindOpponent(heap: seq<Uuid>, db: Db, card: Uuid, user: Uuid) returns (pick: Option<Uuid>, startable: bool)
    requires Lists(heap, db.rows)
    ensures startable <==> CanStart(db, card, user)
    ensures MatchPick(db, card, user, pick)
    ensures startable ==> Nearest(db.rows, user, db.cards[card].rating, pick)
  {
    var busy := IsBusy(heap, db.rows, card);
    startable := Owns(db.cards, card, user) && !busy;
    if !startable {
      return None, false;
    }
    var rating := db.cards[card].rating;
    var lo := ScanBelow(heap, db.rows, user, rating);
    var hi := ScanAbove(heap, db.rows, user, rating);
    if lo.None? || (hi.Some? && db.rows[hi.value].rating - rating < rating - db.rows[lo.value].rating) {
      pick := hi;
    } else {
      pick := lo;
    }
    assert TwoScans(db.rows, user, rating, lo, hi, pick);
    TwoSidedIsNearest(db.rows, user, rating, pick);
  }
}
