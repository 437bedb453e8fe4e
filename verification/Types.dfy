/** The values that the tables, the Redis keys and the GraphQL answers are made of. */
module Types {

  datatype Option<+T> = None | Some(value: T)

  datatype Result<+T, +E> = Ok(value: T) | Err(error: E)

  /** A 16-byte identifier, read as a number. */
  type Uuid = nat

  /** A reading of the one clock shared by Postgres and Redis, in seconds. */
  type Time = real

  const DUEL_BATTLE_TTL: Time := 600.0
  const GACHA_POINTS: int := 100
  const USER_CARDS_MAX_PAGE_SIZE: nat := 100
  const EXPIRY_BATCH: nat := 100

  datatype BattleState = Matching | Fighting | Finished

  /** A row of `duel_battles`; the primary key is the key of the map that holds it. */
  datatype Row = Row(
    voteup1: int,
    voteup2: int,
    state: BattleState,
    createdAt: Time,
    rating: real,
    card1: Uuid,
    user1: Uuid,
    card2: Option<Uuid>,
    user2: Option<Uuid>,
    expiredAt: Option<Time>)

  /** A row of `cards` without its texts. */
  datatype Card = Card(
    rating: real,
    createdAt: Time,
    ownedAt: Option<Time>,
    owner: Option<Uuid>,
    creator: Option<Uuid>,
    index: real)

  /** What the `Card` struct keeps of a row: everything but the queue index. */
  datatype CardView = CardView(
    rating: real,
    createdAt: Time,
    ownedAt: Option<Time>,
    owner: Option<Uuid>,
    creator: Option<Uuid>)

  /** The `DuelBattle` struct: a row joined with its cards and its users' points. */
  datatype DuelBattle = DuelBattle(
    id: Uuid,
    row: Row,
    card1: Option<CardView>,
    card2: Option<CardView>,
    points1: Option<int>,
    points2: Option<int>)

  /**
   * The text of the service, or the text with its names and its expiry filter repaired
   * (README, "Repairs"). A member that takes a `Profile` describes both.
   */
  datatype Profile = AsWritten | Intended

  /** Equality of everything a battle shows, leaving out its users' points. */
  predicate SameBattle(a: DuelBattle, b: DuelBattle) {
    a.id == b.id && a.row == b.row && a.card1 == b.card1 && a.card2 == b.card2
  }
}
