# Verified model of the duel battle server

The server keeps users, cards and duel battles in Postgres and shows running battles from Redis. This
project models its three stateful parts and proves what they do over whole runs.

**Duel battles.** A card starts either by joining the waiting battle of nearest rating or by waiting itself.
A matched battle is copied into a Redis hash and a vote queue ordered by time. Votes are deduplicated by a
key with a time to live, counted in the hash, and send the battle to the back of the queue. Finishing takes
the battle out of Redis and writes the totals to its row; a background loop finishes what has expired.

**Gacha.** A draw checks a user's points and then, in a second statement, takes 100 of them and hands out the
free card of lowest random index.

**Pages of cards.** A user's cards are listed page by page, forward or backward, by cursor.

## Layout

- `Types.dfy`, `OrderBy.dfy`: rows and views; `ORDER BY ... LIMIT` over keyed rows, ties in any order.
- `Postgres.dfy`, `Redis.dfy`: each SQL statement and each Redis command as one function on its store.
- `Matching.dfy`: the two-sided opponent search, and the plain nearest search it refines.
- `Tables.dfy`: invariants of the tables over runs of statements.
- `Battles.dfy`: the service calls as compositions of statements and commands. `Worlds.dfy`: runs of atomic
  calls and their invariant. `Votes.dfy`, `Fairness.dfy`, `Expiry.dfy`: what follows for totals, for the queue
  and for the expiry loop.
- `Effects.dfy`: what each call changes and answers, field by field, without the functions it is composed of.
- `Interleaving.dfy`: calls in flight, interleaved command by command. `Agreement.dfy`: when blobs and tables
  are right, and what reads answer. `Races.dfy`: vote history, queue and store. `Witnesses.dfy`: runs that break
  what atomic calls keep.
- `Gacha.dfy`: checks and charges in flight.
- `Paging.dfy`: the resolver. `Relay.dfy`: the pagination algorithm of the GraphQL Cursor Connections
  Specification, sections 4.4 and 5. `Traversal.dfy`: chasing keys through all pages.
  `Browsing.dfy`: a client that sends the resolver's cursors back, and what it sees.
- `Server.dfy`: the class that holds the shared state; each method is proved to make the state what the
  function of the same call says.

The atomic calls and the interleaved ones are built from the same command functions, and each of the five calls
of `Interleaving.dfy`, when uninterrupted, is that of `Battles.dfy`.

## Repairs

Members that take a `Profile` describe the text of the service (`AsWritten`) and the text with these repairs
(`Intended`); what holds only for one of them says so.

- *One counter a slot.* The match seeds `vote1` and `vote2` (src/models/battle/service.rs:204-207), finish
  reads `voteup1` and `voteup2` (line 246), and a vote puts the raw byte `card_idx` behind `voteup` (lines
  333-334). Repaired, all use `voteup1` and `voteup2`, and a vote uses the digit of `card_idx`.
  `Votes.FinishAsWritten` says exactly when the text as written finishes a row: when both byte 49 and byte 50
  were voted for, which no caller sends who numbers the cards 1 and 2.
- *Overdue fights.* Expiry selects `expired_at >= NOW()` in any state (line 375). Repaired, it selects fighting
  rows with `expired_at <= NOW()`. `Expiry.OverdueStayAsWritten` and `Expiry.LiveDroppedAsWritten` say what the
  text as written does instead.

In both profiles the statement of line 262, which is not Postgres syntax, is taken to set both tallies and the
state. The last assertion of the battle test (lines 524-527), that a finished battle still reads as it did
before, holds only because of the names as written.

## Assumptions

- Each SQL statement and each Redis command is one atomic step; new ids are fresh; one clock serves both
  stores.
- Runs of atomic calls (`Worlds.Allowed`): the clock never runs backwards, queue indexes are distinct at each
  charge, and votes are for stored battles. What happens without the last two is exact:
  `Postgres.ChargeStealsExactly` (an instance is `Gacha.EqualIndexesSteal`), `Votes.VoteKeepsStoreExactlyIfStored`.
- Ranks and starvation also assume that what enters the queue goes behind the battle in question
  (`Fairness.Yields`). With this clock it fails only by a tie of scores that a smaller id wins
  (`Fairness.YieldsUnlessTied`), so a clock that strictly increases is enough; what a tie does is exact:
  `Redis.ZAddMovesToBackExactly`, `Fairness.HeadVoteLowersAllExactly`, `Fairness.TiedScoreKeepsHead`.
- Interleaved runs (`Interleaving.Run`) assume only that ids are fresh and indexes distinct at each charge.
  Redis and Postgres can then disagree about a battle, as in `Witnesses.RudeVotesBreakAgreement`;
  `Agreement.AgreesExactlyUnspoiled` says exactly when they do. A condition that callers can see to is that nobody
  votes for that battle before its HSET (`Interleaving.PoliteAbout`).
- That a fingerprint votes once while it is remembered is a property of atomic calls only: two racing calls of
  polite callers are both counted in `Witnesses.RacingVotesBothCount`, and `Races.VotesOverlapExactly` says exactly
  when that happens, given a clock that never runs backwards. That a queued battle is stored is another:
  `Witnesses.LateVoteBlocksSampling` breaks it, and `Races.QueuedUnstoredExactly` says exactly when.

## Model

| member | source | states |
|---|---|---|
| Matching.TwoSidedIsNearest | src/models/battle/service.rs:155-170 | The best strictly-below and the best at-or-above battle, merged by difference, are exactly the answers of the nearest search over all waiting battles of others, in both directions. |
| Matching.MatchPickMeaning | src/models/battle/service.rs:154-170 | The sub-select picks a nearest opponent for a card that may start, and nothing exactly when the card is not owned or busy or nobody else waits. |
| Matching.ScanBelow | src/models/battle/service.rs:156-160 | The first scan finds a highest-rated waiting battle strictly below, or shows there is none. |
| Matching.ScanAbove | src/models/battle/service.rs:162-166 | The second scan finds a lowest-rated waiting battle at or above, or shows there is none. |
| Matching.IsBusy | src/models/battle/service.rs:168 | A card is busy exactly if some row whose state is not finished has it as its first or as its second card. |
| Matching.FindOpponent | src/models/battle/service.rs:151-170 | The whole search as loops: a nearest opponent exactly when the card may start. |
| Tables.StartKeepsTables | src/models/battle/service.rs:150-181 | A start keeps the tables in order: one waiting user, no card in two slots, owners and ratings right, rows well shaped. |
| Tables.StartTakesOneSlot | src/models/battle/service.rs:150-181 | A successful start takes exactly one slot more, a failed one none. |
| Tables.FinishKeepsTables | src/models/battle/service.rs:262 | Finishing a row keeps the tables in order if and only if the battle no longer waits, and frees no slot. |
| Tables.ExclusiveMeetsUniqueIndexes | migrations/20210430133758_base.sql:70-71 | Card exclusivity implies both partial unique indexes, so neither rejects a write. |
| Tables.ChargeKeepsOwned | src/models/card.rs:140-153 | With distinct indexes a charge changes no owned card. |
| Tables.TablesOverRuns | src/models/battle/service.rs:150-181 | From an empty battle table, over every run of starts, finishes, draws and card creations: single waiter, card exclusivity, ownership coherence, row shape, and successful starts equal waiting plus twice the others. |
| Tables.ViewShowsOwnCards | src/models/battle/service.rs:120-130 | With the tables in order, a battle shows its row and, field by field, each side's own card: the first with the battle's rating, the second with its own rating and exactly once matched. |
| Postgres.ViewShows | src/models/battle/service.rs:116-130 | The view of a row is the row, the five shown fields of each of its cards, and each of its users' points. |
| Postgres.SameBattleShows | src/models/battle/service.rs:82-99 | A battle equals a view, points aside, if and only if it shows that row and, field by field, both cards. |
| Postgres.ChargeEffect | src/models/card.rs:133-158 | For a user with 100 points the charge takes 100, gives every card at the lowest free index to the user with the time and a new index, keeps rating, creation time and creator, and changes no other card; for anyone else it changes nothing. |
| Postgres.HitsOneLowestFree | src/models/card.rs:146-152 | With distinct indexes the charge hits exactly the free card of lowest index, or none when all are owned. |
| Postgres.ChargeStealsExactly | src/models/card.rs:146-152 | Without distinct indexes, a charge takes a card from its owner if and only if its index equals the lowest free index. |
| Redis.KeysNeverCollide | src/models/battle/service.rs:37-46 | Store and history keys are injective in the 16-byte id and the fingerprint, and never equal each other or the queue key. |
| Redis.FieldsMeet | src/models/battle/service.rs:204-207 | Which `card_idx` feeds the tallies that finish reads: 1 and 2 by intent, 49 and 50 as written. |
| Redis.ZCommandsKeepOk | src/models/battle/service.rs:212-218 | ZADD and ZREM keep the queue sorted with one entry a battle, and change membership as named. |
| Redis.ZAddMovesToBackExactly | src/models/battle/service.rs:344-350 | ZADD moves a battle to the back and keeps the order of the rest if and only if every other entry precedes the new one, by score and then by id. |
| Worlds.StartOutcome | src/models/battle/service.rs:150-235 | A start joins the waiting battle, which is then stored and queued, at the back exactly if all others precede it; or waits because nobody else did; or fails and changes nothing. |
| Effects.StartFailsExactly | src/models/battle/service.rs:154-181 | A start fails if and only if the card is not the user's or a row whose state is not finished has it on either side. |
| Effects.StartEffect | src/models/battle/service.rs:150-235 | A start that does not fail answers its row with both cards and all points; it joins an opponent nearest in rating, setting exactly second card, second user, state and an expiry 600 seconds ahead, and stores blob and two counters and queues it; or inserts a waiting row and leaves Redis alone, because there is no opponent. |
| Effects.VoteEffect | src/models/battle/service.rs:315-363 | A vote is refused exactly while the history holds an unexpired key; otherwise it writes a key for 600 seconds, raises one counter by one and answers it, moves the battle's entry to the vote's time, and changes nothing else. |
| Effects.FinishEffect | src/models/battle/service.rs:245-275 | A finish removes the battle's hash and queue entry and, if both counters are there, sets exactly the two totals and the state of its row. |
| Effects.FinishFreesCards | src/models/battle/service.rs:168-178 | Over every run: right after a finish that settles its row, each of the two users can start the user's card again. |
| Effects.GetEffect | src/models/battle/service.rs:108-139 | A read answers the blob if there is one, else the row with both cards and all points, else fails. |
| Effects.ReadsShowBattles | src/models/battle/service.rs:103-300 | In every reachable state a read shows the row and, field by field, both cards, and fails exactly without a row; a sample shows those of the queue's head and fails exactly on an empty queue. |
| Effects.StatementEffect | src/models/card.rs:133-158 | The statements of the table runs, field by field: a start joins, waits or fails for a stated reason; a finish settles one row; a charge and a new card change the cards as they should; nothing else changes. |
| Effects.CardCallEffect | src/models/card.rs:102-158 | The charges and new cards of the runs of calls change users' points and cards, field by field, and leave Redis and the votes alone. |
| Worlds.WorldOverRuns | src/models/battle/service.rs:142-364 | Over every run of atomic calls: tables in order, stored battles are the queued ones and fighting, blobs show their rows, counters and totals are the accepted votes, and the history covers every accepted vote. |
| Worlds.ReadsShowRows | src/models/battle/service.rs:103-300 | In every reachable state a read answers the row with both joined cards if there is one and fails only if there is none; a sample shows the fighting row of the queue's head and fails only on an empty queue. |
| Votes.VotesConserved | src/models/battle/service.rs:245-268 | Repaired names: stored counters equal the accepted votes per slot, and finish writes exactly these totals and removes the battle from store and queue. |
| Votes.TotalsStay | src/models/battle/service.rs:260-268 | Repaired names: in every reachable state a finished row carries the accepted votes of each slot. |
| Votes.FinishAsWritten | src/models/battle/service.rs:245-275 | Names as written: finish settles the row if and only if votes for bytes 49 and 50 exist; otherwise the row fights on, gone from Redis. |
| Votes.OneVotePerFight | src/models/battle/service.rs:315-332 | A fingerprint's second accepted vote for a battle, whatever its slot, comes after the battle's expiry. |
| Votes.VoteAnswersCount | src/models/battle/service.rs:333-363 | An accepted vote answers the number of votes accepted for its slot, itself included, with the names as written or repaired. |
| Votes.VoteKeepsStoreExactlyIfStored | src/models/battle/service.rs:308-350 | An accepted vote keeps store, queue and rows in step if and only if the battle is stored. |
| Fairness.AheadFallsExactly | src/models/battle/service.rs:344-350 | One call takes from the front of a battle that it does not move exactly the battle it moves, if and only if what it queues goes behind that battle. |
| Fairness.YieldsUnlessTied | src/models/battle/service.rs:47-49 | With a clock that never runs backwards, a queued entry fails to go behind another only by an equal score and a smaller id. |
| Fairness.RankNeverRises | src/models/battle/service.rs:344-350 | A queued battle's rank never rises while no call moves it or queues another ahead of it. |
| Fairness.HeadVoteLowersRanks | src/models/battle/service.rs:279-350 | An accepted vote on the head lowers another battle's rank by exactly one if it goes behind it, and leaves the rank as it is otherwise. |
| Fairness.HeadVoteLowersAllExactly | src/models/battle/service.rs:279-350 | It lowers every other rank if and only if it moves the head to the back. |
| Fairness.VoteShowsNext | src/models/battle/service.rs:486-495 | After an accepted vote on the shown battle, sampling shows the next one if the voted one goes behind it, and the same again otherwise. |
| Fairness.NoStarvation | src/models/battle/service.rs:279-350 | A battle at rank r that no call moves or overtakes sees at most r sample-then-vote rounds, whatever calls interleave, and after r of them it is what sampling shows. |
| Fairness.TiedScoreKeepsHead | src/models/battle/service.rs:47-49 | With a clock that never runs backwards, an accepted vote on the shown battle leaves it shown if and only if the next one has the vote's score and a larger id. |
| Expiry.ExpiryRetiresExactly | src/models/battle/service.rs:370-392 | Repaired: a call retires exactly the selected overdue fights with their totals, keeping all else of their rows, at most a hundred, answers their number, and changes no other battle. |
| Expiry.ExpiryEffect | src/models/battle/service.rs:370-392 | Repaired: a call changes only rows in state fighting whose expiry has come, retires those with their totals, selects the first hundred of them or all, and leaves every other battle unchanged. |
| Expiry.ExpiryLeaves | src/models/battle/service.rs:370-392 | Repaired: a fight whose expiry has come is left only if a hundred such fights, all retired, expire no later; with at most a hundred of them, exactly these rows change. |
| Expiry.DueExactly | src/models/battle/service.rs:375 | Repaired, the filter keeps exactly the fights whose expiry has come; as written, exactly the rows whose expiry has not passed. |
| Expiry.EarliestFirst | src/models/battle/service.rs:372-377 | The selection takes the due battles that expire first. |
| Expiry.ExpiryDrains | src/bg_service.rs:7-12 | Repaired: of n fights past their expiry at some time, k calls at that time or later leave n - 100 k whatever becomes overdue in between; after ceil(n / 100) calls every fighting row expires later than that time. |
| Expiry.ExpiryOverCalls | src/bg_service.rs:7-12 | Repaired: whatever the clock reads, k calls retire exactly what they selected, each with its totals, and change no other battle. |
| Expiry.ExpiryTakesEarliest | src/models/battle/service.rs:370-392 | Repaired: k calls at one time retire exactly the first 100 k overdue fights by expiry, each with its totals, and change no other battle. |
| Expiry.OverdueStayAsWritten | src/models/battle/service.rs:375 | As written: no number of calls, each at its own time after a battle's expiry, touches the battle. |
| Expiry.LiveDroppedAsWritten | src/models/battle/service.rs:375-390 | As written: a stored fight is dropped only if it has not expired and less than a hundred unexpired rows expire before it, and is dropped if at most a hundred expire by its time; with at most a hundred unexpired rows, exactly if it has not expired. |
| Agreement.AgreesExactlyUnspoiled | src/models/battle/service.rs:199-268 | Over every command-level interleaving: the blob of a battle equals its row with both joined cards in every state, if and only if no finish that read both tallies updates the row between the match statement and an HSET that follows, nor while the blob is stored. |
| Agreement.CacheAgrees | src/models/battle/service.rs:199-268 | If nobody votes for a battle before its HSET, whatever happens to other battles, its blob equals its row with both joined cards in every state of every interleaving. |
| Agreement.GetIsCurrent | src/models/battle/service.rs:103-140 | If nobody votes for the battle before its HSET, every finished read answers the battle as it was at some moment of the call, or misses it when there was no such row. |
| Agreement.SampleIsCurrent | src/models/battle/service.rs:279-300 | Every finished sample answers the blob, stored at some moment of the call, of a battle that headed the queue earlier in the call, equal to its row at that moment if nobody voted for it too early; it fails only on an empty queue or such a battle without a blob. |
| Agreement.TablesInOrderExactly | src/models/battle/service.rs:142-268 | Over every interleaving the tables are in order in every state if and only if no finish settles a battle that still waits. |
| Agreement.TablesInterleaved | migrations/20210430133758_base.sql:70-71 | In every interleaving of callers who vote only after the HSET, the tables are in order and both partial unique indexes hold. |
| Races.RememberedExactly | src/models/battle/service.rs:318-332 | Over every interleaving with a clock that never runs backwards, a GET finds a voter if and only if some earlier SETEX of the voter has not expired. |
| Races.EveryCountIsPassage | src/models/battle/service.rs:318-343 | Every HINCRBY follows a SETEX, and that a GET which found nothing, of the same call. |
| Races.VotesOverlapExactly | src/models/battle/service.rs:318-343 | Two calls of one fingerprint for one battle are both counted within the time to live if and only if each one's GET precedes the other's SETEX. |
| Races.QueuedExactly | src/models/battle/service.rs:212-259 | Over every interleaving the queue is in order, and holds a battle if and only if no ZREM followed some ZADD of it. |
| Races.StoredExactly | src/models/battle/service.rs:200-254 | Over every interleaving a battle's blob is stored if and only if no DEL followed its HSET. |
| Races.QueuedUnstoredExactly | src/models/battle/service.rs:250-350 | While no finish of it stands between DEL and ZREM, a battle is queued without a blob if and only if some ZADD came when there was none, with no ZREM and no HSET since. |
| Races.LateZAddsExactly | src/models/battle/service.rs:250-350 | If nobody votes for the battle before its HSET, that is so if and only if some ZADD came after the battle's DEL, with no ZREM since. |
| Interleaving.CallsBegin | src/models/battle/service.rs:237-318 | A finish, vote, read or sample begins with its first command and with what it was given. |
| Interleaving.CardSteps | src/models/card.rs:133-158 | A charge or a new card between commands changes points and cards, field by field, and nothing else. |
| Interleaving.FinishUninterrupted | src/models/battle/service.rs:245-268 | A finish whose commands run uninterrupted is the atomic finish. |
| Interleaving.VoteUninterrupted | src/models/battle/service.rs:315-363 | A vote whose commands run uninterrupted is the atomic vote, with the same answer. |
| Interleaving.StartUninterrupted | src/models/battle/service.rs:149-234 | A start whose commands run uninterrupted is the atomic start, with the same answer. |
| Interleaving.GetUninterrupted | src/models/battle/service.rs:103-140 | A read whose command and statement run uninterrupted is the atomic read, with the same answer, and changes nothing. |
| Interleaving.SampleUninterrupted | src/models/battle/service.rs:279-300 | A sample whose commands run uninterrupted is the atomic sample, with the same answer, and changes nothing. |
| Witnesses.RudeVotesBreakAgreement | src/models/battle/service.rs:308-350 | A run in which votes on a waiting battle let a finish overtake the HSET, leaving Redis with a fight that Postgres has finished. |
| Witnesses.RacingVotesBothCount | src/models/battle/service.rs:318-343 | A run of polite callers from empty tables in which one fingerprint is counted twice at one time and the counter rises from 0 to 2. |
| Witnesses.LateVoteBlocksSampling | src/models/battle/service.rs:279-350 | A run of polite callers in which a finish between a vote's SETEX and HINCRBY leaves the finished battle at the head of the queue without a blob, so that sampling fails. |
| Gacha.GachaAccounts | src/models/card.rs:124-158 | However checks and charges interleave: points never go negative and a user loses 100 a committed charge; the cards a user owns are those owned at first, those created since, and one for each charge committed while some card was free; so each charge is worth a card exactly if a card was free at each. |
| Gacha.NoCardTwice | src/models/card.rs:140-153 | No card is handed out twice, each drawn card is its drawer's, and nobody loses a card. |
| Gacha.DrawsAscend | src/models/card.rs:146-152 | The cards handed out are the free cards of smallest initial index, in ascending order, although every drawn card gets a new index. |
| Gacha.EqualIndexesSteal | migrations/20210430133758_base.sql:31-42 | With equal indexes one charge also takes another user's card. |
| Gacha.GachaUninterrupted | src/models/card.rs:124-158 | A check and its charge in a row: nothing happens to a user short of 100 points; otherwise 100 points go, each card at the lowest free index is the user's, field by field, and the answered card joins the history. |
| Gacha.DrawnIsListed | src/models/card.rs:140-143 | A drawn card is in its new owner's list in the default order, at the time of the draw. |
| Paging.Filter | src/models/user.rs:111-134 | The query keeps exactly the user's cards whose key lies strictly between the bounds. |
| Paging.Cards | src/models/user.rs:87-166 | Errors exactly for two limits or a cursor of another sort. Otherwise exactly the wanted number of the user's cards, cut to 0..100 or 100, each once with its own ownedAt, rating or createdAt as the sort says, ascending, strictly behind `after` and before `before` or the defaults, taken from the near end for `first` and the far end for `last`; the flag of that direction tells whether there are more, the other is off. |
| Paging.LargestDouble | src/models/user.rs:101 | The default bound of ratings is (2^53 - 1) * 2^971. |
| OrderBy.TruncatedFetch | src/models/user.rs:111-145 | Fetching one row too many and truncating gives the page and tells whether there are more. |
| Relay.PageIsSpecExactly | src/models/user.rs:104-148 | For distinct keys and cursors that are absent or name edges, page and active flag are the specification's over the whole list if and only if the cursors are in order or nothing follows the first one. |
| Traversal.FollowsIsChase | src/models/user.rs:98-166 | A client that follows end or start cursors while the flag is set chases exactly the pages in fetched order. |
| Traversal.FollowingMissesExactlyTies | src/models/user.rs:109-148 | Following cursors in either direction through any keys with any page sizes misses a card if and only if it ties with the next cursor of a page that was not the last and is not on it. |
| Traversal.VisitsInOrder | src/models/user.rs:109-166 | A chase visits cards in order and none twice. |
| Traversal.FollowingEnds | src/models/user.rs:141-145 | In either direction the sizes of the pages that said there were more add up to less than the cards there are, so every client that follows cursors comes to an end. |
| Traversal.FollowingExists | src/models/user.rs:104-148 | For every supply of page sizes of at least one, some client gets through to the last page. |
| Traversal.FollowingBothWaysAgrees | src/models/user.rs:99-148 | With distinct keys, following `after` and following `before` with any page sizes shows the same ascending list, each card once. |
| Browsing.BrowsesIsFollows | src/models/user.rs:98-166 | The answers that a client gets by sending each page's end cursor in the next request, in either direction, are exactly the pages of following keys through the listing. |
| Browsing.BrowsingMissesExactlyTies | src/models/user.rs:109-148 | Such a client misses a card that it asked for if and only if the card ties with the end edge of a page that is not the last, and is not on it. |
| Browsing.BrowsingBothWaysAgrees | src/models/user.rs:99-148 | With distinct keys, browsing forward and browsing backward with any page sizes show the same list: exactly the cards asked for, each once, ascending. |
| Browsing.BrowsingEnds | src/models/user.rs:141-145 | The pages that said there were more were asked to hold less cards than there are, so every client comes to an end. |
| Browsing.BrowsingExists | src/models/user.rs:104-148 | For every supply of page sizes from 1 to 100 some client gets through to the last page. |
| Browsing.AnswerIsSpecExactly | src/models/user.rs:104-148 | An answer of the resolver to cursors of listed edges is the specification's page and flag if and only if the cursors are in order or nothing follows the first one. |
| Server.Pools.Start | src/models/battle/service.rs:142-235 | The call as statements on the state: the atomic start, with a nearest opponent, failing exactly if the card is not the user's or an unfinished row has it. |
| Server.Pools.Vote | src/models/battle/service.rs:308-364 | The call as commands: the atomic vote, failing exactly if the voter is remembered. |
| Server.Pools.Finish | src/models/battle/service.rs:237-277 | The call as commands: the atomic finish. |
| Server.Pools.Sample | src/models/battle/service.rs:279-300 | Answers the blob of the queue's head, failing exactly if there is none; when store and queue are in step, the head's row and both cards field by field, failing exactly on an empty queue. |
| Server.Pools.Get | src/models/battle/service.rs:103-140 | Answers the blob or else the row, failing exactly if there is neither; when store and queue are in step, the row and both cards field by field, failing exactly if there is no row. |
| Server.Pools.SelectDue | src/models/battle/service.rs:371-385 | The first hundred by expiry, or all: repaired of the fights whose expiry has come, as written of the rows whose expiry has not passed. |
| Server.Pools.Expire | src/models/battle/service.rs:370-392 | Finishes the first hundred by expiry, or all, of the fights whose expiry has come (as written: of the rows whose expiry has not passed), answers how many there were, and leaves all other rows. |
| Server.Pools.FindLowestFree | src/models/card.rs:147-151 | A free card of lowest index, or none if all are owned. |
| Server.Pools.Charge | src/models/card.rs:133-158 | The charging statement as loops: nothing changes for a user short of 100 points; otherwise 100 points go and every card at the lowest free index becomes the user's, field by field; it answers one of these, or none exactly if no card is free. |
| Server.Pools.GachaCard | src/models/card.rs:119-168 | Too few points end the call unchanged. Otherwise the user pays 100 and gets the answered card with the time of the draw and a new index, all else of it kept, or pays and fails when no card is free; with distinct indexes no other card changes. |
| Server.Pools.CreateCard | src/models/card.rs:102-110 | Adds one card of rating 1000, owned and created by the user at the time of the call, and leaves all other cards, the battles and the points as they were. |

## Left out

- Postgres isolation below the statement and `SKIP LOCKED`: every statement is one atomic step.
- Other calls between the finishes of one expiry call: `Expiry.dfy` runs the whole call at once. The finishes
  themselves may interleave with anything in `Interleaving.dfy`.
- Floating point: ratings, indexes, scores and times are reals; there is no NaN.
- The widths of `voteup1`, `voteup2` and `points` (32 bits) and of the Redis counters.
- Users' points inside a battle's blob: they go stale when a user draws, so agreement leaves them out.
- The PUBLISH call and the commented-out subscription code.
- Cursor, blob and identifier encodings: cursors are keys, blobs are values, identifiers are numbers.
- Errors of the database and Redis connections: every command succeeds.
- GraphQL resolvers other than the list of cards, routes, sessions, uploads, password hashing, registration, login.
- The names, images and e-mail addresses of cards and users.
- The upper bound of 100 on page sizes in traversals: the results hold for every size of at least one.
- Server.Pools.Finish: does not stop at the syntax error of the update as written, but takes its intent.
