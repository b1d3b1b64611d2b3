# Poker table join handler — Dafny model

This project models the join-game request handler of a poker table service
(`index.js`). A player asks to join the game session of a table. The handler
loads the session and refuses the join with 404 when there is no session,
with 403 when a game is already in progress, and with 400 when the table has
`maxPlayers` players. Otherwise it seats a fresh player at the next seat and
sets `playerCount`. When the table now has at least `minPlayers` players, it
runs `setBlindsAndDeal` and marks the game started and in progress. That step
posts the small blind (half of `initialBigBlind`) at `smallBlindIndex` and the
big blind at the next seat. It deals two hole cards per seat from a freshly
shuffled deck, adds both blinds to the pot, gives the turn to the seat after
the big blind, and opens pre-flop betting.

Files and modules:

- `cards.dfy` (module `Cards`): the card source. The `Deck` module is not part
  of this model. A card is an opaque number and the shuffled deck is any input
  sequence of cards chosen by the caller. Distinct cards (`NoDuplicates`) are a
  premise of `DealNoSharedCards`, and at least two cards per seat a premise of
  `DealFullHands`.
  `deck.deal(k)` is assumed to remove and return the next `k` cards from the
  front, or all remaining cards when fewer are left. Lemmas show how hands
  come off the deck in seat order, that no card is lost, and that a deck
  without repeated cards gives disjoint hands.
- `table.dfy` (module `Table`): the data model. `Player` and `Session` are
  datatypes holding the fields the handler reads or writes. It also holds
  JavaScript's truncating `%` (`JsRem`), the fresh player (`NewPlayer`), and
  the sum of pot contributions.
- `blinds.dfy` (module `Blinds`): `setBlindsAndDeal`. `Dealt` gives the result
  seat by seat. `SetBlindsAndDeal` walks the seats in a loop, consuming the
  deck as the source's `map` callback does, and is proved equal to `Dealt`.
  Lemmas cover blinds, turn order, chip conservation, pot balance and cards.
- `join.dfy` (module `JoinGame`): `Join`, the transition from the stored
  session to the response and the handler's in-memory session. `Handler` is the
  handler's step-by-step update of its local session copy, proved equal to
  `Join`. Lemmas cover seating, the deal trigger, invariants, two successive
  joins and a worked example. `JoinAsWritten` models the deal with its
  scoping errors, in which case the caught exception becomes status 500.

Modelling choices:

- Chip amounts are JavaScript numbers. They are modelled as exact `real`s
  because `initialBigBlind / 2` can be half a chip. Seat indexes and counts
  are `int`s.
- `%` in the source is JavaScript's remainder, which truncates toward zero.
  `JsRem` models it, so a negative or out-of-range `smallBlindIndex` behaves
  as in the source. The blind, turn and pot lemmas assume
  `0 <= smallBlindIndex < players.length`, and the pot lemmas also assume at
  least two players. `LonePlayerOverfillsPot` shows what happens with one
  player.
- Three behaviours of the code are kept as written.
  - `gameInProgress` (403) is checked before capacity (400), so a full table
    with a game in progress answers 403.
  - After the deal, `highestBet` is the literal 10, whatever the big blind is
    (`HighestBetVersusBigBlind`).
  - There is no waiting list: a join while a game is in progress is refused
    with 403.
- The scoping errors at lines 15 and 31 are corrected in `Join`, `Dealt` and
  `SetBlindsAndDeal`. Line 15 uses `gameState` in place of `game`, and the
  big-blind seat is computed once, before the seats are visited. The
  as-written behaviour is under "## Findings".

## Model

| member | source | states |
|---|---|---|
| `JoinGame.Join` | index.js:57-110 | Refusals in a fixed order: 404 exactly when there is no session, 403 exactly when a game is in progress, 400 exactly when not in progress and `players.length >= maxPlayers`, 200 otherwise. Every refusal leaves the stored session unchanged. |
| `JoinGame.Handler` | index.js:57-123 | The handler's in-place steps are checks, push, `playerCount`, then deal and start flags at the threshold. They produce exactly the response and session of the `Join` transition. |
| `JoinGame.JoinSeatsOnePlayer` | index.js:65-86 | An accepted join adds exactly one player, at the end (`Seat`, with the fresh player `Table.NewPlayer`). Earlier players keep their ids and positions. The newcomer has the requested id and the old length as position. `playerCount` equals the new length, which is at most `maxPlayers`. Without a deal, earlier players are unchanged and the newcomer has the buy-in as chips, no bet, no contribution, no cards, and is in the hand. |
| `JoinGame.JoinStartsAtThreshold` | index.js:95-98 | The game is in progress after an accepted join exactly when the new length reaches `minPlayers`. It is then the dealt session, started, pre-flop, with betting open. Otherwise pot, turn, stage, deck, highest bet and start flags are unchanged, the game is not in progress, and the session differs from the stored one only in `players` (the new player appended) and `playerCount`: id, `minPlayers`, `maxPlayers`, buy-in, big blind and small-blind seat are kept. |
| `JoinGame.JoinKeepsSeatsNumbered` | index.js:69-85 | If every position equals its seat index before a join, this still holds afterwards, whatever the outcome. |
| `JoinGame.JoinKeepsPotBalanced` | index.js:69-98 | If the pot equals the sum of contributions before a join, it still does afterwards. This needs `minPlayers >= 2` and a small-blind seat that exists once the player is seated. |
| `JoinGame.JoinTwice` | index.js:65-98 | On a table with no game in progress, two free seats, and a first join that stays below `minPlayers`, two successive joins both succeed and seat the two players at the next two positions. The second one starts the game exactly when it brings the table to `minPlayers`. |
| `JoinGame.ExampleSecondJoinStarts` | index.js:7-40 | Example with min 2, max 6, buy-in 1000, big blind 20, small blind on seat 0 and one player seated. The second join gives status 200 and two players. Seat 0 ends with 990 chips and a contribution of 10, seat 1 with 980 chips and a contribution of 20. The pot is 30, the stage is pre-flop and seat 0 acts first. |
| `JoinGame.DealAsWritten` | index.js:13-31 | The deal as written resolves the names lines 14-15 read in the callback's scope (with seats) or those lines 30-31 read in the function's scope (without). From those scopes it follows that it always throws a ReferenceError: on `game` (line 15) when there are seats, on `bigBlindIndex` (line 31) when there are none. |
| `JoinGame.JoinAsWritten` | index.js:57-129 | The handler with the deal as written answers 404, 403 and 400 exactly as `Join` does. It answers 500 exactly when the seated player would reach `minPlayers`, and 200 exactly when it stays below, with no game in progress. Every non-200 answer leaves the stored session as it was. |
| `JoinGame.AsWrittenNeverStarts` | index.js:95-129 | With the deal as written, every join the corrected handler would start is answered 500 and nothing is written back. Every other join behaves as in the corrected handler. |
| `JoinGame.ExampleAsWrittenFails` | index.js:124-129 | For the example table, the second join returns 500 as written and the table keeps one player, where the corrected handler starts the game. |
| `Blinds.SetBlindsAndDeal` | index.js:6-44 | The seat loop gives exactly the `Dealt` session. Each seat posts its bet and takes the next two cards, the pot grows by both blinds, and the remaining deck is kept. The stage is `preFlop`, `highestBet` is 10, `bettingStarted` is true and the turn is `(bigBlind + 1) % n`. |
| `Blinds.BigBlindSeat` | index.js:15 | For a small blind on a real seat, the big blind is the next seat to the left, wrapping from the last seat to 0. It is a valid seat, and with two or more players it differs from the small-blind seat. |
| `Blinds.DealPostsBlinds` | index.js:13-25 | Seat i's bet is `initialBigBlind/2` if i is the small-blind seat, else `initialBigBlind` if i is `(smallBlindIndex+1) % n`, else 0. Its chips go down and its contribution goes up by exactly that bet, so chips plus contribution is preserved. |
| `Blinds.BlindSeats` | index.js:14-17 | With two or more players and a small blind on a real seat, the small-blind seat posts half the big blind, the seat to its left posts the big blind, and every other seat posts 0. Heads-up with the small blind on seat 1, the big blind wraps to seat 0. |
| `Blinds.DealTurn` | index.js:31 | The first seat to act is the seat after the seat after the small blind, which is a valid seat. Heads-up it is the small-blind seat. |
| `Blinds.DealKeepsSeats` | index.js:13-34 | The deal keeps the player count and order, each player's id, position and `inHand`, the table configuration, `playerCount` and the start flags. It also keeps positions equal to seat indexes. Each player is the stored one with only bet, chips, contribution and hand replaced, so `isReady`, `hasActed`, `isAllIn`, `amountWon`, `handDescription` and `bestHand` are kept. |
| `Blinds.DealOpensBetting` | index.js:37-39 | After the deal the stage is `preFlop`, `bettingStarted` is true and `highestBet` is 10. |
| `Blinds.HighestBetVersusBigBlind` | index.js:38 | With two or more players and a small blind on a real seat: a big blind above 10 leaves `highestBet` below the big blind's own bet, and a big blind below 10 leaves it above every posted bet. |
| `Blinds.DealKeepsPotBalanced` | index.js:18-30 | With two or more players and a small blind on a real seat, the pot and the total contribution both grow by exactly both blinds. So pot minus contributions is unchanged, and a balanced pot stays balanced. |
| `Blinds.LonePlayerOverfillsPot` | index.js:14-30 | With one player, the small and big blind fall on the same seat. Only the small blind is posted, but the pot collects both, so the pot exceeds the contributions by one big blind. |
| `Blinds.DealCardsInSeatOrder` | index.js:26-36 | Seat i's hand is the i-th pair dealt off the shuffled deck. The hands in seat order, followed by the session's new deck, give back the shuffled deck exactly. |
| `Blinds.DealFullHands` | index.js:26 | With at least two cards per seat, seat i holds exactly the cards at 2i and 2i+1 of the shuffled deck. |
| `Blinds.DealNoSharedCards` | index.js:26-36 | From a deck without repeated cards, no card is in two players' hands and no dealt card stays in the session's deck. |
| `Table.JsRem` | index.js:15 | JavaScript `%` for a positive divisor: for a non-negative dividend the result is in `[0, n)` and at most the dividend, and for a negative one it is in `(-n, 0]` and at least the dividend. |
| `Table.JsRemIsRemainder` | index.js:15 | `JsRem(a, n)` is the remainder of the division truncated toward zero: `a == q * n + r` with quotient `q` and remainder `r` of the sign of `a` and `|r| < n`. |
| `Table.JsRemSmall` | index.js:31 | A dividend inside `(-n, n)` is its own remainder, and `n % n` wraps to 0. |
| `Table.ContributionsAppend` | index.js:78-85 | Pushing a player adds that player's contribution to the total, 0 for a new player. |
| `Cards.DealSplits` | index.js:26 | `deal(k)` returns at most `k` cards, and those cards followed by what remains are the deck dealt from. |
| `Cards.DropDrop` | index.js:26 | Dealing `j` cards and then `k` leaves the same deck as dealing `j + k`; the second hand is the slice between them. |
| `Cards.DealtCardsArePrefix` | index.js:13-28 | The hands of the first n seats, concatenated in seat order, are the top `2n` cards of the deck (or all of it if shorter). |
| `Cards.CardsConserved` | index.js:26-36 | The dealt hands followed by the remaining deck are the original deck, as sequences and as multisets. |
| `Cards.FullHand` | index.js:26 | With at least `2n` cards, seat i of n gets exactly two cards, those at 2i and 2i+1. |
| `Cards.HandsDisjoint` | index.js:26 | From a deck without repeated cards, two different seats share no card. |
| `Cards.DealtNotRemaining` | index.js:26-36 | From a deck without repeated cards, no card dealt to one of the n seats is left in the remaining deck. |

## Left out

- Reading and writing the session store (`dynamoDb.get`/`update`, index.js:50-53,
  112-118) and the construction of the update expression (lines 88-109). The
  stored session is an input; the result carries the handler's in-memory
  session. The model does not capture what is actually persisted.
- The model assumes the update at line 112 succeeds. As written it does not at
  the threshold: lines 106-109 add values for `:gameInProgress`, `:deck`,
  `:highestBet` and `:bettingStarted`, and the expression built at lines 89
  and 100 never uses them. DynamoDB's `UpdateItem` documents that it refuses
  unused expression attribute values, so the call throws and the catch at
  lines 124-129 answers 500, even with lines 15 and 31 corrected. Were the
  write accepted, `gameInProgress` would still not be stored, and a later
  join would get past the check at line 61. `Join`'s 200 result at the
  threshold describes the handler's in-memory session only.
- A failure of the store itself, which the handler also turns into 500. Only
  the thrown ReferenceErrors of the deal as written are modelled, as
  `JoinAsWritten`'s 500 result.
- Parsing the request body, building JSON response bodies and
  `console.error` (lines 47, 58-129) are not modelled. Only the status code and
  message text are.
- The `Deck` module (line 2) and the randomness of `shuffle()`. The shuffled
  deck is an input, and the behaviour of `deal(k)` on a short deck is an
  assumption (see above).
- Floating-point rounding of chip amounts: amounts are exact reals.
- JavaScript dynamic typing. Missing fields, non-boolean `gameInProgress` and
  non-numeric counts are not modelled, nor are fields of the stored item
  other than those in `Session`, which the handler carries along unchanged.
- Concurrency, compare-and-set, retries, a waiting list and broadcasting.
  None of them exists in this code.

## Findings

| source | as written | input that shows it | evidently intended | confidence | as-written member | corrected member |
|---|---|---|---|---|---|---|
| index.js:15 | `setBlindsAndDeal` reads `game.smallBlindIndex` and `game.players.length` (line 15) and `bigBlindIndex` (line 31, outside the callback that declares it). Neither name is in scope, so every deal throws a ReferenceError, which the handler answers with 500 without writing anything. No game ever starts. | A waiting table with `minPlayers` 2 and one seated player; a second player joins. The answer is 500 and the table keeps one player. | Use `gameState` at line 15 and compute the big-blind seat once, before the `map`. The handler's in-memory session is then dealt and started (the write at line 112 is a separate matter, under "## Left out"). | high (not executed) | `JoinGame.AsWrittenNeverStarts` | `JoinGame.JoinStartsAtThreshold` |
