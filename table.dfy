/** The game-session record of one poker table and the players seated at it,
    as the join handler reads it from and writes it back to the session store.
    Chip amounts are JavaScript numbers; they are modelled as exact `real`s
    (half the big blind may be a fraction of a chip). Seat indexes and player
    counts are `int`s. */
module Table {
  import opened Cards

  datatype Option<T> = None | Some(value: T)

  /** One seat occupant, embedded by value in the session's player list. */
  datatype Player = Player(
    id: string,
    position: int,
    chips: real,
    bet: real,
    inHand: bool,
    isReady: bool,
    hand: seq<Card>,
    hasActed: bool,
    potContribution: real,
    isAllIn: bool,
    amountWon: real,
    handDescription: Option<string>,
    bestHand: Option<seq<Card>>)

  /** The stored session of one table; `players` is in seating order. */
  datatype Session = Session(
    gameId: string,
    players: seq<Player>,
    playerCount: int,
    maxPlayers: int,
    minPlayers: int,
    buyIn: real,
    initialBigBlind: real,
    smallBlindIndex: int,
    pot: real,
    highestBet: real,
    currentTurn: int,
    gameStage: string,
    bettingStarted: bool,
    gameStarted: bool,
    gameInProgress: bool,
    deck: seq<Card>)

  /** JavaScript's `a % n` for a positive divisor: the remainder of division
      truncated toward zero, which takes the sign of `a` (Dafny's own `%` is
      never negative). Written as repeated subtraction of `n` toward zero. */
  function JsRem(a: int, n: int): (r: int)
    requires n > 0
    ensures a >= 0 ==> 0 <= r < n && r <= a
    ensures a < 0 ==> -n < r <= 0 && a <= r
    decreases if a >= 0 then a else -a
  {
    if a >= n then JsRem(a - n, n)
    else if a <= -n then JsRem(a + n, n)
    else a
  }

  /** The quotient of JavaScript's division truncated toward zero, counting
      the subtractions `JsRem` makes. */
  function JsQuot(a: int, n: int): int
    requires n > 0
    decreases if a >= 0 then a else -a
  {
    if a >= n then JsQuot(a - n, n) + 1
    else if a <= -n then JsQuot(a + n, n) - 1
    else 0
  }

  /** One more or one fewer multiple of `n`. */
  lemma MultipleStep(q: int, n: int)
    ensures (q + 1) * n == q * n + n
    ensures (q - 1) * n == q * n - n
  {
  }

  /** `JsRem` is the remainder of `a` by `n` for the quotient truncated toward
      zero: `a == q * n + r` with `q` and `r` of the sign of `a` and `|r| < n`,
      which fixes `r` uniquely. */
  lemma {:induction false} JsRemIsRemainder(a: int, n: int)
    requires n > 0
    ensures a == JsQuot(a, n) * n + JsRem(a, n)
    ensures a >= 0 ==> JsQuot(a, n) >= 0 && 0 <= JsRem(a, n) < n
    ensures a < 0 ==> JsQuot(a, n) <= 0 && -n < JsRem(a, n) <= 0
    decreases if a >= 0 then a else -a
  {
    if a >= n {
      JsRemIsRemainder(a - n, n);
      var q := JsQuot(a - n, n);
      assert JsQuot(a, n) == q + 1 && JsRem(a, n) == JsRem(a - n, n);
      MultipleStep(q, n);
    } else if a <= -n {
      JsRemIsRemainder(a + n, n);
      var q := JsQuot(a + n, n);
      assert JsQuot(a, n) == q - 1 && JsRem(a, n) == JsRem(a + n, n);
      MultipleStep(q, n);
    } else {
      assert JsQuot(a, n) == 0 && JsRem(a, n) == a;
    }
  }

  /** The remainder of a dividend already inside (-n, n) is the dividend itself,
      and n itself (the seat after the last one) wraps to 0. */
  lemma JsRemSmall(a: int, n: int)
    requires n > 0
    ensures -n < a < n ==> JsRem(a, n) == a
    ensures JsRem(n, n) == 0
  {
    assert JsRem(n, n) == JsRem(0, n);
  }

  /** The player the handler seats: the buy-in as chips, every counter zeroed,
      an empty hand, in the hand and not yet ready. */
  function NewPlayer(id: string, position: int, buyIn: real): Player {
    Player(id, position, buyIn, 0.0, true, false, [], false, 0.0, false, 0.0, None, None)
  }

  /** Every player's `position` is its index in the seating order. */
  predicate SeatsNumbered(players: seq<Player>) {
    forall i :: 0 <= i < |players| ==> players[i].position == i
  }

  /** The sum of `potContribution` over players k .. |players|-1. */
  function ContributionsFrom(players: seq<Player>, k: nat): real
    requires k <= |players|
    decreases |players| - k
  {
    if k == |players| then 0.0 else players[k].potContribution + ContributionsFrom(players, k + 1)
  }

  /** The sum of `potContribution` over all players. */
  function Contributions(players: seq<Player>): real {
    ContributionsFrom(players, 0)
  }

  /** The pot holds exactly what the players have put into it. */
  predicate PotBalanced(s: Session) {
    s.pot == Contributions(s.players)
  }

  lemma {:induction false} ContributionsFromAppend(players: seq<Player>, p: Player, k: nat)
    requires k <= |players|
    ensures ContributionsFrom(players + [p], k) == ContributionsFrom(players, k) + p.potContribution
    decreases |players| - k
  {
    if k < |players| {
      assert (players + [p])[k] == players[k];
      ContributionsFromAppend(players, p, k + 1);
    }
  }

  /** Seating one more player adds that player's contribution to the total. */
  lemma ContributionsAppend(players: seq<Player>, p: Player)
    ensures Contributions(players + [p]) == Contributions(players) + p.potContribution
  {
    ContributionsFromAppend(players, p, 0);
  }
}
