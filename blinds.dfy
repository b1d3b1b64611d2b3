/** `setBlindsAndDeal`: post the small and big blind, deal two hole cards to
    every seat in seat order from a freshly shuffled deck, and open pre-flop
    betting. `Dealt` is the state the step produces, stated seat by seat;
    `SetBlindsAndDeal` is the step itself, walking the seats and consuming the
    deck as the source's `map` callback does. */
module Blinds {
  import opened Cards
  import opened Table

  const PRE_FLOP: string := "preFlop"

  /** The source sets `highestBet` to this literal, whatever the big blind is. */
  const HIGHEST_BET_AFTER_DEAL: real := 10.0

  function SmallBlindAmount(s: Session): real {
    s.initialBigBlind / 2.0
  }

  function BigBlindAmount(s: Session): real {
    s.initialBigBlind
  }

  /** The seat to the left of seat i, wrapping from the last seat to seat 0. */
  function NextSeat(i: int, n: int): int {
    if i + 1 == n then 0 else i + 1
  }

  /** `(smallBlindIndex + 1) % players.length` */
  function BigBlindIndex(s: Session): int
    requires |s.players| > 0
  {
    JsRem(s.smallBlindIndex + 1, |s.players|)
  }

  /** `(bigBlindIndex + 1) % players.length`: the first seat to act. */
  function NextTurn(s: Session): int
    requires |s.players| > 0
  {
    JsRem(BigBlindIndex(s) + 1, |s.players|)
  }

  /** The forced bet of seat i: the small blind takes precedence over the big blind. */
  function BetAt(s: Session, i: int): real
    requires |s.players| > 0
  {
    if i == s.smallBlindIndex then SmallBlindAmount(s)
    else if i == BigBlindIndex(s) then BigBlindAmount(s)
    else 0.0
  }

  /** A player after posting `bet` and receiving `hand`; the other fields are kept. */
  function Posted(p: Player, bet: real, hand: seq<Card>): Player {
    p.(bet := bet, chips := p.chips - bet, potContribution := p.potContribution + bet, hand := hand)
  }

  function PostedSeat(s: Session, deck: seq<Card>, k: int): Player
    requires 0 <= k < |s.players|
  {
    Posted(s.players[k], BetAt(s, k), HandAt(deck, k))
  }

  /** The session after blinds and deal, from the shuffled deck `deck`. */
  function Dealt(s: Session, deck: seq<Card>): Session
    requires |s.players| > 0
  {
    s.(players := seq(|s.players|, k requires 0 <= k < |s.players| => PostedSeat(s, deck, k)),
       pot := s.pot + SmallBlindAmount(s) + BigBlindAmount(s),
       deck := Remaining(deck, |s.players|),
       gameStage := PRE_FLOP,
       highestBet := HIGHEST_BET_AFTER_DEAL,
       bettingStarted := true,
       currentTurn := NextTurn(s))
  }

  /** The blind and deal step. `shuffled` is the new deck after `shuffle()`;
      each seat in turn posts its bet and takes the next two cards. The big
      blind's seat is computed once, before the seats are visited. */
  method SetBlindsAndDeal(s: Session, shuffled: seq<Card>) returns (r: Session)
    requires |s.players| > 0
    ensures r == Dealt(s, shuffled)
  {
    var smallBlindAmount := s.initialBigBlind / 2.0;
    var bigBlindAmount := s.initialBigBlind;
    var n := |s.players|;
    var bigBlindIndex := JsRem(s.smallBlindIndex + 1, n);
    var deck := shuffled;
    var updatedPlayers: seq<Player> := [];
    var i := 0;
    while i < n
      invariant 0 <= i <= n
      invariant |updatedPlayers| == i
      invariant forall k :: 0 <= k < i ==> updatedPlayers[k] == PostedSeat(s, shuffled, k)
      invariant deck == Drop(shuffled, 2 * i)
    {
      var player := s.players[i];
      var betAmount := if i == s.smallBlindIndex then smallBlindAmount
                       else if i == bigBlindIndex then bigBlindAmount
                       else 0.0;
      DealNextSeat(shuffled, deck, i);
      var hand := Take(deck, 2);
      deck := Drop(deck, 2);
      var posted := player.(bet := betAmount,
                            chips := player.chips - betAmount,
                            potContribution := player.potContribution + betAmount,
                            hand := hand);
      assert posted == PostedSeat(s, shuffled, i);
      assert forall k :: 0 <= k < i + 1 ==> (updatedPlayers + [posted])[k] == PostedSeat(s, shuffled, k);
      updatedPlayers := updatedPlayers + [posted];
      i := i + 1;
    }
    assert updatedPlayers == Dealt(s, shuffled).players;
    r := s.(players := updatedPlayers,
            pot := s.pot + smallBlindAmount + bigBlindAmount,
            deck := deck,
            gameStage := PRE_FLOP,
            highestBet := HIGHEST_BET_AFTER_DEAL,
            bettingStarted := true,
            currentTurn := JsRem(bigBlindIndex + 1, n));
  }

  /** With the small blind on a real seat, the big blind sits on the next seat
      to the left, wrapping to seat 0, and with two or more players it is a
      different seat from the small blind. */
  lemma BigBlindSeat(s: Session)
    requires |s.players| > 0
    requires 0 <= s.smallBlindIndex < |s.players|
    ensures BigBlindIndex(s) == NextSeat(s.smallBlindIndex, |s.players|)
    ensures 0 <= BigBlindIndex(s) < |s.players|
    ensures |s.players| >= 2 ==> BigBlindIndex(s) != s.smallBlindIndex
  {
    JsRemSmall(s.smallBlindIndex + 1, |s.players|);
  }

  /** Seat i posts half the big blind if it is the small blind, the full big
      blind if it is the big blind, and nothing otherwise; its chips go down and
      its pot contribution goes up by exactly that amount. */
  lemma DealPostsBlinds(s: Session, deck: seq<Card>, i: int)
    requires |s.players| > 0
    requires 0 <= i < |s.players|
    ensures var p, q := s.players[i], Dealt(s, deck).players[i];
      && q.bet == (if i == s.smallBlindIndex then s.initialBigBlind / 2.0
                   else if i == JsRem(s.smallBlindIndex + 1, |s.players|) then s.initialBigBlind
                   else 0.0)
      && q.chips == p.chips - q.bet
      && q.potContribution == p.potContribution + q.bet
      && q.chips + q.potContribution == p.chips + p.potContribution
  {
  }

  /** For two or more players and a small blind on a real seat: exactly the
      small-blind seat posts half the big blind, exactly the seat to its left
      posts the big blind, every other seat posts nothing. Heads-up with the
      small blind on seat 1 the big blind wraps to seat 0. */
  lemma BlindSeats(s: Session, deck: seq<Card>)
    requires |s.players| >= 2
    requires 0 <= s.smallBlindIndex < |s.players|
    ensures var r, sb := Dealt(s, deck), s.smallBlindIndex;
      var bb := NextSeat(sb, |s.players|);
      && r.players[sb].bet == s.initialBigBlind / 2.0
      && r.players[bb].bet == s.initialBigBlind
      && (forall i :: 0 <= i < |s.players| && i != sb && i != bb ==> r.players[i].bet == 0.0)
    ensures |s.players| == 2 && s.smallBlindIndex == 1 ==> BigBlindIndex(s) == 0
  {
    BigBlindSeat(s);
  }

  /** The first seat to act is the seat to the left of the big blind; for a
      small blind on a real seat it is a valid seat, including heads-up. */
  lemma DealTurn(s: Session, deck: seq<Card>)
    requires |s.players| > 0
    requires 0 <= s.smallBlindIndex < |s.players|
    ensures var n, r := |s.players|, Dealt(s, deck);
      && r.currentTurn == NextSeat(NextSeat(s.smallBlindIndex, n), n)
      && 0 <= r.currentTurn < n
    ensures |s.players| == 2 ==> Dealt(s, deck).currentTurn == s.smallBlindIndex
  {
    BigBlindSeat(s);
    JsRemSmall(BigBlindIndex(s) + 1, |s.players|);
  }

  /** The deal keeps the seats: same count and order, same ids and positions,
      and leaves the table's configuration and start flags alone. Each player
      is the stored one with only bet, chips, contribution and hand replaced,
      so readiness, acted and all-in flags, winnings and showdown fields are
      carried over as the spread of `player` does. */
  lemma DealKeepsSeats(s: Session, deck: seq<Card>)
    requires |s.players| > 0
    ensures var r := Dealt(s, deck);
      && |r.players| == |s.players|
      && (forall i :: 0 <= i < |s.players| ==>
            r.players[i].id == s.players[i].id && r.players[i].position == s.players[i].position
            && r.players[i].inHand == s.players[i].inHand)
      && r.gameId == s.gameId && r.playerCount == s.playerCount
      && r.maxPlayers == s.maxPlayers && r.minPlayers == s.minPlayers
      && r.buyIn == s.buyIn && r.initialBigBlind == s.initialBigBlind
      && r.smallBlindIndex == s.smallBlindIndex
      && r.gameStarted == s.gameStarted && r.gameInProgress == s.gameInProgress
    ensures SeatsNumbered(s.players) ==> SeatsNumbered(Dealt(s, deck).players)
    ensures forall i :: 0 <= i < |s.players| ==>
      var p, b := s.players[i], BetAt(s, i);
      Dealt(s, deck).players[i] ==
        p.(bet := b, chips := p.chips - b, potContribution := p.potContribution + b, hand := HandAt(deck, i))
  {
  }

  /** After the deal the table is pre-flop with betting open and the highest bet at 10. */
  lemma DealOpensBetting(s: Session, deck: seq<Card>)
    requires |s.players| > 0
    ensures var r := Dealt(s, deck);
      r.gameStage == "preFlop" && r.bettingStarted && r.highestBet == 10.0
  {
  }

  /** `highestBet` is the literal 10 whatever the big blind is: with a big
      blind above 10 the recorded highest bet is below the big blind's own
      bet, and with one below 10 it is above every bet posted. */
  lemma HighestBetVersusBigBlind(s: Session, deck: seq<Card>)
    requires |s.players| >= 2
    requires 0 <= s.smallBlindIndex < |s.players|
    ensures var r := Dealt(s, deck);
      s.initialBigBlind > 10.0 ==> r.highestBet < r.players[BigBlindIndex(s)].bet
    ensures var r := Dealt(s, deck);
      0.0 <= s.initialBigBlind < 10.0 ==> forall i :: 0 <= i < |r.players| ==> r.players[i].bet < r.highestBet
  {
    BigBlindSeat(s);
    var r := Dealt(s, deck);
    forall i | 0 <= i < |r.players|
      ensures 0.0 <= s.initialBigBlind < 10.0 ==> r.players[i].bet < r.highestBet
    {
      DealPostsBlinds(s, deck, i);
    }
  }

  /** The sum of the forced bets of seats k .. n-1. */
  function BetsFrom(s: Session, k: nat): real
    requires 0 < |s.players| && k <= |s.players|
    decreases |s.players| - k
  {
    if k == |s.players| then 0.0 else BetAt(s, k) + BetsFrom(s, k + 1)
  }

  lemma {:induction false} BetsFromTotal(s: Session, k: nat)
    requires |s.players| >= 2
    requires 0 <= s.smallBlindIndex < |s.players|
    requires k <= |s.players|
    ensures BetsFrom(s, k) == (if k <= s.smallBlindIndex then SmallBlindAmount(s) else 0.0)
                            + (if k <= BigBlindIndex(s) then BigBlindAmount(s) else 0.0)
    decreases |s.players| - k
  {
    BigBlindSeat(s);
    if k < |s.players| {
      BetsFromTotal(s, k + 1);
    }
  }

  lemma {:induction false} ContributionsAfterDeal(s: Session, deck: seq<Card>, k: nat)
    requires 0 < |s.players| && k <= |s.players|
    ensures ContributionsFrom(Dealt(s, deck).players, k) == ContributionsFrom(s.players, k) + BetsFrom(s, k)
    decreases |s.players| - k
  {
    if k < |s.players| {
      ContributionsAfterDeal(s, deck, k + 1);
    }
  }

  /** The pot grows by both blinds, and with two or more players and the small
      blind on a real seat the players' contributions grow by exactly the same
      amount, so the difference between the pot and the contributions (zero
      for a balanced pot) is unchanged. */
  lemma DealKeepsPotBalanced(s: Session, deck: seq<Card>)
    requires |s.players| >= 2
    requires 0 <= s.smallBlindIndex < |s.players|
    ensures var r := Dealt(s, deck);
      && r.pot == s.pot + s.initialBigBlind / 2.0 + s.initialBigBlind
      && Contributions(r.players) == Contributions(s.players) + s.initialBigBlind / 2.0 + s.initialBigBlind
      && r.pot - Contributions(r.players) == s.pot - Contributions(s.players)
    ensures PotBalanced(s) ==> PotBalanced(Dealt(s, deck))
  {
    ContributionsAfterDeal(s, deck, 0);
    BetsFromTotal(s, 0);
  }

  /** With a single player the small and the big blind fall on the same seat:
      only the small blind is posted, yet the pot collects both. */
  lemma LonePlayerOverfillsPot(s: Session, deck: seq<Card>)
    requires |s.players| == 1 && s.smallBlindIndex == 0
    ensures var r := Dealt(s, deck);
      r.pot - Contributions(r.players) == s.pot - Contributions(s.players) + s.initialBigBlind
  {
    JsRemSmall(1, 1);
    ContributionsAfterDeal(s, deck, 0);
    var r := Dealt(s, deck);
    assert ContributionsFrom(r.players, 1) == 0.0;
    assert ContributionsFrom(s.players, 1) == 0.0;
  }

  /** The hands come off the top of the shuffled deck in seat order, and what is
      left is kept as the session's deck: the hands followed by the new deck give
      back the shuffled deck. */
  lemma DealCardsInSeatOrder(s: Session, deck: seq<Card>)
    requires |s.players| > 0
    ensures forall i :: 0 <= i < |s.players| ==> Dealt(s, deck).players[i].hand == HandAt(deck, i)
    ensures DealtCards(deck, |s.players|) + Dealt(s, deck).deck == deck
  {
    CardsConserved(deck, |s.players|);
  }

  /** With at least two cards per seat, every seat holds exactly two cards,
      seat i the cards at 2i and 2i+1 of the shuffled deck. */
  lemma DealFullHands(s: Session, deck: seq<Card>, i: int)
    requires 0 <= i < |s.players|
    requires 2 * |s.players| <= |deck|
    ensures Dealt(s, deck).players[i].hand == [deck[2 * i], deck[2 * i + 1]]
  {
    FullHand(deck, |s.players|, i);
  }

  /** From a deck without repeated cards no card is in two players' hands, and
      no dealt card stays in the session's deck. */
  lemma DealNoSharedCards(s: Session, deck: seq<Card>)
    requires |s.players| > 0
    requires NoDuplicates(deck)
    ensures var r := Dealt(s, deck);
      forall i, j, c :: 0 <= i < |s.players| && 0 <= j < |s.players| && i != j
        && c in r.players[i].hand
        ==> c !in r.players[j].hand && c !in r.deck
  {
    var r := Dealt(s, deck);
    forall i, j, c | 0 <= i < |s.players| && 0 <= j < |s.players| && i != j && c in r.players[i].hand
      ensures c !in r.players[j].hand && c !in r.deck
    {
      HandsDisjoint(deck, i, j);
      DealtNotRemaining(deck, |s.players|, i);
    }
  }
}
