/** The card source used by the deal.
    The Deck module of the repository is not part of this model. A card is an
    opaque identifier, a shuffled deck is any sequence of cards supplied by the
    caller (lemmas that need distinct cards or enough of them say so), and `deck.deal(k)`
    removes and returns the next k cards from the front of that sequence, or
    all remaining cards when fewer than k are left. */
module Cards {

  type Card = nat

  function Min(a: int, b: int): int {
    if a <= b then a else b
  }

  /** The cards `deck.deal(k)` returns. */
  function Take(deck: seq<Card>, k: nat): seq<Card> {
    deck[..Min(k, |deck|)]
  }

  /** The cards left in the deck after `deck.deal(k)`. */
  function Drop(deck: seq<Card>, k: nat): seq<Card> {
    deck[Min(k, |deck|)..]
  }

  /** `deal(k)` splits the deck: at most k cards come off the top, and the
      hand followed by the rest is the deck it was dealt from. */
  lemma DealSplits(deck: seq<Card>, k: nat)
    ensures |Take(deck, k)| == Min(k, |deck|)
    ensures Take(deck, k) + Drop(deck, k) == deck
  {
    assert deck[..Min(k, |deck|)] + deck[Min(k, |deck|)..] == deck;
  }

  /** Dealing twice consumes the deck like one deal of both amounts. */
  lemma DropDrop(deck: seq<Card>, j: nat, k: nat)
    ensures Drop(Drop(deck, j), k) == Drop(deck, j + k)
    ensures Take(Drop(deck, j), k) == deck[Min(j, |deck|)..Min(j + k, |deck|)]
  {
  }

  /** The hand dealt to seat `seat` when seats are dealt in order from index 0. */
  function HandAt(deck: seq<Card>, seat: nat): seq<Card> {
    Take(Drop(deck, 2 * seat), 2)
  }

  /** Dealing seat `seat` from what is left after the seats before it takes
      that seat's hand and leaves what is left after it. */
  lemma DealNextSeat(deck: seq<Card>, rest: seq<Card>, seat: nat)
    requires rest == Drop(deck, 2 * seat)
    ensures Take(rest, 2) == HandAt(deck, seat)
    ensures Drop(rest, 2) == Drop(deck, 2 * (seat + 1))
  {
    DropDrop(deck, 2 * seat, 2);
  }

  /** What is left of the deck after `seats` seats have been dealt. */
  function Remaining(deck: seq<Card>, seats: nat): seq<Card> {
    Drop(deck, 2 * seats)
  }

  /** All hole cards of seats 0 .. seats-1, in seat order. */
  function DealtCards(deck: seq<Card>, seats: nat): seq<Card> {
    if seats == 0 then [] else DealtCards(deck, seats - 1) + HandAt(deck, seats - 1)
  }

  predicate NoDuplicates(deck: seq<Card>) {
    forall i, j :: 0 <= i < j < |deck| ==> deck[i] != deck[j]
  }

  /** The hands of the first `seats` seats are exactly the top of the deck, in order. */
  lemma {:induction false} DealtCardsArePrefix(deck: seq<Card>, seats: nat)
    ensures DealtCards(deck, seats) == deck[..Min(2 * seats, |deck|)]
  {
    if seats > 0 {
      var j := 2 * (seats - 1);
      var lo, hi := Min(j, |deck|), Min(2 * seats, |deck|);
      assert DealtCards(deck, seats - 1) == deck[..lo] by {
        DealtCardsArePrefix(deck, seats - 1);
      }
      assert HandAt(deck, seats - 1) == deck[lo..hi] by {
        DropDrop(deck, j, 2);
      }
      assert deck[..lo] + deck[lo..hi] == deck[..hi];
    }
  }

  /** No card is lost or created: the dealt hands followed by the rest of the deck
      give back the shuffled deck. */
  lemma CardsConserved(deck: seq<Card>, seats: nat)
    ensures DealtCards(deck, seats) + Remaining(deck, seats) == deck
    ensures multiset(DealtCards(deck, seats)) + multiset(Remaining(deck, seats)) == multiset(deck)
  {
    var k := Min(2 * seats, |deck|);
    assert DealtCards(deck, seats) == deck[..k] by {
      DealtCardsArePrefix(deck, seats);
    }
    assert Remaining(deck, seats) == deck[k..];
    assert deck[..k] + deck[k..] == deck;
    assert multiset(deck[..k]) + multiset(deck[k..]) == multiset(deck) by {
      assert multiset(deck[..k] + deck[k..]) == multiset(deck[..k]) + multiset(deck[k..]);
    }
  }

  /** With enough cards, every seat gets exactly two cards, seat i the cards at 2i and 2i+1. */
  lemma FullHand(deck: seq<Card>, seats: nat, seat: nat)
    requires seat < seats
    requires 2 * seats <= |deck|
    ensures HandAt(deck, seat) == [deck[2 * seat], deck[2 * seat + 1]]
    ensures |HandAt(deck, seat)| == 2
  {
    DropDrop(deck, 2 * seat, 2);
  }

  /** A card of a deck without repeated cards sits at one index only, so it is in no
      slice that leaves that index out. */
  lemma NotInOtherSlice(deck: seq<Card>, k: int, lo: int, hi: int)
    requires NoDuplicates(deck)
    requires 0 <= k < |deck|
    requires 0 <= lo <= hi <= |deck|
    requires k < lo || hi <= k
    ensures deck[k] !in deck[lo..hi]
  {
    forall m | 0 <= m < hi - lo
      ensures deck[lo..hi][m] != deck[k]
    {
      assert deck[lo..hi][m] == deck[lo + m];
    }
  }

  /** Slices of a deck without repeated cards over disjoint index ranges share no card. */
  lemma SlicesDisjoint(deck: seq<Card>, lo1: int, hi1: int, lo2: int, hi2: int)
    requires NoDuplicates(deck)
    requires 0 <= lo1 <= hi1 <= |deck| && 0 <= lo2 <= hi2 <= |deck|
    requires hi1 <= lo2 || hi2 <= lo1
    ensures forall c :: c in deck[lo1..hi1] ==> c !in deck[lo2..hi2]
  {
    forall c | c in deck[lo1..hi1]
      ensures c !in deck[lo2..hi2]
    {
      var m :| 0 <= m < hi1 - lo1 && deck[lo1..hi1][m] == c;
      assert deck[lo1 + m] == c;
      NotInOtherSlice(deck, lo1 + m, lo2, hi2);
    }
  }

  /** From a deck without repeated cards, two different seats never share a card. */
  lemma HandsDisjoint(deck: seq<Card>, i: nat, j: nat)
    requires NoDuplicates(deck)
    requires i != j
    ensures forall c :: c in HandAt(deck, i) ==> c !in HandAt(deck, j)
  {
    DropDrop(deck, 2 * i, 2);
    DropDrop(deck, 2 * j, 2);
    SlicesDisjoint(deck, Min(2 * i, |deck|), Min(2 * i + 2, |deck|), Min(2 * j, |deck|), Min(2 * j + 2, |deck|));
  }

  /** From a deck without repeated cards, no dealt card stays in the deck. */
  lemma DealtNotRemaining(deck: seq<Card>, seats: nat, seat: nat)
    requires NoDuplicates(deck)
    requires seat < seats
    ensures forall c :: c in HandAt(deck, seat) ==> c !in Remaining(deck, seats)
  {
    DropDrop(deck, 2 * seat, 2);
    SlicesDisjoint(deck, Min(2 * seat, |deck|), Min(2 * seat + 2, |deck|), Min(2 * seats, |deck|), |deck|);
  }
}
