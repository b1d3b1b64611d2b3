/** The join-game request handler: look up the game session, refuse the join
    when there is no session, when a game is in progress or when the table is
    full, otherwise seat the player at the next seat and, once the table has
    its minimum number of players, post the blinds, deal and start the game.
    `Join` is the transition on the stored session; `Handler` is the handler's
    step-by-step update of its local copy of the session. Reading and writing
    the session store are not modelled: the stored session is an input and the
    result carries the handler's in-memory session. */
module JoinGame {
  import opened Cards
  import opened Table
  import opened Blinds

  const NOT_FOUND_MESSAGE: string := "Game session not found."
  const IN_PROGRESS_MESSAGE: string := "Game is already in progress. You can only spectate."
  const TABLE_FULL_MESSAGE: string := "Maximum number of players reached."
  const ADDED_MESSAGE: string := "Player added successfully."
  const STARTED_SUFFIX: string := " Minimum number of players reached. Game started!"
  const FAILED_MESSAGE: string := "Failed to join game"

  /** The response of one join request and the game session it leaves behind:
      the stored session for a refused join (None when there is none), the
      handler's in-memory session for an accepted one. */
  datatype JoinResult = JoinResult(statusCode: int, message: string, session: Option<Session>)

  /** The session with `playerId` seated at the end of the seating order. */
  function Seat(s: Session, playerId: string): Session {
    var players := s.players + [NewPlayer(playerId, |s.players|, s.buyIn)];
    s.(players := players, playerCount := |players|)
  }

  /** Blinds and deal, then the game is marked started and in progress. */
  function Start(s: Session, deck: seq<Card>): Session
    requires |s.players| > 0
  {
    Dealt(s, deck).(gameStarted := true, gameInProgress := true)
  }

  /** The join transition. `shuffled` is the deck the deal would use. The
      three refusals are checked in this order and the first that applies
      wins; a refused join leaves the stored session as it was. */
  function Join(stored: Option<Session>, playerId: string, shuffled: seq<Card>): (r: JoinResult)
    ensures r.statusCode == 404 <==> stored.None?
    ensures r.statusCode == 403 <==> stored.Some? && stored.value.gameInProgress
    ensures r.statusCode == 400 <==>
      stored.Some? && !stored.value.gameInProgress && |stored.value.players| >= stored.value.maxPlayers
    ensures r.statusCode == 200 <==>
      stored.Some? && !stored.value.gameInProgress && |stored.value.players| < stored.value.maxPlayers
    ensures r.statusCode != 200 ==> r.session == stored
    ensures r.statusCode == 200 ==> r.session.Some?
  {
    if stored.None? then JoinResult(404, NOT_FOUND_MESSAGE, None)
    else if stored.value.gameInProgress then JoinResult(403, IN_PROGRESS_MESSAGE, stored)
    else if |stored.value.players| >= stored.value.maxPlayers then JoinResult(400, TABLE_FULL_MESSAGE, stored)
    else
      var seated := Seat(stored.value, playerId);
      if |seated.players| >= seated.minPlayers then
        JoinResult(200, ADDED_MESSAGE + STARTED_SUFFIX, Some(Start(seated, shuffled)))
      else
        JoinResult(200, ADDED_MESSAGE, Some(seated))
  }

  /** The handler on its local copy of the loaded session: push the new
      player, set the player count and, at the threshold, replace the session
      by the dealt one and set the start flags. */
  method Handler(stored: Option<Session>, playerId: string, shuffled: seq<Card>) returns (res: JoinResult)
    ensures res == Join(stored, playerId, shuffled)
  {
    if stored.None? {
      return JoinResult(404, NOT_FOUND_MESSAGE, None);
    }
    var gameSession := stored.value;
    if gameSession.gameInProgress {
      return JoinResult(403, IN_PROGRESS_MESSAGE, stored);
    }
    if |gameSession.players| >= gameSession.maxPlayers {
      return JoinResult(400, TABLE_FULL_MESSAGE, stored);
    }
    var newPlayer := NewPlayer(playerId, |gameSession.players|, gameSession.buyIn);
    gameSession := gameSession.(players := gameSession.players + [newPlayer]);
    gameSession := gameSession.(playerCount := |gameSession.players|);
    var message := ADDED_MESSAGE;
    if |gameSession.players| >= gameSession.minPlayers {
      gameSession := SetBlindsAndDeal(gameSession, shuffled);
      gameSession := gameSession.(gameStarted := true);
      gameSession := gameSession.(gameInProgress := true);
      message := message + STARTED_SUFFIX;
    }
    res := JoinResult(200, message, Some(gameSession));
  }

  /** An accepted join seats exactly one player, at the end: the others keep
      their ids and positions, the newcomer has the requested id and the old
      player count as position, `playerCount` is the new length, and the table
      stays within `maxPlayers`. When no deal follows, the earlier players are
      untouched and the newcomer holds the buy-in, no bet, no contribution, no
      cards, and is in the hand. */
  lemma JoinSeatsOnePlayer(stored: Option<Session>, playerId: string, shuffled: seq<Card>)
    requires Join(stored, playerId, shuffled).statusCode == 200
    ensures var s, t := stored.value, Join(stored, playerId, shuffled).session.value;
      && |t.players| == |s.players| + 1
      && t.playerCount == |t.players|
      && |t.players| <= t.maxPlayers == s.maxPlayers
      && t.players[|s.players|].id == playerId
      && t.players[|s.players|].position == |s.players|
      && (forall i :: 0 <= i < |s.players| ==>
            t.players[i].id == s.players[i].id && t.players[i].position == s.players[i].position)
    ensures var s, t := stored.value, Join(stored, playerId, shuffled).session.value;
      |t.players| < s.minPlayers ==>
        && t.players[..|s.players|] == s.players
        && var p := t.players[|s.players|];
           p.chips == s.buyIn && p.bet == 0.0 && p.potContribution == 0.0 && p.hand == []
           && p.inHand && !p.isAllIn && !p.hasActed && !p.isReady
  {
    var seated := Seat(stored.value, playerId);
    DealKeepsSeats(seated, shuffled);
  }

  /** The deal runs exactly when the new player count reaches `minPlayers`;
      then the game is started and in progress, pre-flop. Otherwise the pot,
      turn, stage, deck, highest bet and start flags are left as they were
      (and the game stays not in progress): the session differs from the
      stored one only in `players` and `playerCount`. */
  lemma JoinStartsAtThreshold(stored: Option<Session>, playerId: string, shuffled: seq<Card>)
    requires Join(stored, playerId, shuffled).statusCode == 200
    ensures var s, t := stored.value, Join(stored, playerId, shuffled).session.value;
      t.gameInProgress <==> |s.players| + 1 >= s.minPlayers
    ensures var s, t := stored.value, Join(stored, playerId, shuffled).session.value;
      |s.players| + 1 >= s.minPlayers ==>
        && t == Start(Seat(s, playerId), shuffled)
        && t.gameStarted && t.gameInProgress && t.gameStage == PRE_FLOP && t.bettingStarted
    ensures var s, t := stored.value, Join(stored, playerId, shuffled).session.value;
      |s.players| + 1 < s.minPlayers ==>
        && t.pot == s.pot && t.currentTurn == s.currentTurn && t.gameStage == s.gameStage
        && t.deck == s.deck && t.highestBet == s.highestBet && t.bettingStarted == s.bettingStarted
        && t.gameStarted == s.gameStarted && !t.gameInProgress
        && t == s.(players := s.players + [NewPlayer(playerId, |s.players|, s.buyIn)],
                   playerCount := |s.players| + 1)
  {
  }

  /** Whatever the outcome, positions keep matching seat indexes. */
  lemma JoinKeepsSeatsNumbered(stored: Option<Session>, playerId: string, shuffled: seq<Card>)
    requires stored.Some? && SeatsNumbered(stored.value.players)
    ensures var r := Join(stored, playerId, shuffled);
      r.session.Some? && SeatsNumbered(r.session.value.players)
  {
    var seated := Seat(stored.value, playerId);
    assert SeatsNumbered(seated.players) by {
      forall i | 0 <= i < |seated.players|
        ensures seated.players[i].position == i
      {
        if i < |stored.value.players| {
          assert seated.players[i] == stored.value.players[i];
        }
      }
    }
    if |seated.players| > 0 {
      DealKeepsSeats(seated, shuffled);
    }
  }

  /** A balanced pot stays balanced: seating adds a player with no
      contribution, and a deal with a real small-blind seat and two or more
      players puts into the pot exactly what the blinds post. */
  lemma JoinKeepsPotBalanced(stored: Option<Session>, playerId: string, shuffled: seq<Card>)
    requires stored.Some? && PotBalanced(stored.value)
    requires stored.value.minPlayers >= 2
    requires 0 <= stored.value.smallBlindIndex <= |stored.value.players|
    ensures var r := Join(stored, playerId, shuffled);
      r.session.Some? && PotBalanced(r.session.value)
  {
    var s := stored.value;
    var seated := Seat(s, playerId);
    ContributionsAppend(s.players, NewPlayer(playerId, |s.players|, s.buyIn));
    if |seated.players| >= 2 {
      DealKeepsPotBalanced(seated, shuffled);
    }
  }

  /** Two joins one after the other on a table with no game in progress, two
      free seats, and a first join that stays below `minPlayers` both succeed
      and seat the two players at the next two positions; the game starts
      with the second one exactly when it brings the table to `minPlayers`. */
  lemma JoinTwice(s: Session, first: string, second: string, deck1: seq<Card>, deck2: seq<Card>)
    requires !s.gameInProgress
    requires |s.players| + 2 <= s.maxPlayers
    requires |s.players| + 1 < s.minPlayers
    ensures var r1 := Join(Some(s), first, deck1);
      var r2 := Join(r1.session, second, deck2);
      var n := |s.players|;
      && r1.statusCode == 200 && r2.statusCode == 200
      && |r2.session.value.players| == n + 2
      && r2.session.value.players[n].id == first && r2.session.value.players[n].position == n
      && r2.session.value.players[n + 1].id == second && r2.session.value.players[n + 1].position == n + 1
      && (r2.session.value.gameInProgress <==> n + 2 >= s.minPlayers)
  {
    var r1 := Join(Some(s), first, deck1);
    JoinSeatsOnePlayer(Some(s), first, deck1);
    JoinStartsAtThreshold(Some(s), first, deck1);
    JoinSeatsOnePlayer(r1.session, second, deck2);
    JoinStartsAtThreshold(r1.session, second, deck2);
  }

  /** A waiting table: one seated player with the buy-in, nothing in the pot,
      two to six players, a big blind of 20 and the small blind on seat 0. */
  function ExampleTable(): Session {
    Session("g1", [NewPlayer("p1", 0, 1000.0)], 1, 6, 2, 1000.0, 20.0, 0, 0.0, 0.0, 0, "waiting",
            false, false, false, [])
  }

  /** The second player's join on the example table starts the game: seat 0
      posts 10 and seat 1 posts 20 from their 1000 chips, the pot is 30, and
      seat 0 acts first pre-flop. */
  lemma ExampleSecondJoinStarts(deck: seq<Card>)
    ensures var r := Join(Some(ExampleTable()), "p2", deck);
      var t := r.session.value;
      && r.statusCode == 200
      && r.message == ADDED_MESSAGE + STARTED_SUFFIX
      && |t.players| == 2 && t.playerCount == 2
      && t.players[0].chips == 990.0 && t.players[0].potContribution == 10.0
      && t.players[1].chips == 980.0 && t.players[1].potContribution == 20.0
      && t.pot == 30.0 && t.gameStage == "preFlop" && t.currentTurn == 0
      && t.gameStarted && t.gameInProgress
  {
    var seated := Seat(ExampleTable(), "p2");
    JsRemSmall(1, 2);
    JsRemSmall(2, 2);
    assert BigBlindIndex(seated) == 1;
    assert NextTurn(seated) == 0;
    var t := Start(seated, deck);
    assert t.players[0] == PostedSeat(seated, deck, 0);
    assert t.players[1] == PostedSeat(seated, deck, 1);
  }

  /** The first name of `names`, in evaluation order, that is not bound in
      `scope`: reading it is where a ReferenceError is thrown. None when every
      name is bound. */
  function FirstUnbound(names: seq<string>, scope: set<string>): (r: Option<string>)
    ensures r.None? <==> forall i :: 0 <= i < |names| ==> names[i] in scope
    ensures r.Some? ==> exists i :: (0 <= i < |names| && names[i] == r.value && r.value !in scope
                                     && forall j :: 0 <= j < i ==> names[j] in scope)
  {
    if |names| == 0 then None
    else if names[0] !in scope then Some(names[0])
    else
      var rest := FirstUnbound(names[1..], scope);
      if rest.Some? then
        assert exists i :: (0 <= i < |names| && names[i] == rest.value && rest.value !in scope
                            && forall j :: 0 <= j < i ==> names[j] in scope) by {
          var i :| 0 <= i < |names[1..]| && names[1..][i] == rest.value && rest.value !in scope
            && forall j :: 0 <= j < i ==> names[1..][j] in scope;
          assert names[i + 1] == rest.value;
          forall j | 0 <= j < i + 1 ensures names[j] in scope {
            if j > 0 { assert names[j] == names[1..][j - 1]; }
          }
        }
        rest
      else
        assert forall i :: 0 <= i < |names| ==> names[i] in scope by {
          forall i | 0 <= i < |names| ensures names[i] in scope {
            if i > 0 { assert names[i] == names[1..][i - 1]; }
          }
        }
        rest
  }

  /** The names bound at the top level of index.js (lines 1-6), with the
      names Node.js gives every module. Neither `game` nor `bigBlindIndex` is
      assumed to be a property of the global object. */
  const MODULE_NAMES: set<string> :=
    {"AWS", "Deck", "dynamoDb", "tableName", "setBlindsAndDeal",
     "require", "module", "exports", "process", "console"}

  /** The names readable inside the `map` callback at line 15: the module's,
      the function's parameter and the constants initialised before line 13,
      the callback's parameters and `isSmallBlind` (line 14). `updatedPlayers`
      and the callback's own `bigBlindIndex` are not yet initialised there. */
  function CallbackScope(): set<string> {
    MODULE_NAMES + {"gameState", "smallBlindAmount", "bigBlindAmount", "deck", "player", "index", "isSmallBlind"}
  }

  /** The names readable in the body of `setBlindsAndDeal` at line 31: the
      module's, the parameter and the constants of lines 7-30. The callback's
      `bigBlindIndex` belongs to the callback's block and is gone here. */
  function TailScope(): set<string> {
    MODULE_NAMES + {"gameState", "smallBlindAmount", "bigBlindAmount", "deck", "updatedPlayers", "newPot"}
  }

  /** The free names the first callback reads up to line 15, in order. */
  const CALLBACK_READS: seq<string> := ["index", "gameState", "game"]

  /** The free names lines 30-31 read, in order. */
  const TAIL_READS: seq<string> := ["gameState", "smallBlindAmount", "bigBlindAmount", "bigBlindIndex"]

  /** The outcome of `setBlindsAndDeal` as the source is written: either
      evaluation gets past every name lookup modelled here, or it throws a
      ReferenceError naming the identifier it could not resolve. */
  datatype DealOutcome = Resolved | ReferenceError(name: string)

  /** `setBlindsAndDeal` as written. With seats, the first `map` callback runs
      lines 14-15 and resolves their names in the callback's scope; with none,
      evaluation goes straight to lines 30-31 in the function's scope. A name
      that does not resolve throws. That the deal always throws, on `game` or
      on `bigBlindIndex`, follows from the scopes. */
  function DealAsWritten(s: Session, deck: seq<Card>): (r: DealOutcome)
    ensures r.ReferenceError?
    ensures |s.players| > 0 ==> r == ReferenceError("game")
    ensures |s.players| == 0 ==> r == ReferenceError("bigBlindIndex")
  {
    var names := if |s.players| > 0 then CALLBACK_READS else TAIL_READS;
    var scope := if |s.players| > 0 then CallbackScope() else TailScope();
    assert "game" !in CallbackScope();
    assert "bigBlindIndex" !in TailScope();
    match FirstUnbound(names, scope)
    case Some(name) => ReferenceError(name)
    case None => Resolved
  }

  /** The handler with the deal as written: a thrown error is caught and
      answered with 500, and nothing is written back. The deal never gets
      past its name lookups (`DealAsWritten`), so `Resolved` does not occur;
      were it to, the join would go on as the corrected one. */
  function JoinAsWritten(stored: Option<Session>, playerId: string, shuffled: seq<Card>): (r: JoinResult)
    ensures r.statusCode == 404 <==> stored.None?
    ensures r.statusCode == 403 <==> stored.Some? && stored.value.gameInProgress
    ensures r.statusCode == 400 <==>
      stored.Some? && !stored.value.gameInProgress && |stored.value.players| >= stored.value.maxPlayers
    ensures r.statusCode == 500 <==>
      stored.Some? && !stored.value.gameInProgress && |stored.value.players| < stored.value.maxPlayers
      && |stored.value.players| + 1 >= stored.value.minPlayers
    ensures r.statusCode == 200 <==>
      stored.Some? && !stored.value.gameInProgress && |stored.value.players| < stored.value.maxPlayers
      && |stored.value.players| + 1 < stored.value.minPlayers
    ensures r.statusCode != 200 ==> r.session == stored
    ensures r.statusCode == 200 ==> r.session.Some? && !r.session.value.gameInProgress
  {
    if stored.None? then JoinResult(404, NOT_FOUND_MESSAGE, None)
    else if stored.value.gameInProgress then JoinResult(403, IN_PROGRESS_MESSAGE, stored)
    else if |stored.value.players| >= stored.value.maxPlayers then JoinResult(400, TABLE_FULL_MESSAGE, stored)
    else
      var seated := Seat(stored.value, playerId);
      if |seated.players| >= seated.minPlayers then
        var started := Start(seated, shuffled);
        match DealAsWritten(seated, shuffled)
        case ReferenceError(_) => JoinResult(500, FAILED_MESSAGE, stored)
        case Resolved => assert false; JoinResult(200, ADDED_MESSAGE + STARTED_SUFFIX, Some(started))
      else
        JoinResult(200, ADDED_MESSAGE, Some(seated))
  }

  /** As written, no join ever starts a game: every join that reaches
      `minPlayers` is answered 500 and the player is not seated, while every
      other join behaves as the corrected handler does. */
  lemma AsWrittenNeverStarts(stored: Option<Session>, playerId: string, shuffled: seq<Card>)
    ensures var fixed, asWritten := Join(stored, playerId, shuffled), JoinAsWritten(stored, playerId, shuffled);
      if fixed.statusCode == 200 && fixed.session.value.gameInProgress then
        asWritten.statusCode == 500 && asWritten.session == stored
      else
        asWritten == fixed
  {
    if stored.Some? && !stored.value.gameInProgress && |stored.value.players| < stored.value.maxPlayers {
      JoinStartsAtThreshold(stored, playerId, shuffled);
    }
  }

  /** On the example table the second player's join fails with 500 as written,
      leaving one player seated, where the corrected handler starts the game. */
  lemma ExampleAsWrittenFails(deck: seq<Card>)
    ensures JoinAsWritten(Some(ExampleTable()), "p2", deck) == JoinResult(500, FAILED_MESSAGE, Some(ExampleTable()))
    ensures Join(Some(ExampleTable()), "p2", deck).statusCode == 200
    ensures Join(Some(ExampleTable()), "p2", deck).session.value.gameInProgress
  {
  }
}
