/**
 * The game session handlers of socket-server.ts: one auto-play tick
 * (lines 190-354), the admin's manual call (360-498) and the status
 * handlers start-game, start-auto-play, stop-auto-play, pause-game,
 * resume-game and end-game (501-597).
 *
 * The database becomes the `games` map of a `Server`; the keys of the
 * `activeGames` timer map become the set `autoPlaying`. A tick or a call is
 * one atomic step. The ticket collection is a parameter: the engine's query
 * for the game's ACTIVE tickets is `ActiveTickets`, in the order given.
 * Emitted socket events are returned as a sequence.
 */
module Session {
  import opened Seqs
  import opened Patterns
  import opened GameModel
  import opened Winners

  datatype CloseReason = AllNumbersDrawn | AllPrizesWon | WinnerLimitReached | ManualEnd

  /** Messages of the `error` event sent back to the admin. */
  datatype CallError = GameNotFound | GameNotLive | AlreadyCalled(number: int)

  datatype Event =
    | NumberCalled(number: int, drawnNumbers: seq<int>, isManual: bool)
    | WinnerDetected(winner: Announcement)
    /** `totalNumbers` (all numbers drawn) or `totalWinners` (auto-close); none on a manual end. */
    | GameClosed(reason: CloseReason, total: Option<int>)
    | GameStarted(gameId: string)
    | GameNotification(gameId: string, ticketHolders: set<string>)
    | GameStatusChanged(status: Status)
    | AutoPlayStarted(gameId: string)
    | AutoPlayStopped(gameId: string)
    | Error(error: CallError)

  /** `Ticket.find({ gameId, status: "ACTIVE" })`, in the order of `all`. */
  function ActiveTickets(all: seq<Ticket>, gameId: string): (r: seq<Ticket>)
    ensures forall t :: t in r <==> t in all && t.gameId == gameId && t.status == ActiveTicket
    ensures |r| <= |all|
  {
    if all == [] then []
    else
      var rest := ActiveTickets(all[1..], gameId);
      if all[0].gameId == gameId && all[0].status == ActiveTicket then [all[0]] + rest else rest
  }

  /** `.distinct("userId")` over the game's ACTIVE tickets. */
  function TicketHolders(all: seq<Ticket>, gameId: string): (holders: set<string>)
    ensures forall u :: u in holders <==>
      exists t :: t in all && t.gameId == gameId && t.status == ActiveTicket && t.userId == u
  {
    set t | t in ActiveTickets(all, gameId) :: t.userId
  }

  /** One `winner-detected` event per announcement, in order. */
  function WinnerEvents(anns: seq<Announcement>): (es: seq<Event>)
    ensures |es| == |anns|
    ensures forall i :: 0 <= i < |anns| ==> es[i] == WinnerDetected(anns[i])
  {
    if anns == [] then [] else [WinnerDetected(anns[0])] + WinnerEvents(anns[1..])
  }

  /**
   * Append the drawn number, then run the winner pass over the active
   * tickets with the new list of drawn numbers.
   */
  function Draw(g: Game, n: int, ts: seq<Ticket>): (res: (Game, seq<Announcement>))
    ensures res.0.drawnNumbers == g.drawnNumbers + [n]
    ensures res.0.status == g.status
  {
    Settle(g.(drawnNumbers := g.drawnNumbers + [n]), ts)
  }

  /**
   * The step the interval and the manual call share: append the number,
   * run the winner loops over the active tickets, and add the winners found
   * to the auto-close tally.
   */
  method DrawNumber(game: Game, n: int, active: seq<Ticket>) returns (current: Game, anns: seq<Announcement>)
    ensures (current, anns) == Draw(game, n, active)
    ensures GameInv(game) && n !in game.drawnNumbers ==> GameInv(current)
  {
    var appended := game.(drawnNumbers := game.drawnNumbers + [n]);
    var rules;
    rules, anns := EvaluateWinners(appended.winningRules, active, appended.drawnNumbers);
    current := appended.(winningRules := rules,
      autoClose := appended.autoClose.(currentTotalWinners := appended.autoClose.currentTotalWinners + |anns|));
    ghost var settled := Settle(appended, active);
    assert settled == (current, anns);
    assert Draw(game, n, active) == settled;
    if GameInv(game) && n !in game.drawnNumbers {
      DrawKeepsInv(game, n, active);
    }
  }

  /** A fresh number keeps a consistent game consistent. */
  lemma DrawKeepsInv(g: Game, n: int, ts: seq<Ticket>)
    requires GameInv(g) && n !in g.drawnNumbers
    ensures GameInv(Draw(g, n, ts).0)
  {
    var g' := g.(drawnNumbers := g.drawnNumbers + [n]);
    assert GameInv(g');
    SettleKeepsInv(g', ts);
  }

  /** `winningRules.every(r => r.isCompleted)`; true when there are no rules. */
  predicate AllRulesCompleted(rules: seq<WinningRule>) {
    forall i :: 0 <= i < |rules| ==> rules[i].isCompleted
  }

  /** The auto-close check at the end of a tick. */
  function AutoCloseDecision(g: Game): (reason: Option<CloseReason>)
    ensures reason.Some? <==> (g.autoClose.enabled &&
      (AllRulesCompleted(g.winningRules) || g.autoClose.currentTotalWinners >= g.autoClose.afterWinners))
    ensures reason == Some(AllPrizesWon) <==> g.autoClose.enabled && AllRulesCompleted(g.winningRules)
    ensures reason.Some? ==> reason.value == AllPrizesWon || reason.value == WinnerLimitReached
  {
    if !g.autoClose.enabled then None
    else if AllRulesCompleted(g.winningRules) then Some(AllPrizesWon)
    else if g.autoClose.currentTotalWinners >= g.autoClose.afterWinners then Some(WinnerLimitReached)
    else None
  }

  lemma {:induction false} CountWonAll(prizes: seq<Prize>)
    ensures CountWon(prizes) == |prizes| <==> forall k :: 0 <= k < |prizes| ==> prizes[k].status == Won
  {
    if prizes != [] {
      var n := |prizes| - 1;
      CountWonAll(prizes[..n]);
      Winners.CountWonBound(prizes[..n]);
      assert forall k :: 0 <= k < n ==> prizes[k] == prizes[..n][k];
    }
  }

  /**
   * In a consistent game whose rules each carry exactly `maxWinners` prizes,
   * "all rules completed" means no prize is left OPEN.
   */
  lemma AllCompletedMeansAllWon(g: Game)
    requires GameInv(g)
    requires forall i :: 0 <= i < |g.winningRules| ==> |g.winningRules[i].prizes| == g.winningRules[i].maxWinners
    ensures AllRulesCompleted(g.winningRules) <==>
      forall i, k :: 0 <= i < |g.winningRules| && 0 <= k < |g.winningRules[i].prizes| ==>
        g.winningRules[i].prizes[k].status == Won
  {
    var rules := g.winningRules;
    forall i | 0 <= i < |rules|
      ensures rules[i].isCompleted <==> forall k :: 0 <= k < |rules[i].prizes| ==> rules[i].prizes[k].status == Won
    {
      assert RuleInv(rules[i]);
      CountWonAll(rules[i].prizes);
      Winners.CountWonBound(rules[i].prizes);
    }
  }

  /** `Game.findByIdAndUpdate(gameId, { status })`: nothing happens for an unknown id. */
  function WithStatus(games: map<string, Game>, gameId: string, s: Status): (r: map<string, Game>)
    ensures r.Keys == games.Keys
    ensures gameId in games ==> r[gameId] == games[gameId].(status := s)
    ensures forall id :: id in games && id != gameId ==> r[id] == games[id]
  {
    if gameId in games then games[gameId := games[gameId].(status := s)] else games
  }

  class Server {
    /** The Game collection, by id. */
    var games: map<string, Game>
    /** The ids with a running auto-play timer (`activeGames`). */
    var autoPlaying: set<string>

    constructor ()
      ensures games == map[] && autoPlaying == {}
    {
      games := map[];
      autoPlaying := {};
    }

    /**
     * One firing of the auto-play interval. A missing or CLOSED game stops
     * the loop; a PAUSED game skips the tick; 90 drawn numbers close the
     * game; otherwise a number of 1..90 not yet drawn is drawn, the winners
     * are found, and the game may auto-close.
     */
    method Tick(gameId: string, tickets: seq<Ticket>) returns (drawn: Option<int>, events: seq<Event>)
      modifies this
      ensures gameId !in old(games) || old(games)[gameId].status == Closed ==>
        games == old(games) && autoPlaying == old(autoPlaying) - {gameId} && drawn == None && events == []
      ensures gameId in old(games) && old(games)[gameId].status == Paused ==>
        games == old(games) && autoPlaying == old(autoPlaying) && drawn == None && events == []
      ensures (gameId in old(games) && old(games)[gameId].status in {Waiting, Live} &&
        |old(games)[gameId].drawnNumbers| >= 90) ==>
          games == old(games)[gameId := old(games)[gameId].(status := Closed)] &&
          autoPlaying == old(autoPlaying) - {gameId} &&
          drawn == None && events == [GameClosed(AllNumbersDrawn, Some(90))]
      ensures drawn.Some? <==> (gameId in old(games) && old(games)[gameId].status in {Waiting, Live} &&
        |old(games)[gameId].drawnNumbers| < 90)
      ensures drawn.Some? ==>
        var g := old(games)[gameId];
        var n := drawn.value;
        var res := Draw(g, n, ActiveTickets(tickets, gameId));
        var reason := AutoCloseDecision(res.0);
        1 <= n <= 90 && n !in g.drawnNumbers &&
        games == old(games)[gameId := if reason.Some? then res.0.(status := Closed) else res.0] &&
        autoPlaying == (if reason.Some? then old(autoPlaying) - {gameId} else old(autoPlaying)) &&
        events == [NumberCalled(n, res.0.drawnNumbers, false)] + WinnerEvents(res.1) +
          (if reason.Some? then [GameClosed(reason.value, Some(res.0.autoClose.currentTotalWinners))] else [])
      ensures gameId in old(games) && GameInv(old(games)[gameId]) ==> GameInv(games[gameId])
      ensures gameId in old(games) && |old(games)[gameId].drawnNumbers| <= 90 ==> |games[gameId].drawnNumbers| <= 90
    {
      drawn, events := None, [];
      if gameId !in games || games[gameId].status == Closed {
        autoPlaying := autoPlaying - {gameId};
        return;
      }
      var game := games[gameId];
      if game.status == Paused {
        return;
      }
      if |game.drawnNumbers| >= 90 {
        games := games[gameId := game.(status := Closed)];
        autoPlaying := autoPlaying - {gameId};
        events := [GameClosed(AllNumbersDrawn, Some(90))];
        return;
      }
      MissingFromRange(game.drawnNumbers, 1, 90);
      var n :| 1 <= n <= 90 && n !in game.drawnNumbers;
      drawn := Some(n);
      var current, anns := DrawNumber(game, n, ActiveTickets(tickets, gameId));
      events := [NumberCalled(n, current.drawnNumbers, false)] + WinnerEvents(anns);
      var reason := AutoCloseDecision(current);
      if reason.Some? {
        events := events + [GameClosed(reason.value, Some(current.autoClose.currentTotalWinners))];
        current := current.(status := Closed);
        autoPlaying := autoPlaying - {gameId};
      }
      games := games[gameId := current];
    }

    /**
     * `admin-call-number`: the admin calls a number of their choice. The
     * number is not range-checked; only a repeat is refused. The call closes
     * the game once 90 numbers are drawn and never runs the auto-close
     * check. A running auto-play timer is restarted, which leaves it running.
     */
    method AdminCallNumber(gameId: string, number: int, tickets: seq<Ticket>) returns (events: seq<Event>)
      modifies this
      ensures autoPlaying == old(autoPlaying)
      ensures gameId !in old(games) ==> games == old(games) && events == [Error(GameNotFound)]
      ensures gameId in old(games) && old(games)[gameId].status !in {Live, Paused} ==>
        games == old(games) && events == [Error(GameNotLive)]
      ensures (gameId in old(games) && old(games)[gameId].status in {Live, Paused} &&
        number in old(games)[gameId].drawnNumbers) ==>
          games == old(games) && events == [Error(AlreadyCalled(number))]
      ensures (gameId in old(games) && old(games)[gameId].status in {Live, Paused} &&
        number !in old(games)[gameId].drawnNumbers) ==>
          var res := Draw(old(games)[gameId], number, ActiveTickets(tickets, gameId));
          var full := |res.0.drawnNumbers| >= 90;
          games == old(games)[gameId := if full then res.0.(status := Closed) else res.0] &&
          events == [NumberCalled(number, res.0.drawnNumbers, true)] + WinnerEvents(res.1) +
            (if full then [GameClosed(AllNumbersDrawn, Some(90))] else [])
      ensures gameId in old(games) && GameInv(old(games)[gameId]) ==> GameInv(games[gameId])
    {
      if gameId !in games {
        return [Error(GameNotFound)];
      }
      var game := games[gameId];
      if game.status != Live && game.status != Paused {
        return [Error(GameNotLive)];
      }
      if number in game.drawnNumbers {
        return [Error(AlreadyCalled(number))];
      }
      var current, anns := DrawNumber(game, number, ActiveTickets(tickets, gameId));
      events := [NumberCalled(number, current.drawnNumbers, true)] + WinnerEvents(anns);
      if |current.drawnNumbers| >= 90 {
        current := current.(status := Closed);
        events := events + [GameClosed(AllNumbersDrawn, Some(90))];
      }
      games := games[gameId := current];
    }

    /** `start-game`: the game goes LIVE whatever its status; its ticket holders are notified. */
    method StartGame(gameId: string, tickets: seq<Ticket>) returns (events: seq<Event>)
      modifies this
      ensures games == WithStatus(old(games), gameId, Live) && autoPlaying == old(autoPlaying)
      ensures events == [GameStarted(gameId), GameNotification(gameId, TicketHolders(tickets, gameId)),
        GameStatusChanged(Live)]
    {
      games := WithStatus(games, gameId, Live);
      events := [GameStarted(gameId), GameNotification(gameId, TicketHolders(tickets, gameId)),
        GameStatusChanged(Live)];
    }

    /** `start-auto-play`: LIVE, and the timer (re)started. */
    method StartAutoPlay(gameId: string) returns (events: seq<Event>)
      modifies this
      ensures games == WithStatus(old(games), gameId, Live)
      ensures autoPlaying == old(autoPlaying) + {gameId}
      ensures events == [GameStatusChanged(Live), AutoPlayStarted(gameId)]
    {
      games := WithStatus(games, gameId, Live);
      autoPlaying := autoPlaying + {gameId};
      events := [GameStatusChanged(Live), AutoPlayStarted(gameId)];
    }

    /** `stop-auto-play`: the timer stops; the status is untouched. */
    method StopAutoPlay(gameId: string) returns (events: seq<Event>)
      modifies this
      ensures games == old(games) && autoPlaying == old(autoPlaying) - {gameId}
      ensures events == [AutoPlayStopped(gameId)]
    {
      autoPlaying := autoPlaying - {gameId};
      events := [AutoPlayStopped(gameId)];
    }

    /** `pause-game`: PAUSED whatever the status, even a CLOSED game. */
    method PauseGame(gameId: string) returns (events: seq<Event>)
      modifies this
      ensures games == WithStatus(old(games), gameId, Paused) && autoPlaying == old(autoPlaying)
      ensures events == [GameStatusChanged(Paused)]
    {
      games := WithStatus(games, gameId, Paused);
      events := [GameStatusChanged(Paused)];
    }

    /** `resume-game`: LIVE whatever the status, so a CLOSED game can be reopened. */
    method ResumeGame(gameId: string) returns (events: seq<Event>)
      modifies this
      ensures games == WithStatus(old(games), gameId, Live) && autoPlaying == old(autoPlaying)
      ensures events == [GameStatusChanged(Live)]
    {
      games := WithStatus(games, gameId, Live);
      events := [GameStatusChanged(Live)];
    }

    /** `end-game`: the timer stops and the game is CLOSED. */
    method EndGame(gameId: string) returns (events: seq<Event>)
      modifies this
      ensures games == WithStatus(old(games), gameId, Closed)
      ensures autoPlaying == old(autoPlaying) - {gameId}
      ensures events == [GameClosed(ManualEnd, None)]
    {
      autoPlaying := autoPlaying - {gameId};
      games := WithStatus(games, gameId, Closed);
      events := [GameClosed(ManualEnd, None)];
    }
  }

  /**
   * Drawing only numbers of 1..90, never twice, stops at 90: a game whose
   * numbers all came from ticks never holds more than 90 of them.
   */
  lemma DrawnAtMost90(g: Game)
    requires Distinct(g.drawnNumbers)
    requires forall i :: 0 <= i < |g.drawnNumbers| ==> 1 <= g.drawnNumbers[i] <= 90
    ensures |g.drawnNumbers| <= 90
  {
    DistinctInRange(g.drawnNumbers, 1, 90);
  }

  /**
   * The manual call lets a number outside 1..90 in, so the bound of
   * `DrawnAtMost90` does not hold for its lists: after 90 numbers of 1..90,
   * calling 0 gives 91.
   */
  lemma ManualCallBeyondRange(g: Game, ts: seq<Ticket>)
    requires 0 !in g.drawnNumbers
    ensures Draw(g, 0, ts).0.drawnNumbers == g.drawnNumbers + [0]
    ensures |g.drawnNumbers| == 90 ==> |Draw(g, 0, ts).0.drawnNumbers| == 91
    ensures !(forall i :: 0 <= i < |Draw(g, 0, ts).0.drawnNumbers| ==> 1 <= Draw(g, 0, ts).0.drawnNumbers[i] <= 90)
  {
    var d := Draw(g, 0, ts).0.drawnNumbers;
    assert d[|d| - 1] == 0;
  }
}
