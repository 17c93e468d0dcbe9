/**
 * The client-side game store of src/store/useGameStore.ts: one object whose
 * setters replace its fields. The draw fields obey one rule worth stating:
 * `recentNumbers` is the last ten drawn numbers, newest first, and
 * `currentNumber` is the last drawn number. Both `addDrawnNumber` and
 * `setDrawnNumbers` keep that rule, by different computations.
 *
 * The winner timestamp (`Date.now()`) and the persistence of
 * `activeGameId` and `selectedTickets` to local storage are not modelled.
 */
module Store {
  import opened Seqs
  import opened GameModel

  /** WinnerInfo, without its timestamp. */
  datatype WinnerInfo = WinnerInfo(
    winnerName: string,
    winnerEmail: Option<string>,
    winnerId: string,
    ticketId: string,
    prizeName: string,
    prizeAmount: int,
    xpPoints: int,
    ruleType: string)

  /** The store's Prize, which carries an `amount` the server's prize lacks. */
  datatype StorePrize = StorePrize(
    name: string,
    amount: int,
    xpPoints: int,
    position: int,
    ruleType: string,
    winner: Option<string>,
    winnerTicketId: Option<string>,
    status: PrizeStatus)

  /** The argument of setGameMetadata: every field may be absent. */
  datatype Metadata = Metadata(
    gameName: Option<string>,
    ticketPrice: Option<int>,
    totalTickets: Option<int>,
    soldTickets: Option<int>,
    prizes: Option<seq<StorePrize>>)

  /** A supplied value replaces the current one; an absent one keeps it. */
  function Override<T>(supplied: Option<T>, current: T): (r: T)
    ensures supplied.Some? ==> r == supplied.value
    ensures supplied.None? ==> r == current
  {
    if supplied.Some? then supplied.value else current
  }

  /** The last ten numbers drawn, newest first. */
  function Recent(drawn: seq<int>): (r: seq<int>)
    ensures |r| == if |drawn| < 10 then |drawn| else 10
    ensures forall i :: 0 <= i < |r| ==> r[i] == drawn[|drawn| - 1 - i]
  {
    Take(Reverse(drawn), 10)
  }

  /** The number drawn last, if any. */
  function Latest(drawn: seq<int>): Option<int> {
    if drawn == [] then None else Some(drawn[|drawn| - 1])
  }

  /**
   * Prepending the new number to the recent list and cutting it to ten
   * gives the recent list of the longer draw.
   */
  lemma RecentSnoc(drawn: seq<int>, n: int)
    ensures Recent(drawn + [n]) == Take([n] + Recent(drawn), 10)
  {
    ReverseSnoc(drawn, n);
    var r, l := Recent(drawn + [n]), Take([n] + Recent(drawn), 10);
    assert |r| == |l|;
    forall i | 0 <= i < |r| ensures r[i] == l[i] {
      if i > 0 {
        assert l[i] == Recent(drawn)[i - 1];
      }
    }
  }

  class GameStore {
    var activeGameId: Option<string>
    var selectedTickets: int
    var currentNumber: Option<int>
    var drawnNumbers: seq<int>
    var recentNumbers: seq<int>
    var gameStatus: Status
    var isAutoPlaying: bool
    var isConnected: bool
    var winners: seq<WinnerInfo>
    var prizes: seq<StorePrize>
    var currentWinner: Option<WinnerInfo>
    var showWinnerModal: bool
    var gameName: string
    var ticketPrice: int
    var totalTickets: int
    var soldTickets: int

    /** The draw fields agree: recent and current numbers follow from the drawn list. */
    predicate Synced()
      reads this
    {
      recentNumbers == Recent(drawnNumbers) && currentNumber == Latest(drawnNumbers)
    }

    /** Every field holds its value from `initialState`. */
    predicate Initial()
      reads this
    {
      activeGameId == None && selectedTickets == 1 && currentNumber == None &&
      drawnNumbers == [] && recentNumbers == [] && gameStatus == Waiting &&
      !isAutoPlaying && !isConnected && winners == [] && prizes == [] &&
      currentWinner == None && !showWinnerModal && gameName == "" &&
      ticketPrice == 0 && totalTickets == 0 && soldTickets == 0
    }

    constructor ()
      ensures Initial() && Synced()
    {
      activeGameId, selectedTickets, currentNumber := None, 1, None;
      drawnNumbers, recentNumbers, gameStatus := [], [], Waiting;
      isAutoPlaying, isConnected := false, false;
      winners, prizes, currentWinner, showWinnerModal := [], [], None, false;
      gameName, ticketPrice, totalTickets, soldTickets := "", 0, 0, 0;
    }

    /** addDrawnNumber: append n, make it current, and push it onto the recent list. */
    method AddDrawnNumber(n: int)
      modifies this
      ensures drawnNumbers == old(drawnNumbers) + [n]
      ensures currentNumber == Some(n)
      ensures recentNumbers == Take([n] + old(recentNumbers), 10) && |recentNumbers| <= 10
      ensures old(Synced()) ==> Synced()
      ensures unchanged(this`activeGameId, this`selectedTickets, this`gameStatus, this`isAutoPlaying,
        this`isConnected, this`winners, this`prizes, this`currentWinner, this`showWinnerModal)
      ensures unchanged(this`gameName, this`ticketPrice, this`totalTickets, this`soldTickets)
    {
      RecentSnoc(drawnNumbers, n);
      drawnNumbers := drawnNumbers + [n];
      recentNumbers := Take([n] + recentNumbers, 10);
      currentNumber := Some(n);
    }

    /** setDrawnNumbers: replace the draw, recomputing recent and current numbers. */
    method SetDrawnNumbers(numbers: seq<int>)
      modifies this
      ensures drawnNumbers == numbers
      ensures currentNumber.Some? <==> |numbers| > 0
      ensures currentNumber.Some? ==> currentNumber.value == numbers[|numbers| - 1]
      ensures |recentNumbers| == if |numbers| < 10 then |numbers| else 10
      ensures forall i :: 0 <= i < |recentNumbers| ==> recentNumbers[i] == numbers[|numbers| - 1 - i]
      ensures Synced()
      ensures unchanged(this`activeGameId, this`selectedTickets, this`gameStatus, this`isAutoPlaying,
        this`isConnected, this`winners, this`prizes, this`currentWinner, this`showWinnerModal)
      ensures unchanged(this`gameName, this`ticketPrice, this`totalTickets, this`soldTickets)
    {
      recentNumbers := Take(Reverse(numbers), 10);
      currentNumber := if |numbers| > 0 then Some(numbers[|numbers| - 1]) else None;
      drawnNumbers := numbers;
    }

    /** addWinner: append the winner, make it current and open the winner modal. */
    method AddWinner(winner: WinnerInfo)
      modifies this
      ensures winners == old(winners) + [winner]
      ensures currentWinner == Some(winner) && showWinnerModal
      ensures unchanged(this`activeGameId, this`selectedTickets, this`currentNumber, this`drawnNumbers,
        this`recentNumbers, this`gameStatus, this`isAutoPlaying, this`isConnected, this`prizes)
      ensures unchanged(this`gameName, this`ticketPrice, this`totalTickets, this`soldTickets)
    {
      winners := winners + [winner];
      currentWinner := Some(winner);
      showWinnerModal := true;
    }

    /** setGameMetadata: each supplied field overwrites its store field; absent ones keep theirs. */
    method SetGameMetadata(data: Metadata)
      modifies this
      ensures gameName == Override(data.gameName, old(gameName))
      ensures ticketPrice == Override(data.ticketPrice, old(ticketPrice))
      ensures totalTickets == Override(data.totalTickets, old(totalTickets))
      ensures soldTickets == Override(data.soldTickets, old(soldTickets))
      ensures prizes == Override(data.prizes, old(prizes))
      ensures unchanged(this`activeGameId, this`selectedTickets, this`currentNumber, this`drawnNumbers,
        this`recentNumbers, this`gameStatus, this`isAutoPlaying, this`isConnected, this`winners)
      ensures unchanged(this`currentWinner, this`showWinnerModal)
    {
      gameName := Override(data.gameName, gameName);
      ticketPrice := Override(data.ticketPrice, ticketPrice);
      totalTickets := Override(data.totalTickets, totalTickets);
      soldTickets := Override(data.soldTickets, soldTickets);
      prizes := Override(data.prizes, prizes);
    }

    /** reset: every field back to `initialState`. */
    method Reset()
      modifies this
      ensures Initial() && Synced()
    {
      activeGameId := None;
      selectedTickets := 1;
      gameName, ticketPrice, totalTickets, soldTickets := "", 0, 0, 0;
      prizes := [];
      ResetGameState();
      isConnected := false;
    }

    /**
     * resetGameState: clear the draw, the winners and the status; the game
     * id, ticket count, connection flag, prizes and metadata stay.
     */
    method ResetGameState()
      modifies this
      ensures currentNumber == None && drawnNumbers == [] && recentNumbers == []
      ensures gameStatus == Waiting && !isAutoPlaying
      ensures winners == [] && currentWinner == None && !showWinnerModal
      ensures Synced()
      ensures unchanged(this`activeGameId, this`selectedTickets, this`isConnected, this`prizes)
      ensures unchanged(this`gameName, this`ticketPrice, this`totalTickets, this`soldTickets)
    {
      currentNumber := None;
      drawnNumbers := [];
      recentNumbers := [];
      gameStatus := Waiting;
      isAutoPlaying := false;
      winners := [];
      currentWinner := None;
      showWinnerModal := false;
    }
  }
}
