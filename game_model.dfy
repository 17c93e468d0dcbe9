/**
 * The records of src/models/Game.ts and src/models/Ticket.ts as values, and
 * the consistency the live engine keeps between a rule's counters and its
 * prizes.
 *
 * Optional fields (`winner?`, `winnerTicketId?`) become `Option`; string
 * enums become datatypes, so a value outside the mongoose enum cannot occur.
 * Timestamps (`wonAt`, `createdAt`, `updatedAt`) are not modelled.
 */
module GameModel {
  import opened Seqs
  import opened Patterns

  datatype Option<T> = None | Some(value: T)

  datatype Status = Waiting | Live | Paused | Closed

  /** WinningRuleType: the six values of the mongoose and zod enums. */
  datatype RuleType = FullHouse | TopLine | MiddleLine | BottomLine | EarlyFive | Corners

  datatype PrizeStatus = Open | Won

  /** IPrize; `winner` is the winning user's id. */
  datatype Prize = Prize(
    name: string,
    xpPoints: int,
    position: int,
    ruleType: RuleType,
    winner: Option<string>,
    winnerTicketId: Option<string>,
    status: PrizeStatus)

  /** IWinningRule */
  datatype WinningRule = WinningRule(
    kind: RuleType,
    maxWinners: int,
    currentWinners: int,
    isCompleted: bool,
    prizes: seq<Prize>)

  /** IAutoClose */
  datatype AutoClose = AutoClose(enabled: bool, afterWinners: int, currentTotalWinners: int)

  /** IGame */
  datatype Game = Game(
    name: string,
    status: Status,
    ticketXpCost: int,
    totalTickets: int,
    soldTickets: int,
    createdBy: string,
    drawnNumbers: seq<int>,
    prizes: seq<Prize>,
    winningRules: seq<WinningRule>,
    autoClose: AutoClose)

  datatype TicketStatus = Pending | ActiveTicket | Rejected

  /** ITicket; `id` is the document id the engine compares as a string. */
  datatype Ticket = Ticket(
    id: string,
    gameId: string,
    userId: string,
    ticketNumber: int,
    numbers: Grid,
    status: TicketStatus)

  // ---------------------------------------------------------------------
  // Consistency of a rule's counters with its prizes.
  // ---------------------------------------------------------------------

  /** An OPEN prize has no winner; a WON prize names its winning ticket. */
  predicate PrizeWellFormed(p: Prize) {
    (p.status == Open ==> p.winner.None? && p.winnerTicketId.None?) &&
    (p.status == Won ==> p.winnerTicketId.Some?)
  }

  /** The number of WON prizes, counted front to back. */
  function CountWon(prizes: seq<Prize>): nat {
    if prizes == [] then 0
    else CountWon(prizes[..|prizes| - 1]) + (if prizes[|prizes| - 1].status == Won then 1 else 0)
  }

  /** No ticket holds two prizes of the same rule. */
  predicate WinnersDistinct(prizes: seq<Prize>) {
    forall k, l :: 0 <= k < l < |prizes| && prizes[k].status == Won && prizes[l].status == Won ==>
      prizes[k].winnerTicketId != prizes[l].winnerTicketId
  }

  /**
   * What a rule's fields mean: `currentWinners` counts the WON prizes,
   * `isCompleted` says that count has reached `maxWinners`, and each
   * winning ticket holds one prize of the rule.
   */
  predicate RuleInv(r: WinningRule) {
    (forall k :: 0 <= k < |r.prizes| ==> PrizeWellFormed(r.prizes[k])) &&
    r.currentWinners == CountWon(r.prizes) &&
    r.isCompleted == (r.currentWinners >= r.maxWinners) &&
    WinnersDistinct(r.prizes)
  }

  /** Sum of `currentWinners` over the rules. */
  function SumWinners(rules: seq<WinningRule>): int {
    if rules == [] then 0
    else SumWinners(rules[..|rules| - 1]) + rules[|rules| - 1].currentWinners
  }

  /**
   * A consistent game: no number drawn twice, every rule consistent, and the
   * auto-close tally equal to the total of the rules' winners.
   */
  predicate GameInv(g: Game) {
    Distinct(g.drawnNumbers) &&
    (forall i :: 0 <= i < |g.winningRules| ==> RuleInv(g.winningRules[i])) &&
    g.autoClose.currentTotalWinners == SumWinners(g.winningRules)
  }

  /** A rule of prizes that are all OPEN and counters at zero is consistent. */
  lemma {:induction false} FreshRule(r: WinningRule)
    requires forall k :: 0 <= k < |r.prizes| ==>
      r.prizes[k].status == Open && r.prizes[k].winner.None? && r.prizes[k].winnerTicketId.None?
    requires r.currentWinners == 0 && !r.isCompleted && r.maxWinners >= 1
    ensures RuleInv(r)
    ensures CountWon(r.prizes) == 0
  {
    NoneWon(r.prizes);
  }

  lemma {:induction false} NoneWon(prizes: seq<Prize>)
    requires forall k :: 0 <= k < |prizes| ==> prizes[k].status == Open
    ensures CountWon(prizes) == 0
  {
    if prizes != [] {
      NoneWon(prizes[..|prizes| - 1]);
    }
  }

  /** Rules whose counters are all zero sum to zero. */
  lemma {:induction false} SumZero(rules: seq<WinningRule>)
    requires forall i :: 0 <= i < |rules| ==> rules[i].currentWinners == 0
    ensures SumWinners(rules) == 0
  {
    if rules != [] {
      SumZero(rules[..|rules| - 1]);
    }
  }
}
