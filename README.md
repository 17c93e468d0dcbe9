# Tambola game engine — a Dafny model

This project models the core of a Tambola (housie) platform in Dafny and proves
properties of the model. In the platform, an admin creates a game from a
configuration of winning rules, each with its own prizes. Players book
numbered tickets. Each ticket is a 3 × 9 grid of fifteen numbers from 1..90.
Once the game is live, a socket server draws numbers, automatically every
few seconds or one at a time when the admin calls them. After each number it
checks every active ticket against every rule that is still open. It hands
out prizes and closes the game when all numbers are drawn, when every rule is
complete, or when a configured number of winners is reached.

The model has one module per source file, plus shared definitions:

- `Seqs`: sequence and set helpers (distinctness, order, sorting, reversal,
  counting).
- `GameModel`: the Game, winning-rule, prize and ticket records
  (`src/models/Game.ts`, `src/models/Ticket.ts`). It also defines the
  consistency invariant `GameInv`, which the live engine keeps between a
  rule's counters and its WON prizes.
- `Patterns`: the six winning patterns of `src/lib/winner-logic.ts`.
  `socket-server.ts` carries its own copies of them (lines 36-107). Those are
  written as `function` declarations rather than arrow constants, and its
  corners check lacks the unused `corners` array of fixed cells that
  winner-logic.ts:57-62 builds and never reads. The two copies compute the
  same results, so one set of definitions models both.
- `Winners`: the rule-by-ticket claiming loop that the auto-play tick and the
  manual call share. It is written once as loops and once as specification
  functions, and the loops are proved equal to the functions.
- `Session`: the server's handlers, as a class holding the games by id and
  the set of games whose auto-play timer runs.
- `Generator`: the ticket generator, in place on a 3 × 9 array.
- `Store`: the client store, as a class.
- `Booking`: the ticket-buying route.
- `Pagination`: the admin pager's window.
- `NumberPad`: the admin's number pad.
- `GamesRoute`: game creation on the server.
- `CreateGame`: the admin's create-game dialog. Its request body is followed
  through the route's parser to the game that gets created.

Randomness (`Math.random`) becomes a nondeterministic choice (`:|`) of a value
the source's retry loop would accept. The database becomes parameters or the
fields of a class. The ticket collection is an input sequence in the order a
query returns it. Socket events are returned as a sequence of values.

Where the code and its written description disagree, the model follows the
code:

- Winners are found in the order the ticket query returns the tickets. No
  ticket-number tie-break exists.
- A manually called number is not range-checked. Only a repeat is refused.
- A manual call never runs the auto-close check. It closes the game only when
  90 numbers are drawn.
- The status handlers (start, start-auto-play, pause, resume, end) write the
  status whatever it was. A CLOSED game can be resumed, for example.
- EARLY_FIVE counts called numbers over the whole ticket. The admin dialog's
  label text ("first 5 numbers in any row") describes something else.
- A rule's `maxWinners` is not a hard cap. The completion flag is tested only
  before the loop over tickets (socket-server.ts:258 and 291). Every ticket
  that completes the pattern on the same number wins, as long as the rule
  has an OPEN prize left. The dialog allows up to 10 prizes per rule whatever
  its `maxWinners` (src/components/admin/create-game-dialog.tsx:287), so a
  rule can end with more winners than its limit. `Winners.OverfillExample`
  exhibits such a round. `Winners.RoundWithinLimit` proves that a rule with
  no more prizes than `maxWinners` stays within its limit.

## Model

| member | source | states |
|---|---|---|
| `Patterns.EarlyFive` | src/lib/winner-logic.ts:3-13 | Defines early five as at least five called number cells on the ticket. `Patterns.CheckEarlyFive` and `Patterns.HitsCount` carry its properties. |
| `Patterns.TopLine` | src/lib/winner-logic.ts:15-23 | Defines the top line as row 0 passing the row check. `Patterns.RowClearIff` carries its meaning. |
| `Patterns.MiddleLine` | src/lib/winner-logic.ts:25-33 | Defines the middle line as row 1 passing the row check. `Patterns.RowClearIff` carries its meaning. |
| `Patterns.BottomLine` | src/lib/winner-logic.ts:35-43 | Defines the bottom line as row 2 passing the row check. `Patterns.RowClearIff` carries its meaning. |
| `Patterns.FullHouse` | src/lib/winner-logic.ts:45-54 | Defines full house as every row passing the row check. `Patterns.FullHouseIff` carries its meaning. |
| `Patterns.Corners` | src/lib/winner-logic.ts:56-86 | Defines corners as the four inspected cells (first and last number of rows 0 and 2) all cleared. `Patterns.CornersIff` carries its meaning. |
| `Patterns.CheckEarlyFive` | src/lib/winner-logic.ts:3-13 | The counting loop returns true exactly when at least five number cells of the ticket have been called (the size of the set of marked positions). |
| `Patterns.HitsCount` | src/lib/winner-logic.ts:4-11 | The row-by-row count equals the number of marked (row, column) positions. |
| `Patterns.RowClearIff` | src/lib/winner-logic.ts:15-43 | A line check passes iff every number cell of the row has been called; a row of blanks passes. |
| `Patterns.AllClearIff` | src/lib/winner-logic.ts:45-54 | The full-house scan passes iff every row passes. |
| `Patterns.FullHouseIff` | src/lib/winner-logic.ts:45-54 | checkFullHouse holds iff every number cell of all three rows has been called. |
| `Patterns.FullHouseHasLines` | src/lib/winner-logic.ts:15-54 | A full house implies the top, middle and bottom line. |
| `Patterns.FullHouseHasEarlyFive` | src/lib/winner-logic.ts:3-54 | On a ticket with at least five numbers, a full house implies early five. |
| `Patterns.FindIndex` | src/lib/winner-logic.ts:70 | `find` stops at the first number cell; every cell before it is blank. |
| `Patterns.FindIsFirst` | src/lib/winner-logic.ts:70 | `find` returns the row's first number, or undefined exactly when the row is all blank. |
| `Patterns.FindLastIsLast` | src/lib/winner-logic.ts:71 | Reverse-then-find returns the row's last number, or undefined exactly when the row is all blank. |
| `Patterns.CornersIff` | src/lib/winner-logic.ts:56-85 | checkCorners holds iff the first and last numbers of the top and bottom rows have been called; a blank row adds nothing. |
| `Patterns.EndFound` | src/lib/winner-logic.ts:68-84 | When a row's end numbers are called, the two cells the corner check inspects are cleared. |
| `Patterns.LastEndCleared` | src/lib/winner-logic.ts:71-84 | The cell reverse-then-find returns is the row's last number, so it is cleared whenever the row's end numbers are called. |
| `Patterns.CountRowsGrows` | src/lib/winner-logic.ts:3-13 | Calling more numbers never lowers the early-five count. |
| `Patterns.EarlyFiveGrows` | src/lib/winner-logic.ts:3-13 | Early five is monotone in the called numbers. |
| `Patterns.RowClearGrows` | src/lib/winner-logic.ts:15-43 | The line checks are monotone in the called numbers. |
| `Patterns.FullHouseGrows` | src/lib/winner-logic.ts:45-54 | Full house is monotone in the called numbers. |
| `Patterns.CornersGrows` | src/lib/winner-logic.ts:56-85 | Corners is monotone in the called numbers. |
| `Winners.CheckWinForRule` | socket-server.ts:110-131 | Dispatches on the rule type to the matching pattern. `Winners.WinMeaning` states each case on the cells. |
| `Winners.WinMeaning` | socket-server.ts:110-131 | For each rule type, checkWinForRule holds iff the ticket meets that pattern, stated on the cells. |
| `Winners.WinGrows` | socket-server.ts:110-131 | Whatever the rule, calling more numbers never takes a win away. |
| `Winners.HoldsPrize` | socket-server.ts:263-265 | Defines "the ticket already won this rule": some prize of the rule names the ticket as its winner. `Winners.Claim` and `Winners.ClaimKeepsInv` carry its role. |
| `Winners.Award` | socket-server.ts:283-288 | The awarded prize is WON and names the ticket and its owner as winner. Its name, XP, position and rule type are kept, so the prize is well formed. |
| `Winners.Announce` | socket-server.ts:298-307 | Defines the winner announcement: the ticket's owner, id and number, and the prize's name, XP and rule type. `Session.WinnerEvents` carries its use; the Left out line on `Winners.Announce` names the tick's missing `ticketNumber`. |
| `Winners.FirstOpen` | socket-server.ts:273 | `find` on the prizes stops at the first OPEN prize, or finds none exactly when no prize is OPEN; all prizes before it are WON. |
| `Winners.Claim` | socket-server.ts:261-311 | One ticket against one rule yields an announcement exactly when the ticket holds no prize of the rule, wins, and a prize is OPEN. Then the first OPEN prize goes to the ticket, the counter rises by one, completion is set once the counter reaches maxWinners, and nothing else changes. WON prizes stay as they are. |
| `Winners.ClaimTicket` | socket-server.ts:261-307 | The body of the ticket loop as written (the checks, the in-place award, the counter bump, the completion flag, the announcement) computes `Claim`. |
| `Winners.RuleRound` | socket-server.ts:261-312 | The ticket loop only extends the rule, and its counter rises by the number of announcements. |
| `Winners.EvalRule` | socket-server.ts:257-258 | A completed rule is skipped untouched. |
| `Winners.EvalRules` | socket-server.ts:257-313 | The rule loop extends every rule; the rules' winner total rises by the number of announcements. |
| `Winners.RunRule` | socket-server.ts:261-312 | The ticket loop as written (in-place prize update, counter bump, completion) computes `RuleRound`. |
| `Winners.EvaluateWinners` | socket-server.ts:257-313 | The rule loop as written computes `EvalRules`. |
| `Winners.ExtendsTrans` | socket-server.ts:283-293 | "Only gains WON prizes" composes across claims. |
| `Winners.CountWonAward` | socket-server.ts:283-290 | Awarding an OPEN prize adds one to the count of WON prizes. |
| `Winners.ClaimKeepsInv` | socket-server.ts:283-293 | A claim keeps a consistent rule consistent: the counter matches the WON prizes, completion matches the limit, and no ticket holds two prizes of the rule. |
| `Winners.RuleRoundKeepsInv` | socket-server.ts:261-312 | The ticket loop keeps the rule consistent. |
| `Winners.EvalRulesKeepsInv` | socket-server.ts:257-313 | The rule loop keeps every rule consistent. |
| `Winners.RoundWithinPrizes` | socket-server.ts:261-312 | A rule never has more winners than prizes. |
| `Winners.CountWonBound` | socket-server.ts:273-287 | The WON count is at most the number of prizes. |
| `Winners.OverfillExample` | socket-server.ts:257-293 | As written, two tickets completing the top line on the same number both win a rule with maxWinners 1, leaving currentWinners 2. |
| `Winners.RoundWithinLimit` | socket-server.ts:261-293 | A rule with no more prizes than maxWinners never passes its limit. |
| `Winners.QuietStays` | socket-server.ts:263-275 | A ticket with nothing left to claim in a rule still has nothing once the rule has been extended. |
| `Winners.RuleRoundSettles` | socket-server.ts:261-312 | After a rule's ticket loop, none of its tickets can claim again. |
| `Winners.QuietRound` | socket-server.ts:261-312 | A ticket loop in which no ticket can claim changes nothing. |
| `Winners.EvalRulesIdempotent` | socket-server.ts:257-313 | Re-running the evaluation with the same tickets and numbers finds no new winners and changes no rule. |
| `Winners.Settle` | socket-server.ts:257-296 | The pass over a game changes only its rules and its auto-close tally; the tally rises by the number of winners found. |
| `Winners.SettleKeepsInv` | socket-server.ts:257-296 | The pass keeps a consistent game consistent: the tally equals the rules' total winners. |
| `Winners.SettleIdempotent` | socket-server.ts:257-313 | A second pass leaves the game as it is and announces nobody. |
| `GameModel.FreshRule` | src/models/Game.ts:23-29 | A rule with every prize OPEN and zero counters is consistent. |
| `GameModel.SumZero` | src/models/Game.ts:31-35 | Rules with zero counters total zero winners. |
| `Session.ActiveTickets` | socket-server.ts:244-247 | The active-ticket query keeps exactly the game's ACTIVE tickets, in their order. |
| `Session.TicketHolders` | socket-server.ts:512 | The notified users are exactly the owners of the game's ACTIVE tickets. |
| `Session.WinnerEvents` | socket-server.ts:320-322 | One winner-detected event per winner, in order. |
| `Session.Draw` | socket-server.ts:230-233 | Drawing appends the number and leaves the status alone. |
| `Session.DrawNumber` | socket-server.ts:230-296 | The step the tick and the manual call share computes `Draw`, and keeps a consistent game consistent when the number is new. |
| `Session.DrawKeepsInv` | socket-server.ts:223-296 | Drawing a fresh number keeps a consistent game consistent, including no repeated draws. |
| `Session.AllRulesCompleted` | socket-server.ts:333-335 | Defines `every` over the rules' completion flags, true for no rules. `Session.AutoCloseDecision` and `Session.AllCompletedMeansAllWon` carry its meaning. |
| `Session.AutoCloseDecision` | socket-server.ts:330-350 | Auto-close fires iff it is enabled and either every rule is completed or the tally reached afterWinners; all_prizes_won takes precedence. |
| `Session.CountWonAll` | socket-server.ts:333-335 | All prizes of a rule are WON iff the WON count equals the number of prizes. |
| `Session.AllCompletedMeansAllWon` | socket-server.ts:333-335 | When each rule has exactly maxWinners prizes, "all rules completed" means no prize is left OPEN. |
| `Session.WithStatus` | socket-server.ts:509 | A status write changes only that game's status; an unknown id changes nothing. |
| `Session.Server.constructor` | socket-server.ts:186-188 | No games and no running timers. |
| `Session.Server.Tick` | socket-server.ts:190-354 | A missing or CLOSED game stops the timer; a PAUSED game is skipped; 90 drawn numbers close the game. Otherwise one fresh number of 1..90 is drawn, winners are evaluated and announced, and auto-close may end the game and stop the timer. Consistency is kept and 90 numbers are never exceeded. |
| `Session.Server.AdminCallNumber` | socket-server.ts:360-498 | Unknown game, game not LIVE or PAUSED, and repeated number are refused with nothing changed. Otherwise the number is appended, winners are evaluated and announced, and the game closes at 90 numbers without any auto-close check. The timer set is unchanged. |
| `Session.Server.StartGame` | socket-server.ts:501-534 | LIVE unconditionally; started, notification (the ACTIVE ticket holders) and status events. |
| `Session.Server.StartAutoPlay` | socket-server.ts:537-551 | LIVE unconditionally and the timer runs. |
| `Session.Server.StopAutoPlay` | socket-server.ts:554-563 | The timer stops; the status is untouched. |
| `Session.Server.PauseGame` | socket-server.ts:566-572 | PAUSED unconditionally. |
| `Session.Server.ResumeGame` | socket-server.ts:575-581 | LIVE unconditionally, even for a CLOSED game. |
| `Session.Server.EndGame` | socket-server.ts:584-597 | CLOSED with reason manual_end, and the timer stops. |
| `Session.DrawnAtMost90` | socket-server.ts:223-227 | Distinct draws from 1..90 number at most 90. |
| `Session.ManualCallBeyondRange` | socket-server.ts:378-387 | A manual call can append a number outside 1..90; after 90 numbers of 1..90, calling 0 gives 91. |
| `Generator.ColumnRangeSize` | src/lib/tambola-generator.ts:6-10 | Every column range lies in 1..90 and has at least nine numbers. |
| `Generator.ValuesFill` | src/lib/tambola-generator.ts:37-38 | Filling the next cell of a column appends its number to the column's number list. |
| `Generator.Refill` | src/lib/tambola-generator.ts:46-51 | The rewrite keeps the blank/number layout and writes the numbers in order. |
| `Generator.SortedColumn` | src/lib/tambola-generator.ts:43-51 | A sorted column keeps its layout, and its numbers are the sorted numbers of the old column. |
| `Generator.SortedColumnProps` | src/lib/tambola-generator.ts:43-52 | The sort pass makes a column's numbers strictly ascending, keeps their multiset, and keeps them in range. |
| `Generator.WriteColumn` | src/lib/tambola-generator.ts:46-51 | The rewrite loop writes each cell's slot and touches no other column. |
| `Generator.SortColumn` | src/lib/tambola-generator.ts:44-51 | One column is replaced by its sorted version; other columns stay. |
| `Generator.SortColumns` | src/lib/tambola-generator.ts:43-52 | Every column of the array becomes its sorted version. |
| `Generator.SetMissing` | src/lib/tambola-generator.ts:34-36 | A column holding fewer numbers than its range leaves a number free (so the retry loop can stop). |
| `Generator.PickColumns` | src/lib/tambola-generator.ts:26-29 | The index loop yields five distinct column indices in 0..8. |
| `Generator.PlaceNumber` | src/lib/tambola-generator.ts:32-38 | The placed number is in the column's range and new to the column; only that cell changes. |
| `Generator.FillRow` | src/lib/tambola-generator.ts:25-39 | A row gets exactly five numbers; columns stay repeat-free and in range; other rows stay. |
| `Generator.FillCell` | src/lib/tambola-generator.ts:31-39 | One column of the row pass: a picked column gets one new in-range number, any other stays blank; other rows are untouched. |
| `Generator.PlaceNumbers` | src/lib/tambola-generator.ts:25-40 | After the row loop each row has five numbers and each column's numbers are distinct and in range. |
| `Generator.GenerateTicket` | src/lib/tambola-generator.ts:1-55 | The ticket has three rows of nine cells, five numbers per row, each number in its column's range, and each column strictly ascending top to bottom. |
| `Generator.SortedGrid` | src/lib/tambola-generator.ts:43-54 | Sorting the columns of a placed grid keeps the row counts and the ranges and makes the columns ascend. |
| `Store.Recent` | src/store/useGameStore.ts:138 | The recent list is the last ten drawn numbers, newest first. |
| `Store.RecentSnoc` | src/store/useGameStore.ts:126-145 | Prepending a new number and cutting to ten gives the recent list of the longer draw, so both setters agree. |
| `Store.GameStore.constructor` | src/store/useGameStore.ts:95-117 | The store starts in `initialState`, with the draw fields in step. |
| `Store.GameStore.AddDrawnNumber` | src/store/useGameStore.ts:126-135 | The number is appended and made current; recent is the new number followed by the old recent, cut to ten. The draw fields stay in step; every other field is unchanged. |
| `Store.GameStore.SetDrawnNumbers` | src/store/useGameStore.ts:137-145 | The draw is replaced; current is its last number or none; recent is the first ten of the reversed list. |
| `Store.GameStore.AddWinner` | src/store/useGameStore.ts:154-162 | The winner is appended and made current, and the modal opens; nothing else changes. |
| `Store.Override` | src/store/useGameStore.ts:169-175 | The `??` fallback: a supplied value replaces the current one, an absent one keeps it. |
| `Store.GameStore.SetGameMetadata` | src/store/useGameStore.ts:169-175 | Each supplied field is overwritten; absent ones and all other fields keep their values. |
| `Store.GameStore.Reset` | src/store/useGameStore.ts:178 | Every field returns to `initialState`. |
| `Store.GameStore.ResetGameState` | src/store/useGameStore.ts:180-189 | The draw, winners and status are cleared; game id, ticket count, connection, prizes and metadata stay. |
| `Booking.MaxOf` | src/app/api/tickets/buy/route.ts:51 | `Math.max` returns an element no smaller than any other. |
| `Booking.BookedNumbers` | src/app/api/tickets/buy/route.ts:59-65 | Defines the booked numbers as those of the game's tickets that are not REJECTED. `Booking.ConflictRefusal`, `Booking.Available` and `Booking.Book` carry its use. |
| `Booking.Conflicts` | src/app/api/tickets/buy/route.ts:59-66 | The conflicting numbers are exactly the requested numbers held by a ticket that is not REJECTED. |
| `Booking.Available` | src/app/api/tickets/buy/route.ts:128-135 | The free numbers are exactly 1..totalTickets minus the booked ones, ascending. |
| `Booking.Parse` | src/app/api/tickets/buy/route.ts:9-18 | A request names a game. Specific numbers (1 to 6, each in 1..1000) take precedence. A quantity (1 to 6) is used only when the numbers do not fit their schema. A body fitting neither is refused. |
| `Booking.Check` | src/app/api/tickets/buy/route.ts:20-120 | Checks run in this order: sign-in, body schemas, game lookup, WAITING gate. `GameNotFound` is returned exactly when the requested id is unknown. For a specific request on a WAITING game, `ExceedsTotal` carries the largest requested number and the game's ticket count whenever that number exceeds it. Conflicts are checked after that. A quantity request on a WAITING game is refused with `NotEnoughTickets` exactly when the sold count plus the quantity exceeds totalTickets; otherwise it is accepted for that game. |
| `Booking.NotWaitingRefuses` | src/app/api/tickets/buy/route.ts:42-48 | A game that is not WAITING refuses every well-formed request, on both paths. |
| `Booking.ConflictRefusal` | src/app/api/tickets/buy/route.ts:58-73 | A specific request is refused for conflicts iff some requested number is taken, and the refusal lists exactly the taken ones. |
| `Booking.RepeatedNumberPlanned` | src/app/api/tickets/buy/route.ts:9-12 | The route itself lets a request repeating a free number through: [3, 3] plans two tickets numbered 3. |
| `Booking.AvailableNumbers` | src/app/api/tickets/buy/route.ts:129-135 | The push loop builds `Available`. |
| `Booking.SelectNumbers` | src/app/api/tickets/buy/route.ts:142-146 | The splice loop selects exactly `quantity` distinct numbers, all from the pool. |
| `Booking.MakeTickets` | src/app/api/tickets/buy/route.ts:76-82 | One PENDING ticket per number, in order, each with a well-formed generated grid. |
| `Booking.Book` | src/app/api/tickets/buy/route.ts:20-167 | Refusals are those of `Check`, plus too few free numbers. A specific booking creates a ticket per number and raises the sold count by their count. A random booking creates `quantity` tickets on distinct free numbers, answers them ascending, and raises the sold count by `quantity`. |
| `Pagination.Paginate` | src/components/admin/pagination.tsx:13-97 | Nothing for at most one page. Otherwise the window is min(5, totalPages) consecutive pages inside 1..totalPages and holds the current page when that is a real page. Page 1 and the last page get a button iff the window misses them. Every page has a button or lies behind an ellipsis, and each ellipsis hides a page. Prev is disabled iff page ≤ 1 and Next iff page ≥ totalPages. |
| `NumberPad.SameRangesAsGenerator` | src/components/admin/admin-number-pad.tsx:31-32 | The pad's column ranges are the generator's. |
| `NumberPad.PadColumn` | src/components/admin/admin-number-pad.tsx:31-36 | Column c runs from its start to its end, ascending by one. |
| `NumberPad.NumbersByColumn` | src/components/admin/admin-number-pad.tsx:28-40 | The nested loops build the nine pad columns. |
| `NumberPad.BoardPrefix` | src/components/admin/admin-number-pad.tsx:30-39 | The first c columns read in order are 1, 2, … up to the start of column c. |
| `NumberPad.BoardIsOneToNinety` | src/components/admin/admin-number-pad.tsx:28-40 | The columns partition 1..90: read in order they are 1, 2, …, 90. |
| `NumberPad.Remaining` | src/components/admin/admin-number-pad.tsx:62 | Defines the remaining count as 90 minus the number of draws. `NumberPad.RemainingIsUndrawn` carries its meaning. |
| `NumberPad.RemainingIsUndrawn` | src/components/admin/admin-number-pad.tsx:62 | For distinct draws within 1..90, the remaining count equals the number of undrawn pad numbers. |
| `NumberPad.Pad.constructor` | src/components/admin/admin-number-pad.tsx:24-25 | Nothing selected and no call in progress. |
| `NumberPad.Pad.BeginCall` | src/components/admin/admin-number-pad.tsx:42-46 | A click starts a call iff the pad is enabled, the number is undrawn and no call is in progress. Then the number is selected and a call is in progress; otherwise nothing changes. |
| `NumberPad.Pad.FinishCall` | src/components/admin/admin-number-pad.tsx:48-58 | Whether the call succeeded or failed, the pad is free again and nothing is selected. |
| `NumberPad.TwoClicks` | src/components/admin/admin-number-pad.tsx:42-59 | From any pad state, of two clicks before a call finishes at most one starts a call. The second click starts one only if the first was ignored and the pad was free. A pad already calling ignores both clicks and stays unchanged. |
| `GamesRoute.ParseAll` | src/app/api/games/route.ts:23 | A list parses iff every element does; the parsed list keeps order and length. |
| `GamesRoute.Retag` | src/app/api/games/route.ts:82-85 | Each prize gets the rule's type, nothing else changes. |
| `GamesRoute.FlattenLength` | src/app/api/games/route.ts:81-86 | The flattened prize list is as long as all rules' prize lists together. |
| `GamesRoute.FlattenAt` | src/app/api/games/route.ts:81-86 | Prize j of rule i sits at the number of prizes of the earlier rules plus j, retagged with rule i's type. |
| `GamesRoute.PrizesBeforePrefix` | src/app/api/games/route.ts:81-86 | Counting the prizes of the first k rules ignores the later rules. |
| `GamesRoute.PrizesBeforeGrows` | src/app/api/games/route.ts:81-86 | The count of earlier prizes grows with the rule index. |
| `GamesRoute.ParsePrize` | src/app/api/games/route.ts:9-15 | A prize parses iff it has a name, XP of at least 0, a position of at least 1, a rule type and no invalid status. A missing status becomes OPEN. A parsed prize has no winner, so it is well formed iff it is OPEN. |
| `GamesRoute.ParseRule` | src/app/api/games/route.ts:18-24 | A parsed rule keeps its type, allows 1 to 10 winners and has as many prizes as were sent, at least one. Missing counters default to zero winners, not completed. |
| `GamesRoute.ParseAutoClose` | src/app/api/games/route.ts:27-31 | The block parses iff it has a flag and a limit of at least 1. The flag is kept, and a missing tally defaults to zero. |
| `GamesRoute.ParseNew` | src/app/api/games/route.ts:34-42 | A body of the current schema has a name of at least 3 characters, an XP cost of at least 0, at least one ticket and one rule, and an auto-close limit of at least 1. Every rule allows 1 to 10 winners and has a prize. |
| `GamesRoute.ParseLegacy` | src/app/api/games/route.ts:45-53 | A legacy body has a name of at least 3 characters, a ticket price of at least 1, at least 5 tickets and at least one prize. A body without a ticket price is never legacy. |
| `GamesRoute.FlattenPrizes` | src/app/api/games/route.ts:81-86 | Defines the flattened prize list, rule after rule, each prize retagged. `GamesRoute.FlattenLength` and `GamesRoute.FlattenAt` carry its properties. |
| `GamesRoute.InvalidStatusRefused` | src/app/api/games/route.ts:9-15 | A body with a prize whose status is present but invalid, and with no ticket price, is refused as invalid (400). |
| `GamesRoute.ConvertPrizes` | src/app/api/games/route.ts:110-117 | Legacy prize i becomes an OPEN FULL_HOUSE prize of 100 XP at position i + 1, keeping its name. |
| `GamesRoute.Save` | src/models/Game.ts:88-112 | A document is stored iff it carries a `ticketXpCost` of at least 0, the schema's required field. Otherwise the save fails. The stored game keeps the document's fields and takes the defaults: WAITING, nothing sold, nothing drawn. |
| `GamesRoute.Create` | src/app/api/games/route.ts:55-174 | Non-admins are refused. The current schema is tried first, and the legacy schema only if it fails. A game is created iff the body fits the current schema. A body that fits only the legacy schema ends in a failed save (the catch block's 500), because its document has no `ticketXpCost`. A body that fits neither is refused as invalid. Every created game is WAITING, with nothing drawn or sold, created by the caller. |
| `GamesRoute.LegacyDocument` | src/app/api/games/route.ts:109-138 | Defines the document the legacy branch hands to `Game.create`: the converted prizes, one FULL_HOUSE rule as wide as the prize list, auto-close after that many winners, and no XP cost. `GamesRoute.LegacyDocumentConsistent` carries its meaning. |
| `GamesRoute.LegacyDocumentConsistent` | src/app/api/games/route.ts:119-138 | The document the legacy branch tries to store has consistent rules and tally, and one rule whose limit equals the auto-close limit. Saving it fails. |
| `GamesRoute.LegacyCloseReasonsCoincide` | src/app/api/games/route.ts:124-135 | For a legacy-shaped game, reaching the winner limit and completing the only rule coincide. |
| `GamesRoute.NewGameConsistent` | src/app/api/games/route.ts:88-97 | A current-schema game whose rules arrive with zero counters, OPEN prizes and a zero tally is consistent. |
| `CreateGame.CatalogueIndex` | src/components/admin/create-game-dialog.tsx:35-42 | Every rule type is in the catalogue, at its index. |
| `CreateGame.CatalogueComplete` | src/components/admin/create-game-dialog.tsx:35-42 | The catalogue lists every rule type. |
| `CreateGame.Unused` | src/components/admin/create-game-dialog.tsx:341 | The filter keeps exactly the types not in use. |
| `CreateGame.UnusedOrdered` | src/components/admin/create-game-dialog.tsx:341 | The filter keeps catalogue order. |
| `CreateGame.AvailableRuleTypes` | src/components/admin/create-game-dialog.tsx:339-342 | The offered types are exactly those no rule uses, in catalogue order, each once. |
| `CreateGame.Kinds` | src/components/admin/create-game-dialog.tsx:340 | The used types are the rules' types, in order. |
| `CreateGame.PrizeValid` | src/components/admin/create-game-dialog.tsx:47-54 | Defines the dialog's prize schema: a name, at least 1 XP, a position of at least 1. `CreateGame.PrizesParse` carries its use. |
| `CreateGame.RuleValid` | src/components/admin/create-game-dialog.tsx:57-64 | Defines the dialog's rule schema: 1 to 10 winners and at least one valid prize. `CreateGame.TotalMaxWinnersBounds` and `CreateGame.RuleParses` carry its use. |
| `CreateGame.FormValid` | src/components/admin/create-game-dialog.tsx:67-85 | Defines the dialog's form schema: a name of at least 3 characters, at least 5 tickets, an XP cost of at least 0, at least one valid rule, and a limit of at least 1 when present. `CreateGame.DefaultFormNeedsName`, `CreateGame.PayloadParses` and `CreateGame.SubmitCreates` carry its meaning. |
| `CreateGame.NewRule` | src/components/admin/create-game-dialog.tsx:344-352 | The rule addWinningRule appends has the chosen type and is valid (one winner, one prize of 200 XP). |
| `CreateGame.AddRule` | src/components/admin/create-game-dialog.tsx:344-352 | Defines addWinningRule: the new rule appended to the form's rules. `CreateGame.AddRuleKeepsForm` carries its meaning. |
| `CreateGame.AddRuleKeepsForm` | src/components/admin/create-game-dialog.tsx:344-352 | Adding an offered type keeps the form valid and the rule types distinct, and that type is no longer offered. |
| `CreateGame.DefaultFormNeedsName` | src/components/admin/create-game-dialog.tsx:67-107 | The default form is refused only for its empty name; it is accepted once named with at least three characters. |
| `CreateGame.NextStep` | src/components/admin/create-game-dialog.tsx:422 | Next moves one step on and never past the last step. |
| `CreateGame.PrevStep` | src/components/admin/create-game-dialog.tsx:423 | Back moves one step back and never before the first step. |
| `CreateGame.WalkInRange` | src/components/admin/create-game-dialog.tsx:422-423 | No sequence of Next and Back clicks leaves steps 1 to 3. |
| `CreateGame.NextThenBack` | src/components/admin/create-game-dialog.tsx:422-423 | Next then Back returns to the step except at the last step, and Back then Next except at the first. |
| `CreateGame.TotalMaxWinners` | src/components/admin/create-game-dialog.tsx:359 | Defines the `reduce` summing the rules' maxWinners. `CreateGame.TotalMaxWinnersBounds` and `CreateGame.SumMaxStored` carry its meaning. |
| `CreateGame.TotalMaxWinnersBounds` | src/components/admin/create-game-dialog.tsx:359 | With valid rules, the total of maxWinners lies between the rule count and ten times it. |
| `CreateGame.AfterWinners` | src/components/admin/create-game-dialog.tsx:376-382 | The limit sent is the admin's number when auto-close is on and one was given; otherwise it is the total of maxWinners. For a valid form it is at least 1. |
| `CreateGame.StoredRules` | src/components/admin/create-game-dialog.tsx:364-375 | One stored rule per form rule, in order. |
| `CreateGame.PrizesParse` | src/components/admin/create-game-dialog.tsx:369-374 | A valid rule's prizes, as sent, pass the route's prize schema as OPEN prizes at positions 1, 2, … with the rule's type. |
| `CreateGame.RuleParses` | src/components/admin/create-game-dialog.tsx:364-375 | A valid rule, as sent, passes the route's rule schema with zero winners and not completed. |
| `CreateGame.RulesParse` | src/components/admin/create-game-dialog.tsx:364-375 | Valid rules, as sent, parse to the stored rules in order. |
| `CreateGame.ParseAllAppend` | src/app/api/games/route.ts:23 | Parsing a concatenated list parses each part. |
| `CreateGame.LegacyArrayMatches` | src/components/admin/create-game-dialog.tsx:384-391 | The legacy prize array the dialog sends parses to exactly the prize list the route stores, rule after rule. |
| `CreateGame.SumMaxStored` | src/components/admin/create-game-dialog.tsx:359 | The stored rules' maxWinners total the form's. |
| `CreateGame.Payload` | src/components/admin/create-game-dialog.tsx:354-392 | The dialog's body sends one rule per form rule and no ticket price, so it never fits the legacy schema. |
| `CreateGame.PayloadParses` | src/components/admin/create-game-dialog.tsx:354-392 | A valid form's body passes the route's current schema. It carries the form's name, XP cost, tickets and rules (zero winners, OPEN prizes at index + 1 with their rule's type) and the limit AfterWinners with a zero tally. |
| `CreateGame.AutoCloseParses` | src/components/admin/create-game-dialog.tsx:376-382 | A valid form's auto-close block passes the route's schema, with the limit `AfterWinners` and a zero tally. |
| `CreateGame.SubmitCreates` | src/components/admin/create-game-dialog.tsx:354-392 | Submitting a valid form creates that game for an admin. The game is WAITING and consistent, and its stored prizes equal the legacy array sent. |
| `CreateGame.ExpectedConsistent` | src/components/admin/create-game-dialog.tsx:361-375 | The game a valid form creates is consistent: zero counters, all prizes OPEN, zero tally. |
| `CreateGame.DefaultLimitIsTotal` | src/components/admin/create-game-dialog.tsx:376-380 | With no limit present (undefined), or auto-close off, the created game's limit is the sum of its rules' maxWinners. |
| `CreateGame.LimitNoLaterThanAllCompleted` | src/components/admin/create-game-dialog.tsx:359 | With that default limit, a consistent game whose rules are all completed has reached the limit. |
| `CreateGame.CompletedSums` | src/components/admin/create-game-dialog.tsx:359 | Completed consistent rules have at least as many winners as their maxWinners total. |

## Left out

- Socket.IO and HTTP plumbing (rooms, emits, CORS, connection handlers) is not modelled. Emitted events are returned as values.
- MongoDB I/O is not modelled. Games are a map and tickets a sequence. The re-fetches inside a tick are folded into one atomic step. The legacy `prizes` re-sync write after winners are found (socket-server.ts:324-327) is not modelled.
- Timers are not modelled: the interval, its restart after a manual call, and races between manual and automatic draws. A tick is one step, and the running timers are a set of game ids.
- `Math.random` is not modelled. The model chooses any value the source's retry loop would accept. That the retry loops terminate is not modelled.
- Timestamps are not modelled (`Date.now`, `wonAt`, the store's winner timestamp).
- The winner's name and e-mail lookup is not modelled, and neither are the matching fields of the winner event.
- Winners.Announce: the model's announcement always carries `ticketNumber`. The manual call sends it, but the tick's winner payload omits it (socket-server.ts:298-307).
- Winners.Claim: the `amount` field of a prize, read only for the winner event, is not modelled.
- Sign-in and the admin lookup become an optional user id and a flag.
- Zod's string-to-number preprocessing, non-integer numbers and unknown fields are not modelled. Form and body numbers are integers.
- GamesRoute.ParseNew: string lengths are counted in characters of `seq<char>`. Zod's `min(3)` counts UTF-16 code units, so a name of two characters outside the Basic Multilingual Plane (two emoji, for instance) passes in the source but not in the model. The same holds for `GamesRoute.ParseLegacy`, `GamesRoute.ParsePrize` and the dialog's `CreateGame.FormValid`.
- GamesRoute.Save: of the Game schema's validators, only the required, minimum-0 `ticketXpCost` is modelled. The others (required name and creator, `totalTickets` of at least 1) always hold for the bodies both zod schemas accept. The subdocument schemas' validators are not modelled.
- Ticket grids have three rows by construction (`Patterns.Grid`). The generator always makes 3 × 9 grids. The pattern checks of src/lib/winner-logic.ts:4-11 and 45-54 loop over any number of rows, and `Ticket.numbers` is an untyped nested array (src/models/Ticket.ts:16). Grids of another shape are not modelled.
- The database's unique index on (gameId, ticketNumber) is not modelled. `Booking.RepeatedNumberPlanned` shows what the route alone lets through.
- The specific-numbers booking path has no sold-count check in the source, and none is modelled.
- The store's one-field setters (setActiveGameId, setSelectedTickets, setCurrentNumber, setGameStatus, setIsAutoPlaying, setIsConnected, setCurrentWinner, setShowWinnerModal, setPrizes) are not modelled. Each is a single field write.
- Persistence of `activeGameId` and `selectedTickets` to local storage is not modelled.
- Rendering, toasts and console output are not modelled.
- The pager's click handlers, which only pass a page number on, are not modelled.
- GET /api/games is not modelled.
- Generator.GenerateTicket: states the shape, ranges and column order of the result. Which of the allowed tickets comes out depends on the random choices, which are not modelled.
