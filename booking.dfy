/**
 * The decision logic of the ticket-buying route, src/app/api/tickets/buy/route.ts.
 *
 * A request either names specific ticket numbers (1 to 6 numbers, each in
 * 1..1000) or, in the older form, only a quantity (1 to 6). Both forms are
 * refused unless the game is WAITING. Specific numbers are refused when one
 * exceeds the game's ticket count or one is already held by a ticket that
 * is not REJECTED. A quantity is refused when the sold count plus the
 * quantity exceeds the ticket count, or when fewer numbers are free; the
 * free numbers are listed in ascending order and the quantity of them is
 * drawn at random, without repetition. Every created ticket is PENDING and
 * carries a fresh grid from the ticket generator; the sold count grows by
 * the number of tickets created.
 *
 * The database becomes parameters: the games by id and the game's tickets.
 * The signed-in user is an optional id.
 */
module Booking {
  import opened Seqs
  import opened Patterns
  import opened GameModel
  import Generator

  datatype Result<T, E> = Ok(value: T) | Err(error: E)

  /** The fields of a parsed JSON body that the two request schemas read. */
  datatype Body = Body(gameId: Option<string>, ticketNumbers: Option<seq<int>>, quantity: Option<int>)

  datatype Request =
    | SpecificNumbers(gameId: string, numbers: seq<int>)
    | RandomNumbers(gameId: string, quantity: int)

  datatype BookError =
    | Unauthorized
    | InvalidBody
    | GameNotFound
    | NotAccepting(status: Status)
    | ExceedsTotal(maxNumber: int, totalTickets: int)
    | AlreadyBooked(conflicting: seq<int>)
    | NotEnoughTickets

  /** The object the route inserts for each booked number. */
  datatype NewTicket = NewTicket(gameId: string, userId: string, ticketNumber: int, numbers: Grid, status: TicketStatus)

  /** What a booking that goes through leaves behind. */
  datatype Booked = Booked(game: Game, created: seq<NewTicket>, ticketNumbers: seq<int>)

  /** What the route does once it has found the game and let the request through. */
  datatype Plan =
    | BookGiven(gameId: string, game: Game, numbers: seq<int>)
    | BookRandom(gameId: string, game: Game, quantity: int)

  /** buyTicketSchema: one to six numbers, each in 1..1000. */
  predicate SpecificShape(ns: seq<int>) {
    1 <= |ns| <= 6 && forall i :: 0 <= i < |ns| ==> 1 <= ns[i] <= 1000
  }

  /** legacyBuySchema: a quantity of one to six. */
  predicate QuantityShape(q: int) {
    1 <= q <= 6
  }

  /** The specific-numbers schema is tried first; the quantity schema only when it fails. */
  function Parse(body: Body): (r: Option<Request>)
    ensures r.Some? ==> body.gameId == Some(RequestedGame(r.value))
    ensures r.Some? && r.value.SpecificNumbers? ==>
      body.ticketNumbers == Some(r.value.numbers) && SpecificShape(r.value.numbers)
    ensures r.Some? && r.value.RandomNumbers? ==>
      body.quantity == Some(r.value.quantity) && QuantityShape(r.value.quantity) &&
      !(body.ticketNumbers.Some? && SpecificShape(body.ticketNumbers.value))
    ensures r.None? <==>
      body.gameId.None? ||
      (!(body.ticketNumbers.Some? && SpecificShape(body.ticketNumbers.value)) &&
       !(body.quantity.Some? && QuantityShape(body.quantity.value)))
  {
    if body.gameId.Some? && body.ticketNumbers.Some? && SpecificShape(body.ticketNumbers.value) then
      Some(SpecificNumbers(body.gameId.value, body.ticketNumbers.value))
    else if body.gameId.Some? && body.quantity.Some? && QuantityShape(body.quantity.value) then
      Some(RandomNumbers(body.gameId.value, body.quantity.value))
    else
      None
  }

  function RequestedGame(r: Request): string {
    match r
    case SpecificNumbers(id, _) => id
    case RandomNumbers(id, _) => id
  }

  /** The numbers of the game's tickets that are not REJECTED (the `status: { $ne: "REJECTED" }` query). */
  function BookedNumbers(tickets: seq<Ticket>, gameId: string): set<int> {
    set i | 0 <= i < |tickets| && tickets[i].gameId == gameId && tickets[i].status != Rejected :: tickets[i].ticketNumber
  }

  /** `Math.max(...s)`: an element of s no smaller than any other. */
  function MaxOf(s: seq<int>): (m: int)
    requires |s| > 0
    ensures m in s
    ensures forall i :: 0 <= i < |s| ==> s[i] <= m
  {
    if |s| == 1 then s[0]
    else
      var m := MaxOf(s[..|s| - 1]);
      if s[|s| - 1] > m then s[|s| - 1] else m
  }

  /** `ticketNumbers.filter(n => bookedNumbers.includes(n))`, in request order. */
  function Conflicts(requested: seq<int>, booked: set<int>): (r: seq<int>)
    ensures forall n :: n in r <==> n in requested && n in booked
    ensures |r| <= |requested|
  {
    if requested == [] then []
    else
      var n := |requested| - 1;
      Conflicts(requested[..n], booked) + (if requested[n] in booked then [requested[n]] else [])
  }

  /** The numbers 1..total that are not booked, ascending. */
  function Available(total: int, booked: set<int>): (r: seq<int>)
    ensures forall x :: x in r <==> 1 <= x <= total && x !in booked
    ensures forall i :: 0 <= i < |r| ==> 1 <= r[i] <= total
    ensures StrictlyAscending(r)
    decreases total
  {
    if total <= 0 then []
    else Available(total - 1, booked) + (if total in booked then [] else [total])
  }

  /**
   * Everything the route decides before it creates tickets: sign-in, body,
   * game, status gate, and for specific numbers the bound and conflict
   * checks; for a quantity, the sold-count check.
   */
  function Check(userId: Option<string>, body: Body, games: map<string, Game>, tickets: seq<Ticket>): (r: Result<Plan, BookError>)
    ensures userId.None? ==> r == Err(Unauthorized)
    ensures userId.Some? && Parse(body).None? ==> r == Err(InvalidBody)
    ensures r.Err? && r.error.NotAccepting? ==> r.error.status != Waiting
    ensures r.Ok? ==> Parse(body).Some? && RequestedGame(Parse(body).value) == r.value.gameId
    ensures r.Ok? ==> r.value.gameId in games && r.value.game == games[r.value.gameId] && r.value.game.status == Waiting
    ensures userId.Some? && Parse(body).Some? ==>
      (r == Err(GameNotFound) <==> RequestedGame(Parse(body).value) !in games)
    ensures r.Err? && r.error.ExceedsTotal? ==>
      Parse(body).Some? && Parse(body).value.SpecificNumbers? &&
      r.error.totalTickets == games[Parse(body).value.gameId].totalTickets &&
      r.error.maxNumber == MaxOf(Parse(body).value.numbers) &&
      exists i :: 0 <= i < |Parse(body).value.numbers| && Parse(body).value.numbers[i] > r.error.totalTickets
    ensures (userId.Some? && Parse(body).Some? && Parse(body).value.SpecificNumbers? &&
      Parse(body).value.gameId in games && games[Parse(body).value.gameId].status == Waiting) ==>
      var ns, g := Parse(body).value.numbers, games[Parse(body).value.gameId];
      (MaxOf(ns) > g.totalTickets ==> r == Err(ExceedsTotal(MaxOf(ns), g.totalTickets)))
    ensures (userId.Some? && Parse(body).Some? && Parse(body).value.RandomNumbers? &&
      Parse(body).value.gameId in games && games[Parse(body).value.gameId].status == Waiting) ==>
      var id, q := Parse(body).value.gameId, Parse(body).value.quantity;
      var g := games[id];
      r == if g.soldTickets + q > g.totalTickets then Err(NotEnoughTickets) else Ok(BookRandom(id, g, q))
    ensures r.Err? && r.error.AlreadyBooked? ==> r.error.conflicting != []
    ensures r.Ok? && r.value.BookGiven? ==>
      var ns := r.value.numbers;
      Parse(body).value == SpecificNumbers(r.value.gameId, ns) &&
      forall i :: 0 <= i < |ns| ==> 1 <= ns[i] <= r.value.game.totalTickets && ns[i] !in BookedNumbers(tickets, r.value.gameId)
    ensures r.Ok? && r.value.BookRandom? ==>
      Parse(body).value == RandomNumbers(r.value.gameId, r.value.quantity) &&
      r.value.game.soldTickets + r.value.quantity <= r.value.game.totalTickets
  {
    if userId.None? then Err(Unauthorized)
    else match Parse(body)
      case None => Err(InvalidBody)
      case Some(req) =>
        var id := RequestedGame(req);
        if id !in games then Err(GameNotFound)
        else
          var g := games[id];
          if g.status != Waiting then Err(NotAccepting(g.status))
          else match req
            case SpecificNumbers(_, ns) =>
              var top := MaxOf(ns);
              if top > g.totalTickets then Err(ExceedsTotal(top, g.totalTickets))
              else
                var clash := Conflicts(ns, BookedNumbers(tickets, id));
                if |clash| > 0 then Err(AlreadyBooked(clash))
                else Ok(BookGiven(id, g, ns))
            case RandomNumbers(_, q) =>
              if g.soldTickets + q > g.totalTickets then Err(NotEnoughTickets)
              else Ok(BookRandom(id, g, q))
  }

  /** The status gate holds on both paths: a game that is not WAITING refuses every well-formed request. */
  lemma NotWaitingRefuses(userId: Option<string>, body: Body, games: map<string, Game>, tickets: seq<Ticket>)
    requires userId.Some? && Parse(body).Some?
    requires RequestedGame(Parse(body).value) in games
    requires games[RequestedGame(Parse(body).value)].status != Waiting
    ensures Check(userId, body, games, tickets) == Err(NotAccepting(games[RequestedGame(Parse(body).value)].status))
  {
  }

  /**
   * A specific request is refused for conflicts exactly when one of its
   * numbers is held by a ticket that is not REJECTED, and the refusal lists
   * exactly those numbers.
   */
  lemma ConflictRefusal(userId: string, body: Body, games: map<string, Game>, tickets: seq<Ticket>)
    requires Parse(body).Some? && Parse(body).value.SpecificNumbers?
    requires RequestedGame(Parse(body).value) in games
    requires games[RequestedGame(Parse(body).value)].status == Waiting
    requires MaxOf(Parse(body).value.numbers) <= games[RequestedGame(Parse(body).value)].totalTickets
    ensures var r := Check(Some(userId), body, games, tickets);
      var id, ns := RequestedGame(Parse(body).value), Parse(body).value.numbers;
      (r.Err? <==> exists i :: 0 <= i < |ns| && ns[i] in BookedNumbers(tickets, id)) &&
      (r.Err? ==>
        r.error.AlreadyBooked? &&
        forall n :: n in r.error.conflicting <==> n in ns && n in BookedNumbers(tickets, id))
  {
    var ns, booked := Parse(body).value.numbers, BookedNumbers(tickets, RequestedGame(Parse(body).value));
    var clash := Conflicts(ns, booked);
    if i :| 0 <= i < |ns| && ns[i] in booked {
      assert ns[i] in clash;
    }
    if clash != [] {
      assert clash[0] in ns;
    }
  }

  /**
   * The route itself does not refuse a request that repeats a free number:
   * booking [3, 3] on an empty game plans two tickets numbered 3. Only the
   * database's unique index on (gameId, ticketNumber) stops the second.
   */
  lemma RepeatedNumberPlanned(g: Game)
    requires g.status == Waiting && g.totalTickets >= 3
    ensures Check(Some("u"), Body(Some("g"), Some([3, 3]), None), map["g" := g], []) == Ok(BookGiven("g", g, [3, 3]))
  {
    assert SpecificShape([3, 3]);
    assert MaxOf([3, 3]) == 3;
    assert BookedNumbers([], "g") == {};
    assert [3, 3][..1] == [3] && [3][..0] == [];
    assert Conflicts([3], {}) == [];

  }

  /** The `for (let i = 1; i <= totalTickets; i++)` loop that lists the free numbers. */
  method AvailableNumbers(total: int, booked: set<int>) returns (avail: seq<int>)
    ensures avail == Available(total, booked)
  {
    avail := [];
    var i := 1;
    while i <= total
      invariant 1 <= i <= (if total >= 0 then total + 1 else 1)
      invariant avail == Available(i - 1, booked)
    {
      assert Available(i, booked) == Available(i - 1, booked) + (if i in booked then [] else [i]);
      if i !in booked {
        avail := avail + [i];
      }
      i := i + 1;
    }
  }

  /**
   * The selection loop: `quantity` times, splice a random index out of the
   * pool and keep its number.
   */
  method SelectNumbers(available: seq<int>, quantity: int) returns (selected: seq<int>)
    requires Distinct(available) && 0 <= quantity <= |available|
    ensures |selected| == quantity
    ensures Distinct(selected)
    ensures forall i :: 0 <= i < |selected| ==> selected[i] in available
  {
    var pool := available;
    selected := [];
    for k := 0 to quantity
      invariant |selected| == k && |pool| == |available| - k
      invariant multiset(selected) + multiset(pool) == multiset(available)
    {
      var index :| 0 <= index < |pool|;
      assert pool == pool[..index] + [pool[index]] + pool[index + 1..];
      selected := selected + [pool[index]];
      pool := pool[..index] + pool[index + 1..];
    }
    DistinctPart(available, selected);
    forall i | 0 <= i < |selected| ensures selected[i] in available {
      assert selected[i] in multiset(available);
    }
  }

  /** The tickets created for the given numbers: one PENDING ticket each, in order, with a generated grid. */
  predicate CreatedFor(created: seq<NewTicket>, gameId: string, userId: string, numbers: seq<int>) {
    |created| == |numbers| &&
    forall i :: 0 <= i < |created| ==>
      created[i].gameId == gameId && created[i].userId == userId &&
      created[i].ticketNumber == numbers[i] && created[i].status == Pending &&
      Generator.WellFormed(created[i].numbers)
  }

  /** `numbers.map(ticketNumber => ({ …, numbers: generateTicket(), status: "PENDING" }))` */
  method MakeTickets(gameId: string, userId: string, numbers: seq<int>) returns (created: seq<NewTicket>)
    ensures CreatedFor(created, gameId, userId, numbers)
  {
    created := [];
    for k := 0 to |numbers|
      invariant CreatedFor(created, gameId, userId, numbers[..k])
    {
      var grid := Generator.GenerateTicket();
      created := created + [NewTicket(gameId, userId, numbers[k], grid, Pending)];
    }
    assert numbers[..|numbers|] == numbers;
  }

  /**
   * POST /api/tickets/buy. Refusals are those of `Check`, plus, for a
   * quantity, too few free numbers. A specific booking creates a ticket per
   * requested number, in order; a random booking creates `quantity`
   * tickets on distinct free numbers and answers with them sorted. Either
   * way the sold count grows by the tickets created.
   */
  method Book(userId: Option<string>, body: Body, games: map<string, Game>, tickets: seq<Ticket>)
    returns (out: Result<Booked, BookError>)
    ensures var c := Check(userId, body, games, tickets);
      c.Err? ==> out == Err(c.error)
    ensures var c := Check(userId, body, games, tickets);
      c.Ok? && c.value.BookGiven? ==>
        out.Ok? &&
        out.value.game == c.value.game.(soldTickets := c.value.game.soldTickets + |c.value.numbers|) &&
        out.value.ticketNumbers == c.value.numbers &&
        CreatedFor(out.value.created, c.value.gameId, userId.value, c.value.numbers)
    ensures var c := Check(userId, body, games, tickets);
      c.Ok? && c.value.BookRandom? ==>
        var free := Available(c.value.game.totalTickets, BookedNumbers(tickets, c.value.gameId));
        (out.Err? <==> |free| < c.value.quantity) &&
        (out.Err? ==> out.error == NotEnoughTickets) &&
        (out.Ok? ==>
          out.value.game == c.value.game.(soldTickets := c.value.game.soldTickets + c.value.quantity) &&
          |out.value.ticketNumbers| == c.value.quantity &&
          StrictlyAscending(out.value.ticketNumbers) &&
          (forall i :: 0 <= i < |out.value.ticketNumbers| ==> out.value.ticketNumbers[i] in free) &&
          exists chosen :: multiset(chosen) == multiset(out.value.ticketNumbers) &&
            CreatedFor(out.value.created, c.value.gameId, userId.value, chosen))
  {
    var c := Check(userId, body, games, tickets);
    if c.Err? {
      return Err(c.error);
    }
    match c.value
    case BookGiven(id, g, ns) =>
      var created := MakeTickets(id, userId.value, ns);
      out := Ok(Booked(g.(soldTickets := g.soldTickets + |ns|), created, ns));
    case BookRandom(id, g, q) =>
      var free := AvailableNumbers(g.totalTickets, BookedNumbers(tickets, id));
      if |free| < q {
        return Err(NotEnoughTickets);
      }
      var chosen := SelectNumbers(free, q);
      var created := MakeTickets(id, userId.value, chosen);
      var sorted := Sort(chosen);
      DistinctPart(chosen, sorted);
      AscendingDistinct(sorted);
      forall i | 0 <= i < |sorted| ensures sorted[i] in free {
        assert sorted[i] in multiset(chosen);
      }
      out := Ok(Booked(g.(soldTickets := g.soldTickets + q), created, sorted));
  }
}
