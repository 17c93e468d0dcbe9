/**
 * Game creation, POST in src/app/api/games/route.ts.
 *
 * The body is tried against the current schema first (winning rules with
 * embedded prizes); only if that fails is it tried against the legacy
 * schema (a flat list of named money prizes), which is converted into one
 * FULL_HOUSE rule. A body that fits neither is refused. The legacy document
 * carries no `ticketXpCost`, which the Game schema requires, so only a body
 * of the current schema ever yields a game. Every created game is WAITING,
 * with nothing drawn and nothing sold.
 *
 * A parsed JSON body is modelled by `Body`: every field may be missing. An
 * enum field without a default holds `None` when it is missing or not one
 * of the enum's values, since the schema refuses both. A prize's `status`,
 * whose default applies only when it is missing, tells the two apart
 * (`EnumInput`). Unknown fields are dropped by parsing, so a parsed prize never
 * carries a winner. The administrator lookup becomes the flag `isAdmin`.
 */
module GamesRoute {
  import opened Seqs
  import opened GameModel

  /** An enum field with a default: missing, present but not an enum value, or a value. */
  datatype EnumInput<T> = Absent | Invalid | Given(value: T)

  datatype PrizeInput = PrizeInput(
    name: Option<string>,
    amount: Option<int>,
    xpPoints: Option<int>,
    position: Option<int>,
    ruleType: Option<RuleType>,
    status: EnumInput<PrizeStatus>)

  /** A winning rule as sent; `kind` is the JSON field `type`. */
  datatype RuleInput = RuleInput(
    kind: Option<RuleType>,
    maxWinners: Option<int>,
    currentWinners: Option<int>,
    isCompleted: Option<bool>,
    prizes: Option<seq<PrizeInput>>)

  datatype AutoCloseInput = AutoCloseInput(
    enabled: Option<bool>,
    afterWinners: Option<int>,
    currentTotalWinners: Option<int>)

  datatype Body = Body(
    name: Option<string>,
    ticketXpCost: Option<int>,
    ticketPrice: Option<int>,
    totalTickets: Option<int>,
    winningRules: Option<seq<RuleInput>>,
    autoClose: Option<AutoCloseInput>,
    prizes: Option<seq<PrizeInput>>)

  /** 401, 400 "Invalid request data", and the 500 of a save the Game schema refuses. */
  datatype CreateError = Unauthorized | InvalidRequest | SaveFailed

  datatype Result<T, E> = Ok(value: T) | Err(error: E)

  /** A list parses when each element does; the result keeps the order. */
  function ParseAll<A, B>(xs: seq<A>, parse: A -> Option<B>): (r: Option<seq<B>>)
    ensures r.Some? <==> forall i :: 0 <= i < |xs| ==> parse(xs[i]).Some?
    ensures r.Some? ==> |r.value| == |xs| && forall i :: 0 <= i < |xs| ==> r.value[i] == parse(xs[i]).value
  {
    if xs == [] then Some([])
    else
      var n := |xs| - 1;
      match (ParseAll(xs[..n], parse), parse(xs[n]))
      case (Some(init), Some(last)) => Some(init + [last])
      case _ => None
  }

  function GetOr<T>(o: Option<T>, default: T): T {
    if o.Some? then o.value else default
  }

  /**
   * prizeSchema: a name, XP of at least 0, a position of at least 1, a rule
   * type, and a status that is OPEN when missing and refused when invalid.
   */
  function ParsePrize(p: PrizeInput): (r: Option<Prize>)
    ensures p.status.Invalid? ==> r.None?
    ensures r.Some? <==>
      p.name.Some? && |p.name.value| >= 1 && p.xpPoints.Some? && p.xpPoints.value >= 0 &&
      p.position.Some? && p.position.value >= 1 && p.ruleType.Some? && !p.status.Invalid?
    ensures r.Some? ==> r.value.status == (if p.status.Given? then p.status.value else Open)
    ensures r.Some? ==> r.value.winner.None? && r.value.winnerTicketId.None?
    ensures r.Some? ==> (PrizeWellFormed(r.value) <==> r.value.status == Open)
  {
    if p.name.Some? && |p.name.value| >= 1 && p.xpPoints.Some? && p.xpPoints.value >= 0 &&
       p.position.Some? && p.position.value >= 1 && p.ruleType.Some? && !p.status.Invalid?
    then Some(Prize(p.name.value, p.xpPoints.value, p.position.value, p.ruleType.value, None, None,
      if p.status.Given? then p.status.value else Open))
    else None
  }

  /** winningRuleSchema: 1 to 10 winners, at least one prize; counters default to zero and false. */
  function ParseRule(r: RuleInput): (w: Option<WinningRule>)
    ensures w.Some? ==> r.kind == Some(w.value.kind) && 1 <= w.value.maxWinners <= 10
    ensures w.Some? ==> r.prizes.Some? && |w.value.prizes| == |r.prizes.value| >= 1
    ensures r.currentWinners.None? && r.isCompleted.None? && w.Some? ==>
      w.value.currentWinners == 0 && !w.value.isCompleted
  {
    if r.kind.Some? && r.maxWinners.Some? && 1 <= r.maxWinners.value <= 10 && r.prizes.Some? &&
       |r.prizes.value| >= 1 && ParseAll(r.prizes.value, ParsePrize).Some?
    then Some(WinningRule(r.kind.value, r.maxWinners.value, GetOr(r.currentWinners, 0),
      GetOr(r.isCompleted, false), ParseAll(r.prizes.value, ParsePrize).value))
    else None
  }

  /** autoCloseSchema: a flag and at least one winner; the tally defaults to zero. */
  function ParseAutoClose(a: AutoCloseInput): (r: Option<AutoClose>)
    ensures r.Some? <==> a.enabled.Some? && a.afterWinners.Some? && a.afterWinners.value >= 1
    ensures r.Some? ==> r.value.afterWinners >= 1 && r.value.enabled == a.enabled.value
    ensures a.currentTotalWinners.None? && r.Some? ==> r.value.currentTotalWinners == 0
  {
    if a.enabled.Some? && a.afterWinners.Some? && a.afterWinners.value >= 1
    then Some(AutoClose(a.enabled.value, a.afterWinners.value, GetOr(a.currentTotalWinners, 0)))
    else None
  }

  /** The fields the current schema keeps. */
  datatype NewData = NewData(name: string, ticketXpCost: int, totalTickets: int, rules: seq<WinningRule>, autoClose: AutoClose)

  /** createGameSchema; its optional `prizes` list must parse when present, but is not used. */
  function ParseNew(b: Body): (r: Option<NewData>)
    ensures r.Some? ==>
      |r.value.name| >= 3 && r.value.ticketXpCost >= 0 && r.value.totalTickets >= 1 &&
      b.winningRules.Some? && |r.value.rules| == |b.winningRules.value| >= 1 && r.value.autoClose.afterWinners >= 1
    ensures r.Some? ==> forall i :: 0 <= i < |r.value.rules| ==>
      1 <= r.value.rules[i].maxWinners <= 10 && |r.value.rules[i].prizes| >= 1
  {
    if b.name.Some? && |b.name.value| >= 3 && b.ticketXpCost.Some? && b.ticketXpCost.value >= 0 &&
       b.totalTickets.Some? && b.totalTickets.value >= 1 && b.winningRules.Some? &&
       |b.winningRules.value| >= 1 && ParseAll(b.winningRules.value, ParseRule).Some? &&
       b.autoClose.Some? && ParseAutoClose(b.autoClose.value).Some? &&
       (b.prizes.Some? ==> ParseAll(b.prizes.value, ParsePrize).Some?)
    then Some(NewData(b.name.value, b.ticketXpCost.value, b.totalTickets.value,
      ParseAll(b.winningRules.value, ParseRule).value, ParseAutoClose(b.autoClose.value).value))
    else None
  }

  /** A legacy prize: any name and a money amount. */
  datatype LegacyPrize = LegacyPrize(name: string, amount: int)

  datatype LegacyData = LegacyData(name: string, ticketPrice: int, totalTickets: int, prizes: seq<LegacyPrize>)

  function ParseLegacyPrize(p: PrizeInput): Option<LegacyPrize> {
    if p.name.Some? && p.amount.Some? then Some(LegacyPrize(p.name.value, p.amount.value)) else None
  }

  /** legacyCreateGameSchema: a ticket price of at least 1, at least 5 tickets, at least one prize. */
  function ParseLegacy(b: Body): (r: Option<LegacyData>)
    ensures r.Some? ==>
      |r.value.name| >= 3 && r.value.ticketPrice >= 1 && r.value.totalTickets >= 5 &&
      b.prizes.Some? && |r.value.prizes| == |b.prizes.value| >= 1
    ensures b.ticketPrice.None? ==> r.None?
  {
    if b.name.Some? && |b.name.value| >= 3 && b.ticketPrice.Some? && b.ticketPrice.value >= 1 &&
       b.totalTickets.Some? && b.totalTickets.value >= 5 && b.prizes.Some? && |b.prizes.value| >= 1 &&
       ParseAll(b.prizes.value, ParseLegacyPrize).Some?
    then Some(LegacyData(b.name.value, b.ticketPrice.value, b.totalTickets.value,
      ParseAll(b.prizes.value, ParseLegacyPrize).value))
    else None
  }

  /** A rule's prizes, each given the rule's type. */
  function Retag(prizes: seq<Prize>, kind: RuleType): (r: seq<Prize>)
    ensures |r| == |prizes|
    ensures forall j :: 0 <= j < |r| ==> r[j] == prizes[j].(ruleType := kind)
  {
    seq(|prizes|, j requires 0 <= j < |prizes| => prizes[j].(ruleType := kind))
  }

  /** `winningRules.flatMap(rule => rule.prizes.map(prize => ({ ...prize, ruleType: rule.type })))` */
  function FlattenPrizes(rules: seq<WinningRule>): seq<Prize> {
    if rules == [] then []
    else
      var n := |rules| - 1;
      FlattenPrizes(rules[..n]) + Retag(rules[n].prizes, rules[n].kind)
  }

  /** The number of prizes of the first k rules. */
  function PrizesBefore(rules: seq<WinningRule>, k: nat): nat
    requires k <= |rules|
  {
    if k == 0 then 0 else PrizesBefore(rules, k - 1) + |rules[k - 1].prizes|
  }

  /** The flattened list is as long as all the rules' prize lists together. */
  lemma {:induction false} FlattenLength(rules: seq<WinningRule>)
    ensures |FlattenPrizes(rules)| == PrizesBefore(rules, |rules|)
  {
    if rules != [] {
      var n := |rules| - 1;
      FlattenLength(rules[..n]);
      PrizesBeforePrefix(rules, n);
    }
  }

  /**
   * The flattened list holds the prizes of rule 0, then of rule 1, and so
   * on: prize j of rule i sits at PrizesBefore(rules, i) + j, retagged with
   * the rule's type.
   */
  lemma {:induction false} FlattenAt(rules: seq<WinningRule>, i: int, j: int)
    requires 0 <= i < |rules| && 0 <= j < |rules[i].prizes|
    ensures PrizesBefore(rules, i) + j < |FlattenPrizes(rules)|
    ensures FlattenPrizes(rules)[PrizesBefore(rules, i) + j] == rules[i].prizes[j].(ruleType := rules[i].kind)
  {
    var n := |rules| - 1;
    var init := rules[..n];
    var front, back := FlattenPrizes(init), Retag(rules[n].prizes, rules[n].kind);
    assert FlattenPrizes(rules) == front + back;
    FlattenLength(init);
    PrizesBeforePrefix(rules, n);
    assert |front| == PrizesBefore(rules, n);
    if i < n {
      FlattenAt(init, i, j);
      PrizesBeforePrefix(rules, i + 1);
      PrizesBeforeGrows(rules, i + 1, n);
      assert init[i] == rules[i];
    }
  }

  /** PrizesBefore counts only the rules before k, so a prefix of at least k rules gives the same count. */
  lemma {:induction false} PrizesBeforePrefix(rules: seq<WinningRule>, k: nat)
    requires k <= |rules|
    ensures forall m :: k <= m <= |rules| ==> PrizesBefore(rules[..m], k) == PrizesBefore(rules, k)
  {
    if k > 0 {
      PrizesBeforePrefix(rules, k - 1);
    }
  }

  lemma {:induction false} PrizesBeforeGrows(rules: seq<WinningRule>, k: nat, m: nat)
    requires k <= m <= |rules|
    ensures PrizesBefore(rules, k) <= PrizesBefore(rules, m)
    decreases m - k
  {
    if k < m {
      PrizesBeforeGrows(rules, k, m - 1);
    }
  }

  /** A legacy prize converted: 100 XP, position index + 1, FULL_HOUSE, OPEN. */
  function ConvertPrizes(prizes: seq<LegacyPrize>): (r: seq<Prize>)
    ensures |r| == |prizes|
    ensures forall i :: 0 <= i < |r| ==>
      r[i] == Prize(prizes[i].name, 100, i + 1, FullHouse, None, None, Open)
  {
    seq(|prizes|, i requires 0 <= i < |prizes| => Prize(prizes[i].name, 100, i + 1, FullHouse, None, None, Open))
  }

  /**
   * A document as handed to `Game.create`: the fields the Game schema knows,
   * with `ticketXpCost` missing when the caller sends none. Fields outside
   * the schema (the legacy `ticketPrice`, a prize's `amount`) are dropped.
   */
  datatype Document = Document(
    name: string,
    ticketXpCost: Option<int>,
    totalTickets: int,
    createdBy: string,
    prizes: seq<Prize>,
    winningRules: seq<WinningRule>,
    autoClose: AutoClose)

  /**
   * `Game.create`: the schema requires `ticketXpCost` with a minimum of 0, so
   * a document without one is refused (the 500 of the catch block); the
   * stored game takes the schema defaults WAITING, nothing sold and nothing
   * drawn.
   */
  function Save(doc: Document): (r: Result<Game, CreateError>)
    ensures r.Ok? <==> doc.ticketXpCost.Some? && doc.ticketXpCost.value >= 0
    ensures r.Err? ==> r.error == SaveFailed
    ensures r.Ok? ==> r.value.status == Waiting && r.value.soldTickets == 0 && r.value.drawnNumbers == []
    ensures r.Ok? ==> r.value.ticketXpCost == doc.ticketXpCost.value && r.value.name == doc.name
    ensures r.Ok? ==> r.value.totalTickets == doc.totalTickets && r.value.createdBy == doc.createdBy
    ensures r.Ok? ==> r.value.prizes == doc.prizes && r.value.winningRules == doc.winningRules
    ensures r.Ok? ==> r.value.autoClose == doc.autoClose
  {
    if doc.ticketXpCost.Some? && doc.ticketXpCost.value >= 0 then
      Ok(Game(doc.name, Waiting, doc.ticketXpCost.value, doc.totalTickets, 0, doc.createdBy, [],
        doc.prizes, doc.winningRules, doc.autoClose))
    else Err(SaveFailed)
  }

  /**
   * A rule with a prize whose status is present but not an enum value
   * spoils the whole body for the current schema; without a ticket price
   * the legacy schema fails too, and the request is refused as invalid.
   */
  lemma InvalidStatusRefused(userId: string, body: Body, i: int, k: int)
    requires body.winningRules.Some? && 0 <= i < |body.winningRules.value|
    requires body.winningRules.value[i].prizes.Some? && 0 <= k < |body.winningRules.value[i].prizes.value|
    requires body.winningRules.value[i].prizes.value[k].status.Invalid?
    requires body.ticketPrice.None?
    ensures Create(Some(userId), true, body) == Err(InvalidRequest)
  {
    var rule := body.winningRules.value[i];
    assert ParsePrize(rule.prizes.value[k]).None?;
    assert ParseRule(rule).None?;
  }

  /** The document built from a body of the current schema. */
  function NewDocument(d: NewData, userId: string): Document {
    Document(d.name, Some(d.ticketXpCost), d.totalTickets, userId, FlattenPrizes(d.rules), d.rules, d.autoClose)
  }

  /** The game stored for a body of the current schema. */
  function NewGame(d: NewData, userId: string): Game {
    Game(d.name, Waiting, d.ticketXpCost, d.totalTickets, 0, userId, [],
      FlattenPrizes(d.rules), d.rules, d.autoClose)
  }

  /**
   * The document the legacy branch tries to store: no XP cost, one
   * FULL_HOUSE rule as wide as the prize list.
   */
  function LegacyDocument(d: LegacyData, userId: string): Document {
    var converted := ConvertPrizes(d.prizes);
    Document(d.name, None, d.totalTickets, userId, converted,
      [WinningRule(FullHouse, |d.prizes|, 0, false, converted)],
      AutoClose(true, |d.prizes|, 0))
  }

  /**
   * POST /api/games. The legacy branch never stores a game: its document
   * lacks the required `ticketXpCost`, so the save fails.
   */
  function Create(userId: Option<string>, isAdmin: bool, body: Body): (r: Result<Game, CreateError>)
    ensures userId.None? || !isAdmin ==> r == Err(Unauthorized)
    ensures r.Ok? ==> r.value.status == Waiting && r.value.drawnNumbers == [] && r.value.soldTickets == 0
    ensures r.Ok? ==> r.value.createdBy == userId.value
    ensures userId.Some? && isAdmin && ParseNew(body).Some? ==> r == Ok(NewGame(ParseNew(body).value, userId.value))
    ensures r.Ok? <==> userId.Some? && isAdmin && ParseNew(body).Some?
    ensures r == Err(SaveFailed) <==>
      userId.Some? && isAdmin && ParseNew(body).None? && ParseLegacy(body).Some?
    ensures r == Err(InvalidRequest) <==>
      userId.Some? && isAdmin && ParseNew(body).None? && ParseLegacy(body).None?
  {
    if userId.None? || !isAdmin then Err(Unauthorized)
    else if ParseNew(body).Some? then Save(NewDocument(ParseNew(body).value, userId.value))
    else if ParseLegacy(body).Some? then Save(LegacyDocument(ParseLegacy(body).value, userId.value))
    else Err(InvalidRequest)
  }

  /**
   * The legacy document is consistent as far as it goes (every rule
   * consistent, the tally equal to the rules' winners), and its auto-close
   * limit is its only rule's limit; only the missing XP cost stops it.
   */
  lemma LegacyDocumentConsistent(d: LegacyData, userId: string)
    requires |d.prizes| >= 1
    ensures var doc := LegacyDocument(d, userId);
      (forall i :: 0 <= i < |doc.winningRules| ==> RuleInv(doc.winningRules[i])) &&
      doc.autoClose.currentTotalWinners == SumWinners(doc.winningRules)
    ensures var doc := LegacyDocument(d, userId);
      |doc.winningRules| == 1 && doc.autoClose.afterWinners == doc.winningRules[0].maxWinners
    ensures Save(LegacyDocument(d, userId)) == Err(SaveFailed)
  {
    var doc := LegacyDocument(d, userId);
    FreshRule(doc.winningRules[0]);
    assert doc.winningRules[..0] == [];
  }

  /**
   * In a consistent game shaped like a legacy one, the winner limit is
   * reached exactly when the only rule is completed, so the two auto-close
   * reasons coincide for it at every point of play.
   */
  lemma LegacyCloseReasonsCoincide(g: Game)
    requires GameInv(g) && |g.winningRules| == 1
    requires g.autoClose.afterWinners == g.winningRules[0].maxWinners
    ensures g.autoClose.currentTotalWinners >= g.autoClose.afterWinners <==> g.winningRules[0].isCompleted
  {
    assert g.winningRules[..0] == [];
    assert SumWinners(g.winningRules) == g.winningRules[0].currentWinners;
    assert RuleInv(g.winningRules[0]);
  }

  /**
   * A game of the current schema whose rules arrive with zero counters, no
   * completion flag, OPEN prizes and a zero tally is consistent.
   */
  lemma NewGameConsistent(d: NewData, userId: string)
    requires forall i :: 0 <= i < |d.rules| ==>
      d.rules[i].currentWinners == 0 && !d.rules[i].isCompleted && d.rules[i].maxWinners >= 1 &&
      forall k :: 0 <= k < |d.rules[i].prizes| ==>
        d.rules[i].prizes[k].status == Open && d.rules[i].prizes[k].winner.None? &&
        d.rules[i].prizes[k].winnerTicketId.None?
    requires d.autoClose.currentTotalWinners == 0
    ensures GameInv(NewGame(d, userId))
  {
    forall i | 0 <= i < |d.rules| ensures RuleInv(d.rules[i]) {
      FreshRule(d.rules[i]);
    }
    SumZero(d.rules);
  }
}
