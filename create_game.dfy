/**
 * The admin's create-game dialog, src/components/admin/create-game-dialog.tsx:
 * the catalogue of winning-rule types, the form's validation bounds, the
 * three-step wizard, and the request body `onSubmit` sends to POST
 * /api/games.
 *
 * The body is built from the validated form: every rule starts with no
 * winners and not completed, every prize gets its position from its place
 * in the rule, the rule's type and the status OPEN, the winner limit falls
 * back to the sum of the rules' winner counts, and a flat copy of all
 * prizes rides along for older servers. The model follows that body through
 * the route's parser to the game it creates.
 *
 * Rendering, toasts and the form library's string-to-number preprocessing
 * are not modelled; form numbers are integers.
 */
module CreateGame {
  import opened Seqs
  import opened GameModel
  import opened GamesRoute

  // ---------------------------------------------------------------------
  // The catalogue of rule types.
  // ---------------------------------------------------------------------

  /** WINNING_RULE_TYPES, in the order the dialog lists them. */
  const Catalogue: seq<RuleType> := [FullHouse, TopLine, MiddleLine, BottomLine, EarlyFive, Corners]

  /** Where a rule type sits in the catalogue; every type is listed. */
  function CatalogueIndex(t: RuleType): (k: nat)
    ensures k < |Catalogue| && Catalogue[k] == t
  {
    match t
    case FullHouse => 0
    case TopLine => 1
    case MiddleLine => 2
    case BottomLine => 3
    case EarlyFive => 4
    case Corners => 5
  }

  predicate InCatalogueOrder(s: seq<RuleType>) {
    forall a, b :: 0 <= a < b < |s| ==> CatalogueIndex(s[a]) < CatalogueIndex(s[b])
  }

  /** The types of `types` not in `used`, in their order. */
  function Unused(types: seq<RuleType>, used: seq<RuleType>): (r: seq<RuleType>)
    ensures forall t :: t in r <==> t in types && t !in used
    ensures |r| <= |types|
  {
    if types == [] then []
    else
      var rest := Unused(types[1..], used);
      if types[0] in used then rest else [types[0]] + rest
  }

  /** Filtering keeps the catalogue order. */
  lemma {:induction false} UnusedOrdered(types: seq<RuleType>, used: seq<RuleType>)
    requires InCatalogueOrder(types)
    ensures InCatalogueOrder(Unused(types, used))
  {
    if types != [] {
      var tail := types[1..];
      assert InCatalogueOrder(tail) by {
        forall a, b | 0 <= a < b < |tail| ensures CatalogueIndex(tail[a]) < CatalogueIndex(tail[b]) {
          assert tail[a] == types[a + 1] && tail[b] == types[b + 1];
        }
      }
      UnusedOrdered(tail, used);
      var rest := Unused(tail, used);
      if types[0] !in used {
        var r := [types[0]] + rest;
        forall a, b | 0 <= a < b < |r| ensures CatalogueIndex(r[a]) < CatalogueIndex(r[b]) {
          if a == 0 {
            assert r[b] == rest[b - 1];
            assert rest[b - 1] in tail;
            var k :| 0 <= k < |tail| && tail[k] == rest[b - 1];
            assert tail[k] == types[k + 1];
          } else {
            assert r[a] == rest[a - 1] && r[b] == rest[b - 1];
          }
        }
      }
    }
  }

  /**
   * getAvailableRuleTypes: the catalogue types no rule of the form uses yet,
   * in catalogue order, each once.
   */
  function AvailableRuleTypes(used: seq<RuleType>): (r: seq<RuleType>)
    ensures forall t :: t in r <==> t !in used
    ensures InCatalogueOrder(r) && Distinct(r)
  {
    CatalogueOrdered();
    UnusedOrdered(Catalogue, used);
    CatalogueComplete();
    var r := Unused(Catalogue, used);
    OrderedDistinct(r);
    r
  }

  /** Types in strict catalogue order are distinct. */
  lemma OrderedDistinct(s: seq<RuleType>)
    requires InCatalogueOrder(s)
    ensures Distinct(s)
  {
    forall i, j | 0 <= i < j < |s| ensures s[i] != s[j] {
      assert CatalogueIndex(s[i]) < CatalogueIndex(s[j]);
    }
  }

  /** The catalogue lists each type at its own index. */
  lemma CatalogueOrdered()
    ensures InCatalogueOrder(Catalogue)
  {
    forall k | 0 <= k < |Catalogue| ensures CatalogueIndex(Catalogue[k]) == k {
    }
  }

  /** Every rule type is in the catalogue. */
  lemma CatalogueComplete()
    ensures forall t :: t in Catalogue
  {
    forall t ensures t in Catalogue {
      assert Catalogue[CatalogueIndex(t)] == t;
    }
  }

  // ---------------------------------------------------------------------
  // The form and its validation.
  // ---------------------------------------------------------------------

  datatype FormPrize = FormPrize(name: string, xpPoints: int, position: int)

  /** A rule as the form holds it; `kind` is the field `type`. */
  datatype FormRule = FormRule(kind: RuleType, maxWinners: int, prizes: seq<FormPrize>)

  datatype FormAutoClose = FormAutoClose(enabled: bool, afterWinners: Option<int>)

  datatype Form = Form(
    name: string,
    totalTickets: int,
    ticketXpCost: int,
    rules: seq<FormRule>,
    autoClose: FormAutoClose)

  /** The dialog's prizeSchema: a name and at least 1 XP. */
  predicate PrizeValid(p: FormPrize) {
    |p.name| >= 1 && p.xpPoints >= 1 && p.position >= 1
  }

  /** The dialog's winningRuleSchema: 1 to 10 winners and at least one prize. */
  predicate RuleValid(r: FormRule) {
    1 <= r.maxWinners <= 10 && |r.prizes| >= 1 &&
    forall k :: 0 <= k < |r.prizes| ==> PrizeValid(r.prizes[k])
  }

  /** The dialog's gameSchema. */
  predicate FormValid(f: Form) {
    |f.name| >= 3 && f.totalTickets >= 5 && f.ticketXpCost >= 0 && |f.rules| >= 1 &&
    (forall i :: 0 <= i < |f.rules| ==> RuleValid(f.rules[i])) &&
    (f.autoClose.afterWinners.Some? ==> f.autoClose.afterWinners.value >= 1)
  }

  /** The rule `addWinningRule` appends: one winner, one prize of 200 XP. */
  function NewRule(kind: RuleType): (r: FormRule)
    ensures r.kind == kind && RuleValid(r)
  {
    FormRule(kind, 1, [FormPrize("1st Prize", 200, 1)])
  }

  function Kinds(rules: seq<FormRule>): (r: seq<RuleType>)
    ensures |r| == |rules| && forall i :: 0 <= i < |rules| ==> r[i] == rules[i].kind
  {
    seq(|rules|, i requires 0 <= i < |rules| => rules[i].kind)
  }

  /** addWinningRule */
  function AddRule(f: Form, kind: RuleType): Form {
    f.(rules := f.rules + [NewRule(kind)])
  }

  /**
   * Adding a rule keeps the form valid, and adding one of the offered
   * types keeps the rule types distinct; that type is then no longer offered.
   */
  lemma AddRuleKeepsForm(f: Form, kind: RuleType)
    requires kind in AvailableRuleTypes(Kinds(f.rules))
    ensures FormValid(f) ==> FormValid(AddRule(f, kind))
    ensures Distinct(Kinds(f.rules)) ==> Distinct(Kinds(AddRule(f, kind).rules))
    ensures kind !in AvailableRuleTypes(Kinds(AddRule(f, kind).rules))
  {
    var g := AddRule(f, kind);
    assert g.rules[|f.rules|] == NewRule(kind);
    assert Kinds(g.rules)[|f.rules|] == kind;
  }

  /** defaultValues */
  const DefaultForm := Form("", 100, 10, [FormRule(FullHouse, 1, [FormPrize("1st Prize", 500, 1)])],
    FormAutoClose(true, Some(1)))

  /** The default form lacks only a name: it is refused as it stands and accepted once named. */
  lemma DefaultFormNeedsName(name: string)
    ensures !FormValid(DefaultForm)
    ensures FormValid(DefaultForm.(name := name)) <==> |name| >= 3
  {
    assert RuleValid(DefaultForm.rules[0]);
  }

  // ---------------------------------------------------------------------
  // The wizard's steps.
  // ---------------------------------------------------------------------

  const TotalSteps := 3

  /** Next: one step on, never past the last step. */
  function NextStep(s: int): (r: int)
    ensures r <= TotalSteps
    ensures s < TotalSteps ==> r == s + 1
    ensures 1 <= s ==> 1 <= r
  {
    if s + 1 <= TotalSteps then s + 1 else TotalSteps
  }

  /** Back: one step back, never before the first step. */
  function PrevStep(s: int): (r: int)
    ensures r >= 1
    ensures s > 1 ==> r == s - 1
    ensures s <= TotalSteps ==> r <= TotalSteps
  {
    if s - 1 >= 1 then s - 1 else 1
  }

  /** The step after a run of clicks, `true` for Next and `false` for Back. */
  function Walk(s: int, clicks: seq<bool>): int
    decreases |clicks|
  {
    if clicks == [] then s
    else Walk(if clicks[0] then NextStep(s) else PrevStep(s), clicks[1..])
  }

  /** Starting on a real step, no run of clicks leaves steps 1 to 3. */
  lemma {:induction false} WalkInRange(s: int, clicks: seq<bool>)
    requires 1 <= s <= TotalSteps
    ensures 1 <= Walk(s, clicks) <= TotalSteps
    decreases |clicks|
  {
    if clicks != [] {
      WalkInRange(if clicks[0] then NextStep(s) else PrevStep(s), clicks[1..]);
    }
  }

  /** Next then Back returns to the step, except on the last step where Next does nothing. */
  lemma NextThenBack(s: int)
    requires 1 <= s <= TotalSteps
    ensures PrevStep(NextStep(s)) == (if s < TotalSteps then s else TotalSteps - 1)
    ensures NextStep(PrevStep(s)) == (if s > 1 then s else 2)
  {
  }

  // ---------------------------------------------------------------------
  // The request body.
  // ---------------------------------------------------------------------

  /** The sum of the rules' maxWinners (`reduce` from the left). */
  function TotalMaxWinners(rules: seq<FormRule>): int {
    if rules == [] then 0
    else TotalMaxWinners(rules[..|rules| - 1]) + rules[|rules| - 1].maxWinners
  }

  /** Each valid rule adds 1 to 10 winners to the total. */
  lemma {:induction false} TotalMaxWinnersBounds(rules: seq<FormRule>)
    requires forall i :: 0 <= i < |rules| ==> RuleValid(rules[i])
    ensures |rules| <= TotalMaxWinners(rules) <= 10 * |rules|
  {
    if rules != [] {
      TotalMaxWinnersBounds(rules[..|rules| - 1]);
      assert RuleValid(rules[|rules| - 1]);
    }
  }

  /**
   * The winner limit sent: the admin's number when auto-close is on and a
   * non-zero number was given, otherwise the sum of the rules' maxWinners.
   */
  function AfterWinners(f: Form): (r: int)
    ensures FormValid(f) ==> r >= 1
    ensures f.autoClose.enabled && f.autoClose.afterWinners.Some? && f.autoClose.afterWinners.value >= 1 ==>
      r == f.autoClose.afterWinners.value
    ensures !f.autoClose.enabled || f.autoClose.afterWinners.None? ==> r == TotalMaxWinners(f.rules)
  {
    var a := f.autoClose.afterWinners;
    var r := if f.autoClose.enabled && a.Some? && a.value != 0 then a.value else TotalMaxWinners(f.rules);
    assert FormValid(f) ==> r >= 1 by {
      if FormValid(f) {
        TotalMaxWinnersBounds(f.rules);
      }
    }
    r
  }

  /** A rule's prizes as sent: position from the index, the rule's type, OPEN. */
  function PrizeInputs(r: FormRule): seq<PrizeInput> {
    seq(|r.prizes|, k requires 0 <= k < |r.prizes| =>
      PrizeInput(Some(r.prizes[k].name), None, Some(r.prizes[k].xpPoints), Some(k + 1), Some(r.kind), Given(Open)))
  }

  /** A rule as sent: no winners yet, not completed. */
  function RuleInputOf(r: FormRule): RuleInput {
    RuleInput(Some(r.kind), Some(r.maxWinners), Some(0), Some(false), Some(PrizeInputs(r)))
  }

  function RuleInputs(rules: seq<FormRule>): seq<RuleInput> {
    seq(|rules|, i requires 0 <= i < |rules| => RuleInputOf(rules[i]))
  }

  /** The legacy `prizes` array: every rule's prizes as sent, rule after rule (`flatMap`). */
  function LegacyPrizes(rules: seq<FormRule>): seq<PrizeInput> {
    if rules == [] then []
    else LegacyPrizes(rules[..|rules| - 1]) + PrizeInputs(rules[|rules| - 1])
  }

  /** The body onSubmit posts; it sends no ticket price. */
  function Payload(f: Form): (r: Body)
    ensures ParseLegacy(r).None?
    ensures r.winningRules.Some? && |r.winningRules.value| == |f.rules|
  {
    Body(Some(f.name), Some(f.ticketXpCost), None, Some(f.totalTickets),
      Some(RuleInputs(f.rules)),
      Some(AutoCloseInput(Some(f.autoClose.enabled), Some(AfterWinners(f)), Some(0))),
      Some(LegacyPrizes(f.rules)))
  }

  // ---------------------------------------------------------------------
  // What the route makes of the body.
  // ---------------------------------------------------------------------

  /** The rule the game should hold for a form rule. */
  function StoredRule(r: FormRule): WinningRule {
    WinningRule(r.kind, r.maxWinners, 0, false,
      seq(|r.prizes|, k requires 0 <= k < |r.prizes| =>
        Prize(r.prizes[k].name, r.prizes[k].xpPoints, k + 1, r.kind, None, None, Open)))
  }

  function StoredRules(rules: seq<FormRule>): (r: seq<WinningRule>)
    ensures |r| == |rules| && forall i :: 0 <= i < |rules| ==> r[i] == StoredRule(rules[i])
  {
    seq(|rules|, i requires 0 <= i < |rules| => StoredRule(rules[i]))
  }

  /** A valid rule's prizes, as sent, parse to the stored rule's prizes. */
  lemma PrizesParse(r: FormRule)
    requires RuleValid(r)
    ensures ParseAll(PrizeInputs(r), ParsePrize) == Some(StoredRule(r).prizes)
  {
    var ins, want := PrizeInputs(r), StoredRule(r).prizes;
    forall k | 0 <= k < |ins| ensures ParsePrize(ins[k]) == Some(want[k]) {
      assert PrizeValid(r.prizes[k]);
    }
    var parsed := ParseAll(ins, ParsePrize);
    assert parsed.Some?;
    assert parsed.value == want;
  }

  /** A valid rule, as sent, parses to the stored rule. */
  lemma RuleParses(r: FormRule)
    requires RuleValid(r)
    ensures ParseRule(RuleInputOf(r)) == Some(StoredRule(r))
  {
    PrizesParse(r);
  }

  /** Parsing a concatenation parses each part. */
  lemma {:induction false} ParseAllAppend<A, B>(xs: seq<A>, ys: seq<A>, parse: A -> Option<B>)
    requires ParseAll(xs, parse).Some? && ParseAll(ys, parse).Some?
    ensures ParseAll(xs + ys, parse) == Some(ParseAll(xs, parse).value + ParseAll(ys, parse).value)
  {
    if ys == [] {
      assert xs + ys == xs;
      assert ParseAll(ys, parse).value == [];
      assert ParseAll(xs, parse).value + [] == ParseAll(xs, parse).value;
    } else {
      var m := |ys| - 1;
      assert ParseAll(ys[..m], parse).Some?;
      ParseAllAppend(xs, ys[..m], parse);
      var front, init, last := ParseAll(xs, parse).value, ParseAll(ys[..m], parse).value, parse(ys[m]).value;
      assert ParseAll(ys, parse).value == init + [last];
      assert (xs + ys)[..|xs + ys| - 1] == xs + ys[..m];
      assert (xs + ys)[|xs + ys| - 1] == ys[m];
      assert ParseAll(xs + ys, parse).value == (front + init) + [last];
      assert (front + init) + [last] == front + (init + [last]);
    }
  }

  /**
   * The legacy array the dialog sends parses, and to exactly the prize
   * list the route stores: the stored rules' prizes, rule after rule.
   */
  lemma {:induction false} LegacyArrayMatches(rules: seq<FormRule>)
    requires forall i :: 0 <= i < |rules| ==> RuleValid(rules[i])
    ensures ParseAll(LegacyPrizes(rules), ParsePrize) == Some(FlattenPrizes(StoredRules(rules)))
  {
    if rules != [] {
      var n := |rules| - 1;
      LegacyArrayMatches(rules[..n]);
      PrizesParse(rules[n]);
      ParseAllAppend(LegacyPrizes(rules[..n]), PrizeInputs(rules[n]), ParsePrize);
      var stored := StoredRules(rules);
      assert stored[..n] == StoredRules(rules[..n]);
      var last := stored[n];
      assert Retag(last.prizes, last.kind) == last.prizes;
      assert LegacyPrizes(rules) == LegacyPrizes(rules[..n]) + PrizeInputs(rules[n]);
      assert FlattenPrizes(stored) == FlattenPrizes(StoredRules(rules[..n])) + last.prizes;
    }
  }

  /** The sum of the stored rules' maxWinners. */
  function SumMaxWinners(rules: seq<WinningRule>): int {
    if rules == [] then 0
    else SumMaxWinners(rules[..|rules| - 1]) + rules[|rules| - 1].maxWinners
  }

  lemma {:induction false} SumMaxStored(rules: seq<FormRule>)
    ensures SumMaxWinners(StoredRules(rules)) == TotalMaxWinners(rules)
  {
    if rules != [] {
      var n := |rules| - 1;
      SumMaxStored(rules[..n]);
      assert StoredRules(rules)[..n] == StoredRules(rules[..n]);
    }
  }

  /** What the route should keep of a valid form's body. */
  function Expected(f: Form): NewData {
    NewData(f.name, f.ticketXpCost, f.totalTickets, StoredRules(f.rules),
      AutoClose(f.autoClose.enabled, AfterWinners(f), 0))
  }

  /**
   * The body of a valid form passes the route's current schema: the form's
   * name, XP cost and tickets, its rules in order with no winners and every
   * prize OPEN at position index + 1 with its rule's type, and the winner
   * limit AfterWinners(f) with a zero tally.
   */
  lemma PayloadParses(f: Form)
    requires FormValid(f)
    ensures ParseNew(Payload(f)) == Some(Expected(f))
  {
    RulesParse(f.rules);
    LegacyArrayMatches(f.rules);
    AutoCloseParses(f);
  }

  /** A valid form's auto-close block passes the route's schema with a zero tally. */
  lemma AutoCloseParses(f: Form)
    requires FormValid(f)
    ensures ParseAutoClose(Payload(f).autoClose.value) == Some(Expected(f).autoClose)
  {
    assert AfterWinners(f) >= 1;
  }

  /** Valid rules, as sent, parse to the stored rules, in order. */
  lemma RulesParse(rules: seq<FormRule>)
    requires forall i :: 0 <= i < |rules| ==> RuleValid(rules[i])
    ensures ParseAll(RuleInputs(rules), ParseRule) == Some(StoredRules(rules))
  {
    var ins := RuleInputs(rules);
    forall i | 0 <= i < |ins| ensures ParseRule(ins[i]) == Some(StoredRule(rules[i])) {
      RuleParses(rules[i]);
    }
    var parsed := ParseAll(ins, ParseRule);
    assert parsed.Some?;
    assert parsed.value == StoredRules(rules);
  }

  /**
   * Submitting a valid form creates, for an administrator, the game of the
   * current schema built from Expected(f): WAITING, nothing drawn or sold.
   * The game is consistent, and its stored prize list is exactly what the
   * dialog's legacy array parses to.
   */
  lemma SubmitCreates(f: Form, userId: string)
    requires FormValid(f)
    ensures Create(Some(userId), true, Payload(f)) == Ok(NewGame(Expected(f), userId))
    ensures GameInv(NewGame(Expected(f), userId))
    ensures ParseAll(LegacyPrizes(f.rules), ParsePrize) == Some(NewGame(Expected(f), userId).prizes)
  {
    PayloadParses(f);
    LegacyArrayMatches(f.rules);
    ExpectedConsistent(f, userId);
  }

  /** The game created from a valid form is consistent. */
  lemma ExpectedConsistent(f: Form, userId: string)
    requires FormValid(f)
    ensures GameInv(NewGame(Expected(f), userId))
  {
    var d := Expected(f);
    forall i | 0 <= i < |d.rules| ensures d.rules[i] == StoredRule(f.rules[i]) {
    }
    NewGameConsistent(d, userId);
  }

  /**
   * When no winner limit is present (undefined), or auto-close is off, the
   * created game's limit is the sum of its rules' maxWinners.
   */
  lemma DefaultLimitIsTotal(f: Form, userId: string)
    requires FormValid(f) && (!f.autoClose.enabled || f.autoClose.afterWinners.None?)
    ensures Create(Some(userId), true, Payload(f)).Ok?
    ensures var g := Create(Some(userId), true, Payload(f)).value;
      g.autoClose.afterWinners == SumMaxWinners(g.winningRules)
  {
    SubmitCreates(f, userId);
    SumMaxStored(f.rules);
  }

  /**
   * With the limit at the sum of maxWinners, a consistent game whose rules
   * are all completed has reached the limit: the winner-limit reason never
   * comes later than the all-rules reason.
   */
  lemma LimitNoLaterThanAllCompleted(g: Game)
    requires GameInv(g) && g.autoClose.afterWinners == SumMaxWinners(g.winningRules)
    requires forall i :: 0 <= i < |g.winningRules| ==> g.winningRules[i].isCompleted
    ensures g.autoClose.currentTotalWinners >= g.autoClose.afterWinners
  {
    CompletedSums(g.winningRules);
  }

  lemma {:induction false} CompletedSums(rules: seq<WinningRule>)
    requires forall i :: 0 <= i < |rules| ==> RuleInv(rules[i]) && rules[i].isCompleted
    ensures SumWinners(rules) >= SumMaxWinners(rules)
  {
    if rules != [] {
      CompletedSums(rules[..|rules| - 1]);
      assert RuleInv(rules[|rules| - 1]);
    }
  }
}
