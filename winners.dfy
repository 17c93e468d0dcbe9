/**
 * Winner detection of socket-server.ts: checkWinForRule (lines 110-131) and
 * the rule-by-ticket claiming loop that both the auto-play tick (257-313)
 * and the admin's manual call (413-467) run after a number is drawn.
 *
 * Rules are visited in order, completed rules skipped; within a rule the
 * active tickets are visited in the order the ticket query returned them. A
 * ticket that already holds a prize of the rule is skipped; a winning ticket
 * takes the first OPEN prize. `isCompleted` is only consulted before a
 * rule's ticket loop, so a rule that becomes complete mid-loop keeps handing
 * out its remaining OPEN prizes in the same pass.
 */
module Winners {
  import opened Seqs
  import opened Patterns
  import opened GameModel

  /** The payload of a `winner-detected` event (user name and e-mail left out). */
  datatype Announcement = Announcement(
    winnerId: string,
    ticketId: string,
    ticketNumber: int,
    prizeName: string,
    xpPoints: int,
    ruleType: RuleType)

  /** checkWinForRule: dispatch on the rule type. */
  function CheckWinForRule(t: Grid, called: seq<int>, kind: RuleType): bool {
    match kind
    case EarlyFive => Patterns.EarlyFive(t, called)
    case TopLine => Patterns.TopLine(t, called)
    case MiddleLine => Patterns.MiddleLine(t, called)
    case BottomLine => Patterns.BottomLine(t, called)
    case FullHouse => Patterns.FullHouse(t, called)
    case Corners => Patterns.Corners(t, called)
  }

  /** What each rule type asks of the ticket, in terms of its cells. */
  lemma WinMeaning(t: Grid, called: seq<int>, kind: RuleType)
    ensures kind == EarlyFive ==> (CheckWinForRule(t, called, kind) <==> |Hits(t, called)| >= 5)
    ensures kind == TopLine ==>
      (CheckWinForRule(t, called, kind) <==> forall j :: 0 <= j < |t[0]| ==> Cleared(t[0][j], called))
    ensures kind == MiddleLine ==>
      (CheckWinForRule(t, called, kind) <==> forall j :: 0 <= j < |t[1]| ==> Cleared(t[1][j], called))
    ensures kind == BottomLine ==>
      (CheckWinForRule(t, called, kind) <==> forall j :: 0 <= j < |t[2]| ==> Cleared(t[2][j], called))
    ensures kind == FullHouse ==>
      (CheckWinForRule(t, called, kind) <==> forall i, j :: 0 <= i < 3 && 0 <= j < |t[i]| ==> Cleared(t[i][j], called))
    ensures kind == Corners ==>
      (CheckWinForRule(t, called, kind) <==> EndsCalled(t[0], called) && EndsCalled(t[2], called))
  {
    match kind
    case EarlyFive => HitsCount(t, called);
    case TopLine => RowClearIff(t[0], called);
    case MiddleLine => RowClearIff(t[1], called);
    case BottomLine => RowClearIff(t[2], called);
    case FullHouse => FullHouseIff(t, called);
    case Corners => CornersIff(t, called);
  }

  /** Calling more numbers never takes a win away, whatever the rule. */
  lemma WinGrows(t: Grid, less: seq<int>, more: seq<int>, kind: RuleType)
    requires Includes(more, less) && CheckWinForRule(t, less, kind)
    ensures CheckWinForRule(t, more, kind)
  {
    match kind
    case EarlyFive => EarlyFiveGrows(t, less, more);
    case TopLine => RowClearGrows(t[0], less, more);
    case MiddleLine => RowClearGrows(t[1], less, more);
    case BottomLine => RowClearGrows(t[2], less, more);
    case FullHouse => FullHouseGrows(t, less, more);
    case Corners => CornersGrows(t, less, more);
  }

  // ---------------------------------------------------------------------
  // One ticket against one rule.
  // ---------------------------------------------------------------------

  /** `rule.prizes.some(p => p.winnerTicketId === ticketId)` */
  predicate HoldsPrize(prizes: seq<Prize>, id: string) {
    exists k :: 0 <= k < |prizes| && prizes[k].winnerTicketId == Some(id)
  }

  predicate HasOpen(prizes: seq<Prize>) {
    exists k :: 0 <= k < |prizes| && prizes[k].status == Open
  }

  /** The index `rule.prizes.find(p => p.status === "OPEN")` stops at; |prizes| if none. */
  function FirstOpen(prizes: seq<Prize>): (k: nat)
    ensures k <= |prizes|
    ensures k < |prizes| <==> HasOpen(prizes)
    ensures k < |prizes| ==> prizes[k].status == Open
    ensures forall l :: 0 <= l < k ==> prizes[l].status == Won
  {
    if prizes == [] then 0
    else if prizes[0].status == Open then 0
    else
      var k := 1 + FirstOpen(prizes[1..]);
      assert forall l :: 1 <= l < |prizes| ==> prizes[l] == prizes[1..][l - 1];
      k
  }

  /** The prize as the ticket's holder wins it. */
  function Award(p: Prize, t: Ticket): (r: Prize)
    ensures r.status == Won && PrizeWellFormed(r) && r.winnerTicketId == Some(t.id) && r.winner == Some(t.userId)
    ensures r.name == p.name && r.xpPoints == p.xpPoints && r.position == p.position && r.ruleType == p.ruleType
  {
    p.(winner := Some(t.userId), winnerTicketId := Some(t.id), status := Won)
  }

  function Announce(t: Ticket, p: Prize, kind: RuleType): Announcement {
    Announcement(t.userId, t.id, t.ticketNumber, p.name, p.xpPoints, kind)
  }

  /** The ticket gets a prize of the rule: it holds none yet, it wins, and one is OPEN. */
  predicate Eligible(r: WinningRule, t: Ticket, called: seq<int>) {
    !HoldsPrize(r.prizes, t.id) && CheckWinForRule(t.numbers, called, r.kind) && HasOpen(r.prizes)
  }

  /**
   * The rule only gains WON prizes: its type and limit stay, every WON prize
   * stays as it is, and the counter and the completion flag never go back.
   */
  predicate Extends(r: WinningRule, r': WinningRule) {
    r'.kind == r.kind && r'.maxWinners == r.maxWinners && |r'.prizes| == |r.prizes| &&
    (forall k :: 0 <= k < |r.prizes| && r.prizes[k].status == Won ==> r'.prizes[k] == r.prizes[k]) &&
    r.currentWinners <= r'.currentWinners && (r.isCompleted ==> r'.isCompleted)
  }

  lemma ExtendsTrans(r1: WinningRule, r2: WinningRule, r3: WinningRule)
    requires Extends(r1, r2) && Extends(r2, r3)
    ensures Extends(r1, r3)
  {
  }

  /** One iteration of the ticket loop. */
  function Claim(r: WinningRule, t: Ticket, called: seq<int>): (res: (WinningRule, seq<Announcement>))
    ensures |res.1| <= 1
    ensures |res.1| == 1 <==> Eligible(r, t, called)
    ensures !Eligible(r, t, called) ==> res.0 == r
    ensures Extends(r, res.0)
    ensures res.0.currentWinners == r.currentWinners + |res.1|
    ensures forall k :: 0 <= k < |r.prizes| && k != FirstOpen(r.prizes) ==> res.0.prizes[k] == r.prizes[k]
    ensures |res.1| == 1 ==>
      var k := FirstOpen(r.prizes);
      res.0.prizes[k] == Award(r.prizes[k], t) && res.1[0].ticketId == t.id &&
      res.0.isCompleted == (r.isCompleted || res.0.currentWinners >= r.maxWinners)
  {
    if HoldsPrize(r.prizes, t.id) || !CheckWinForRule(t.numbers, called, r.kind) then (r, [])
    else
      var k := FirstOpen(r.prizes);
      if k == |r.prizes| then (r, [])
      else
        var p := r.prizes[k];
        var count := r.currentWinners + 1;
        (r.(prizes := r.prizes[k := Award(p, t)],
            currentWinners := count,
            isCompleted := r.isCompleted || count >= r.maxWinners),
         [Announce(t, p, r.kind)])
  }

  // ---------------------------------------------------------------------
  // The loops: all tickets against one rule, then every rule.
  // ---------------------------------------------------------------------

  /** The ticket loop of one rule, over the tickets in query order. */
  function RuleRound(r: WinningRule, ts: seq<Ticket>, called: seq<int>): (res: (WinningRule, seq<Announcement>))
    ensures Extends(r, res.0)
    ensures res.0.currentWinners == r.currentWinners + |res.1|
    ensures |res.1| <= |ts|
  {
    if ts == [] then (r, [])
    else
      var before := RuleRound(r, ts[..|ts| - 1], called);
      var step := Claim(before.0, ts[|ts| - 1], called);
      ExtendsTrans(r, before.0, step.0);
      (step.0, before.1 + step.1)
  }

  /** `if (rule.isCompleted) continue;` */
  function EvalRule(r: WinningRule, ts: seq<Ticket>, called: seq<int>): (res: (WinningRule, seq<Announcement>))
    ensures r.isCompleted ==> res == (r, [])
    ensures Extends(r, res.0)
    ensures res.0.currentWinners == r.currentWinners + |res.1|
  {
    if r.isCompleted then (r, []) else RuleRound(r, ts, called)
  }

  /** The rule loop; announcements in rule order, then ticket order. */
  function EvalRules(rules: seq<WinningRule>, ts: seq<Ticket>, called: seq<int>): (res: (seq<WinningRule>, seq<Announcement>))
    ensures |res.0| == |rules|
    ensures forall i :: 0 <= i < |rules| ==> Extends(rules[i], res.0[i])
    ensures SumWinners(res.0) == SumWinners(rules) + |res.1|
  {
    if rules == [] then ([], [])
    else
      var n := |rules| - 1;
      var before := EvalRules(rules[..n], ts, called);
      var last := EvalRule(rules[n], ts, called);
      var out := before.0 + [last.0];
      assert out[..n] == before.0;
      (out, before.1 + last.1)
  }

  /** One ticket against one rule as written: the checks, then the in-place award. */
  method ClaimTicket(r: WinningRule, t: Ticket, called: seq<int>)
    returns (rule: WinningRule, found: seq<Announcement>)
    ensures (rule, found) == Claim(r, t, called)
  {
    rule, found := r, [];
    if !HoldsPrize(rule.prizes, t.id) && CheckWinForRule(t.numbers, called, rule.kind) {
      var k := FirstOpen(rule.prizes);
      if k < |rule.prizes| {
        var p := rule.prizes[k];
        rule := rule.(prizes := rule.prizes[k := Award(p, t)], currentWinners := rule.currentWinners + 1);
        if rule.currentWinners >= rule.maxWinners {
          rule := rule.(isCompleted := true);
        }
        found := [Announce(t, p, rule.kind)];
      }
    }
  }

  /** The ticket loop of one rule as written, updating a rule value in place of the sub-document. */
  method RunRule(r: WinningRule, ts: seq<Ticket>, called: seq<int>)
    returns (rule: WinningRule, found: seq<Announcement>)
    ensures (rule, found) == RuleRound(r, ts, called)
  {
    rule, found := r, [];
    var j := 0;
    while j < |ts|
      invariant 0 <= j <= |ts|
      invariant (rule, found) == RuleRound(r, ts[..j], called)
    {
      assert ts[..j + 1][..j] == ts[..j];
      var step;
      rule, step := ClaimTicket(rule, ts[j], called);
      found := found + step;
      j := j + 1;
    }
    assert ts[..j] == ts;
  }

  /** The rule loop as written: completed rules are skipped. */
  method EvaluateWinners(rules: seq<WinningRule>, ts: seq<Ticket>, called: seq<int>)
    returns (out: seq<WinningRule>, anns: seq<Announcement>)
    ensures (out, anns) == EvalRules(rules, ts, called)
  {
    out, anns := [], [];
    var i := 0;
    while i < |rules|
      invariant 0 <= i <= |rules|
      invariant (out, anns) == EvalRules(rules[..i], ts, called)
    {
      var rule := rules[i];
      var found: seq<Announcement> := [];
      if !rule.isCompleted {
        rule, found := RunRule(rule, ts, called);
      }
      assert rules[..i + 1][..i] == rules[..i];
      out, anns := out + [rule], anns + found;
      i := i + 1;
    }
    assert rules[..i] == rules;
  }

  // ---------------------------------------------------------------------
  // The pass keeps every rule consistent.
  // ---------------------------------------------------------------------

  lemma {:induction false} CountWonAward(prizes: seq<Prize>, k: nat, p: Prize)
    requires k < |prizes| && prizes[k].status == Open && p.status == Won
    ensures CountWon(prizes[k := p]) == CountWon(prizes) + 1
  {
    var n := |prizes| - 1;
    if k < n {
      CountWonAward(prizes[..n], k, p);
      assert prizes[k := p][..n] == prizes[..n][k := p];
    } else {
      assert prizes[k := p][..n] == prizes[..n];
    }
  }

  /** A claim keeps the rule's counters in step with its WON prizes. */
  lemma ClaimKeepsInv(r: WinningRule, t: Ticket, called: seq<int>)
    requires RuleInv(r)
    ensures RuleInv(Claim(r, t, called).0)
  {
    var res := Claim(r, t, called);
    if Eligible(r, t, called) {
      var k := FirstOpen(r.prizes);
      CountWonAward(r.prizes, k, Award(r.prizes[k], t));
      var ps := res.0.prizes;
      forall a, b | 0 <= a < b < |ps| && ps[a].status == Won && ps[b].status == Won
        ensures ps[a].winnerTicketId != ps[b].winnerTicketId
      {
        if a == k {
          assert r.prizes[b].winnerTicketId != Some(t.id);
        } else if b == k {
          assert r.prizes[a].winnerTicketId != Some(t.id);
        }
      }
    }
  }

  lemma {:induction false} RuleRoundKeepsInv(r: WinningRule, ts: seq<Ticket>, called: seq<int>)
    requires RuleInv(r)
    ensures RuleInv(RuleRound(r, ts, called).0)
  {
    if ts != [] {
      var before := RuleRound(r, ts[..|ts| - 1], called);
      RuleRoundKeepsInv(r, ts[..|ts| - 1], called);
      ClaimKeepsInv(before.0, ts[|ts| - 1], called);
    }
  }

  lemma {:induction false} EvalRulesKeepsInv(rules: seq<WinningRule>, ts: seq<Ticket>, called: seq<int>)
    requires forall i :: 0 <= i < |rules| ==> RuleInv(rules[i])
    ensures forall i :: 0 <= i < |rules| ==> RuleInv(EvalRules(rules, ts, called).0[i])
  {
    if rules != [] {
      var n := |rules| - 1;
      var init := EvalRules(rules[..n], ts, called).0;
      var last := EvalRule(rules[n], ts, called).0;
      EvalRulesKeepsInv(rules[..n], ts, called);
      if !rules[n].isCompleted {
        RuleRoundKeepsInv(rules[n], ts, called);
      }
      var out := EvalRules(rules, ts, called).0;
      assert out == init + [last];
      forall i | 0 <= i < |rules| ensures RuleInv(out[i]) {
        if i < n {
          assert out[i] == init[i];
        }
      }
    }
  }

  /** Only the pass's own announcements are new winners of the rule. */
  lemma {:induction false} RoundWithinPrizes(r: WinningRule, ts: seq<Ticket>, called: seq<int>)
    requires RuleInv(r)
    ensures RuleRound(r, ts, called).0.currentWinners <= |r.prizes|
  {
    RuleRoundKeepsInv(r, ts, called);
    CountWonBound(RuleRound(r, ts, called).0.prizes);
  }

  lemma {:induction false} CountWonBound(prizes: seq<Prize>)
    ensures CountWon(prizes) <= |prizes|
  {
    if prizes != [] {
      CountWonBound(prizes[..|prizes| - 1]);
    }
  }

  /**
   * As written, a rule with more prizes than `maxWinners` can pass its limit
   * in a single draw: two tickets completing the top line on the same number
   * both win a rule that allows one winner.
   */
  lemma OverfillExample()
    ensures
      var p := Prize("first", 100, 1, TopLine, None, None, Open);
      var q := Prize("second", 50, 2, TopLine, None, None, Open);
      var r := WinningRule(TopLine, 1, 0, false, [p, q]);
      var a := Ticket("a", "g", "u1", 1, [[Num(5)], [], []], ActiveTicket);
      var b := Ticket("b", "g", "u2", 2, [[Num(5)], [], []], ActiveTicket);
      var res := RuleRound(r, [a, b], [5]);
      RuleInv(r) && res.0.currentWinners == 2 > r.maxWinners && res.0.isCompleted && |res.1| == 2
  {
    var p := Prize("first", 100, 1, TopLine, None, None, Open);
    var q := Prize("second", 50, 2, TopLine, None, None, Open);
    var r := WinningRule(TopLine, 1, 0, false, [p, q]);
    var a := Ticket("a", "g", "u1", 1, [[Num(5)], [], []], ActiveTicket);
    var b := Ticket("b", "g", "u2", 2, [[Num(5)], [], []], ActiveTicket);
    FreshRule(r);
    assert [a, b][..1] == [a];
    assert [a][..0] == [];
    assert [Num(5)][1..] == [];
    assert CheckWinForRule(a.numbers, [5], TopLine);
    assert HasOpen(r.prizes) by { assert r.prizes[0].status == Open; }
    assert !HoldsPrize(r.prizes, "a");
    var c1 := Claim(r, a, [5]);
    assert RuleRound(r, [], [5]) == (r, []);
    assert [] + c1.1 == c1.1;
    assert RuleRound(r, [a], [5]) == c1;
    assert FirstOpen(r.prizes) == 0;
    var r1 := c1.0;
    assert r1.prizes == [Award(p, a), q] && r1.currentWinners == 1;
    assert HasOpen(r1.prizes) by { assert r1.prizes[1].status == Open; }
    assert !HoldsPrize(r1.prizes, "b");
    var c2 := Claim(r1, b, [5]);
    assert |c2.1| == 1;
    assert RuleRound(r, [a, b], [5]) == (c2.0, c1.1 + c2.1);
  }

  /** When a rule has no more prizes than winners allowed, it never passes its limit. */
  lemma RoundWithinLimit(r: WinningRule, ts: seq<Ticket>, called: seq<int>)
    requires RuleInv(r) && |r.prizes| <= r.maxWinners
    ensures RuleRound(r, ts, called).0.currentWinners <= r.maxWinners
  {
    RoundWithinPrizes(r, ts, called);
  }

  // ---------------------------------------------------------------------
  // A second pass over the same tickets and numbers finds nobody new.
  // ---------------------------------------------------------------------

  /** Nothing left for this ticket in this rule. */
  predicate Quiet(r: WinningRule, t: Ticket, called: seq<int>) {
    !Eligible(r, t, called)
  }

  lemma QuietStays(r: WinningRule, r': WinningRule, t: Ticket, called: seq<int>)
    requires RuleInv(r) && Extends(r, r') && Quiet(r, t, called)
    ensures Quiet(r', t, called)
  {
    if HoldsPrize(r.prizes, t.id) {
      var k :| 0 <= k < |r.prizes| && r.prizes[k].winnerTicketId == Some(t.id);
      assert PrizeWellFormed(r.prizes[k]);
      assert r'.prizes[k] == r.prizes[k];
    }
  }

  /** After a rule's ticket loop, none of its tickets can claim again. */
  lemma {:induction false} RuleRoundSettles(r: WinningRule, ts: seq<Ticket>, called: seq<int>)
    requires RuleInv(r)
    ensures forall j :: 0 <= j < |ts| ==> Quiet(RuleRound(r, ts, called).0, ts[j], called)
  {
    if ts != [] {
      var n := |ts| - 1;
      var before := RuleRound(r, ts[..n], called);
      var after := RuleRound(r, ts, called);
      RuleRoundSettles(r, ts[..n], called);
      RuleRoundKeepsInv(r, ts[..n], called);
      forall j | 0 <= j < |ts| ensures Quiet(after.0, ts[j], called) {
        if j < n {
          assert ts[j] == ts[..n][j];
          QuietStays(before.0, after.0, ts[j], called);
        } else if Eligible(before.0, ts[n], called) {
          var k := FirstOpen(before.0.prizes);
          assert after.0.prizes[k].winnerTicketId == Some(ts[n].id);
        }
      }
    }
  }

  /** A loop over tickets none of which can claim changes nothing. */
  lemma {:induction false} QuietRound(r: WinningRule, ts: seq<Ticket>, called: seq<int>)
    requires forall j :: 0 <= j < |ts| ==> Quiet(r, ts[j], called)
    ensures RuleRound(r, ts, called) == (r, [])
  {
    if ts != [] {
      QuietRound(r, ts[..|ts| - 1], called);
    }
  }

  /** Re-running the evaluation on its own result produces no new winners. */
  lemma {:induction false} EvalRulesIdempotent(rules: seq<WinningRule>, ts: seq<Ticket>, called: seq<int>)
    requires forall i :: 0 <= i < |rules| ==> RuleInv(rules[i])
    ensures var once := EvalRules(rules, ts, called).0;
      EvalRules(once, ts, called) == (once, [])
  {
    if rules != [] {
      var n := |rules| - 1;
      var once := EvalRules(rules, ts, called).0;
      var init := EvalRules(rules[..n], ts, called).0;
      EvalRulesIdempotent(rules[..n], ts, called);
      assert once == init + [EvalRule(rules[n], ts, called).0];
      assert once[..n] == init;
      var r' := once[n];
      if !r'.isCompleted {
        RuleRoundSettles(rules[n], ts, called);
        QuietRound(r', ts, called);
      }
    }
  }

  // ---------------------------------------------------------------------
  // The pass on a whole game.
  // ---------------------------------------------------------------------

  /**
   * Evaluate every rule against the active tickets with the game's drawn
   * numbers, and add the winners found to `autoClose.currentTotalWinners`.
   */
  function Settle(g: Game, ts: seq<Ticket>): (res: (Game, seq<Announcement>))
    ensures res.0 == g.(winningRules := res.0.winningRules, autoClose := res.0.autoClose)
    ensures res.0.autoClose == g.autoClose.(currentTotalWinners := g.autoClose.currentTotalWinners + |res.1|)
    ensures |res.0.winningRules| == |g.winningRules|
    ensures forall i :: 0 <= i < |g.winningRules| ==> Extends(g.winningRules[i], res.0.winningRules[i])
  {
    var (rules, anns) := EvalRules(g.winningRules, ts, g.drawnNumbers);
    (g.(winningRules := rules,
        autoClose := g.autoClose.(currentTotalWinners := g.autoClose.currentTotalWinners + |anns|)),
     anns)
  }

  /** The pass keeps a consistent game consistent: the tally moves with the rules' counters. */
  lemma SettleKeepsInv(g: Game, ts: seq<Ticket>)
    requires GameInv(g)
    ensures GameInv(Settle(g, ts).0)
  {
    EvalRulesKeepsInv(g.winningRules, ts, g.drawnNumbers);
  }

  /** A second pass with the same tickets and numbers leaves the game as it is. */
  lemma SettleIdempotent(g: Game, ts: seq<Ticket>)
    requires GameInv(g)
    ensures Settle(Settle(g, ts).0, ts) == (Settle(g, ts).0, [])
  {
    EvalRulesIdempotent(g.winningRules, ts, g.drawnNumbers);
  }
}
