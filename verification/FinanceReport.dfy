/** The income statement (DRE) of a period: detail lines, and subtotals that are
    left blank when a cost they depend on is not known. */
module FinanceReport {
  import opened Wrappers
  import opened FinanceLedger

  // Aggregates of the period as the queries return them.
  datatype Sales = Sales(revenue: int, cost: int, unknown: nat)
  datatype Movements = Movements(loss: int, gain: int, unknown: nat)
  datatype GroupTotal = GroupTotal(group: Group, direction: Direction, amount: int)

  datatype Code =
    | LineRevenue | LineDeductions | NetRevenue | LineCogs | GrossProfit | LineVariable | LineFixed
    | StockLoss | StockGain | Ebitda | LineDepreciation | Ebit | LineFinancialIn | LineFinancialOut
    | BeforeTax | LineProfitTax | NetProfit
  datatype Line = Line(code: Code, amount: Option<int>, subtotal: bool)

  const MAX_SAFE: int := 9007199254740991

  predicate Safe(n: int) { -MAX_SAFE <= n <= MAX_SAFE }

  // The total of a group, or None when one of its amounts is out of range.
  function Amount(totals: seq<GroupTotal>, group: Group): Option<int> {
    if totals == [] then Some(0)
    else
      var before, last := Amount(totals[..|totals| - 1], group), totals[|totals| - 1];
      if last.group != group then before
      else if before.None? || !Safe(last.amount) then None else Some(before.value + last.amount)
  }

  // The group totals the statement uses.
  datatype Details = Details(
    revenue: int, deductions: int, cogs: int, variable: int, fixed: int, depreciation: int,
    financialIn: int, financialOut: int, profitTax: int)

  function Read(totals: seq<GroupTotal>): Option<Details> {
    var r, d, c, v := Amount(totals, REVENUE), Amount(totals, DEDUCTIONS), Amount(totals, COGS),
      Amount(totals, VARIABLE);
    var f, p := Amount(totals, FIXED), Amount(totals, DEPRECIATION);
    var i, o, t := Amount(totals, FINANCIAL_IN), Amount(totals, FINANCIAL_OUT), Amount(totals, PROFIT_TAX);
    if r.Some? && d.Some? && c.Some? && v.Some? && f.Some? && p.Some? && i.Some? && o.Some? && t.Some?
    then Some(Details(r.value, d.value, c.value, v.value, f.value, p.value, i.value, o.value, t.value)) else None
  }

  function Value(amount: int, hidden: bool): Option<int> { if hidden then None else Some(amount) }

  function Lines(sales: Sales, moves: Movements, d: Details): seq<Line> {
    var unknown := sales.unknown + moves.unknown > 0;
    var gross := sales.revenue + d.revenue;
    var net := gross - d.deductions;
    var cost := sales.cost + d.cogs;
    var grossProfit := net - cost;
    var ebitda := grossProfit - d.variable - d.fixed - moves.loss + moves.gain;
    var ebit := ebitda - d.depreciation;
    var beforeTax := ebit + d.financialIn - d.financialOut;
    [Line(LineRevenue, Some(gross), false),
     Line(LineDeductions, Some(-d.deductions), false),
     Line(NetRevenue, Some(net), true),
     Line(LineCogs, Value(-cost, unknown && sales.unknown > 0), false),
     Line(GrossProfit, Value(grossProfit, unknown && sales.unknown > 0), true),
     Line(LineVariable, Some(-d.variable), false),
     Line(LineFixed, Some(-d.fixed), false),
     Line(StockLoss, Value(-moves.loss, unknown && moves.unknown > 0), false),
     Line(StockGain, Value(moves.gain, unknown && moves.unknown > 0), false),
     Line(Ebitda, Value(ebitda, unknown), true),
     Line(LineDepreciation, Some(-d.depreciation), false),
     Line(Ebit, Value(ebit, unknown), true),
     Line(LineFinancialIn, Some(d.financialIn), false),
     Line(LineFinancialOut, Some(-d.financialOut), false),
     Line(BeforeTax, Value(beforeTax, unknown), true),
     Line(LineProfitTax, Some(-d.profitTax), false),
     Line(NetProfit, Value(beforeTax - d.profitTax, unknown), true)]
  }

  predicate InRange(lines: seq<Line>) {
    forall k | 0 <= k < |lines| :: lines[k].amount.Some? ==> Safe(lines[k].amount.value)
  }

  // The statement, or the error for figures beyond what the service can represent.
  function Statement(sales: Sales, moves: Movements, totals: seq<GroupTotal>): Result<seq<Line>> {
    var d := Read(totals);
    if d.None? || !Safe(sales.revenue) || !Safe(sales.cost) || !Safe(sales.unknown)
       || !Safe(moves.loss) || !Safe(moves.gain) || !Safe(moves.unknown)
    then Err("out of range")
    else
      var lines := Lines(sales, moves, d.value);
      if InRange(lines) then Ok(lines) else Err("out of range")
  }

  /// An independent reading of the subtotals

  predicate HiddenDetail(line: Line) { !line.subtotal && line.amount.None? }

  // The sum of the detail lines, the blank ones as zero.
  function DetailSum(lines: seq<Line>): int {
    if lines == [] then 0
    else
      var last := lines[|lines| - 1];
      DetailSum(lines[..|lines| - 1]) + if !last.subtotal && last.amount.Some? then last.amount.value else 0
  }

  // A subtotal over the lines above it.
  ghost predicate Subtotals(above: seq<Line>, line: Line) {
    && (line.amount.None? <==> exists k | 0 <= k < |above| :: HiddenDetail(above[k]))
    && (line.amount.Some? ==> line.amount.value == DetailSum(above))
  }

  lemma DetailSumAppend(lines: seq<Line>, line: Line)
    ensures DetailSum(lines + [line])
         == DetailSum(lines) + if !line.subtotal && line.amount.Some? then line.amount.value else 0
  {
    assert (lines + [line])[..|lines|] == lines;
  }

  // What some lines add up to, and whether one of them is blank.
  datatype Total = Total(sum: int, blank: bool)

  function Plus(t: Total, line: Line): Total {
    if line.subtotal then t
    else if line.amount.Some? then Total(t.sum + line.amount.value, t.blank) else Total(t.sum, true)
  }

  function Running(lines: seq<Line>, k: nat): Total
    requires k <= |lines|
  {
    if k == 0 then Total(0, false) else Plus(Running(lines, k - 1), lines[k - 1])
  }

  lemma {:induction false} RunningIsDetailSum(lines: seq<Line>, k: nat)
    requires k <= |lines|
    ensures Running(lines, k).sum == DetailSum(lines[..k])
    ensures Running(lines, k).blank <==> exists j | 0 <= j < k :: HiddenDetail(lines[j])
  {
    if k > 0 {
      RunningIsDetailSum(lines, k - 1);
      assert lines[..k] == lines[..k - 1] + [lines[k - 1]];
      DetailSumAppend(lines[..k - 1], lines[k - 1]);
    }
  }

  lemma RunningNext(lines: seq<Line>, k: nat)
    requires k < |lines|
    ensures Running(lines, k + 1) == Plus(Running(lines, k), lines[k])
  {}

  // The totals above each subtotal, stage by stage.
  lemma AboveNetRevenue(sales: Sales, moves: Movements, d: Details)
    ensures Running(Lines(sales, moves, d), 2) == Total(sales.revenue + d.revenue - d.deductions, false)
  {
    var lines := Lines(sales, moves, d);
    RunningNext(lines, 0);
    RunningNext(lines, 1);
  }

  lemma AboveGrossProfit(sales: Sales, moves: Movements, d: Details)
    ensures var above := Running(Lines(sales, moves, d), 2);
            Running(Lines(sales, moves, d), 4)
            == if sales.unknown > 0 then Total(above.sum, true) else Total(above.sum - sales.cost - d.cogs, above.blank)
  {
    var lines := Lines(sales, moves, d);
    RunningNext(lines, 2);
    RunningNext(lines, 3);
  }

  lemma AboveEbitda(sales: Sales, moves: Movements, d: Details)
    ensures var above := Running(Lines(sales, moves, d), 4);
            var spent := above.sum - d.variable - d.fixed;
            Running(Lines(sales, moves, d), 9)
            == if moves.unknown > 0 then Total(spent, true) else Total(spent - moves.loss + moves.gain, above.blank)
  {
    var lines := Lines(sales, moves, d);
    RunningNext(lines, 4);
    RunningNext(lines, 5);
    RunningNext(lines, 6);
    RunningNext(lines, 7);
    RunningNext(lines, 8);
  }

  lemma AboveTheRest(sales: Sales, moves: Movements, d: Details)
    ensures var lines := Lines(sales, moves, d);
            var above := Running(lines, 9);
            && Running(lines, 11) == Total(above.sum - d.depreciation, above.blank)
            && Running(lines, 14) == Total(above.sum - d.depreciation + d.financialIn - d.financialOut, above.blank)
            && Running(lines, 16) == Total(above.sum - d.depreciation + d.financialIn - d.financialOut - d.profitTax,
                above.blank)
  {
    var lines := Lines(sales, moves, d);
    RunningNext(lines, 9);
    RunningNext(lines, 10);
    RunningNext(lines, 11);
    RunningNext(lines, 12);
    RunningNext(lines, 13);
    RunningNext(lines, 14);
    RunningNext(lines, 15);
  }

  predicate Agrees(line: Line, above: Total) {
    (line.amount.None? <==> above.blank) && (line.amount.Some? ==> line.amount.value == above.sum)
  }

  lemma SubtotalsAgree(sales: Sales, moves: Movements, d: Details, k: nat)
    requires k < 17 && Lines(sales, moves, d)[k].subtotal
    ensures Agrees(Lines(sales, moves, d)[k], Running(Lines(sales, moves, d), k))
  {
    assert k in {2, 4, 9, 11, 14, 16};
    AboveNetRevenue(sales, moves, d);
    if k > 2 { AboveGrossProfit(sales, moves, d); }
    if k > 4 { AboveEbitda(sales, moves, d); }
    if k > 9 { AboveTheRest(sales, moves, d); }
  }

  // In every statement a subtotal is blank exactly when some detail line above
  // it is, and otherwise it is the sum of all detail lines above it.
  lemma EverySubtotalAddsUp(sales: Sales, moves: Movements, totals: seq<GroupTotal>, k: nat)
    requires Statement(sales, moves, totals).Ok? && k < |Statement(sales, moves, totals).value|
    requires Statement(sales, moves, totals).value[k].subtotal
    ensures var lines := Statement(sales, moves, totals).value; Subtotals(lines[..k], lines[k])
  {
    var d := Read(totals).value;
    SubtotalsAgree(sales, moves, d, k);
    AgreesWithDetails(Lines(sales, moves, d), k);
  }

  lemma AgreesWithDetails(lines: seq<Line>, k: nat)
    requires k < |lines| && Agrees(lines[k], Running(lines, k))
    ensures Subtotals(lines[..k], lines[k])
  {
    RunningIsDetailSum(lines, k);
    assert forall j | 0 <= j < k :: lines[..k][j] == lines[j];
  }

  /// Each detail line is that of its group

  // The sum of the totals of a group, in any order.
  function GroupSum(totals: seq<GroupTotal>, group: Group): int {
    if totals == [] then 0
    else (if totals[0].group == group then totals[0].amount else 0) + GroupSum(totals[1..], group)
  }

  lemma {:induction false} GroupSumAppend(totals: seq<GroupTotal>, last: GroupTotal, group: Group)
    ensures GroupSum(totals + [last], group)
         == GroupSum(totals, group) + if last.group == group then last.amount else 0
  {
    if totals == [] {
      assert [last][1..] == [];
    } else {
      assert (totals + [last])[1..] == totals[1..] + [last];
      GroupSumAppend(totals[1..], last, group);
    }
  }

  // A group has a total exactly when all its amounts are in range.
  lemma {:induction false} AmountIsGroupSum(totals: seq<GroupTotal>, group: Group)
    ensures Amount(totals, group).Some? <==>
              forall k | 0 <= k < |totals| && totals[k].group == group :: Safe(totals[k].amount)
    ensures Amount(totals, group).Some? ==> Amount(totals, group).value == GroupSum(totals, group)
  {
    if totals != [] {
      var n := |totals| - 1;
      AmountIsGroupSum(totals[..n], group);
      GroupSumAppend(totals[..n], totals[n], group);
      assert totals == totals[..n] + [totals[n]];
      assert forall k | 0 <= k < n :: totals[..n][k] == totals[k];
    }
  }

  ghost function GroupSums(totals: seq<GroupTotal>): Details {
    Details(GroupSum(totals, REVENUE), GroupSum(totals, DEDUCTIONS), GroupSum(totals, COGS), GroupSum(totals, VARIABLE),
            GroupSum(totals, FIXED), GroupSum(totals, DEPRECIATION), GroupSum(totals, FINANCIAL_IN),
            GroupSum(totals, FINANCIAL_OUT), GroupSum(totals, PROFIT_TAX))
  }

  lemma ReadIsGroupSums(totals: seq<GroupTotal>)
    requires Read(totals).Some?
    ensures Read(totals).value == GroupSums(totals)
  {
    AmountIsGroupSum(totals, REVENUE);
    AmountIsGroupSum(totals, DEDUCTIONS);
    AmountIsGroupSum(totals, COGS);
    AmountIsGroupSum(totals, VARIABLE);
    AmountIsGroupSum(totals, FIXED);
    AmountIsGroupSum(totals, DEPRECIATION);
    AmountIsGroupSum(totals, FINANCIAL_IN);
    AmountIsGroupSum(totals, FINANCIAL_OUT);
    AmountIsGroupSum(totals, PROFIT_TAX);
  }

  // What a detail line of this code shows; a blank where a cost is not known.
  function Shown(sales: Sales, moves: Movements, d: Details, code: Code): Option<int> {
    match code
    case LineRevenue => Some(sales.revenue + d.revenue)
    case LineDeductions => Some(-d.deductions)
    case LineCogs => if sales.unknown > 0 then None else Some(-sales.cost - d.cogs)
    case LineVariable => Some(-d.variable)
    case LineFixed => Some(-d.fixed)
    case StockLoss => if moves.unknown > 0 then None else Some(-moves.loss)
    case StockGain => if moves.unknown > 0 then None else Some(moves.gain)
    case LineDepreciation => Some(-d.depreciation)
    case LineFinancialIn => Some(d.financialIn)
    case LineFinancialOut => Some(-d.financialOut)
    case LineProfitTax => Some(-d.profitTax)
    case _ => None
  }

  lemma DetailLines(sales: Sales, moves: Movements, d: Details, k: nat)
    requires k < 17
    ensures var line := Lines(sales, moves, d)[k];
            && (line.subtotal <==> line.code in {NetRevenue, GrossProfit, Ebitda, Ebit, BeforeTax, NetProfit})
            && (!line.subtotal ==> line.amount == Shown(sales, moves, d, line.code))
  {}

  // Every detail line of a statement is plus or minus the sum of the totals of
  // the group it is named after, with the sales and movements of the period.
  lemma DetailLinesAreTheirGroups(sales: Sales, moves: Movements, totals: seq<GroupTotal>, k: nat)
    requires Statement(sales, moves, totals).Ok? && k < |Statement(sales, moves, totals).value|
    ensures var line := Statement(sales, moves, totals).value[k];
            && (line.subtotal <==> line.code in {NetRevenue, GrossProfit, Ebitda, Ebit, BeforeTax, NetProfit})
            && (!line.subtotal ==> line.amount == Shown(sales, moves, GroupSums(totals), line.code))
  {
    ReadIsGroupSums(totals);
    DetailLines(sales, moves, Read(totals).value, k);
  }

  predicate WithinRange(n: int) { -9007199254740991 <= n <= 9007199254740991 }

  // A statement is refused exactly when a figure it reads or a line it would show
  // is beyond the integers the service counts with.
  lemma StatedExactlyWithinRange(sales: Sales, moves: Movements, totals: seq<GroupTotal>)
    ensures var lines := Lines(sales, moves, GroupSums(totals));
            && (Statement(sales, moves, totals).Ok? <==>
                  && WithinRange(sales.revenue) && WithinRange(sales.cost) && WithinRange(sales.unknown)
                  && WithinRange(moves.loss) && WithinRange(moves.gain) && WithinRange(moves.unknown)
                  && (forall k | 0 <= k < |totals| && totals[k].group != CASH_ONLY :: WithinRange(totals[k].amount))
                  && (forall k | 0 <= k < |lines| && lines[k].amount.Some? :: WithinRange(lines[k].amount.value)))
            && (Statement(sales, moves, totals).Ok? ==> Statement(sales, moves, totals).value == lines)
  {
    ReadExactlyWithinRange(totals);
    if Read(totals).Some? {
      ReadIsGroupSums(totals);
    }
  }

  lemma ReadExactlyWithinRange(totals: seq<GroupTotal>)
    ensures Read(totals).Some? <==>
              forall k | 0 <= k < |totals| && totals[k].group != CASH_ONLY :: WithinRange(totals[k].amount)
  {
    forall group: Group ensures Amount(totals, group).Some? <==>
        forall k | 0 <= k < |totals| && totals[k].group == group :: Safe(totals[k].amount) {
      AmountIsGroupSum(totals, group);
    }
  }

  /// Entries that only move cash

  function WithoutCashOnly(totals: seq<GroupTotal>): seq<GroupTotal> {
    if totals == [] then []
    else
      var rest, last := WithoutCashOnly(totals[..|totals| - 1]), totals[|totals| - 1];
      if last.group == CASH_ONLY then rest else rest + [last]
  }

  lemma OneMoreTotal(totals: seq<GroupTotal>, last: GroupTotal, group: Group)
    ensures Amount(totals + [last], group)
         == if last.group != group then Amount(totals, group)
            else if Amount(totals, group).None? || !Safe(last.amount) then None
            else Some(Amount(totals, group).value + last.amount)
  {
    assert (totals + [last])[..|totals|] == totals;
  }

  lemma {:induction false} CashOnlyAddsNothing(totals: seq<GroupTotal>, group: Group)
    requires group != CASH_ONLY
    ensures Amount(WithoutCashOnly(totals), group) == Amount(totals, group)
  {
    if totals != [] {
      CashOnlyAddsNothing(totals[..|totals| - 1], group);
      OneMoreTotal(WithoutCashOnly(totals[..|totals| - 1]), totals[|totals| - 1], group);
    }
  }

  // They never change any line, nor whether there is a statement at all.
  lemma CashOnlyIsInvisible(sales: Sales, moves: Movements, totals: seq<GroupTotal>)
    ensures Statement(sales, moves, WithoutCashOnly(totals)) == Statement(sales, moves, totals)
  {
    CashOnlyAddsNothing(totals, REVENUE);
    CashOnlyAddsNothing(totals, DEDUCTIONS);
    CashOnlyAddsNothing(totals, COGS);
    CashOnlyAddsNothing(totals, VARIABLE);
    CashOnlyAddsNothing(totals, FIXED);
    CashOnlyAddsNothing(totals, DEPRECIATION);
    CashOnlyAddsNothing(totals, FINANCIAL_IN);
    CashOnlyAddsNothing(totals, FINANCIAL_OUT);
    CashOnlyAddsNothing(totals, PROFIT_TAX);
  }
}
