/** Finance entries and the settlements that pay them, with reversals. Rows are
    never deleted, so an entry or a settlement is known by its position. */
module FinanceLedger {
  import opened Wrappers

  datatype Direction = IN | OUT
  datatype Group =
    | REVENUE | DEDUCTIONS | COGS | VARIABLE | FIXED | DEPRECIATION
    | FINANCIAL_IN | FINANCIAL_OUT | PROFIT_TAX | CASH_ONLY

  datatype Order = Order(id: nat, pix: bool)   // pix: paid through the bank

  datatype Entry = Entry(
    direction: Direction, group: Group, amount: int, due: int, order: Option<Order>, cancelled: bool, version: nat)
  datatype Settlement = Settlement(entry: nat, amount: int, paidDate: int, reversedDate: Option<int>)

  datatype State = State(today: int, entries: seq<Entry>, settlements: seq<Settlement>)

  datatype Step =
    | NewDay
    | Create(direction: Direction, group: Group, amount: int, due: int)
    | SettlePix(payer: nat, amount: int, paidDate: int)   // the bank confirms the payment of an order
    | RecognizeSale(order: Order, total: int)             // an order is completed
    | Settle(entry: nat, expected: nat, amount: int, paidDate: int)
    | Cancel(entry: nat, expected: nat)
    | Reverse(entry: nat, expected: nat, settlement: nat, reversedDate: int)

  predicate CashMoving(e: Entry) {
    e.group != DEPRECIATION && e.group != COGS
  }

  predicate Standing(p: Settlement) { p.reversedDate.None? }

  function PaidBy(p: Settlement, e: nat): int {
    if p.entry == e && Standing(p) then p.amount else 0
  }

  // What an entry's settlements pay of it, reversed ones apart.
  function Paid(settlements: seq<Settlement>, e: nat): int {
    if settlements == [] then 0
    else Paid(settlements[..|settlements| - 1], e) + PaidBy(settlements[|settlements| - 1], e)
  }

  predicate Writable(s: State, e: nat, expected: nat) {
    e < |s.entries| && s.entries[e].version == expected && !s.entries[e].cancelled
  }

  predicate OfOrder(e: Entry, id: nat) { e.order.Some? && e.order.value.id == id }

  // The entry of an order, or the number of entries when it has none.
  function Find(entries: seq<Entry>, id: nat): (k: nat)
    ensures k <= |entries|
    ensures k < |entries| ==> OfOrder(entries[k], id)
    ensures forall i | 0 <= i < k :: !OfOrder(entries[i], id)
  {
    if entries == [] then 0
    else
      var k := Find(entries[..|entries| - 1], id);
      if k < |entries| - 1 || OfOrder(entries[|entries| - 1], id) then k else |entries|
  }

  predicate BankConfirmed(e: Entry) { e.order.Some? && e.order.value.pix }

  predicate Accepts(s: State, step: Step) {
    match step
    case NewDay => true
    case Create(_, _, amount, _) => amount > 0
    case SettlePix(order, amount, paidDate) => amount > 0 && paidDate <= s.today
        && Find(s.entries, order) == |s.entries|
    case RecognizeSale(_, total) => total > 0
    case Settle(e, expected, amount, paidDate) =>
      && Writable(s, e, expected) && amount > 0
      && amount <= s.entries[e].amount - Paid(s.settlements, e) && paidDate <= s.today && CashMoving(s.entries[e])
    case Cancel(e, expected) =>
      && Writable(s, e, expected) && s.entries[e].order.None?
      && forall k | 0 <= k < |s.settlements| :: !(s.settlements[k].entry == e && Standing(s.settlements[k]))
    case Reverse(e, expected, k, reversedDate) =>
      && Writable(s, e, expected) && k < |s.settlements| && s.settlements[k].entry == e && Standing(s.settlements[k])
      && s.settlements[k].paidDate <= reversedDate <= s.today && !BankConfirmed(s.entries[e])
  }

  function Bumped(e: Entry): Entry { e.(version := e.version + 1) }

  function Apply(s: State, step: Step): State {
    if !Accepts(s, step) then s else
    match step
    case NewDay => s.(today := s.today + 1)
    case Create(direction, group, amount, due) =>
      s.(entries := s.entries + [Entry(direction, group, amount, due, None, false, 1)])
    case SettlePix(order, amount, paidDate) =>
      s.(entries := s.entries + [Entry(IN, CASH_ONLY, amount, paidDate, Some(Order(order, true)), false, 1)],
         settlements := s.settlements + [Settlement(|s.entries|, amount, paidDate, None)])
    case RecognizeSale(order, total) =>
      var k := Find(s.entries, order.id);
      if k < |s.entries| then s.(entries := s.entries[k := Bumped(s.entries[k]).(group := REVENUE)])
      else s.(entries := s.entries + [Entry(IN, REVENUE, total, s.today, Some(order), false, 1)])
    case Settle(e, _, amount, paidDate) =>
      s.(settlements := s.settlements + [Settlement(e, amount, paidDate, None)],
        entries := s.entries[e := Bumped(s.entries[e])])
    case Cancel(e, _) => s.(entries := s.entries[e := Bumped(s.entries[e]).(cancelled := true)])
    case Reverse(e, _, k, reversedDate) =>
      s.(settlements := s.settlements[k := s.settlements[k].(reversedDate := Some(reversedDate))],
         entries := s.entries[e := Bumped(s.entries[e])])
  }

  function Initial(today: int): State { State(today, [], []) }

  function Exec(s: State, steps: seq<Step>): State {
    if steps == [] then s else Apply(Exec(s, steps[..|steps| - 1]), steps[|steps| - 1])
  }

  /// The invariant

  ghost predicate SettlementInv(s: State, p: Settlement) {
    && p.entry < |s.entries| && p.amount > 0 && p.paidDate <= s.today
    && CashMoving(s.entries[p.entry])
    && (p.reversedDate.Some? ==> p.paidDate <= p.reversedDate.value <= s.today)
    && (Standing(p) ==> !s.entries[p.entry].cancelled)
  }

  ghost predicate EntryInv(s: State, e: nat)
    requires e < |s.entries|
  {
    && 0 < s.entries[e].amount && 0 <= Paid(s.settlements, e) <= s.entries[e].amount
    && (s.entries[e].cancelled ==> s.entries[e].order.None?)
  }

  // An order has one entry at most.
  ghost predicate OrdersInv(s: State) {
    forall i, k | 0 <= i < k < |s.entries| && s.entries[i].order.Some? && s.entries[k].order.Some? ::
      s.entries[i].order.value.id != s.entries[k].order.value.id
  }

  ghost predicate Inv(s: State) {
    && OrdersInv(s)
    && (forall k | 0 <= k < |s.settlements| :: SettlementInv(s, s.settlements[k]))
    && (forall e: nat | e < |s.entries| :: EntryInv(s, e))
  }

  lemma {:induction false} PaidNothing(settlements: seq<Settlement>, e: nat)
    requires forall k | 0 <= k < |settlements| :: PaidBy(settlements[k], e) == 0
    ensures Paid(settlements, e) == 0
  {
    if settlements != [] {
      PaidNothing(settlements[..|settlements| - 1], e);
    }
  }

  lemma PaidAfterSettlement(settlements: seq<Settlement>, p: Settlement, e: nat)
    ensures Paid(settlements + [p], e) == Paid(settlements, e) + PaidBy(p, e)
  {
    assert (settlements + [p])[..|settlements|] == settlements;
  }

  lemma {:induction false} PaidAfterReplacement(settlements: seq<Settlement>, k: nat, p: Settlement, e: nat)
    requires k < |settlements|
    ensures Paid(settlements[k := p], e) == Paid(settlements, e) - PaidBy(settlements[k], e) + PaidBy(p, e)
  {
    var n := |settlements| - 1;
    if k < n {
      assert settlements[k := p][..n] == settlements[..n][k := p];
      PaidAfterReplacement(settlements[..n], k, p, e);
    } else {
      assert settlements[k := p][..n] == settlements[..n];
    }
  }

  lemma SettleKeepsInv(s: State, e: nat, expected: nat, amount: int, paidDate: int)
    requires Inv(s)
    ensures Inv(Apply(s, Settle(e, expected, amount, paidDate)))
  {
    var s' := Apply(s, Settle(e, expected, amount, paidDate));
    if Accepts(s, Settle(e, expected, amount, paidDate)) {
      var p := Settlement(e, amount, paidDate, None);
      forall x: nat | x < |s'.entries| ensures EntryInv(s', x) {
        assert EntryInv(s, x);
        PaidAfterSettlement(s.settlements, p, x);
      }
      forall k | 0 <= k < |s'.settlements| ensures SettlementInv(s', s'.settlements[k]) {
        assert k < |s.settlements| ==> SettlementInv(s, s.settlements[k]);
      }
    }
  }

  lemma ReverseKeepsInv(s: State, e: nat, expected: nat, k: nat, reversedDate: int)
    requires Inv(s)
    ensures Inv(Apply(s, Reverse(e, expected, k, reversedDate)))
  {
    var s' := Apply(s, Reverse(e, expected, k, reversedDate));
    if Accepts(s, Reverse(e, expected, k, reversedDate)) {
      forall x: nat | x < |s'.entries| ensures EntryInv(s', x) {
        assert EntryInv(s, x);
        PaidAfterReplacement(s.settlements, k, s'.settlements[k], x);
        NeverNegative(s', x);
      }
      forall j | 0 <= j < |s'.settlements| ensures SettlementInv(s', s'.settlements[j]) {
        assert SettlementInv(s, s.settlements[j]);
      }
    }
  }

  lemma {:induction false} PaidIsNotNegative(settlements: seq<Settlement>, e: nat)
    requires forall k | 0 <= k < |settlements| :: settlements[k].amount > 0
    ensures Paid(settlements, e) >= 0
  {
    if settlements != [] {
      PaidIsNotNegative(settlements[..|settlements| - 1], e);
    }
  }

  lemma NeverNegative(s: State, e: nat)
    requires forall k | 0 <= k < |s.settlements| :: s.settlements[k].amount > 0
    ensures Paid(s.settlements, e) >= 0
  {
    PaidIsNotNegative(s.settlements, e);
  }

  lemma CancelKeepsInv(s: State, e: nat, expected: nat)
    requires Inv(s)
    ensures Inv(Apply(s, Cancel(e, expected)))
  {
    var s' := Apply(s, Cancel(e, expected));
    forall k | 0 <= k < |s'.settlements| ensures SettlementInv(s', s'.settlements[k]) {
      assert SettlementInv(s, s.settlements[k]);
    }
    forall x: nat | x < |s'.entries| ensures EntryInv(s', x) {
      assert EntryInv(s, x);
    }
  }

  lemma CreateKeepsInv(s: State, step: Step)
    requires Inv(s) && (step.Create? || step.NewDay?)
    ensures Inv(Apply(s, step))
  {
    var s' := Apply(s, step);
    forall k | 0 <= k < |s'.settlements| ensures SettlementInv(s', s'.settlements[k]) {
      assert SettlementInv(s, s.settlements[k]);
    }
    forall x: nat | x < |s'.entries| ensures EntryInv(s', x) {
      if x < |s.entries| {
        assert EntryInv(s, x);
      } else {
        NothingPaidYet(s);
      }
    }
  }

  lemma PixKeepsInv(s: State, order: nat, amount: int, paidDate: int)
    requires Inv(s)
    ensures Inv(Apply(s, SettlePix(order, amount, paidDate)))
  {
    var s' := Apply(s, SettlePix(order, amount, paidDate));
    if Accepts(s, SettlePix(order, amount, paidDate)) {
      var p := Settlement(|s.entries|, amount, paidDate, None);
      forall k | 0 <= k < |s'.settlements| ensures SettlementInv(s', s'.settlements[k]) {
        assert k < |s.settlements| ==> SettlementInv(s, s.settlements[k]);
      }
      forall x: nat | x < |s'.entries| ensures EntryInv(s', x) {
        PaidAfterSettlement(s.settlements, p, x);
        if x < |s.entries| {
          assert EntryInv(s, x);
        } else {
          NothingPaidYet(s);
        }
      }
    }
  }

  lemma NothingPaidYet(s: State)
    requires Inv(s)
    ensures Paid(s.settlements, |s.entries|) == 0
  {
    forall k | 0 <= k < |s.settlements| ensures PaidBy(s.settlements[k], |s.entries|) == 0 {
      assert SettlementInv(s, s.settlements[k]);
    }
    PaidNothing(s.settlements, |s.entries|);
  }

  lemma SaleKeepsInv(s: State, order: Order, total: int)
    requires Inv(s)
    ensures Inv(Apply(s, RecognizeSale(order, total)))
  {
    var s' := Apply(s, RecognizeSale(order, total));
    forall k | 0 <= k < |s'.settlements| ensures SettlementInv(s', s'.settlements[k]) {
      assert SettlementInv(s, s.settlements[k]);
    }
    forall x: nat | x < |s'.entries| ensures EntryInv(s', x) {
      if x < |s.entries| {
        assert EntryInv(s, x);
      } else {
        NothingPaidYet(s);
      }
    }
  }

  lemma ApplyKeepsInv(s: State, step: Step)
    requires Inv(s)
    ensures Inv(Apply(s, step))
  {
    match step
    case Settle(e, expected, amount, paidDate) => SettleKeepsInv(s, e, expected, amount, paidDate);
    case Cancel(e, expected) => CancelKeepsInv(s, e, expected);
    case Reverse(e, expected, k, reversedDate) => ReverseKeepsInv(s, e, expected, k, reversedDate);
    case SettlePix(order, amount, paidDate) => PixKeepsInv(s, order, amount, paidDate);
    case RecognizeSale(order, total) => SaleKeepsInv(s, order, total);
    case _ => CreateKeepsInv(s, step);
  }

  lemma {:induction false} RunKeepsInv(s: State, steps: seq<Step>)
    requires Inv(s)
    ensures Inv(Exec(s, steps))
  {
    if steps != [] {
      RunKeepsInv(s, steps[..|steps| - 1]);
      ApplyKeepsInv(Exec(s, steps[..|steps| - 1]), steps[|steps| - 1]);
    }
  }

  /// Main results: entries

  // What is paid of an entry never exceeds it, and nothing is paid of a cancelled one.
  lemma NeverOverpaid(today: int, steps: seq<Step>, e: nat)
    requires e < |Exec(Initial(today), steps).entries|
    ensures var s := Exec(Initial(today), steps);
            && 0 <= Paid(s.settlements, e) <= s.entries[e].amount
            && (s.entries[e].cancelled || !CashMoving(s.entries[e]) ==> Paid(s.settlements, e) == 0)
  {
    RunKeepsInv(Initial(today), steps);
    var s := Exec(Initial(today), steps);
    assert EntryInv(s, e);
    if s.entries[e].cancelled || !CashMoving(s.entries[e]) {
      forall k | 0 <= k < |s.settlements| ensures PaidBy(s.settlements[k], e) == 0 {
        assert SettlementInv(s, s.settlements[k]);
      }
      PaidNothing(s.settlements, e);
    }
  }

  lemma {:induction false} PaidAtLeast(settlements: seq<Settlement>, k: nat, e: nat)
    requires k < |settlements| && forall i | 0 <= i < |settlements| :: settlements[i].amount > 0
    ensures Paid(settlements, e) >= PaidBy(settlements[k], e)
  {
    var n := |settlements| - 1;
    if k < n {
      PaidAtLeast(settlements[..n], k, e);
    } else {
      PaidIsNotNegative(settlements[..n], e);
    }
  }

  lemma {:induction false} BankCashStands(s: State, more: seq<Step>, k: nat)
    requires k < |s.settlements| && s.settlements[k].entry < |s.entries|
        && BankConfirmed(s.entries[s.settlements[k].entry])
    ensures k < |Exec(s, more).settlements| && Exec(s, more).settlements[k] == s.settlements[k]
    ensures s.settlements[k].entry < |Exec(s, more).entries|
        && BankConfirmed(Exec(s, more).entries[s.settlements[k].entry])
  {
    if more != [] {
      BankCashStands(s, more[..|more| - 1], k);
    }
  }

  // Money the bank confirmed is cash for good: whatever the store does later, its
  // settlement stands and its entry stays paid in full, whether or not the sale is
  // recognised.
  lemma BankCashIsFinal(today: int, steps: seq<Step>, order: nat, amount: int, paidDate: int, more: seq<Step>)
    requires Accepts(Exec(Initial(today), steps), SettlePix(order, amount, paidDate))
    ensures var before := Exec(Initial(today), steps);
            var after := Exec(Apply(before, SettlePix(order, amount, paidDate)), more);
            var e, k := |before.entries|, |before.settlements|;
            && k < |after.settlements| && after.settlements[k] == Settlement(e, amount, paidDate, None)
            && e < |after.entries| && !after.entries[e].cancelled && after.entries[e].amount == amount
            && Paid(after.settlements, e) == amount
  {
    var before := Exec(Initial(today), steps);
    var paid := Apply(before, SettlePix(order, amount, paidDate));
    var after := Exec(paid, more);
    var e, k := |before.entries|, |before.settlements|;
    RunKeepsInv(Initial(today), steps);
    ApplyKeepsInv(before, SettlePix(order, amount, paidDate));
    RunKeepsInv(paid, more);
    VersionsGrow(paid, more, e);
    BankCashStands(paid, more, k);
    assert SettlementInv(after, after.settlements[k]) && EntryInv(after, e);
    forall i | 0 <= i < |after.settlements| ensures after.settlements[i].amount > 0 {
      assert SettlementInv(after, after.settlements[i]);
    }
    PaidAtLeast(after.settlements, k, e);
  }

  // An order never has two entries, however its payment and its completion come.
  lemma OneEntryForEachOrder(today: int, steps: seq<Step>, i: nat, k: nat)
    requires var s := Exec(Initial(today), steps);
             i < |s.entries| && k < |s.entries| && s.entries[i].order.Some? && s.entries[k].order.Some?
             && s.entries[i].order.value.id == s.entries[k].order.value.id
    ensures i == k
  {
    RunKeepsInv(Initial(today), steps);
    assert OrdersInv(Exec(Initial(today), steps));
  }

  // The version an entry write is checked against, if the step is one.
  function Checked(step: Step): Option<(nat, nat)> {
    match step
    case Settle(e, expected, _, _) => Some((e, expected))
    case Cancel(e, expected) => Some((e, expected))
    case Reverse(e, expected, _, _) => Some((e, expected))
    case _ => None
  }

  lemma {:induction false} VersionsGrow(s: State, more: seq<Step>, e: nat)
    requires e < |s.entries|
    ensures e < |Exec(s, more).entries| && s.entries[e].version <= Exec(s, more).entries[e].version
    ensures s.entries[e].amount == Exec(s, more).entries[e].amount
    ensures s.entries[e].cancelled && s.entries[e].order.None? ==> Exec(s, more).entries[e] == s.entries[e]
  {
    if more != [] {
      VersionsGrow(s, more[..|more| - 1], e);
    }
  }

  // A cancelled entry never changes again; that of an order is never cancelled.
  lemma CancelledIsFinal(today: int, steps: seq<Step>, more: seq<Step>, e: nat)
    requires e < |Exec(Initial(today), steps).entries| && Exec(Initial(today), steps).entries[e].cancelled
    ensures var before, after := Exec(Initial(today), steps), Exec(Exec(Initial(today), steps), more);
            before.entries[e].order.None? && e < |after.entries| && after.entries[e] == before.entries[e]
  {
    RunKeepsInv(Initial(today), steps);
    assert EntryInv(Exec(Initial(today), steps), e);
    VersionsGrow(Exec(Initial(today), steps), more, e);
  }

  // Of two writes to an entry with the same expected version at most one is
  // accepted, whatever happens between them.
  lemma OneWriteForEachVersion(s: State, first: Step, more: seq<Step>, second: Step)
    requires Accepts(s, first) && Checked(first).Some? && Checked(second) == Checked(first)
    ensures !Accepts(Exec(Apply(s, first), more), second)
  {
    VersionsGrow(Apply(s, first), more, Checked(first).value.0);
  }

  /// When each step takes effect

  predicate OpenEntry(s: State, e: nat, version: nat) {
    e < |s.entries| && s.entries[e].version == version && !s.entries[e].cancelled
  }

  // A settlement is taken exactly within the balance of an open entry of the
  // version read, not in the future and not for an appropriation of cost.
  lemma SettledExactlyWhen(s: State, e: nat, version: nat, amount: int, paidDate: int)
    ensures Apply(s, Settle(e, version, amount, paidDate))
         == if && OpenEntry(s, e, version) && 0 < amount && Paid(s.settlements, e) + amount <= s.entries[e].amount
               && paidDate <= s.today && s.entries[e].group != DEPRECIATION && s.entries[e].group != COGS
            then s.(settlements := s.settlements + [Settlement(e, amount, paidDate, None)],
                    entries := s.entries[e := s.entries[e].(version := version + 1)])
            else s
  {}

  // An entry is cancelled exactly when it is open, of no order, and every
  // settlement of it was reversed.
  lemma CancelledExactlyWhen(s: State, e: nat, version: nat)
    ensures Apply(s, Cancel(e, version))
         == if && OpenEntry(s, e, version) && s.entries[e].order.None?
               && forall k | 0 <= k < |s.settlements| && s.settlements[k].entry == e ::
                    s.settlements[k].reversedDate.Some?
            then s.(entries := s.entries[e := s.entries[e].(version := version + 1, cancelled := true)]) else s
  {}

  // A settlement is reversed exactly once, on a day from its own to today, and
  // never one the bank confirmed.
  lemma ReversedExactlyWhen(s: State, e: nat, version: nat, k: nat, day: int)
    ensures Apply(s, Reverse(e, version, k, day))
         == if && OpenEntry(s, e, version) && k < |s.settlements| && s.settlements[k].entry == e
               && s.settlements[k].reversedDate.None? && s.settlements[k].paidDate <= day <= s.today
               && !(s.entries[e].order.Some? && s.entries[e].order.value.pix)
            then s.(settlements := s.settlements[k := s.settlements[k].(reversedDate := Some(day))],
                    entries := s.entries[e := s.entries[e].(version := version + 1)])
            else s
  {}

  predicate HasEntry(entries: seq<Entry>, order: nat) {
    exists k :: 0 <= k < |entries| && entries[k].order.Some? && entries[k].order.value.id == order
  }

  // A confirmed payment is booked exactly once for an order, as cash in and its
  // settlement.
  lemma PixBookedExactlyWhen(s: State, order: nat, amount: int, paidDate: int)
    ensures Apply(s, SettlePix(order, amount, paidDate))
         == if 0 < amount && paidDate <= s.today && !HasEntry(s.entries, order)
            then s.(entries := s.entries + [Entry(IN, CASH_ONLY, amount, paidDate, Some(Order(order, true)), false, 1)],
                    settlements := s.settlements + [Settlement(|s.entries|, amount, paidDate, None)])
            else s
  {
    if HasEntry(s.entries, order) {
      var k :| 0 <= k < |s.entries| && OfOrder(s.entries[k], order);
    }
  }

  // A completed order turns its entry, amount and all, into revenue, or gets one.
  lemma SaleRecognisedExactly(s: State, order: Order, total: int)
    ensures var s' := Apply(s, RecognizeSale(order, total));
            if total <= 0 then s' == s
            else if HasEntry(s.entries, order.id)
            then exists k :: 0 <= k < |s.entries| && s.entries[k].order.Some? && s.entries[k].order.value.id == order.id
                   && var e := s.entries[k];
                   s' == s.(entries := s.entries[k := e.(group := REVENUE, version := e.version + 1)])
            else s' == s.(entries := s.entries + [Entry(IN, REVENUE, total, s.today, Some(order), false, 1)])
  {
    if HasEntry(s.entries, order.id) {
      var k :| 0 <= k < |s.entries| && OfOrder(s.entries[k], order.id);
      assert Find(s.entries, order.id) < |s.entries|;
    }
  }

  // A new entry is open and nothing is paid of it; days follow each other.
  lemma CreatedExactlyWhen(s: State, direction: Direction, group: Group, amount: int, due: int)
    ensures Apply(s, Create(direction, group, amount, due))
         == if 0 < amount then s.(entries := s.entries + [Entry(direction, group, amount, due, None, false, 1)]) else s
    ensures Apply(s, NewDay) == s.(today := s.today + 1)
  {}

  /// Cash, balances and what was booked

  predicate Within(day: int, from: int, to: int) { from <= day <= to }

  function Flow(p: Settlement, from: int, to: int): int {
    (if Within(p.paidDate, from, to) then p.amount else 0)
    - (if p.reversedDate.Some? && Within(p.reversedDate.value, from, to) then p.amount else 0)
  }

  predicate Flows(entries: seq<Entry>, p: Settlement, d: Direction) {
    p.entry < |entries| && entries[p.entry].direction == d
  }

  // Cash of one direction over a period: payments less reversals, each on its day.
  function Cash(entries: seq<Entry>, settlements: seq<Settlement>, d: Direction, from: int, to: int): int {
    if settlements == [] then 0
    else
      var p := settlements[|settlements| - 1];
      Cash(entries, settlements[..|settlements| - 1], d, from, to) + if Flows(entries, p, d) then Flow(p, from, to)
        else 0
  }

  predicate Counts(e: Entry, d: Direction) {
    e.direction == d && !e.cancelled && CashMoving(e)
  }

  function Booked(entries: seq<Entry>, d: Direction): int {
    if entries == [] then 0
    else Booked(entries[..|entries| - 1], d) + if Counts(entries[|entries| - 1], d) then entries[|entries| - 1].amount
        else 0
  }

  // What is left to receive or to pay.
  function Outstanding(entries: seq<Entry>, settlements: seq<Settlement>, d: Direction): int {
    if entries == [] then 0
    else
      var n := |entries| - 1;
      Outstanding(entries[..n], settlements, d)
      + if Counts(entries[n], d) then entries[n].amount - Paid(settlements, n) else 0
  }

  // An entry counts unless it was cancelled or only appropriates a cost.
  lemma OneMoreEntry(entries: seq<Entry>, settlements: seq<Settlement>, e: Entry, d: Direction)
    ensures var counts := e.direction == d && !e.cancelled && e.group != DEPRECIATION && e.group != COGS;
            && Booked(entries + [e], d) == Booked(entries, d) + (if counts then e.amount else 0)
            && Outstanding(entries + [e], settlements, d)
            == Outstanding(entries, settlements, d) + (if counts then e.amount - Paid(settlements, |entries|) else 0)
  {
    assert (entries + [e])[..|entries|] == entries;
  }

  lemma {:induction false} OutstandingOfNothingPaid(entries: seq<Entry>, d: Direction)
    ensures Outstanding(entries, [], d) == Booked(entries, d)
  {
    if entries != [] {
      OutstandingOfNothingPaid(entries[..|entries| - 1], d);
    }
  }

  // One more settlement lowers the total outstanding by what it pays.
  lemma {:induction false} OneMoreSettlement(entries: seq<Entry>, settlements: seq<Settlement>, p: Settlement,
      d: Direction)
    ensures Outstanding(entries, settlements + [p], d)
         == Outstanding(entries, settlements, d)
            - if p.entry < |entries| && Counts(entries[p.entry], d) && Standing(p) then p.amount else 0
  {
    if entries != [] {
      var n := |entries| - 1;
      OneMoreSettlement(entries[..n], settlements, p, d);
      PaidAfterSettlement(settlements, p, n);
    }
  }

  // Nothing was paid before the day.
  predicate Since(settlements: seq<Settlement>, day: int) {
    forall k | 0 <= k < |settlements| :: day <= settlements[k].paidDate
  }

  lemma {:induction false} CashAndBalance(
      entries: seq<Entry>, settlements: seq<Settlement>, d: Direction, from: int, today: int)
    requires forall k | 0 <= k < |settlements| :: SettlementInv(State(today, entries, settlements), settlements[k])
    requires Since(settlements, from)
    ensures Cash(entries, settlements, d, from, today) + Outstanding(entries, settlements, d) == Booked(entries, d)
  {
    if settlements == [] {
      OutstandingOfNothingPaid(entries, d);
    } else {
      var n := |settlements| - 1;
      var p := settlements[n];
      forall k | 0 <= k < n
        ensures SettlementInv(State(today, entries, settlements[..n]), settlements[..n][k])
      {
        assert SettlementInv(State(today, entries, settlements), settlements[k]);
      }
      CashAndBalance(entries, settlements[..n], d, from, today);
      OneMoreSettlement(entries, settlements[..n], p, d);
      assert settlements == settlements[..n] + [p];
      assert SettlementInv(State(today, entries, settlements), p);
    }
  }

  // For each direction, all the cash that ever moved plus all that is outstanding
  // is what was booked on entries that move cash and were not cancelled.
  lemma CashPlusOutstandingIsBooked(today: int, steps: seq<Step>, d: Direction, from: int)
    requires Since(Exec(Initial(today), steps).settlements, from)
    ensures var s := Exec(Initial(today), steps);
            Cash(s.entries, s.settlements, d, from, s.today) + Outstanding(s.entries, s.settlements, d)
              == Booked(s.entries, d)
  {
    RunKeepsInv(Initial(today), steps);
    var s := Exec(Initial(today), steps);
    assert s == State(s.today, s.entries, s.settlements);
    CashAndBalance(s.entries, s.settlements, d, from, s.today);
  }

  // Cash over adjacent periods adds up.
  lemma {:induction false} AdjacentPeriodsAddUp(
      entries: seq<Entry>, settlements: seq<Settlement>, d: Direction, from: int, middle: int, to: int)
    requires from <= middle + 1 && middle <= to
    ensures Cash(entries, settlements, d, from, middle) + Cash(entries, settlements, d, middle + 1, to)
         == Cash(entries, settlements, d, from, to)
  {
    if settlements != [] {
      AdjacentPeriodsAddUp(entries, settlements[..|settlements| - 1], d, from, middle, to);
    }
  }

  lemma {:induction false} FlowsUpToADay(entries: seq<Entry>, settlements: seq<Settlement>, d: Direction, from: int,
      day: int)
    requires forall k | 0 <= k < |settlements| ::
               && settlements[k].amount > 0
               && (settlements[k].reversedDate.Some? ==> settlements[k].paidDate <= settlements[k].reversedDate.value)
    requires Since(settlements, from)
    ensures Cash(entries, settlements, d, from, day) >= 0
  {
    if settlements != [] {
      FlowsUpToADay(entries, settlements[..|settlements| - 1], d, from, day);
    }
  }

  // No reversal comes before its payment, so cash from the beginning to any day
  // is never negative.
  lemma CumulativeCashIsNotNegative(today: int, steps: seq<Step>, d: Direction, from: int, day: int)
    requires Since(Exec(Initial(today), steps).settlements, from)
    ensures var s := Exec(Initial(today), steps); Cash(s.entries, s.settlements, d, from, day) >= 0
  {
    RunKeepsInv(Initial(today), steps);
    var s := Exec(Initial(today), steps);
    forall k | 0 <= k < |s.settlements|
      ensures s.settlements[k].amount > 0
      ensures s.settlements[k].reversedDate.Some? ==> s.settlements[k].paidDate <= s.settlements[k].reversedDate.value
    {
      assert SettlementInv(s, s.settlements[k]);
    }
    FlowsUpToADay(s.entries, s.settlements, d, from, day);
  }

  /// The tables as the service updates them

  class FinanceTables {
    var today: int
    var entries: seq<Entry>
    var settlements: seq<Settlement>

    ghost function View(): State reads this { State(today, entries, settlements) }

    constructor (date: int)
      ensures View() == Initial(date)
    {
      today, entries, settlements := date, [], [];
    }

    method LockEntry(id: nat, version: nat) returns (r: Result<Entry>)
      ensures r.Ok? <==> Writable(View(), id, version)
      ensures r.Ok? ==> r.value == entries[id]
    {
      if id >= |entries| { return Err("not found"); }
      if entries[id].version != version { return Err("version conflict"); }
      if entries[id].cancelled { return Err("cancelled"); }
      return Ok(entries[id]);
    }

    method CreateEntry(direction: Direction, group: Group, amount: int, due: int) returns (id: nat)
      requires amount > 0
      modifies this
      ensures View() == Apply(old(View()), Create(direction, group, amount, due))
      ensures id == |old(entries)| && settlements == old(settlements)
    {
      id := |entries|;
      entries := entries + [Entry(direction, group, amount, due, None, false, 1)];
    }

    method FindEntry(order: nat) returns (k: nat)
      ensures k == Find(entries, order)
    {
      k := 0;
      while k < |entries| && !OfOrder(entries[k], order)
        invariant 0 <= k <= |entries| && forall i | 0 <= i < k :: !OfOrder(entries[i], order)
      {
        k := k + 1;
      }
    }

    // The bank confirms the payment of an order: an entry and its settlement at once.
    method ConfirmPix(order: nat, amount: int, paidDate: int) returns (ok: bool)
      modifies this
      ensures View() == Apply(old(View()), SettlePix(order, amount, paidDate))
      ensures ok <==> Accepts(old(View()), SettlePix(order, amount, paidDate))
    {
      if amount <= 0 || paidDate > today { return false; }
      var k := FindEntry(order);
      if k < |entries| { return false; }
      entries := entries + [Entry(IN, CASH_ONLY, amount, paidDate, Some(Order(order, true)), false, 1)];
      settlements := settlements + [Settlement(k, amount, paidDate, None)];
      return true;
    }

    // Completion of an order: its cash entry becomes revenue, or it gets an entry.
    method CompleteSale(order: Order, total: int)
      modifies this
      ensures View() == Apply(old(View()), RecognizeSale(order, total))
    {
      if total <= 0 { return; }
      var k := FindEntry(order.id);
      if k < |entries| {
        entries := entries[k := entries[k].(group := REVENUE, version := entries[k].version + 1)];
      } else {
        entries := entries + [Entry(IN, REVENUE, total, today, Some(order), false, 1)];
      }
    }

    method SettleEntry(id: nat, version: nat, amount: int, paidDate: int) returns (r: Result<nat>)
      requires amount > 0
      modifies this
      ensures View() == Apply(old(View()), Settle(id, version, amount, paidDate))
      ensures r.Ok? <==> Accepts(old(View()), Settle(id, version, amount, paidDate))
      ensures r.Ok? ==> Paid(settlements, id) == old(Paid(settlements, id)) + amount
      ensures r.Ok? ==> entries[id].version == version + 1
    {
      var locked := LockEntry(id, version);
      if locked.Err? { return Err(locked.reason); }
      var entry := locked.value;
      var paid := Paid(settlements, id);
      if amount > entry.amount - paid { return Err("exceeds the balance"); }
      if paidDate > today { return Err("future date"); }
      if entry.group in {DEPRECIATION, COGS} { return Err("moves no cash"); }
      PaidAfterSettlement(settlements, Settlement(id, amount, paidDate, None), id);
      settlements := settlements + [Settlement(id, amount, paidDate, None)];
      entries := entries[id := entry.(version := entry.version + 1)];
      return Ok(|settlements| - 1);
    }

    method CancelEntry(id: nat, version: nat) returns (ok: bool)
      modifies this
      ensures View() == Apply(old(View()), Cancel(id, version))
      ensures ok <==> Accepts(old(View()), Cancel(id, version))
      ensures ok ==> entries[id].cancelled && Paid(settlements, id) == 0
    {
      var locked := LockEntry(id, version);
      if locked.Err? || locked.value.order.Some? { return false; }
      if exists k | 0 <= k < |settlements| :: settlements[k].entry == id && settlements[k].reversedDate.None? {
        return false;
      }
      PaidNothing(settlements, id);
      entries := entries[id := locked.value.(cancelled := true, version := version + 1)];
      return true;
    }

    method ReverseSettlement(id: nat, version: nat, settlement: nat, reversedDate: int) returns (ok: bool)
      modifies this
      ensures View() == Apply(old(View()), Reverse(id, version, settlement, reversedDate))
      ensures ok <==> Accepts(old(View()), Reverse(id, version, settlement, reversedDate))
      ensures ok ==> Paid(settlements, id) == old(Paid(settlements, id)) - settlements[settlement].amount
    {
      var locked := LockEntry(id, version);
      if locked.Err? || settlement >= |settlements| { return false; }
      var payment := settlements[settlement];
      if BankConfirmed(locked.value) { return false; }
      if payment.entry != id || payment.reversedDate.Some? { return false; }
      if reversedDate < payment.paidDate || reversedDate > today { return false; }
      PaidAfterReplacement(settlements, settlement, payment.(reversedDate := Some(reversedDate)), id);
      settlements := settlements[settlement := payment.(reversedDate := Some(reversedDate))];
      entries := entries[id := locked.value.(version := version + 1)];
      return true;
    }
  }
}
