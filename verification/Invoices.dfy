/** One invoice row with its items, payments and status history. */
module Invoices {
  import opened Wrappers

  datatype Status = DRAFT | ISSUED | OVERDUE | DELINQUENT | PAID | CANCELLED
  datatype Change = Change(from: Option<Status>, to: Status)

  // A store is charged at most once for each month and kind of charge.
  datatype Charge = Charge(store: nat, month: int, kind: string)

  datatype Invoice = Invoice(
    charge: Charge,
    due: int,                 // a date
    zone: int,                // offset of the local clock, in seconds
    status: Status,
    version: nat,
    items: seq<int>,          // amounts in cents
    payments: seq<int>,
    history: seq<Change>,
    issuedAt: Option<int>,
    paidAt: Option<int>,
    notifiedAt: Option<int>,
    suspendAt: Option<int>)

  datatype Op =
    | Edit(version: nat, charge: Charge, due: int, items: seq<int>)
    | Issue(now: int)
    | Cancel(now: int)
    | Pay(amount: int, now: int)
    | Age(now: int, grace: nat)

  const DAY: int := 86400
  const DAYS_TO_DELINQUENCY: int := 5
  const MAX_ITEMS: nat := 100

  function Date(instant: int, zone: int): int { (instant + zone) / DAY }

  function Midnight(date: int, zone: int): int { date * DAY - zone }

  function Max(a: int, b: int): int { if a < b then b else a }

  function Sum(amounts: seq<int>): int {
    if amounts == [] then 0 else Sum(amounts[..|amounts| - 1]) + amounts[|amounts| - 1]
  }

  function Total(i: Invoice): int { Sum(i.items) }
  function Paid(i: Invoice): int { Sum(i.payments) }
  function Balance(i: Invoice): int { Total(i) - Paid(i) }

  predicate Collectable(status: Status) {
    status in {ISSUED, OVERDUE, DELINQUENT}
  }

  predicate Closed(status: Status) {
    status == PAID || status == CANCELLED
  }

  predicate ValidItems(items: seq<int>) {
    1 <= |items| <= MAX_ITEMS && (forall k | 0 <= k < |items| :: items[k] != 0) && Sum(items) > 0
  }

  function Draft(charge: Charge, due: int, zone: int, items: seq<int>): Invoice {
    Invoice(charge, due, zone, DRAFT, 1, items, [], [Change(None, DRAFT)], None, None, None, None)
  }

  function Recorded(i: Invoice, to: Status, now: int): Invoice {
    if i.status == to then i
    else i.(status := to, version := i.version + 1, history := i.history + [Change(Some(i.status), to)],
            issuedAt := if to == ISSUED && i.issuedAt.None? then Some(now) else i.issuedAt,
            paidAt := if to == PAID then Some(now) else i.paidAt)
  }

  predicate DueForNotice(i: Invoice, now: int) {
    Collectable(i.status) && Date(now, i.zone) - i.due >= DAYS_TO_DELINQUENCY && i.notifiedAt.None?
  }

  predicate Accepts(i: Invoice, op: Op) {
    match op
    case Edit(version, charge, _, items) =>
      i.status == DRAFT && i.version == version && charge.store == i.charge.store && ValidItems(items)
    case Issue(_) => i.status == DRAFT && Total(i) > 0
    case Cancel(_) => !Closed(i.status) && Paid(i) <= 0
    case Pay(amount, _) => Collectable(i.status) && 0 < amount <= Balance(i)
    case Age(now, _) => DueForNotice(i, now) || (i.status == ISSUED && Date(now, i.zone) > i.due)
  }

  function Do(i: Invoice, op: Op): Invoice {
    if !Accepts(i, op) then i else
    match op
    case Edit(_, charge, due, items) => i.(charge := charge, due := due, items := items, version := i.version + 1)
    case Issue(now) => Recorded(i, ISSUED, now)
    case Cancel(now) => Recorded(i, CANCELLED, now)
    case Pay(amount, now) =>
      var credited := i.(payments := i.payments + [amount]);
      if amount == Balance(i) then Recorded(credited, PAID, now) else credited
    case Age(now, grace) =>
      if DueForNotice(i, now)
      then Recorded(i, DELINQUENT, now).(notifiedAt := Some(now),
          suspendAt := Some(Max(now + DAY, Midnight(i.due + grace, i.zone))))
      else Recorded(i, OVERDUE, now)
  }

  /// The invariant of a row

  // What may follow what; a status never follows itself.
  predicate Follows(from: Status, to: Status) {
    match from
    case DRAFT => to == ISSUED || to == CANCELLED
    case ISSUED => to in {OVERDUE, DELINQUENT, PAID, CANCELLED}
    case OVERDUE => to in {DELINQUENT, PAID, CANCELLED}
    case DELINQUENT => to == PAID || to == CANCELLED
    case _ => false
  }

  // A connected path from DRAFT to `status`.
  ghost predicate Path(history: seq<Change>, status: Status) {
    && history != [] && history[0] == Change(None, DRAFT) && history[|history| - 1].to == status
    && forall k | 0 < k < |history| ::
      history[k].from == Some(history[k - 1].to) && Follows(history[k - 1].to, history[k].to)
  }

  ghost predicate MoneyInv(i: Invoice) {
    && (forall k | 0 <= k < |i.payments| :: i.payments[k] > 0)
    && 0 <= Paid(i) <= Total(i)
    && (Collectable(i.status) ==> Balance(i) > 0)
    && (i.status == PAID ==> Balance(i) == 0 && Total(i) > 0)
    && (i.status == DRAFT || i.status == CANCELLED ==> i.payments == [])
  }

  // An issue date is kept exactly for what was once issued.
  ghost predicate IssueDated(i: Invoice) {
    i.issuedAt.Some? <==> exists k | 0 <= k < |i.history| :: i.history[k].to == ISSUED
  }

  ghost predicate DatesInv(i: Invoice) {
    && IssueDated(i)
    && (i.paidAt.Some? <==> i.status == PAID)
    && (i.notifiedAt.Some? <==> i.suspendAt.Some?)
    && (i.status == DELINQUENT ==> i.notifiedAt.Some?)
    && (i.notifiedAt.Some? ==>
          && i.status in {DELINQUENT, PAID, CANCELLED}
          && i.suspendAt.value >= i.notifiedAt.value + DAY
          && Date(i.notifiedAt.value, i.zone) >= i.due + DAYS_TO_DELINQUENCY)
  }

  ghost predicate RowInv(i: Invoice) {
    MoneyInv(i) && DatesInv(i) && Path(i.history, i.status) && |i.history| <= i.version
  }

  lemma SumOfNone(amounts: seq<int>)
    requires amounts == []
    ensures Sum(amounts) == 0
  {}

  lemma SumAppend(amounts: seq<int>, amount: int)
    ensures Sum(amounts + [amount]) == Sum(amounts) + amount
  {
    assert (amounts + [amount])[..|amounts|] == amounts;
  }

  lemma {:induction false} SumPositive(amounts: seq<int>)
    requires forall k | 0 <= k < |amounts| :: amounts[k] > 0
    ensures Sum(amounts) >= |amounts|
  {
    if amounts != [] {
      SumPositive(amounts[..|amounts| - 1]);
    }
  }

  lemma RecordedPath(i: Invoice, to: Status, now: int)
    requires Path(i.history, i.status) && |i.history| <= i.version && Follows(i.status, to)
    requires IssueDated(i)
    ensures var i' := Recorded(i, to, now); Path(i'.history, to) && |i'.history| <= i'.version && IssueDated(i')
  {
    var i' := Recorded(i, to, now);
    assert i'.history[..|i.history|] == i.history;
    RecordedIssue(i, to, now);
  }

  lemma RecordedIssue(i: Invoice, to: Status, now: int)
    requires IssueDated(i) && i.status != to
    ensures IssueDated(Recorded(i, to, now))
  {
    var i' := Recorded(i, to, now);
    assert i'.history[|i.history|].to == to;
    if k :| 0 <= k < |i.history| && i.history[k].to == ISSUED {
      assert i'.history[k].to == ISSUED;
    }
  }

  lemma DraftInv(charge: Charge, due: int, zone: int, items: seq<int>)
    requires Sum(items) >= 0
    ensures RowInv(Draft(charge, due, zone, items))
  {
    var i := Draft(charge, due, zone, items);
    assert Paid(i) == 0;
    assert forall k | 0 <= k < |i.history| :: i.history[k].to == DRAFT;
  }

  lemma CreditKeepsMoney(i: Invoice, amount: int)
    requires MoneyInv(i) && Collectable(i.status) && 0 < amount <= Balance(i)
    ensures var credited := i.(payments := i.payments + [amount]);
            && Balance(credited) == Balance(i) - amount
            && (forall k | 0 <= k < |credited.payments| :: credited.payments[k] > 0)
            && 0 < Paid(credited) <= Total(credited) == Total(i)
  {
    SumAppend(i.payments, amount);
  }

  lemma PayKeepsInv(i: Invoice, amount: int, now: int)
    requires RowInv(i) && Accepts(i, Pay(amount, now))
    ensures RowInv(Do(i, Pay(amount, now)))
  {
    var credited := i.(payments := i.payments + [amount]);
    CreditKeepsMoney(i, amount);
    if amount == Balance(i) {
      RecordedPath(credited, PAID, now);
    } else {
      assert Do(i, Pay(amount, now)) == credited && MoneyInv(credited) && DatesInv(credited);
    }
  }

  lemma AgeKeepsInv(i: Invoice, now: int, grace: nat)
    requires RowInv(i) && Accepts(i, Age(now, grace))
    ensures RowInv(Do(i, Age(now, grace)))
  {
    if DueForNotice(i, now) {
      assert i.status != DELINQUENT;
      RecordedPath(i, DELINQUENT, now);
    } else {
      RecordedPath(i, OVERDUE, now);
    }
  }

  lemma DoKeepsInv(i: Invoice, op: Op)
    requires RowInv(i)
    ensures RowInv(Do(i, op))
  {
    if Accepts(i, op) {
      match op
      case Edit(_, _, _, items) =>
        SumOfNone(i.payments);
      case Issue(now) =>
        SumOfNone(i.payments);
        RecordedPath(i, ISSUED, now);
      case Cancel(now) =>
        SumPositive(i.payments);
        RecordedPath(i, CANCELLED, now);
      case Pay(amount, now) => PayKeepsInv(i, amount, now);
      case Age(now, grace) => AgeKeepsInv(i, now, grace);
    }
  }

  /// What time may do to a row

  // Payments and history only grow, the items are fixed once issued, and a
  // paid or cancelled invoice does not change at all.
  ghost predicate Evolves(i: Invoice, i': Invoice) {
    && i.payments <= i'.payments && i.history <= i'.history
    && i.version <= i'.version && i'.charge.store == i.charge.store
    && (i.status != DRAFT ==> i'.status != DRAFT && i'.items == i.items && i'.charge == i.charge && i'.due == i.due)
    && (i.issuedAt.Some? ==> i'.issuedAt == i.issuedAt)
    && (i.notifiedAt.Some? ==> i'.notifiedAt == i.notifiedAt && i'.suspendAt == i.suspendAt)
    && (Closed(i.status) ==> i' == i)
  }

  lemma DoEvolves(i: Invoice, op: Op)
    requires RowInv(i)
    ensures Evolves(i, Do(i, op))
  {}

  lemma EvolvesTransitively(a: Invoice, b: Invoice, c: Invoice)
    requires Evolves(a, b) && Evolves(b, c)
    ensures Evolves(a, c)
  {}

  // The status reached is the last step of the recorded path, and an invoice is
  // paid exactly when it was charged something, was not cancelled and owes nothing.
  lemma PaidExactlyWhenSettled(i: Invoice)
    requires RowInv(i)
    ensures i.status == PAID <==> Total(i) > 0 && Balance(i) == 0
    ensures Collectable(i.status) ==> 0 < Balance(i) <= Total(i)
    ensures Accepts(i, Pay(Balance(i), 0)) ==> Do(i, Pay(Balance(i), 0)).status == PAID
  {
    SumPositive(i.payments);
    if i.payments == [] {
      SumOfNone(i.payments);
    }
  }

  // A notice leaves at least 24 hours, and the days of grace after the due date
  // in the invoice's own zone, and no longer than the later of the two.
  lemma NoticeLeavesTime(i: Invoice, now: int, grace: nat)
    requires DueForNotice(i, now)
    ensures var noticed := Do(i, Age(now, grace));
            && noticed.status == DELINQUENT && noticed.notifiedAt == Some(now) && noticed.suspendAt.Some?
            && (forall at :: at >= noticed.suspendAt.value <==> at >= now + DAY && Date(at, i.zone) >= i.due + grace)
  {
    var noticed := Do(i, Age(now, grace));
    forall at ensures at >= Midnight(i.due + grace, i.zone) <==> Date(at, i.zone) >= i.due + grace {}
  }

  // Ageing twice at one instant is ageing once.
  lemma AgeIsIdempotent(i: Invoice, now: int, grace: nat)
    requires RowInv(i)
    ensures !Accepts(Do(i, Age(now, grace)), Age(now, grace))
  {}

  /// What each operation asks for and leaves

  // A draft is edited at the version read, within its store; a draft that charges
  // something is issued.
  lemma EditedAndIssuedExactlyWhen(i: Invoice, version: nat, charge: Charge, due: int, items: seq<int>, now: int)
    ensures var edited := Do(i, Edit(version, charge, due, items));
            && (edited != i <==>
                  && i.status == DRAFT && i.version == version && charge.store == i.charge.store
                  && 1 <= |items| <= 100 && 0 !in items && Sum(items) > 0)
            && (edited != i ==>
                  edited == i.(charge := charge, due := due, items := items, version := i.version + 1))
    ensures var issued := Do(i, Issue(now));
            && (issued != i <==> i.status == DRAFT && Sum(i.items) > 0)
            && (issued != i ==>
                  && issued.status == ISSUED && issued.version == i.version + 1
                  && issued.history == i.history + [Change(Some(DRAFT), ISSUED)]
                  && (i.issuedAt.None? ==> issued.issuedAt == Some(now))
                  && issued.items == i.items && issued.payments == i.payments
                  && issued.due == i.due && issued.charge == i.charge)
  {
    assert 0 !in items <==> forall k | 0 <= k < |items| :: items[k] != 0;
  }

  // Whatever is open or still a draft is cancelled if nothing was paid, and what
  // is open takes a payment within its balance, which closes it exactly when
  // nothing is left.
  lemma CancelledAndPaidExactlyWhen(i: Invoice, amount: int, now: int)
    requires RowInv(i)
    ensures var cancelled := Do(i, Cancel(now));
            && (cancelled != i <==> i.status != PAID && i.status != CANCELLED && i.payments == [])
            && (cancelled != i ==>
                  && cancelled.status == CANCELLED && cancelled.version == i.version + 1
                  && cancelled.paidAt == i.paidAt
                  && cancelled.history == i.history + [Change(Some(i.status), CANCELLED)])
    ensures var paid := Do(i, Pay(amount, now));
            && (paid != i <==>
                  i.status in {ISSUED, OVERDUE, DELINQUENT} && 0 < amount <= Sum(i.items) - Sum(i.payments))
            && (paid != i ==>
                  && paid.payments == i.payments + [amount]
                  && (paid.status == PAID <==> Sum(paid.payments) == Sum(paid.items))
                  && (paid.status == PAID ==> paid.paidAt == Some(now)
                                              && paid.history == i.history + [Change(Some(i.status), PAID)])
                  && (paid.status != PAID ==> paid == i.(payments := paid.payments)))
  {
    SumPositive(i.payments);
    SumOfNone([]);
    SumAppend(i.payments, amount);
  }

  // The fifth day late makes an open invoice delinquent, once, and the first day
  // an issued one overdue; nothing else ages.
  lemma AgedExactlyWhen(i: Invoice, now: int, grace: nat)
    requires RowInv(i)
    ensures var aged, late := Do(i, Age(now, grace)), Date(now, i.zone) - i.due;
            && (aged != i <==> (i.status == ISSUED && late >= 1) || (i.status == OVERDUE && late >= 5))
            && (aged != i ==>
                  && aged.status == (if late >= 5 then DELINQUENT else OVERDUE)
                  && aged.history == i.history + [Change(Some(i.status), aged.status)]
                  && aged.payments == i.payments && aged.items == i.items
                  && (late < 5 ==> aged.notifiedAt.None?))
  {}
}
