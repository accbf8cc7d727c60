/** Billing profiles, invoices, notices and financial holds: what managers do
    and what the billing worker does, one locked store at a time. */
module Billing {
  import opened Wrappers
  import opened Invoices

  datatype Profile = Profile(
    enabled: bool, startsOn: int, recurring: nat, additional: nat, dueDay: nat, grace: nat, zone: int)
  datatype Hold = Hold(
    scheduledAt: Option<int>, blockedAt: Option<int>, releasedAt: Option<int>, waiverUntil: Option<int>)

  // The month a date falls in: its number, its first date and its length.
  datatype Month = Month(number: int, start: int, length: nat)
  type Calendar = int -> Month

  datatype State = State(
    profiles: map<nat, Profile>,          // by store
    managers: map<nat, set<nat>>,         // by store: who is told of a delinquency
    invoices: map<nat, Invoice>,
    notices: set<(nat, nat)>,             // (invoice, user)
    holds: map<nat, Hold>)                // by store

  datatype Step =
    | SaveProfile(store: nat, profile: Profile)
    | SetManagers(store: nat, users: set<nat>)
    | Create(id: nat, charge: Charge, due: int, items: seq<int>)
    | Amend(id: nat, op: Op)              // an edit, an issue, a cancellation or a payment
    | Waive(store: nat, until: int, now: int)
    | Batch(store: nat, now: int, calendar: Calendar, newId: nat)

  const SUBSCRIPTION := "SUBSCRIPTION"
  const MAX_WAIVER: int := 366 * DAY

  predicate Owned(i: Invoice, store: nat) { i.charge.store == store }

  predicate Charged(invoices: map<nat, Invoice>, charge: Charge) {
    exists id | id in invoices :: invoices[id].charge == charge
  }

  predicate ChargedByAnother(invoices: map<nat, Invoice>, charge: Charge, id: nat) {
    exists other | other in invoices && other != id :: invoices[other].charge == charge
  }

  /// Holds

  predicate Suspends(i: Invoice, store: nat) {
    Owned(i, store) && i.status == DELINQUENT && i.suspendAt.Some?
  }

  ghost function Schedules(invoices: map<nat, Invoice>, store: nat): set<int> {
    set id | id in invoices && Suspends(invoices[id], store) :: invoices[id].suspendAt.value
  }

  lemma HasElement(s: set<int>)
    requires s != {}
    ensures exists x :: x in s
  {
    if forall x :: x !in s {
      assert false;
    }
  }

  ghost function Minimum(s: set<int>): (m: int)
    requires s != {}
    ensures m in s && forall x | x in s :: m <= x
    decreases |s|
  {
    HasElement(s);
    var x :| x in s;
    if s == {x} then x
    else
      assert s == {x} + (s - {x});
      var m := Minimum(s - {x});
      if x < m then x else m
  }

  predicate Due(h: Hold, now: int) {
    && h.scheduledAt.Some? && h.scheduledAt.value <= now
    && (h.waiverUntil.None? || h.waiverUntil.value <= now)
    && (h.blockedAt.None? || h.releasedAt.Some?)
  }

  function Enforced(h: Hold, now: int): Hold {
    if Due(h, now) then h.(blockedAt := Some(now), releasedAt := None) else h
  }

  function Scheduled(holds: map<nat, Hold>, store: nat, at: int): Hold {
    if store in holds then holds[store].(scheduledAt := Some(at)) else Hold(Some(at), None, None, None)
  }

  ghost function Reconciled(invoices: map<nat, Invoice>, holds: map<nat, Hold>, store: nat, now: int): map<nat, Hold> {
    if Schedules(invoices, store) == {} && store in holds && holds[store].releasedAt.None?
    then holds[store := holds[store].(releasedAt := Some(now), scheduledAt := None)] else holds
  }

  ghost function Held(invoices: map<nat, Invoice>, holds: map<nat, Hold>, store: nat, now: int): map<nat, Hold> {
    if Schedules(invoices, store) != {}
    then holds[store := Enforced(Scheduled(holds, store, Minimum(Schedules(invoices, store))), now)]
    else Reconciled(invoices, holds, store, now)
  }

  // The unit is closed to new operations.
  predicate Blocked(h: Hold, now: int) {
    h.blockedAt.Some? && h.releasedAt.None? && (h.waiverUntil.None? || h.waiverUntil.value <= now)
  }

  /// The worker's transaction for one store

  function MonthlyCharge(store: nat, p: Profile, now: int, calendar: Calendar): Charge {
    Charge(store, calendar(Date(now, p.zone)).number, SUBSCRIPTION)
  }

  function MonthlyDraft(store: nat, p: Profile, now: int, calendar: Calendar): Invoice {
    var m := calendar(Date(now, p.zone));
    Draft(MonthlyCharge(store, p, now, calendar),
          m.start + (if p.dueDay < m.length then p.dueDay else m.length) - 1, p.zone,
          (if p.recurring > 0 then [p.recurring] else []) + (if p.additional > 0 then [p.additional] else []))
  }

  predicate Drafts(s: State, store: nat, now: int, calendar: Calendar)
    requires store in s.profiles
  {
    var p := s.profiles[store];
    p.enabled && p.startsOn <= Date(now, p.zone) && !Charged(s.invoices, MonthlyCharge(store, p, now, calendar))
  }

  function Drafted(s: State, store: nat, now: int, calendar: Calendar, newId: nat): map<nat, Invoice>
    requires store in s.profiles
  {
    if Drafts(s, store, now, calendar)
    then s.invoices[newId := MonthlyDraft(store, s.profiles[store], now, calendar)] else s.invoices
  }

  function AgedRow(i: Invoice, store: nat, now: int, grace: nat): Invoice {
    if Owned(i, store) then Do(i, Age(now, grace)) else i
  }

  function Aged(invoices: map<nat, Invoice>, store: nat, now: int, grace: nat): map<nat, Invoice> {
    map id | id in invoices :: AgedRow(invoices[id], store, now, grace)
  }

  predicate Notified(i: Invoice, store: nat, now: int) {
    Owned(i, store) && DueForNotice(i, now)
  }

  function Managers(s: State, store: nat): set<nat> {
    if store in s.managers then s.managers[store] else {}
  }

  ghost function NoticesFor(invoices: map<nat, Invoice>, users: set<nat>, store: nat, now: int): set<(nat, nat)> {
    set id, u | id in invoices && Notified(invoices[id], store, now) && u in users :: (id, u)
  }

  ghost function Batched(s: State, store: nat, now: int, calendar: Calendar, newId: nat): State
    requires store in s.profiles
  {
    var drafted := Drafted(s, store, now, calendar, newId);
    var aged := Aged(drafted, store, now, s.profiles[store].grace);
    s.(invoices := aged,
       notices := s.notices + NoticesFor(drafted, Managers(s, store), store, now),
       holds := Held(aged, s.holds, store, now))
  }

  ghost function Apply(s: State, step: Step): State {
    match step
    case SaveProfile(store, p) => s.(profiles := s.profiles[store := p])
    case SetManagers(store, users) => s.(managers := s.managers[store := users])
    case Create(id, charge, due, items) =>
      if charge.store in s.profiles && ValidItems(items) && id !in s.invoices && !Charged(s.invoices, charge)
      then s.(invoices := s.invoices[id := Draft(charge, due, s.profiles[charge.store].zone, items)]) else s
    case Amend(id, op) =>
      if op.Age? || id !in s.invoices || !Accepts(s.invoices[id], op)
         || (op.Edit? && ChargedByAnother(s.invoices, op.charge, id))
      then s
      else
        var invoices := s.invoices[id := Do(s.invoices[id], op)];
        if op.Edit? then s.(invoices := invoices)
        else s.(invoices := invoices, holds := Reconciled(invoices, s.holds, s.invoices[id].charge.store, op.now))
    case Waive(store, until, now) =>
      if until <= now || until > now + MAX_WAIVER then s
      else if store in s.holds
      then s.(holds := s.holds[store := s.holds[store].(waiverUntil := Some(until), releasedAt := Some(now))])
      else s.(holds := s.holds[store := Hold(None, None, Some(now), Some(until))])
    case Batch(store, now, calendar, newId) =>
      if store !in s.profiles || (newId in s.invoices && Drafts(s, store, now, calendar)) then s
      else Batched(s, store, now, calendar, newId)
  }

  function Initial(): State { State(map[], map[], map[], {}, map[]) }

  ghost function Exec(s: State, steps: seq<Step>): State {
    if steps == [] then s else Apply(Exec(s, steps[..|steps| - 1]), steps[|steps| - 1])
  }

  /// The invariant

  ghost predicate RowsInv(invoices: map<nat, Invoice>) {
    forall id | id in invoices :: RowInv(invoices[id])
  }

  ghost predicate ChargedOnce(invoices: map<nat, Invoice>) {
    forall a, b | a in invoices && b in invoices && invoices[a].charge == invoices[b].charge :: a == b
  }

  // A hold that has not been released has an open delinquency behind it.
  ghost predicate HoldsInv(invoices: map<nat, Invoice>, holds: map<nat, Hold>) {
    forall store | store in holds && holds[store].releasedAt.None? :: Schedules(invoices, store) != {}
  }

  ghost predicate Inv(s: State) {
    RowsInv(s.invoices) && ChargedOnce(s.invoices) && HoldsInv(s.invoices, s.holds)
  }

  // A changed or new invoice of one store does not touch another store's schedules.
  lemma OtherStoresKeepSchedules(invoices: map<nat, Invoice>, after: map<nat, Invoice>, store: nat)
    requires forall id | id in invoices && Owned(invoices[id], store) :: id in after && after[id] == invoices[id]
    requires forall id | id in after && Owned(after[id], store) :: id in invoices && after[id] == invoices[id]
    ensures Schedules(after, store) == Schedules(invoices, store)
  {}

  lemma CreateKeepsInv(s: State, id: nat, charge: Charge, due: int, items: seq<int>)
    requires Inv(s)
    ensures Inv(Apply(s, Create(id, charge, due, items)))
  {
    var s' := Apply(s, Create(id, charge, due, items));
    if s' != s {
      DraftInv(charge, due, s.profiles[charge.store].zone, items);
      NewDraftKeepsSchedules(s.invoices, id, s'.invoices[id]);
    }
  }

  lemma NewDraftKeepsSchedules(invoices: map<nat, Invoice>, id: nat, i: Invoice)
    requires id !in invoices && i.status == DRAFT
    ensures forall store :: Schedules(invoices[id := i], store) == Schedules(invoices, store)
  {
    forall store ensures Schedules(invoices[id := i], store) == Schedules(invoices, store) {
      forall x | x in Schedules(invoices, store) ensures x in Schedules(invoices[id := i], store) {
        var other :| other in invoices && Suspends(invoices[other], store) && invoices[other].suspendAt.value == x;
        assert invoices[id := i][other] == invoices[other];
      }
    }
  }

  lemma AmendKeepsInv(s: State, id: nat, op: Op)
    requires Inv(s)
    ensures Inv(Apply(s, Amend(id, op)))
  {
    var s' := Apply(s, Amend(id, op));
    if s' != s {
      DoKeepsInv(s.invoices[id], op);
      AmendKeepsRows(s.invoices, id, s'.invoices[id]);
      AmendKeepsCharges(s, id, op);
      AmendKeepsHolds(s, id, op);
    }
  }

  lemma AmendKeepsRows(invoices: map<nat, Invoice>, id: nat, i: Invoice)
    requires RowsInv(invoices) && RowInv(i)
    ensures RowsInv(invoices[id := i])
  {}

  lemma AmendKeepsCharges(s: State, id: nat, op: Op)
    requires ChargedOnce(s.invoices)
    ensures ChargedOnce(Apply(s, Amend(id, op)).invoices)
  {}

  lemma AmendKeepsHolds(s: State, id: nat, op: Op)
    requires HoldsInv(s.invoices, s.holds)
    ensures HoldsInv(Apply(s, Amend(id, op)).invoices, Apply(s, Amend(id, op)).holds)
  {
    var s' := Apply(s, Amend(id, op));
    if s' != s {
      if op.Edit? {
        EditKeepsSchedules(s.invoices, id, op);
      } else {
        var store := s.invoices[id].charge.store;
        forall other | other != store ensures Schedules(s'.invoices, other) == Schedules(s.invoices, other) {
          OtherStoresKeepSchedules(s.invoices, s'.invoices, other);
        }
        ReconcilingKeepsHolds(s.invoices, s'.invoices, s.holds, store, op.now);
      }
    }
  }

  lemma ReconcilingKeepsHolds(invoices: map<nat, Invoice>, after: map<nat, Invoice>, holds: map<nat, Hold>, store: nat,
      now: int)
    requires HoldsInv(invoices, holds)
    requires forall other | other != store :: Schedules(after, other) == Schedules(invoices, other)
    ensures HoldsInv(after, Reconciled(after, holds, store, now)) && HoldsInv(after, Held(after, holds, store, now))
  {}

  lemma EditKeepsSchedules(invoices: map<nat, Invoice>, id: nat, op: Op)
    requires id in invoices && op.Edit? && Accepts(invoices[id], op)
    ensures forall store :: Schedules(invoices, store) <= Schedules(invoices[id := Do(invoices[id], op)], store)
  {
    var after := invoices[id := Do(invoices[id], op)];
    forall store, x | x in Schedules(invoices, store) ensures x in Schedules(after, store) {
      var other :| other in invoices && Suspends(invoices[other], store) && invoices[other].suspendAt.value == x;
      assert after[other] == invoices[other];
    }
  }

  lemma DraftedKeepsRows(s: State, store: nat, now: int, calendar: Calendar, newId: nat)
    requires Inv(s) && store in s.profiles && (newId in s.invoices ==> !Drafts(s, store, now, calendar))
    ensures var drafted := Drafted(s, store, now, calendar, newId);
            && RowsInv(drafted) && ChargedOnce(drafted)
            && (forall other :: Schedules(drafted, other) == Schedules(s.invoices, other))
  {
    if Drafts(s, store, now, calendar) {
      var d := MonthlyDraft(store, s.profiles[store], now, calendar);
      MonthlyTotal(s.profiles[store].recurring, s.profiles[store].additional);
      DraftInv(d.charge, d.due, d.zone, d.items);
      NewDraftKeepsSchedules(s.invoices, newId, d);
    }
  }

  lemma MonthlyTotal(recurring: nat, additional: nat)
    ensures Sum((if recurring > 0 then [recurring] else []) + (if additional > 0 then [additional] else []))
        == recurring + additional
  {
    SumAppend([], recurring);
    SumAppend([], additional);
    SumAppend([recurring], additional);
    assert [] + [recurring] == [recurring] && [] + [additional] == [additional];
    assert [recurring] + [additional] == [recurring, additional];
  }

  lemma AgedKeepsRows(invoices: map<nat, Invoice>, store: nat, now: int, grace: nat)
    requires RowsInv(invoices) && ChargedOnce(invoices)
    ensures var aged := Aged(invoices, store, now, grace);
            && RowsInv(aged) && ChargedOnce(aged)
            && (forall other | other != store :: Schedules(aged, other) == Schedules(invoices, other))
  {
    var aged := Aged(invoices, store, now, grace);
    forall id | id in aged ensures RowInv(aged[id]) && aged[id].charge == invoices[id].charge {
      DoKeepsInv(invoices[id], Age(now, grace));
    }
    forall other | other != store ensures Schedules(aged, other) == Schedules(invoices, other) {
      OtherStoresKeepSchedules(invoices, aged, other);
    }
  }

  lemma BatchKeepsInv(s: State, store: nat, now: int, calendar: Calendar, newId: nat)
    requires Inv(s)
    ensures Inv(Apply(s, Batch(store, now, calendar, newId)))
  {
    if store in s.profiles && (newId in s.invoices ==> !Drafts(s, store, now, calendar)) {
      var drafted, grace := Drafted(s, store, now, calendar, newId), s.profiles[store].grace;
      DraftedKeepsRows(s, store, now, calendar, newId);
      AgedKeepsRows(drafted, store, now, grace);
      ReconcilingKeepsHolds(s.invoices, Aged(drafted, store, now, grace), s.holds, store, now);
    }
  }

  lemma WaiveKeepsInv(s: State, store: nat, until: int, now: int)
    requires Inv(s)
    ensures Inv(Apply(s, Waive(store, until, now)))
  {
    var s' := Apply(s, Waive(store, until, now));
    assert s'.invoices == s.invoices;
    forall other | other in s'.holds && s'.holds[other].releasedAt.None? ensures Schedules(s'.invoices, other) != {} {
      assert other in s.holds && s.holds[other] == s'.holds[other];
    }
  }

  lemma ApplyKeepsInv(s: State, step: Step)
    requires Inv(s)
    ensures Inv(Apply(s, step))
  {
    match step
    case SaveProfile(_, _) =>
    case SetManagers(_, _) =>
    case Create(id, charge, due, items) => CreateKeepsInv(s, id, charge, due, items);
    case Amend(id, op) => AmendKeepsInv(s, id, op);
    case Waive(store, until, now) => WaiveKeepsInv(s, store, until, now);
    case Batch(store, now, calendar, newId) => BatchKeepsInv(s, store, now, calendar, newId);
  }

  lemma {:induction false} RunKeepsInv(s: State, steps: seq<Step>)
    requires Inv(s)
    ensures Inv(Exec(s, steps))
  {
    if steps != [] {
      RunKeepsInv(s, steps[..|steps| - 1]);
      ApplyKeepsInv(Exec(s, steps[..|steps| - 1]), steps[|steps| - 1]);
    }
  }

  /// Main results: invoices

  // Every invoice of every run: 0 <= paid <= total, open means something is
  // owed, paid means nothing is, and its history is a path from DRAFT to its status.
  lemma EveryInvoiceBalances(steps: seq<Step>, id: nat)
    requires id in Exec(Initial(), steps).invoices
    ensures var i := Exec(Initial(), steps).invoices[id];
            && 0 <= Paid(i) <= Total(i)
            && (Collectable(i.status) ==> Balance(i) > 0)
            && (i.status == PAID <==> Total(i) > 0 && Balance(i) == 0)
            && (i.status == DRAFT || i.status == CANCELLED ==> Paid(i) == 0)
            && Path(i.history, i.status)
  {
    RunKeepsInv(Initial(), steps);
    var i := Exec(Initial(), steps).invoices[id];
    PaidExactlyWhenSettled(i);
    if i.payments == [] {
      SumOfNone(i.payments);
    }
  }

  lemma StepAppliesOneOperation(s: State, step: Step, id: nat)
    requires id in s.invoices
    ensures id in Apply(s, step).invoices
    ensures Apply(s, step).invoices[id] == s.invoices[id]
            || exists op :: Apply(s, step).invoices[id] == Do(s.invoices[id], op)
  {
    match step
    case Amend(other, op) =>
    case Batch(store, now, calendar, newId) =>
      if store in s.profiles && (newId in s.invoices ==> !Drafts(s, store, now, calendar)) {
        assert Aged(Drafted(s, store, now, calendar, newId), store, now, s.profiles[store].grace)[id]
            == AgedRow(s.invoices[id], store, now, s.profiles[store].grace);
      }
    case _ =>
  }

  lemma InvoiceStep(s: State, step: Step, id: nat)
    requires id in s.invoices && RowInv(s.invoices[id])
    ensures id in Apply(s, step).invoices && Evolves(s.invoices[id], Apply(s, step).invoices[id])
  {
    StepAppliesOneOperation(s, step, id);
    if op :| Apply(s, step).invoices[id] == Do(s.invoices[id], op) {
      DoEvolves(s.invoices[id], op);
    }
  }

  // Over any further run an invoice is never lost, its payments and history only
  // grow, its items are fixed once issued, and once paid or cancelled it is final.
  lemma {:induction false} InvoicesEvolve(s: State, more: seq<Step>, id: nat)
    requires Inv(s) && id in s.invoices
    ensures id in Exec(s, more).invoices && Evolves(s.invoices[id], Exec(s, more).invoices[id])
  {
    if more != [] {
      var before := Exec(s, more[..|more| - 1]);
      InvoicesEvolve(s, more[..|more| - 1], id);
      RunKeepsInv(s, more[..|more| - 1]);
      InvoiceStep(before, more[|more| - 1], id);
      EvolvesTransitively(s.invoices[id], before.invoices[id], Exec(s, more).invoices[id]);
    }
  }

  predicate Late(i: Invoice, now: int) { Date(now, i.zone) > i.due }

  // The batch of the store at step k found the invoice past its due date.
  ghost predicate FoundLate(steps: seq<Step>, k: nat, i: Invoice) {
    k < |steps| && steps[k].Batch? && steps[k].store == i.charge.store && Late(i, steps[k].now)
  }

  predicate Tardy(status: Status) { status == OVERDUE || status == DELINQUENT }

  lemma TardyOnlyByAgeing(i: Invoice, op: Op)
    requires Tardy(Do(i, op).status)
    ensures (i.due, i.zone, i.charge) == (Do(i, op).due, Do(i, op).zone, Do(i, op).charge)
    ensures Tardy(i.status) || (op.Age? && Late(i, op.now))
  {}

  lemma TardyStep(s: State, step: Step, id: nat)
    requires id in Apply(s, step).invoices && Tardy(Apply(s, step).invoices[id].status)
    ensures id in s.invoices
    ensures var i, i' := s.invoices[id], Apply(s, step).invoices[id];
            && (i.due, i.zone, i.charge) == (i'.due, i'.zone, i'.charge)
            && (Tardy(i.status) || (step.Batch? && step.store == i'.charge.store && Late(i', step.now)))
  {
    var i' := Apply(s, step).invoices[id];
    match step
    case Amend(other, op) =>
      if i' != s.invoices[id] {
        TardyOnlyByAgeing(s.invoices[id], op);
      }
    case Batch(store, now, calendar, newId) =>
      if store in s.profiles && (newId in s.invoices ==> !Drafts(s, store, now, calendar)) {
        TardyBatch(s, store, now, calendar, newId, id);
      }
    case _ =>
  }

  lemma TardyBatch(s: State, store: nat, now: int, calendar: Calendar, newId: nat, id: nat)
    requires store in s.profiles && (newId in s.invoices ==> !Drafts(s, store, now, calendar))
    requires var s' := Batched(s, store, now, calendar, newId); id in s'.invoices && Tardy(s'.invoices[id].status)
    ensures id in s.invoices
    ensures var i, i' := s.invoices[id], Batched(s, store, now, calendar, newId).invoices[id];
            && (i.due, i.zone, i.charge) == (i'.due, i'.zone, i'.charge)
            && (Tardy(i.status) || (store == i'.charge.store && Late(i', now)))
  {
    var drafted := Drafted(s, store, now, calendar, newId);
    if Owned(drafted[id], store) {
      TardyOnlyByAgeing(drafted[id], Age(now, s.profiles[store].grace));
    }
    assert id in s.invoices && drafted[id] == s.invoices[id];
  }

  // In every run an OVERDUE or DELINQUENT invoice was found past its due date by a
  // batch of its store.
  lemma {:induction false} LateOnlyAfterDue(steps: seq<Step>, id: nat) returns (k: nat)
    requires id in Exec(Initial(), steps).invoices && Tardy(Exec(Initial(), steps).invoices[id].status)
    ensures FoundLate(steps, k, Exec(Initial(), steps).invoices[id])
  {
    var n := |steps| - 1;
    var before := Exec(Initial(), steps[..n]);
    TardyStep(before, steps[n], id);
    if Tardy(before.invoices[id].status) {
      k := LateOnlyAfterDue(steps[..n], id);
    } else {
      k := n;
    }
  }

  // And the first batch after that day makes an issued invoice OVERDUE, or
  // DELINQUENT from the fifth day late; no other status ages.
  lemma LateOnTheFirstDay(s: State, step: Step, id: nat)
    requires Inv(s) && step.Batch? && step.store in s.profiles
    requires step.newId in s.invoices ==> !Drafts(s, step.store, step.now, step.calendar)
    requires id in s.invoices && s.invoices[id].charge.store == step.store
    ensures id in Apply(s, step).invoices
    ensures var i, i' := s.invoices[id], Apply(s, step).invoices[id];
            var late := Date(step.now, i.zone) - i.due;
            if i.status == ISSUED && 1 <= late < 5 then i'.status == OVERDUE
            else if i.status in {ISSUED, OVERDUE} && late >= 5 then i'.status == DELINQUENT
            else i' == i
  {
    var drafted, grace := Drafted(s, step.store, step.now, step.calendar, step.newId), s.profiles[step.store].grace;
    assert drafted[id] == s.invoices[id] && RowInv(drafted[id]);
    assert Apply(s, step).invoices[id] == AgedRow(drafted[id], step.store, step.now, grace);
    AgedExactlyWhen(drafted[id], step.now, grace);
  }

  // The draft of a month charges the parts of the plan, once and only from its
  // start on, and falls due in the month on the day of the plan or on the last.
  lemma DraftFallsDueInItsMonth(s: State, store: nat, now: int, calendar: Calendar, newId: nat)
    requires Inv(s) && store in s.profiles && newId !in s.invoices
    requires s.profiles[store].dueDay >= 1 && calendar(Date(now, s.profiles[store].zone)).length >= 1
    ensures var p, s' := s.profiles[store], Apply(s, Batch(store, now, calendar, newId));
            var m := calendar(Date(now, p.zone));
            && (newId in s'.invoices <==>
                  && p.enabled && p.startsOn <= Date(now, p.zone)
                  && forall id | id in s.invoices :: s.invoices[id].charge != Charge(store, m.number, "SUBSCRIPTION"))
            && (newId in s'.invoices ==>
                  && var i := s'.invoices[newId];
                  && i.status == DRAFT && i.charge == Charge(store, m.number, "SUBSCRIPTION")
                  && Total(i) == p.recurring + p.additional && i.zone == p.zone
                  && i.due == m.start + (if p.dueDay <= m.length then p.dueDay else m.length) - 1
                  && m.start <= i.due < m.start + m.length)
  {
    MonthlyTotal(s.profiles[store].recurring, s.profiles[store].additional);
  }

  // An invoice is given notice only by the worker, once, and over any further run
  // its suspension stays at the later of 24 hours from then and the end of the
  // days of grace of its store.
  lemma NoticeLeavesTimeForGood(steps: seq<Step>, step: Step, more: seq<Step>, id: nat)
    requires id in Exec(Initial(), steps).invoices && Exec(Initial(), steps).invoices[id].notifiedAt.None?
    requires id in Apply(Exec(Initial(), steps), step).invoices
    requires Apply(Exec(Initial(), steps), step).invoices[id].notifiedAt.Some?
    ensures var s := Exec(Initial(), steps);
            var i, later := s.invoices[id], Exec(Apply(s, step), more);
            && step.Batch? && step.store in s.profiles && Owned(i, step.store) && id in later.invoices
            && later.invoices[id].notifiedAt == Some(step.now) && later.invoices[id].suspendAt.Some?
            && forall at :: at >= later.invoices[id].suspendAt.value <==>
                              at >= step.now + DAY && Date(at, i.zone) >= i.due + s.profiles[step.store].grace
  {
    var s := Exec(Initial(), steps);
    RunKeepsInv(Initial(), steps);
    ApplyKeepsInv(s, step);
    InvoicesEvolve(Apply(s, step), more, id);
    NoticedByTheBatch(s, step, id);
    NoticeLeavesTime(s.invoices[id], step.now, s.profiles[step.store].grace);
  }

  lemma NoticedByTheBatch(s: State, step: Step, id: nat)
    requires id in s.invoices && s.invoices[id].notifiedAt.None?
    requires id in Apply(s, step).invoices && Apply(s, step).invoices[id].notifiedAt.Some?
    ensures step.Batch? && step.store in s.profiles && Owned(s.invoices[id], step.store)
    ensures DueForNotice(s.invoices[id], step.now)
    ensures Apply(s, step).invoices[id] == Do(s.invoices[id], Age(step.now, s.profiles[step.store].grace))
  {}

  lemma ChargedAtMostOnce(steps: seq<Step>, a: nat, b: nat)
    requires a in Exec(Initial(), steps).invoices && b in Exec(Initial(), steps).invoices
    requires Exec(Initial(), steps).invoices[a].charge == Exec(Initial(), steps).invoices[b].charge
    ensures a == b
  {
    RunKeepsInv(Initial(), steps);
  }

  /// Main results: holds

  // In every run, a store with an unreleased hold has a delinquent invoice.
  lemma HeldOnlyForDebt(steps: seq<Step>, store: nat) returns (id: nat)
    requires var s := Exec(Initial(), steps); store in s.holds && s.holds[store].releasedAt.None?
    ensures var s := Exec(Initial(), steps);
            && id in s.invoices && Owned(s.invoices[id], store)
            && s.invoices[id].status == DELINQUENT && Balance(s.invoices[id]) > 0
  {
    RunKeepsInv(Initial(), steps);
    var s := Exec(Initial(), steps);
    var at :| at in Schedules(s.invoices, store);
    id :| id in s.invoices && Suspends(s.invoices[id], store) && s.invoices[id].suspendAt.value == at;
  }

  // Some invoice of the store is delinquent and has a suspension date.
  ghost predicate InDebt(invoices: map<nat, Invoice>, store: nat) {
    exists id :: id in invoices && invoices[id].charge.store == store
                 && invoices[id].status == DELINQUENT && invoices[id].suspendAt.Some?
  }

  lemma SchedulesExactlyInDebt(invoices: map<nat, Invoice>, store: nat)
    ensures Schedules(invoices, store) != {} <==> InDebt(invoices, store)
  {
    if InDebt(invoices, store) {
      var id :| id in invoices && invoices[id].charge.store == store
                && invoices[id].status == DELINQUENT && invoices[id].suspendAt.Some?;
      assert invoices[id].suspendAt.value in Schedules(invoices, store);
    }
  }

  // The step settles the holds of this store: it issues, cancels or is a payment
  // of one of its invoices, or is its batch.
  ghost predicate Settles(s: State, step: Step, store: nat) {
    if step.Amend?
    then step.id in s.invoices && s.invoices[step.id].charge.store == store && !step.op.Edit?
         && Apply(s, step).invoices[step.id] != s.invoices[step.id]
    else step.Batch? && step.store == store && store in s.profiles
         && (step.newId in s.invoices ==> !Drafts(s, store, step.now, step.calendar))
  }

  predicate Unreleased(holds: map<nat, Hold>, store: nat) { store in holds && holds[store].releasedAt.None? }

  // Such a step releases a hold exactly when no invoice of the store is left in
  // debt; no other step does, but a waiver of the store.
  lemma ReleasedExactlyWithoutDebt(s: State, step: Step, store: nat)
    requires Unreleased(s.holds, store)
    ensures var s' := Apply(s, step);
            && store in s'.holds
            && (s'.holds[store].releasedAt.None? && s.holds[store].blockedAt.Some? ==>
                  s'.holds[store].blockedAt == s.holds[store].blockedAt)
            && (Settles(s, step, store) ==> (s'.holds[store].releasedAt.Some? <==> !InDebt(s'.invoices, store)))
            && (s'.holds[store].releasedAt.Some? ==> Settles(s, step, store) || (step.Waive? && step.store == store))
  {
    var s' := Apply(s, step);
    match step
    case Amend(id, op) =>
      if s' != s && !op.Edit? {
        AcceptedChanges(s.invoices[id], op);
        ReconciledExactlyWithoutDebt(s'.invoices, s.holds, s.invoices[id].charge.store, op.now, store);
      }
    case Batch(other, now, calendar, newId) =>
      if Settles(s, step, other) {
        ReconciledExactlyWithoutDebt(s'.invoices, s.holds, other, now, store);
      }
    case _ =>
  }

  lemma AcceptedChanges(i: Invoice, op: Op)
    requires Accepts(i, op)
    ensures Do(i, op) != i
  {}

  lemma ReconciledExactlyWithoutDebt(
      invoices: map<nat, Invoice>, holds: map<nat, Hold>, settled: nat, now: int, store: nat)
    requires Unreleased(holds, store)
    ensures forall h | h in {Reconciled(invoices, holds, settled, now)[store],
                             Held(invoices, holds, settled, now)[store]} ::
              && (h.releasedAt.Some? <==> settled == store && !InDebt(invoices, store))
              && (h.releasedAt.None? && holds[store].blockedAt.Some? ==> h.blockedAt == holds[store].blockedAt)
  {
    SchedulesExactlyInDebt(invoices, store);
  }

  // What settling leaves of the hold: released now and no longer scheduled if it
  // was in force without a debt, as it was otherwise; a waiver on record stays.
  lemma HoldAfterSettling(s: State, step: Step, store: nat)
    requires Settles(s, step, store)
    ensures var s', now := Apply(s, step), if step.Batch? then step.now else step.op.now;
            && (step.Amend? && InDebt(s'.invoices, store) ==> s'.holds == s.holds)
            && (!InDebt(s'.invoices, store) ==>
                  s'.holds == if Unreleased(s.holds, store)
                              then s.holds[store := s.holds[store].(releasedAt := Some(now), scheduledAt := None)]
                              else s.holds)
            && (step.Batch? && InDebt(s'.invoices, store) ==>
                  && store in s'.holds
                  && var h := if store in s.holds then s.holds[store] else Hold(None, None, None, None);
                  var h' := s'.holds[store];
                  && h'.waiverUntil == h.waiverUntil
                  && (h' == h.(scheduledAt := h'.scheduledAt)
                      || h' == h.(scheduledAt := h'.scheduledAt, blockedAt := Some(now), releasedAt := None)))
  {
    var s' := Apply(s, step);
    SchedulesExactlyInDebt(s'.invoices, store);
    if step.Amend? {
      assert s'.holds == Reconciled(s'.invoices, s.holds, store, step.op.now);
    } else {
      assert s'.holds == Held(s'.invoices, s.holds, store, step.now);
    }
  }

  lemma DelinquentStep(s: State, step: Step, id: nat)
    requires id in s.invoices && s.invoices[id].status == DELINQUENT
    ensures id in Apply(s, step).invoices
    ensures Apply(s, step).invoices[id].status == DELINQUENT || Closed(Apply(s, step).invoices[id].status)
  {
    StepAppliesOneOperation(s, step, id);
  }

  // A delinquent invoice stays so until it is closed.
  lemma {:induction false} DelinquentUntilClosed(s: State, more: seq<Step>, id: nat)
    requires Inv(s) && id in s.invoices && s.invoices[id].status == DELINQUENT
    ensures id in Exec(s, more).invoices
    ensures Exec(s, more).invoices[id].status == DELINQUENT || Closed(Exec(s, more).invoices[id].status)
  {
    if more != [] {
      var before := Exec(s, more[..|more| - 1]);
      DelinquentUntilClosed(s, more[..|more| - 1], id);
      RunKeepsInv(s, more[..|more| - 1]);
      if before.invoices[id].status == DELINQUENT {
        DelinquentStep(before, more[|more| - 1], id);
      } else {
        InvoiceStep(before, more[|more| - 1], id);
      }
    }
  }

  lemma BlockStep(s: State, step: Step, store: nat, id: nat)
    requires Inv(s) && Unreleased(s.holds, store) && s.holds[store].blockedAt.Some?
    requires id in s.invoices && s.invoices[id].charge.store == store && s.invoices[id].status == DELINQUENT
    requires id in Apply(s, step).invoices && Apply(s, step).invoices[id].status == DELINQUENT
    requires !(step.Waive? && step.store == store)
    ensures Unreleased(Apply(s, step).holds, store) && Apply(s, step).holds[store].blockedAt == s.holds[store].blockedAt
    ensures Apply(s, step).invoices[id].charge.store == store
  {
    InvoiceStep(s, step, id);
    ApplyKeepsInv(s, step);
    assert RowInv(Apply(s, step).invoices[id]);
    assert InDebt(Apply(s, step).invoices, store);
    ReleasedExactlyWithoutDebt(s, step, store);
  }

  // While a delinquent invoice of a blocked store is left, and without a waiver,
  // the block stays as it is over any further run.
  lemma {:induction false} BlockStays(s: State, more: seq<Step>, store: nat, id: nat)
    requires Inv(s) && Unreleased(s.holds, store) && s.holds[store].blockedAt.Some?
    requires id in s.invoices && s.invoices[id].charge.store == store && s.invoices[id].status == DELINQUENT
    requires id in Exec(s, more).invoices && Exec(s, more).invoices[id].status == DELINQUENT
    requires forall k | 0 <= k < |more| :: !(more[k].Waive? && more[k].store == store)
    ensures Unreleased(Exec(s, more).holds, store) && Exec(s, more).holds[store].blockedAt == s.holds[store].blockedAt
    ensures Exec(s, more).invoices[id].charge.store == store
  {
    if more != [] {
      var n := |more| - 1;
      var before := Exec(s, more[..n]);
      RunKeepsInv(s, more[..n]);
      StillDelinquent(s, more, id);
      assert forall k | 0 <= k < n :: more[..n][k] == more[k];
      BlockStays(s, more[..n], store, id);
      BlockStep(before, more[n], store, id);
    }
  }

  lemma StillDelinquent(s: State, more: seq<Step>, id: nat)
    requires more != [] && Inv(s) && id in s.invoices && s.invoices[id].status == DELINQUENT
    requires id in Exec(s, more).invoices && Exec(s, more).invoices[id].status == DELINQUENT
    ensures var before := Exec(s, more[..|more| - 1]); id in before.invoices && before.invoices[id].status == DELINQUENT
  {
    var n := |more| - 1;
    RunKeepsInv(s, more[..n]);
    DelinquentUntilClosed(s, more[..n], id);
    InvoiceStep(Exec(s, more[..n]), more[n], id);
  }

  // Between these states the unit of a store became blocked.
  predicate NewlyBlocked(s: State, s': State, store: nat) {
    && store in s'.holds && s'.holds[store].blockedAt.Some? && s'.holds[store].releasedAt.None?
    && (store in s.holds ==> s.holds[store].blockedAt.None? || s.holds[store].releasedAt.Some?)
  }

  // Only the worker blocks a unit, never during a waiver, and only once the
  // earliest suspension date of its delinquent invoices has come.
  lemma OnlyTheBatchBlocks(s: State, step: Step, store: nat)
    ensures var s' := Apply(s, step);
            NewlyBlocked(s, s', store) ==>
              && step.Batch? && step.store == store
              && s'.holds[store].blockedAt == Some(step.now) && Blocked(s'.holds[store], step.now)
              && Schedules(s'.invoices, store) != {} && Minimum(Schedules(s'.invoices, store)) <= step.now
  {}

  // The suspension of some delinquent invoice of the store has come.
  ghost predicate Suspended(invoices: map<nat, Invoice>, store: nat, now: int) {
    exists id :: id in invoices && invoices[id].charge.store == store && invoices[id].status == DELINQUENT
                 && invoices[id].suspendAt.Some? && invoices[id].suspendAt.value <= now
  }

  lemma SuspendedExactlyWhenEarliest(invoices: map<nat, Invoice>, store: nat, now: int)
    ensures Suspended(invoices, store, now) <==>
              Schedules(invoices, store) != {} && Minimum(Schedules(invoices, store)) <= now
  {
    if Suspended(invoices, store, now) {
      var id :| id in invoices && invoices[id].charge.store == store && invoices[id].status == DELINQUENT
                && invoices[id].suspendAt.Some? && invoices[id].suspendAt.value <= now;
      assert invoices[id].suspendAt.value in Schedules(invoices, store);
    }
    if Schedules(invoices, store) != {} && Minimum(Schedules(invoices, store)) <= now {
      var at := Minimum(Schedules(invoices, store));
      assert at in Schedules(invoices, store);
    }
  }

  // And it does block the unit at once, unless a waiver is in force or the unit
  // is blocked already; what is not blocked is scheduled for the earliest date.
  lemma BlockedExactlyWhenSuspended(s: State, step: Step)
    requires step.Batch? && Settles(s, step, step.store)
    ensures var s', h := Apply(s, step), if step.store in s.holds then Some(s.holds[step.store]) else None;
            && (NewlyBlocked(s, s', step.store) <==>
                  && Suspended(s'.invoices, step.store, step.now)
                  && (h.Some? && h.value.waiverUntil.Some? ==> h.value.waiverUntil.value <= step.now)
                  && (h.Some? && h.value.blockedAt.Some? ==> h.value.releasedAt.Some?))
            && (InDebt(s'.invoices, step.store) ==>
                  && step.store in s'.holds && s'.holds[step.store].scheduledAt.Some?
                  && var at := s'.holds[step.store].scheduledAt.value;
                  forall now :: Suspended(s'.invoices, step.store, now) <==> at <= now)
  {
    var s' := Apply(s, step);
    SchedulesExactlyInDebt(s'.invoices, step.store);
    forall now ensures Suspended(s'.invoices, step.store, now) <==>
        Schedules(s'.invoices, step.store) != {} && Minimum(Schedules(s'.invoices, step.store)) <= now {
      SuspendedExactlyWhenEarliest(s'.invoices, step.store, now);
    }
  }

  // After its batch the unit is closed exactly when it is in debt, no waiver is in
  // force and a suspension has come or it was closed before.
  lemma ClosedExactlyWhen(s: State, step: Step)
    requires step.Batch? && Settles(s, step, step.store)
    ensures var s', h := Apply(s, step), if step.store in s.holds then Some(s.holds[step.store]) else None;
            step.store in s'.holds && Blocked(s'.holds[step.store], step.now) <==>
              && InDebt(s'.invoices, step.store)
              && (h.Some? && h.value.waiverUntil.Some? ==> h.value.waiverUntil.value <= step.now)
              && (|| Suspended(s'.invoices, step.store, step.now)
                  || (h.Some? && h.value.blockedAt.Some? && h.value.releasedAt.None?))
  {
    var s' := Apply(s, step);
    SchedulesExactlyInDebt(s'.invoices, step.store);
    SuspendedExactlyWhenEarliest(s'.invoices, step.store, step.now);
  }

  // A waiver of at most 366 days opens the unit at once; any other is refused.
  lemma WaivedExactlyWhen(s: State, store: nat, until: int, now: int)
    ensures var s' := Apply(s, Waive(store, until, now));
            if now < until <= now + 366 * 86400
            then && store in s'.holds && s'.holds[store].waiverUntil == Some(until)
                 && s'.holds[store].releasedAt == Some(now)
                 && s'.holds[store].blockedAt == (if store in s.holds then s.holds[store].blockedAt else None)
                 && s'.holds[store].scheduledAt == (if store in s.holds then s.holds[store].scheduledAt else None)
                 && s'.holds - {store} == s.holds - {store} && s' == s.(holds := s'.holds)
            else s' == s
  {
    var s' := Apply(s, Waive(store, until, now));
    assert s'.holds - {store} == s.holds - {store};
  }

  // Exactly the managers of the store are told, and only of what is given notice.
  lemma ToldExactlyOfNotices(s: State, step: Step, id: nat, user: nat)
    ensures var s' := Apply(s, step);
            (id, user) in s'.notices <==>
              || (id, user) in s.notices
              || (&& step.Batch? && step.store in s.managers && user in s.managers[step.store]
                  && id in s.invoices && id in s'.invoices && s.invoices[id].charge.store == step.store
                  && s.invoices[id].notifiedAt.None? && s'.invoices[id].notifiedAt.Some?)
  {
    if step.Batch? && Settles(s, step, step.store) {
      NoticedByBatch(s, step.store, step.now, step.calendar, step.newId, id);
    }
  }

  lemma NoticedByAgeing(i: Invoice, now: int, grace: nat)
    ensures DueForNotice(i, now) <==> i.notifiedAt.None? && Do(i, Age(now, grace)).notifiedAt.Some?
  {}

  lemma NoticedByBatch(s: State, store: nat, now: int, calendar: Calendar, newId: nat, id: nat)
    requires store in s.profiles && (newId in s.invoices ==> !Drafts(s, store, now, calendar))
    ensures var drafted, s' := Drafted(s, store, now, calendar, newId), Batched(s, store, now, calendar, newId);
            && (id in drafted <==> id in s'.invoices)
            && (id in drafted && Notified(drafted[id], store, now) <==>
                  && id in s.invoices && s.invoices[id].charge.store == store
                  && s.invoices[id].notifiedAt.None? && s'.invoices[id].notifiedAt.Some?)
  {
    var drafted, s' := Drafted(s, store, now, calendar, newId), Batched(s, store, now, calendar, newId);
    if id in s.invoices {
      assert drafted[id] == s.invoices[id];
      NoticedByAgeing(s.invoices[id], now, s.profiles[store].grace);
    } else if id in drafted {
      assert drafted[id].status == DRAFT;
    }
  }

  // An invoice is created for a store with a billing profile and edited by its
  // store only, and never for what another one charges.
  lemma CreatedExactlyWhen(s: State, id: nat, charge: Charge, due: int, items: seq<int>)
    requires id !in s.invoices
    ensures var s' := Apply(s, Create(id, charge, due, items));
            && (id in s'.invoices <==>
                  && charge.store in s.profiles && 1 <= |items| <= 100 && 0 !in items && Sum(items) > 0
                  && forall other | other in s.invoices :: s.invoices[other].charge != charge)
            && (id in s'.invoices ==>
                  && var i := s'.invoices[id];
                  && i.status == DRAFT && i.version == 1 && i.charge == charge && i.due == due
                  && i.items == items && i.payments == []
                  && i.zone == s.profiles[charge.store].zone && s' == s.(invoices := s.invoices[id := i]))
            && (id !in s'.invoices ==> s' == s)
  {
    assert 0 !in items <==> forall k | 0 <= k < |items| :: items[k] != 0;
  }

  lemma AmendedExactlyWhen(s: State, id: nat, op: Op)
    requires !op.Age?
    ensures var s' := Apply(s, Amend(id, op));
            && (s' != s <==>
                  && id in s.invoices && Do(s.invoices[id], op) != s.invoices[id]
                  && (op.Edit? ==> forall other | other in s.invoices && other != id ::
                                     s.invoices[other].charge != op.charge))
            && (s' != s ==> s'.invoices == s.invoices[id := Do(s.invoices[id], op)])
  {
    if id in s.invoices && Accepts(s.invoices[id], op) {
      AcceptedChanges(s.invoices[id], op);
      assert s.invoices[id := Do(s.invoices[id], op)][id] != s.invoices[id];
    }
  }

  // The store was told of this invoice at least 24 hours ago, when it was at
  // least five days late.
  predicate Warned(i: Invoice, store: nat, now: int) {
    && Owned(i, store) && i.status == DELINQUENT
    && i.notifiedAt.Some? && i.notifiedAt.value + DAY <= now
    && Date(i.notifiedAt.value, i.zone) >= i.due + DAYS_TO_DELINQUENCY
  }

  // A unit is blocked only over an invoice that was at least five days late
  // when its notice went out, at least 24 hours before.
  lemma BlockedOnlyAfterNotice(s: State, step: Step, store: nat)
    requires Inv(s)
    ensures var s' := Apply(s, step);
            NewlyBlocked(s, s', store) ==>
              && step.Batch? && step.store == store && Blocked(s'.holds[store], step.now)
              && exists id :: id in s'.invoices && Warned(s'.invoices[id], store, step.now)
  {
    if NewlyBlocked(s, Apply(s, step), store) {
      OnlyTheBatchBlocks(s, step, store);
      ApplyKeepsInv(s, step);
      var id := EarliestSuspension(Apply(s, step).invoices, store);
      assert Warned(Apply(s, step).invoices[id], store, step.now);
    }
  }

  lemma EarliestSuspension(invoices: map<nat, Invoice>, store: nat) returns (id: nat)
    requires RowsInv(invoices) && Schedules(invoices, store) != {}
    ensures id in invoices && Owned(invoices[id], store) && invoices[id].status == DELINQUENT && DatesInv(invoices[id])
    ensures invoices[id].suspendAt == Some(Minimum(Schedules(invoices, store)))
  {
    var at := Minimum(Schedules(invoices, store));
    id :| id in invoices && Suspends(invoices[id], store) && invoices[id].suspendAt.value == at;
    assert RowInv(invoices[id]);
  }

  /// Main results: the batch is a fixpoint

  // What a batch would do to a store at this instant: no draft, no notice, no
  // change of any row, and no block.
  ghost predicate Settled(s: State, store: nat, now: int, calendar: Calendar) {
    store in s.profiles ==>
      && !Drafts(s, store, now, calendar)
      && (forall id | id in s.invoices && Owned(s.invoices[id], store) ::
          !Accepts(s.invoices[id], Age(now, s.profiles[store].grace)))
      && Held(s.invoices, s.holds, store, now) == s.holds
  }

  lemma SettledIsFixpoint(s: State, store: nat, now: int, calendar: Calendar, newId: nat)
    requires Settled(s, store, now, calendar)
    ensures Apply(s, Batch(store, now, calendar, newId)) == s
    ensures store in s.profiles ==> NoticesFor(s.invoices, Managers(s, store), store, now) == {}
  {
    if store in s.profiles {
      assert Aged(s.invoices, store, now, s.profiles[store].grace) == s.invoices;
      assert forall id | id in s.invoices && Owned(s.invoices[id], store) :: !DueForNotice(s.invoices[id], now);
    }
  }

  lemma HeldIsIdempotent(invoices: map<nat, Invoice>, holds: map<nat, Hold>, store: nat, now: int)
    ensures Held(invoices, Held(invoices, holds, store, now), store, now) == Held(invoices, holds, store, now)
  {}

  lemma BatchSettles(s: State, store: nat, now: int, calendar: Calendar, newId: nat)
    requires Inv(s) && newId !in s.invoices
    ensures Settled(Apply(s, Batch(store, now, calendar, newId)), store, now, calendar)
  {
    if store in s.profiles {
      var drafted, grace := Drafted(s, store, now, calendar, newId), s.profiles[store].grace;
      DraftedKeepsRows(s, store, now, calendar, newId);
      AgedRowsAreSettled(drafted, store, now, grace);
      HeldIsIdempotent(Aged(drafted, store, now, grace), s.holds, store, now);
      BatchDraftsOnce(s, store, now, calendar, newId);
    }
  }

  lemma AgedRowsAreSettled(invoices: map<nat, Invoice>, store: nat, now: int, grace: nat)
    requires RowsInv(invoices)
    ensures var aged := Aged(invoices, store, now, grace);
            forall id | id in aged && Owned(aged[id], store) :: !Accepts(aged[id], Age(now, grace))
  {
    var aged := Aged(invoices, store, now, grace);
    forall id | id in aged && Owned(aged[id], store) ensures !Accepts(aged[id], Age(now, grace)) {
      AgeIsIdempotent(invoices[id], now, grace);
      AgeKeepsCharge(invoices[id], now, grace);
    }
  }

  lemma AgeKeepsCharge(i: Invoice, now: int, grace: nat)
    ensures Do(i, Age(now, grace)).charge == i.charge
  {}

  lemma BatchDraftsOnce(s: State, store: nat, now: int, calendar: Calendar, newId: nat)
    requires store in s.profiles && newId !in s.invoices
    ensures !Drafts(Apply(s, Batch(store, now, calendar, newId)), store, now, calendar)
  {
    var p := s.profiles[store];
    var charge := MonthlyCharge(store, p, now, calendar);
    var drafted := Drafted(s, store, now, calendar, newId);
    if p.enabled && p.startsOn <= Date(now, p.zone) {
      assert Charged(drafted, charge) by {
        if Drafts(s, store, now, calendar) {
          assert drafted[newId].charge == charge;
        }
      }
      AgedKeepsCharges(drafted, store, now, p.grace, charge);
    }
  }

  lemma AgedKeepsCharges(invoices: map<nat, Invoice>, store: nat, now: int, grace: nat, charge: Charge)
    ensures Charged(Aged(invoices, store, now, grace), charge) <==> Charged(invoices, charge)
  {
    var aged := Aged(invoices, store, now, grace);
    forall id | id in invoices ensures aged[id].charge == invoices[id].charge {}
  }

  // A batch does not touch the rows or the hold of another store.
  lemma BatchIsLocal(s: State, store: nat, other: nat, now: int, calendar: Calendar, newId: nat)
    requires other != store && newId !in s.invoices
    ensures var s' := Apply(s, Batch(other, now, calendar, newId));
            && (forall id | id in s'.invoices && Owned(s'.invoices[id], store) ::
                id in s.invoices && s'.invoices[id] == s.invoices[id])
            && (forall id | id in s.invoices && Owned(s.invoices[id], store) ::
                id in s'.invoices && s'.invoices[id] == s.invoices[id])
            && (store in s'.holds <==> store in s.holds) && (store in s.holds ==> s'.holds[store] == s.holds[store])
  {
    if other in s.profiles {
      var drafted, grace := Drafted(s, other, now, calendar, newId), s.profiles[other].grace;
      var aged := Aged(drafted, other, now, grace);
      forall id | id in aged ensures aged[id].charge == drafted[id].charge {
        AgeKeepsCharge(drafted[id], now, grace);
      }
    }
  }

  lemma OtherStoresStaySettled(s: State, store: nat, other: nat, now: int, calendar: Calendar, newId: nat)
    requires Settled(s, store, now, calendar) && other != store && newId !in s.invoices
    ensures Settled(Apply(s, Batch(other, now, calendar, newId)), store, now, calendar)
  {
    var s' := Apply(s, Batch(other, now, calendar, newId));
    assert s'.profiles == s.profiles;
    if store in s.profiles {
      BatchIsLocal(s, store, other, now, calendar, newId);
      StaysSettled(s, s', store, now, calendar);
    }
  }

  lemma StaysSettled(s: State, s': State, store: nat, now: int, calendar: Calendar)
    requires Settled(s, store, now, calendar) && s'.profiles == s.profiles && store in s.profiles
    requires forall id | id in s'.invoices && Owned(s'.invoices[id], store) ::
        id in s.invoices && s'.invoices[id] == s.invoices[id]
    requires forall id | id in s.invoices && Owned(s.invoices[id], store) ::
        id in s'.invoices && s'.invoices[id] == s.invoices[id]
    requires (store in s'.holds <==> store in s.holds) && (store in s.holds ==> s'.holds[store] == s.holds[store])
    ensures Settled(s', store, now, calendar)
  {
    OtherStoresKeepSchedules(s.invoices, s'.invoices, store);
    OtherStoresKeepCharges(s, s', store, now, calendar);
    OtherHoldsAreIrrelevant(s, s', store, now);
  }

  lemma OtherStoresKeepCharges(s: State, s': State, store: nat, now: int, calendar: Calendar)
    requires store in s.profiles && s'.profiles == s.profiles && !Drafts(s, store, now, calendar)
    requires forall id | id in s.invoices && Owned(s.invoices[id], store) ::
        id in s'.invoices && s'.invoices[id] == s.invoices[id]
    ensures !Drafts(s', store, now, calendar)
  {
    var charge := MonthlyCharge(store, s.profiles[store], now, calendar);
    if Charged(s.invoices, charge) {
      var id :| id in s.invoices && s.invoices[id].charge == charge;
      assert s'.invoices[id].charge == charge;
    }
  }

  lemma OtherHoldsAreIrrelevant(s: State, s': State, store: nat, now: int)
    requires Schedules(s'.invoices, store) == Schedules(s.invoices, store)
    requires Held(s.invoices, s.holds, store, now) == s.holds
    requires (store in s'.holds <==> store in s.holds) && (store in s.holds ==> s'.holds[store] == s.holds[store])
    ensures Held(s'.invoices, s'.holds, store, now) == s'.holds
  {
    if Schedules(s.invoices, store) != {} {
      var m := Minimum(Schedules(s.invoices, store));
      var h := Enforced(Scheduled(s.holds, store, m), now);
      assert s.holds[store := h][store] == h;
      assert store in s.holds && s.holds[store] == h;
      assert Scheduled(s'.holds, store, m) == Scheduled(s.holds, store, m);
    }
  }

  function BatchSteps(stores: seq<nat>, now: int, calendar: Calendar, ids: seq<nat>): seq<Step>
    requires |stores| == |ids|
  {
    seq(|stores|, k requires 0 <= k < |stores| => Batch(stores[k], now, calendar, ids[k]))
  }

  ghost predicate NewIds(s: State, ids: seq<nat>) {
    && (forall k | 0 <= k < |ids| :: ids[k] !in s.invoices)
    && (forall j, k | 0 <= j < k < |ids| :: ids[j] != ids[k])
  }

  ghost predicate AllSettled(s: State, stores: seq<nat>, now: int, calendar: Calendar) {
    forall k | 0 <= k < |stores| :: Settled(s, stores[k], now, calendar)
  }

  // One more store of a pass settles it and leaves the others settled.
  lemma PassNext(s: State, stores: seq<nat>, store: nat, now: int, calendar: Calendar, newId: nat)
    requires Inv(s) && newId !in s.invoices && AllSettled(s, stores, now, calendar)
    ensures AllSettled(Apply(s, Batch(store, now, calendar, newId)), stores + [store], now, calendar)
  {
    var s' := Apply(s, Batch(store, now, calendar, newId));
    BatchSettles(s, store, now, calendar, newId);
    forall k | 0 <= k < |stores| ensures Settled(s', stores[k], now, calendar) {
      if stores[k] != store {
        OtherStoresStaySettled(s, stores[k], store, now, calendar, newId);
      }
    }
  }

  lemma {:induction false} PassSettles(s: State, stores: seq<nat>, now: int, calendar: Calendar, ids: seq<nat>)
    requires Inv(s) && |stores| == |ids| && NewIds(s, ids)
    ensures var s' := Exec(s, BatchSteps(stores, now, calendar, ids));
            && Inv(s') && AllSettled(s', stores, now, calendar)
            && (forall id | id in s'.invoices :: id in s.invoices || id in ids)
  {
    var steps := BatchSteps(stores, now, calendar, ids);
    RunKeepsInv(s, steps);
    if stores != [] {
      var n := |stores| - 1;
      PassSettles(s, stores[..n], now, calendar, ids[..n]);
      assert steps[..n] == BatchSteps(stores[..n], now, calendar, ids[..n]);
      var before := Exec(s, steps[..n]);
      assert stores == stores[..n] + [stores[n]];
      PassNext(before, stores[..n], stores[n], now, calendar, ids[n]);
      BatchAddsOne(before, stores[n], now, calendar, ids[n]);
    }
  }

  lemma {:induction false} SettledPassIsIdentity(s: State, stores: seq<nat>, now: int, calendar: Calendar,
      ids: seq<nat>)
    requires |stores| == |ids| && forall k | 0 <= k < |stores| :: Settled(s, stores[k], now, calendar)
    ensures Exec(s, BatchSteps(stores, now, calendar, ids)) == s
  {
    if stores != [] {
      var n := |stores| - 1;
      SettledPassIsIdentity(s, stores[..n], now, calendar, ids[..n]);
      assert BatchSteps(stores, now, calendar, ids)[..n] == BatchSteps(stores[..n], now, calendar, ids[..n]);
      SettledIsFixpoint(s, stores[n], now, calendar, ids[n]);
    }
  }

  // After a pass over any stores, a second pass over them at the same instant
  // changes no invoice, history, notice or hold.
  lemma SecondPassChangesNothing(
      steps: seq<Step>, stores: seq<nat>, now: int, calendar: Calendar, ids: seq<nat>, again: seq<nat>)
    requires |stores| == |ids| == |again| && NewIds(Exec(Initial(), steps), ids)
    ensures var once := Exec(Exec(Initial(), steps), BatchSteps(stores, now, calendar, ids));
            Exec(once, BatchSteps(stores, now, calendar, again)) == once
  {
    RunKeepsInv(Initial(), steps);
    PassSettles(Exec(Initial(), steps), stores, now, calendar, ids);
    SettledPassIsIdentity(Exec(Exec(Initial(), steps), BatchSteps(stores, now, calendar, ids)), stores, now, calendar,
      again);
  }

  lemma SettledCountsNothing(s: State, store: nat, now: int, calendar: Calendar)
    requires store in s.profiles && Settled(s, store, now, calendar)
    ensures !Drafts(s, store, now, calendar)
    ensures forall id | id in s.invoices :: !Notified(s.invoices[id], store, now)
    ensures Aged(s.invoices, store, now, s.profiles[store].grace) == s.invoices
    ensures Schedules(s.invoices, store) != {} ==>
              !Due(Scheduled(s.holds, store, Minimum(Schedules(s.invoices, store))), now)
  {
    forall id | id in s.invoices ensures !Notified(s.invoices[id], store, now) {
      if Owned(s.invoices[id], store) {
        assert !Accepts(s.invoices[id], Age(now, s.profiles[store].grace));
      }
    }
    if Schedules(s.invoices, store) != {} {
      var h := Scheduled(s.holds, store, Minimum(Schedules(s.invoices, store)));
      assert Held(s.invoices, s.holds, store, now)[store] == Enforced(h, now);
    }
  }

  lemma BatchAddsOne(s: State, store: nat, now: int, calendar: Calendar, newId: nat)
    ensures forall id | id in Apply(s, Batch(store, now, calendar, newId)).invoices :: id in s.invoices || id == newId
  {}

  ghost function NotifiedAmong(invoices: map<nat, Invoice>, ids: seq<nat>, store: nat, now: int): set<nat> {
    set id | id in ids && id in invoices && Notified(invoices[id], store, now)
  }

  ghost function NoticesAmong(
      invoices: map<nat, Invoice>, ids: seq<nat>, users: set<nat>, store: nat, now: int): set<(nat, nat)> {
    set id, u | id in ids && id in invoices && Notified(invoices[id], store, now) && u in users :: (id, u)
  }

  ghost function Told(id: nat, users: set<nat>): set<(nat, nat)> {
    set u | u in users :: (id, u)
  }

  ghost function AgedAmong(
      invoices: map<nat, Invoice>, ids: seq<nat>, store: nat, now: int, grace: nat): map<nat, Invoice> {
    map id | id in invoices ::
      if id in ids then AgedRow(invoices[id], store, now, grace) else invoices[id]
  }

  lemma OneMoreAged(invoices: map<nat, Invoice>, ids: seq<nat>, id: nat, store: nat, now: int, grace: nat)
    requires id in invoices && id !in ids
    ensures var before := AgedAmong(invoices, ids, store, now, grace);
            && before[id] == invoices[id]
            && AgedAmong(invoices, ids + [id], store, now, grace)
               == before[id := AgedRow(invoices[id], store, now, grace)]
  {}

  lemma AllListed(invoices: map<nat, Invoice>, ids: seq<nat>, users: set<nat>, store: nat, now: int, grace: nat)
    requires forall id | id in invoices :: id in ids
    ensures AgedAmong(invoices, ids, store, now, grace) == Aged(invoices, store, now, grace)
    ensures NoticesAmong(invoices, ids, users, store, now) == NoticesFor(invoices, users, store, now)
  {}

  lemma NotListedYet(ids: seq<nat>, k: nat)
    requires k < |ids| && forall i, j | 0 <= i < j < |ids| :: ids[i] != ids[j]
    ensures ids[k] !in ids[..k] && ids[..k + 1] == ids[..k] + [ids[k]]
  {}

  lemma OneMoreCounted(invoices: map<nat, Invoice>, ids: seq<nat>, id: nat, store: nat, now: int)
    requires id in invoices && id !in ids
    ensures |NotifiedAmong(invoices, ids + [id], store, now)|
         == |NotifiedAmong(invoices, ids, store, now)| + (if Notified(invoices[id], store, now) then 1 else 0)
  {
    var before, after := NotifiedAmong(invoices, ids, store, now), NotifiedAmong(invoices, ids + [id], store, now);
    assert id !in before;
    assert after == if Notified(invoices[id], store, now) then before + {id} else before;
  }

  lemma OneMoreTold(invoices: map<nat, Invoice>, ids: seq<nat>, id: nat, users: set<nat>, store: nat, now: int)
    requires id in invoices
    ensures NoticesAmong(invoices, ids + [id], users, store, now)
         == NoticesAmong(invoices, ids, users, store, now)
             + (if Notified(invoices[id], store, now) then Told(id, users) else {})
  {}

  lemma UnionAssociates<T>(a: set<T>, b: set<T>, c: set<T>)
    ensures a + (b + c) == a + b + c
  {}

  /// The tables as the service and the worker update them

  class BillingTables {
    var profiles: map<nat, Profile>
    var managers: map<nat, set<nat>>
    var invoices: map<nat, Invoice>
    var created: seq<nat>  // invoice ids in order of creation
    var notices: set<(nat, nat)>
    var holds: map<nat, Hold>

    ghost function View(): State reads this { State(profiles, managers, invoices, notices, holds) }

    ghost predicate Valid() reads this {
      && (forall id :: id in created <==> id in invoices)
      && (forall j, k | 0 <= j < k < |created| :: created[j] != created[k])
    }

    constructor ()
      ensures Valid() && View() == Initial()
    {
      profiles, managers, invoices, created, notices, holds := map[], map[], map[], [], {}, map[];
    }

    method CreateInvoice(id: nat, charge: Charge, due: int, items: seq<int>) returns (r: Result<Invoice>)
      requires Valid() && id !in invoices && ValidItems(items)
      modifies this
      ensures Valid() && View() == Apply(old(View()), Create(id, charge, due, items))
      ensures r.Ok? <==> charge.store in profiles && !Charged(old(invoices), charge)
      ensures r.Ok? ==> id in invoices && r.value == invoices[id] && Total(r.value) == Sum(items) > 0
    {
      if charge.store !in profiles { return Err("no billing profile"); }
      if Charged(invoices, charge) { return Err("duplicate charge"); }
      var i := Draft(charge, due, profiles[charge.store].zone, []);
      for k := 0 to |items|
        invariant i == Draft(charge, due, profiles[charge.store].zone, items[..k])
      {
        i := i.(items := i.items + [items[k]]);
      }
      assert items[..|items|] == items;
      invoices, created := invoices[id := i], created + [id];
      return Ok(i);
    }

    method EditInvoice(id: nat, version: nat, charge: Charge, due: int, items: seq<int>) returns (r: Result<Invoice>)
      requires Valid() && ValidItems(items)
      modifies this
      ensures Valid() && View() == Apply(old(View()), Amend(id, Edit(version, charge, due, items)))
      ensures r.Ok? ==> id in invoices && r.value == invoices[id]
      ensures r.Ok? ==> Total(r.value) == Sum(items) && r.value.version == version + 1
      ensures r.Err? ==> View() == old(View())
    {
      if id !in invoices { return Err("not found"); }
      var before := invoices[id];
      if before.status != DRAFT || before.version != version { return Err("not a current draft"); }
      if before.charge.store != charge.store { return Err("another store"); }
      if ChargedByAnother(invoices, charge, id) { return Err("duplicate charge"); }
      var i := before.(charge := charge, due := due, version := before.version + 1, items := []);
      for k := 0 to |items|
        invariant i == before.(charge := charge, due := due, version := before.version + 1, items := items[..k])
      {
        i := i.(items := i.items + [items[k]]);
      }
      assert items[..|items|] == items;
      invoices := invoices[id := i];
      return Ok(i);
    }

    // Writes a new status with its history, unless the status is already there.
    method RecordState(id: nat, to: Status, now: int)
      requires id in invoices
      modifies `invoices
      ensures invoices == old(invoices)[id := Recorded(old(invoices)[id], to, now)]
    {
      var i := invoices[id];
      if i.status == to { return; }
      var issuedAt := if to == ISSUED && i.issuedAt.None? then Some(now) else i.issuedAt;
      var paidAt := if to == PAID then Some(now) else i.paidAt;
      i := i.(history := i.history + [Change(Some(i.status), to)]);
      i := i.(status := to, version := i.version + 1, issuedAt := issuedAt, paidAt := paidAt);
      invoices := invoices[id := i];
    }

    // The earliest suspension date of the store's delinquent invoices.
    method NextSuspension(store: nat) returns (next: Option<int>)
      requires Valid()
      ensures next.None? <==> Schedules(invoices, store) == {}
      ensures next.Some? ==> next.value == Minimum(Schedules(invoices, store))
    {
      next := None;
      for k := 0 to |created|
        invariant next.None? ==> forall j | 0 <= j < k :: !Suspends(invoices[created[j]], store)
        invariant next.Some? ==> next.value in Schedules(invoices, store)
        invariant next.Some? ==>
            forall j | 0 <= j < k && Suspends(invoices[created[j]], store) ::
                next.value <= invoices[created[j]].suspendAt.value
      {
        var i := invoices[created[k]];
        if Suspends(i, store) {
          assert i.suspendAt.value in Schedules(invoices, store);
          if next.None? || i.suspendAt.value < next.value {
            next := i.suspendAt;
          }
        }
      }
      forall x | x in Schedules(invoices, store) ensures next.Some? && next.value <= x {
        var id :| id in invoices && Suspends(invoices[id], store) && invoices[id].suspendAt.value == x;
        var j :| 0 <= j < |created| && created[j] == id;
      }
    }

    method ReconcileHold(store: nat, now: int)
      requires Valid()
      modifies `holds
      ensures holds == Reconciled(invoices, old(holds), store, now)
    {
      var pending := NextSuspension(store);
      if pending.Some? { return; }
      if store in holds && holds[store].releasedAt.None? {
        holds := holds[store := holds[store].(releasedAt := Some(now), scheduledAt := None)];
      }
    }

    // Issue or cancel.
    method ChangeStatus(id: nat, issue: bool, now: int) returns (r: Result<Invoice>)
      requires Valid()
      modifies this
      ensures Valid() && View() == Apply(old(View()), Amend(id, if issue then Issue(now) else Cancel(now)))
      ensures r.Ok? ==> id in invoices && r.value == invoices[id]
      ensures r.Ok? ==> r.value.status == if issue then ISSUED else CANCELLED
      ensures r.Err? ==> View() == old(View())
    {
      if id !in invoices { return Err("not found"); }
      var i := invoices[id];
      if issue && (i.status != DRAFT || Total(i) <= 0) { return Err("not a positive draft"); }
      if !issue && (i.status == PAID || i.status == CANCELLED || Paid(i) > 0) { return Err("has a payment"); }
      RecordState(id, if issue then ISSUED else CANCELLED, now);
      ReconcileHold(i.charge.store, now);
      return Ok(invoices[id]);
    }

    method Credit(id: nat, amount: int, now: int)
      requires id in invoices && Accepts(invoices[id], Pay(amount, now))
      modifies `invoices
      ensures invoices == old(invoices)[id := Do(old(invoices)[id], Pay(amount, now))]
    {
      var i := invoices[id];
      var balance := Balance(i);
      invoices := invoices[id := i.(payments := i.payments + [amount])];
      if amount == balance {
        RecordState(id, PAID, now);
      }
    }

    method RegisterPayment(id: nat, amount: int, now: int) returns (r: Result<Invoice>)
      requires Valid()
      modifies this
      ensures Valid() && View() == Apply(old(View()), Amend(id, Pay(amount, now)))
      ensures r.Ok? ==> id in invoices && r.value == invoices[id] && id in old(invoices)
                        && Balance(r.value) == Balance(old(invoices)[id]) - amount
      ensures r.Err? ==> View() == old(View())
    {
      if id !in invoices { return Err("not found"); }
      var i := invoices[id];
      if !Collectable(i.status) { return Err("does not take payments"); }
      if amount <= 0 || amount > Balance(i) { return Err("amount out of range"); }
      Credit(id, amount, now);
      ReconcileHold(i.charge.store, now);
      SumAppend(i.payments, amount);
      return Ok(invoices[id]);
    }

    method WaiveHold(store: nat, until: int, now: int)
      requires Valid() && now < until <= now + MAX_WAIVER
      modifies `holds
      ensures View() == Apply(old(View()), Waive(store, until, now))
      ensures !Blocked(holds[store], now)
    {
      if store in holds {
        holds := holds[store := holds[store].(waiverUntil := Some(until), releasedAt := Some(now))];
      } else {
        holds := holds[store := Hold(None, None, Some(now), Some(until))];
      }
    }

    method DraftMonth(store: nat, now: int, calendar: Calendar, newId: nat) returns (drafts: nat)
      requires Valid() && store in profiles && newId !in invoices
      modifies `invoices, `created
      ensures Valid() && invoices == Drafted(old(View()), store, now, calendar, newId)
      ensures drafts == if Drafts(old(View()), store, now, calendar) then 1 else 0
    {
      var p := profiles[store];
      if !p.enabled || p.startsOn > Date(now, p.zone) { return 0; }
      var charge := MonthlyCharge(store, p, now, calendar);
      if Charged(invoices, charge) { return 0; }
      var m := calendar(Date(now, p.zone));
      var day := if p.dueDay < m.length then p.dueDay else m.length;
      var items := [];
      if p.recurring > 0 { items := items + [p.recurring]; }
      if p.additional > 0 { items := items + [p.additional]; }
      assert items == MonthlyDraft(store, p, now, calendar).items;
      invoices := invoices[newId := Draft(charge, m.start + day - 1, p.zone, items)];
      created := created + [newId];
      return 1;
    }

    // One invoice of the worker's loop; `notified` is whether it was given notice.
    method AgeInvoice(id: nat, store: nat, grace: nat, now: int) returns (notified: bool)
      requires id in invoices
      modifies `invoices, `notices
      ensures invoices == old(invoices)[id := AgedRow(old(invoices)[id], store, now, grace)]
      ensures notified <==> Notified(old(invoices)[id], store, now)
      ensures notices == old(notices) + if notified then Told(id, Managers(View(), store)) else {}
    {
      var i := invoices[id];
      if i.charge.store != store || !Collectable(i.status) { return false; }
      var days := Date(now, i.zone) - i.due;
      if days >= DAYS_TO_DELINQUENCY && i.notifiedAt.None? {
        RecordState(id, DELINQUENT, now);
        var suspendAt := Max(now + DAY, Midnight(i.due + grace, i.zone));
        invoices := invoices[id := invoices[id].(notifiedAt := Some(now), suspendAt := Some(suspendAt))];
        if store in managers {
          notices := notices + set u | u in managers[store] :: (id, u);
        }
        return true;
      }
      if days > 0 && i.status == ISSUED {
        RecordState(id, OVERDUE, now);
      }
      return false;
    }

    method AgeNext(k: nat, ghost rows: map<nat, Invoice>, ghost told: set<(nat, nat)>, store: nat, grace: nat, now: int)
      returns (notified: bool)
      requires Valid() && k < |created| && created[k] in rows && rows.Keys == invoices.Keys
      requires invoices == AgedAmong(rows, created[..k], store, now, grace)
      requires notices == told + NoticesAmong(rows, created[..k], Managers(View(), store), store, now)
      modifies `invoices, `notices
      ensures invoices == AgedAmong(rows, created[..k + 1], store, now, grace)
      ensures notices == told + NoticesAmong(rows, created[..k + 1], Managers(View(), store), store, now)
      ensures |NotifiedAmong(rows, created[..k + 1], store, now)|
           == |NotifiedAmong(rows, created[..k], store, now)| + (if notified then 1 else 0)
    {
      var id := created[k];
      ghost var users := Managers(View(), store);
      NotListedYet(created, k);
      OneMoreAged(rows, created[..k], id, store, now, grace);
      OneMoreTold(rows, created[..k], id, users, store, now);
      OneMoreCounted(rows, created[..k], id, store, now);
      notified := AgeInvoice(id, store, grace, now);
      ghost var news := if notified then Told(id, users) else {};
      UnionAssociates(told, NoticesAmong(rows, created[..k], users, store, now), news);
    }

    method AgeInvoices(store: nat, grace: nat, now: int) returns (count: nat)
      requires Valid()
      modifies `invoices, `notices
      ensures invoices == AgedAmong(old(invoices), created, store, now, grace)
      ensures notices == old(notices) + NoticesAmong(old(invoices), created, Managers(old(View()), store), store, now)
      ensures count == |NotifiedAmong(old(invoices), created, store, now)|
    {
      ghost var rows, users := invoices, Managers(View(), store);
      count := 0;
      for k := 0 to |created|
        invariant Valid() && managers == old(managers) && created == old(created) && rows.Keys == invoices.Keys
        invariant invoices == AgedAmong(rows, created[..k], store, now, grace)
        invariant notices == old(notices) + NoticesAmong(rows, created[..k], users, store, now)
        invariant count == |NotifiedAmong(rows, created[..k], store, now)|
      {
        var notified := AgeNext(k, rows, old(notices), store, grace, now);
        if notified {
          count := count + 1;
        }
      }
      assert created[..|created|] == created;
    }

    // Schedules and, when due, applies the hold of a store.
    method ApplyHold(store: nat, now: int) returns (blocked: nat)
      requires Valid()
      modifies `holds
      ensures holds == Held(invoices, old(holds), store, now)
      ensures blocked == if && Schedules(invoices, store) != {}
                            && Due(Scheduled(old(holds), store, Minimum(Schedules(invoices, store))), now)
                         then 1 else 0
    {
      var next := NextSuspension(store);
      if next.None? {
        ReconcileHold(store, now);
        return 0;
      }
      var hold := if store in holds then holds[store].(scheduledAt := next) else Hold(next, None, None, None);
      blocked := 0;
      if hold.scheduledAt.value <= now && (hold.waiverUntil.None? || hold.waiverUntil.value <= now)
         && (hold.blockedAt.None? || hold.releasedAt.Some?) {
        hold := hold.(blockedAt := Some(now), releasedAt := None);
        blocked := 1;
      }
      holds := holds[store := hold];
    }

    method ProcessStore(store: nat, now: int, calendar: Calendar, newId: nat)
      returns (drafts: nat, count: nat, blocked: nat)
      requires Valid() && store in profiles && newId !in invoices
      modifies this
      ensures Valid() && View() == Apply(old(View()), Batch(store, now, calendar, newId))
      ensures Settled(old(View()), store, now, calendar) ==> drafts == count == blocked == 0
    {
      ghost var start := View();
      drafts := DraftMonth(store, now, calendar, newId);
      ghost var drafted := View();
      count := AgeInvoices(store, profiles[store].grace, now);
      AllListed(drafted.invoices, created, Managers(drafted, store), store, now, profiles[store].grace);
      blocked := ApplyHold(store, now);
      assert View() == Apply(start, Batch(store, now, calendar, newId));
      if Settled(start, store, now, calendar) {
        SettledCountsNothing(start, store, now, calendar);
        assert drafted.invoices == old(invoices);
        assert NotifiedAmong(old(invoices), created, store, now) == {};
      }
    }

    // The whole batch, one transaction for each store.
    method ProcessBatch(stores: seq<nat>, now: int, calendar: Calendar, ids: seq<nat>)
      returns (drafts: nat, count: nat, blocked: nat)
      requires Valid() && |stores| == |ids| && NewIds(View(), ids)
      requires forall store | store in stores :: store in profiles
      modifies this
      ensures Valid() && View() == Exec(old(View()), BatchSteps(stores, now, calendar, ids))
      ensures Inv(old(View())) ==> forall k | 0 <= k < |stores| :: Settled(View(), stores[k], now, calendar)
      ensures (forall k | 0 <= k < |stores| :: Settled(old(View()), stores[k], now, calendar)) ==>
                drafts == count == blocked == 0 && View() == old(View())
    {
      drafts, count, blocked := 0, 0, 0;
      ghost var steps := BatchSteps(stores, now, calendar, ids);
      ghost var settled := forall k | 0 <= k < |stores| :: Settled(old(View()), stores[k], now, calendar);
      for n := 0 to |stores|
        invariant Valid() && profiles == old(profiles) && View() == Exec(old(View()), steps[..n])
        invariant forall k | n <= k < |ids| :: ids[k] !in invoices
        invariant settled ==> drafts == count == blocked == 0 && View() == old(View())
      {
        ghost var before := View();
        var d, c, b := ProcessStore(stores[n], now, calendar, ids[n]);
        drafts, count, blocked := drafts + d, count + c, blocked + b;
        assert steps[..n + 1][..n] == steps[..n];
        if settled {
          SettledIsFixpoint(before, stores[n], now, calendar, ids[n]);
        }
        BatchAddsOne(before, stores[n], now, calendar, ids[n]);
      }
      assert steps[..|stores|] == steps;
      if Inv(old(View())) {
        PassSettles(old(View()), stores, now, calendar, ids);
      }
    }
  }
}
