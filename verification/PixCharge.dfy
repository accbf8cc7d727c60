/** The Pix charge of one order: several workers, an advisory lock tied to a
    database session that may be lost at any moment, and a bank that may answer
    late or not at all. The intent to charge is committed before the request. */
module PixCharge {
  import opened BankAmounts
  import opened Wrappers

  datatype PixStatus = Created | Requested | Pending | Paid | Expired | ReviewRequired
  datatype ChargeIds = ChargeIds(provider: nat, tx: nat, location: nat)
  datatype Account = Account(taxId: nat, pixKey: nat)

  datatype Payment = Payment(
    status: PixStatus,
    account: Option<Account>,   // tax id and Pix key, written together with the intent
    ids: Option<ChargeIds>,
    amountCents: nat,
    expiresAt: int,
    paidAt: Option<int>)

  // A charge as the bank reports it; amounts are decimal reais as it wrote them.
  datatype Charge = Charge(
    ids: ChargeIds, account: Account, orderTag: bool, value: real, customerMayChange: bool,
    usable: bool,                    // active and with a copy-and-paste code
    payment: Option<(real, int)>)    // amount paid and instant, when the bank says PAID

  // What the bank reports must be the charge that was asked for.
  predicate Matches(c: Charge, account: Account, amountCents: nat, ids: Option<ChargeIds>) {
    && c.account == account && !c.customerMayChange
    && BankCents(c.value) == Some(amountCents)
    && (ids.Some? ==> c.ids == ids.value)
  }

  /// The protocol

  datatype Phase =
    | Locked                                   // holds the lock, has read nothing yet
    | Loaded(row: Payment, waiting: bool)      // the row and the order as they were read under the lock
    | Intended(account: Account)               // the intent is committed
    | Posted(posted: Account, reply: Option<Charge>)
    | Found(charge: Charge)                    // reconciled, about to settle

  // `session` is false once the database session, and with it the lock, is gone.
  datatype Worker = Worker(session: bool, phase: Phase)

  datatype State = State(
    now: int,
    row: Payment,
    waiting: bool,                 // the order still waits for its payment
    lock: Option<nat>,
    workers: map<nat, Worker>,
    posts: nat,                    // charge requests sent to the bank
    intent: Option<nat>,           // who committed the intent
    credits: nat)                  // times the payment was booked

  datatype Step =
    | Tick(seconds: nat)
    | Acquire(w: nat)
    | Load(w: nat)
    | CommitIntent(w: nat, account: Account, acknowledged: bool)
    | Post(w: nat, reply: Option<Charge>)
    | SaveCharge(w: nat)
    | Reconcile(w: nat, current: Account, charges: seq<Charge>)
    | Settle(w: nat)
    | LoseSession(w: nat)
    | Leave(w: nat)
    | ExpireOrder
    | CancelOrder

  const SAFETY_MARGIN: int := 30
  const CLOCK_SKEW: int := 300      // how far in the future the bank may date a payment

  function Gone(s: State, w: nat): State {
    s.(workers := s.workers - {w}, lock := if s.lock == Some(w) then None else s.lock)
  }

  predicate Live(s: State, w: nat) {
    w in s.workers && s.workers[w].session
  }

  function At(s: State, w: nat, phase: Phase): State
    requires w in s.workers
  {
    s.(workers := s.workers[w := s.workers[w].(phase := phase)])
  }

  function Candidates(charges: seq<Charge>, ids: Option<ChargeIds>): seq<Charge> {
    if charges == [] then []
    else (if (if ids.Some? then charges[0].ids.provider == ids.value.provider else charges[0].orderTag)
          then [charges[0]] else []) + Candidates(charges[1..], ids)
  }

  predicate MayIntend(row: Payment, waiting: bool, now: int) {
    row.status == Created && row.expiresAt > now + SAFETY_MARGIN && waiting
  }

  function Saved(row: Payment, account: Account, reply: Option<Charge>, now: int): Payment {
    if reply.Some? && Matches(reply.value, account, row.amountCents, None) && reply.value.usable
    then row.(status := if row.expiresAt > now then Pending else Expired, ids := Some(reply.value.ids))
    else row.(status := ReviewRequired)
  }

  // Books the money once; only an exact and timely payment of a waiting order counts as paid.
  function Credited(s: State, cents: Option<int>, at: int): State {
    if s.row.paidAt.Some? || cents.None? || cents.value <= 0 || at > s.now + CLOCK_SKEW then s
    else
      var exact := s.waiting && cents.value == s.row.amountCents && at <= s.row.expiresAt;
      s.(row := s.row.(paidAt := Some(at), status := if exact then Paid else ReviewRequired),
         waiting := s.waiting && !exact, credits := s.credits + 1)
  }

  function Settled(s: State, charge: Charge): State {
    if charge.payment.None? then s else Credited(s, BankCents(charge.payment.value.0), charge.payment.value.1)
  }

  // The order stops waiting; a payment already booked or under review stays as it is.
  function Withdrawn(s: State): State {
    s.(waiting := false,
       row := if s.row.paidAt.Some? || s.row.status == ReviewRequired then s.row else s.row.(status := Expired))
  }

  function Apply(s: State, step: Step): State {
    match step
    case Tick(seconds) => s.(now := s.now + seconds)
    case Acquire(w) =>
      if s.lock.None? && w !in s.workers
      then s.(lock := Some(w), workers := s.workers[w := Worker(true, Locked)]) else s
    case Load(w) =>
      if Live(s, w) && s.workers[w].phase.Locked?
      then if s.row.paidAt.Some? then Gone(s, w) else At(s, w, Loaded(s.row, s.waiting)) else s
    case CommitIntent(w, account, acknowledged) =>
      if Live(s, w) && s.workers[w].phase.Loaded?
          && MayIntend(s.workers[w].phase.row, s.workers[w].phase.waiting, s.now)
      then
        var committed := s.(row := s.row.(status := Requested, account := Some(account)), intent := Some(w));
        if acknowledged then At(committed, w, Intended(account)) else Gone(committed, w)
      else s
    case Post(w, reply) =>
      if w in s.workers && s.workers[w].phase.Intended?
      then At(s.(posts := s.posts + 1), w, Posted(s.workers[w].phase.account, reply)) else s
    case SaveCharge(w) =>
      if Live(s, w) && s.workers[w].phase.Posted?
      then Gone(s.(row := Saved(s.row, s.workers[w].phase.posted, s.workers[w].phase.reply, s.now)), w) else s
    case Reconcile(w, current, charges) =>
      if Live(s, w) && s.workers[w].phase.Loaded? && s.workers[w].phase.row.status != Created
      then
        var row := s.workers[w].phase.row;
        var found := Candidates(charges, row.ids);
        if row.account.None? || current.taxId != row.account.value.taxId || |found| != 1
           || !Matches(found[0], row.account.value, row.amountCents, row.ids)
        then Gone(s, w)
        else At(s.(row := s.row.(ids := Some(found[0].ids))), w, Found(found[0]))
      else s
    case Settle(w) =>
      if w in s.workers && s.workers[w].phase.Found?
      then Gone(Settled(s, s.workers[w].phase.charge), w) else s
    case LoseSession(w) =>
      if w in s.workers
      then s.(workers := s.workers[w := s.workers[w].(session := false)], lock := if s.lock == Some(w) then None
          else s.lock)
      else s
    case Leave(w) => Gone(s, w)
    case ExpireOrder =>
      if s.waiting && s.row.expiresAt <= s.now then Withdrawn(s) else s
    case CancelOrder =>
      if s.waiting then Withdrawn(s) else s
  }

  function Initial(amountCents: nat, expiresAt: int): State {
    State(0, Payment(Created, None, None, amountCents, expiresAt, None), true, None, map[], 0, None, 0)
  }

  function Exec(s: State, steps: seq<Step>): State {
    if steps == [] then s else Apply(Exec(s, steps[..|steps| - 1]), steps[|steps| - 1])
  }

  /// When each step takes effect

  // The intent to charge is committed exactly for a new charge of an order that
  // waits and has more than thirty seconds left, as they were read under the lock.
  lemma IntendedExactlyWhen(s: State, w: nat, account: Account)
    requires Live(s, w) && s.workers[w].phase.Loaded?
    ensures var row, waiting := s.workers[w].phase.row, s.workers[w].phase.waiting;
            Apply(s, CommitIntent(w, account, true)) ==
            (if row.status == Created && waiting && s.now + 30 < row.expiresAt
             then s.(row := s.row.(status := Requested, account := Some(account)), intent := Some(w),
                     workers := s.workers[w := s.workers[w].(phase := Intended(account))])
             else s)
  {}

  // The lock has one holder, who reads the order unless it was paid.
  lemma LockedAndLoaded(s: State, w: nat)
    requires w !in s.workers
    ensures var locked := Apply(s, Acquire(w));
            && (s.lock.Some? ==> locked == s)
            && (s.lock.None? ==>
                  && locked == s.(lock := Some(w), workers := s.workers[w := Worker(true, Locked)])
                  && var loaded := Apply(locked, Load(w));
                  if s.row.paidAt.Some? then loaded.lock.None? && loaded.workers == s.workers && loaded.row == s.row
                  else loaded == locked.(workers := s.workers[w := Worker(true, Loaded(s.row, s.waiting))]))
  {
    assert (s.workers[w := Worker(true, Locked)]) - {w} == s.workers;
  }

  // Each call goes through its phases in order, and ends for good.
  lemma PhasesFollow(s: State, step: Step, w: nat)
    requires w in s.workers && w in Apply(s, step).workers
    ensures var before, after := s.workers[w].phase, Apply(s, step).workers[w].phase;
            || after == before
            || (before.Locked? && after.Loaded?)
            || (before.Loaded? && (after.Intended? || after.Found?))
            || (before.Intended? && after.Posted?)
    ensures Apply(s, step).workers[w].session ==> s.workers[w].session
    ensures Apply(s, step).now == s.now + if step.Tick? then step.seconds else 0
  {}

  // A payment is booked exactly once, if it is a positive amount dated at most
  // five minutes ahead, and as paid exactly if the order waits for that amount and
  // had not expired; then it waits no longer.
  lemma BookedExactlyWhen(s: State, w: nat)
    requires w in s.workers && s.workers[w].phase.Found?
    ensures var charge, s' := s.workers[w].phase.charge, Apply(s, Settle(w));
            var cents := if charge.payment.Some? then BankCents(charge.payment.value.0) else None;
            if s.row.paidAt.None? && cents.Some? && 0 < cents.value && charge.payment.value.1 <= s.now + 300
            then
              var paid := s.waiting && cents.value == s.row.amountCents && charge.payment.value.1 <= s.row.expiresAt;
              && s'.credits == s.credits + 1 && s'.waiting == (s.waiting && !paid)
              && s'.row == s.row.(paidAt := Some(charge.payment.value.1),
                                  status := if paid then Paid else ReviewRequired)
            else s'.credits == s.credits && s'.waiting == s.waiting && s'.row == s.row
  {}

  // A waiting order is withdrawn by a cancellation, or from its expiry on; a
  // payment booked or under review keeps its status.
  lemma WithdrawnExactlyWhen(s: State)
    ensures var withdrawn := s.(waiting := false,
                                row := if s.row.paidAt.None? && s.row.status != ReviewRequired
                                       then s.row.(status := Expired) else s.row);
            && Apply(s, CancelOrder) == (if s.waiting then withdrawn else s)
            && Apply(s, ExpireOrder) == (if s.waiting && s.row.expiresAt <= s.now then withdrawn else s)
  {}

  /// The invariant

  ghost predicate LockInv(s: State) {
    forall w: nat :: s.lock == Some(w) <==> Live(s, w)
  }

  ghost predicate RowInv(s: State) {
    && (s.row.account.None? <==> s.intent.None?)
    && (s.row.status == Created ==> s.intent.None?)
    && (s.intent.None? ==> s.row.ids.None? && s.posts == 0)
    && s.posts <= 1
    && (s.row.paidAt.Some? ==> s.intent.Some?)
    && s.credits == (if s.row.paidAt.Some? then 1 else 0)
  }

  // The charge is to the account on record, of the amount of the order, and not
  // for the customer to change.
  ghost predicate OnRecord(c: Charge, row: Payment) {
    && row.account.Some? && c.account.taxId == row.account.value.taxId && c.account.pixKey == row.account.value.pixKey
    && BankCents(c.value) == Some(row.amountCents) && !c.customerMayChange
  }

  // No payment is booked and nobody is about to book one.
  ghost predicate Unbooked(s: State) {
    s.row.paidAt.None? && forall v | v in s.workers :: !s.workers[v].phase.Found?
  }

  // What a worker knows, and how much of it is still true while its session lives.
  ghost predicate WorkerInv(s: State, w: nat)
    requires w in s.workers
  {
    match s.workers[w].phase
    case Locked => true
    case Loaded(row, _) =>
      Live(s, w) ==>
        && row.account == s.row.account && row.ids == s.row.ids && row.amountCents == s.row.amountCents
        && (row.status == Created ==> s.intent.None?)
    case Intended(account) =>
      && s.intent == Some(w) && s.posts == 0 && s.row.account == Some(account)
      && (Live(s, w) ==> s.row.ids.None? && Unbooked(s))
    case Posted(account, _) =>
      && s.row.account == Some(account)
      && (Live(s, w) ==> s.row.ids.None? && Unbooked(s))
    case Found(charge) => s.intent.Some? && OnRecord(charge, s.row) && s.row.ids == Some(charge.ids)
  }

  ghost predicate Inv(s: State) {
    && LockInv(s) && RowInv(s)
    && forall w | w in s.workers :: WorkerInv(s, w)
  }

  lemma IntentKeepsInv(s: State, w: nat, account: Account, acknowledged: bool)
    requires Inv(s)
    ensures Inv(Apply(s, CommitIntent(w, account, acknowledged)))
  {}

  lemma PostKeepsInv(s: State, w: nat, reply: Option<Charge>)
    requires Inv(s)
    ensures Inv(Apply(s, Post(w, reply)))
  {}

  lemma SaveKeepsInv(s: State, w: nat)
    requires Inv(s)
    ensures Inv(Apply(s, SaveCharge(w)))
  {}

  lemma ReconcileKeepsInv(s: State, w: nat, current: Account, charges: seq<Charge>)
    requires Inv(s)
    ensures Inv(Apply(s, Reconcile(w, current, charges)))
  {
    var s' := Apply(s, Reconcile(w, current, charges));
    if w in s.workers {
      assert WorkerInv(s, w);
    }
    assert LockInv(s') && RowInv(s');
    forall v | v in s'.workers ensures WorkerInv(s', v) {
      assert WorkerInv(s, v);
    }
  }

  lemma SettleKeepsInv(s: State, w: nat)
    requires Inv(s)
    ensures Inv(Apply(s, Settle(w)))
  {
    var s' := Apply(s, Settle(w));
    if w in s.workers {
      assert WorkerInv(s, w);
    }
    assert LockInv(s') && RowInv(s');
    forall v | v in s'.workers ensures WorkerInv(s', v) {
      assert WorkerInv(s, v);
    }
  }

  lemma SessionKeepsInv(s: State, step: Step)
    requires Inv(s) && (step.Acquire? || step.Load? || step.LoseSession? || step.Leave? || step.ExpireOrder?
        || step.CancelOrder? || step.Tick?)
    ensures Inv(Apply(s, step))
  {}

  lemma ApplyKeepsInv(s: State, step: Step)
    requires Inv(s)
    ensures Inv(Apply(s, step))
  {
    match step
    case CommitIntent(w, account, acknowledged) => IntentKeepsInv(s, w, account, acknowledged);
    case Post(w, reply) => PostKeepsInv(s, w, reply);
    case SaveCharge(w) => SaveKeepsInv(s, w);
    case Reconcile(w, current, charges) => ReconcileKeepsInv(s, w, current, charges);
    case Settle(w) => SettleKeepsInv(s, w);
    case _ => SessionKeepsInv(s, step);
  }

  lemma {:induction false} RunKeepsInv(s: State, steps: seq<Step>)
    requires Inv(s)
    ensures Inv(Exec(s, steps))
  {
    if steps != [] {
      RunKeepsInv(s, steps[..|steps| - 1]);
      ApplyKeepsInv(Exec(s, steps[..|steps| - 1]), steps[|steps| - 1]);
    }
  }

  /// Main results

  // Whatever workers, crashes and lost sessions there are, the order is charged
  // at most once and its payment is booked at most once.
  lemma ChargedAtMostOnce(amountCents: nat, expiresAt: int, steps: seq<Step>)
    ensures var s := Exec(Initial(amountCents, expiresAt), steps);
            && s.posts <= 1
            && s.credits == (if s.row.paidAt.Some? then 1 else 0)
            && (s.posts == 1 ==> s.row.account.Some? && s.row.status != Created)
  {
    RunKeepsInv(Initial(amountCents, expiresAt), steps);
  }

  // A charge is only ever requested for the account that is on record.
  lemma PostsTheRecordedAccount(amountCents: nat, expiresAt: int, steps: seq<Step>, w: nat, reply: Option<Charge>)
    ensures var s := Exec(Initial(amountCents, expiresAt), steps);
            Apply(s, Post(w, reply)).posts > s.posts ==>
              s.posts == 0 && s.workers[w].phase.Intended? && s.row.account == Some(s.workers[w].phase.account)
  {
    RunKeepsInv(Initial(amountCents, expiresAt), steps);
    var s := Exec(Initial(amountCents, expiresAt), steps);
    if w in s.workers {
      assert WorkerInv(s, w);
    }
  }

  lemma StepWritesOnce(s: State, step: Step)
    requires Inv(s)
    ensures s.row.account.Some? ==> Apply(s, step).row.account == s.row.account
    ensures s.row.ids.Some? ==> Apply(s, step).row.ids == s.row.ids
    ensures s.row.paidAt.Some? ==>
        Apply(s, step).row.paidAt == s.row.paidAt && Apply(s, step).row.status == s.row.status
  {
    if step.SaveCharge? && step.w in s.workers {
      assert WorkerInv(s, step.w);
    }
    if step.Reconcile? && step.w in s.workers {
      assert WorkerInv(s, step.w);
    }
    if step.CommitIntent? && step.w in s.workers {
      assert WorkerInv(s, step.w);
    }
  }

  // The tax id, the Pix key, the provider, transaction and location ids, and the
  // outcome of a booked payment never change once they are set.
  lemma {:induction false} RecordedForGood(amountCents: nat, expiresAt: int, steps: seq<Step>, more: seq<Step>)
    ensures var before, after := Exec(Initial(amountCents, expiresAt), steps),
        Exec(Exec(Initial(amountCents, expiresAt), steps), more);
            && (before.row.account.Some? ==> after.row.account == before.row.account)
            && (before.row.ids.Some? ==> after.row.ids == before.row.ids)
            && (before.row.paidAt.Some? ==>
                after.row.paidAt == before.row.paidAt && after.row.status == before.row.status)
  {
    if more != [] {
      var start := Exec(Initial(amountCents, expiresAt), steps);
      RecordedForGood(amountCents, expiresAt, steps, more[..|more| - 1]);
      RunKeepsInv(Initial(amountCents, expiresAt), steps);
      RunKeepsInv(start, more[..|more| - 1]);
      StepWritesOnce(Exec(start, more[..|more| - 1]), more[|more| - 1]);
    }
  }

  // An order becomes paid only by booking a payment of exactly its amount, made
  // before it expired, while it still waited; any other payment is left for review.
  lemma PaidOnlyWhenExact(s: State, step: Step)
    requires Inv(s)
    ensures s.row.paidAt.None? && Apply(s, step).row.paidAt.Some? ==>
            && step.Settle? && step.w in s.workers && s.workers[step.w].phase.Found?
            && var charge, after := s.workers[step.w].phase.charge, Apply(s, step);
            && charge.payment.Some? && after.row.paidAt == Some(charge.payment.value.1) && after.credits == 1
            && charge.payment.value.1 <= s.now + CLOCK_SKEW
            && (after.row.status == Paid || after.row.status == ReviewRequired)
            && (after.row.status == Paid <==>
                  && s.waiting && BankCents(charge.payment.value.0) == Some(s.row.amountCents)
                  && charge.payment.value.1 <= s.row.expiresAt)
            && (after.row.status == Paid ==> !after.waiting)
  {}

  // Over every run, ids are written only from a charge on record, by the worker
  // that asked for it or found it.
  lemma IdsComeFromTheRecordedCharge(amountCents: nat, expiresAt: int, steps: seq<Step>, step: Step)
    ensures var s := Exec(Initial(amountCents, expiresAt), steps);
            var after := Apply(s, step);
            after.row.ids != s.row.ids ==>
              (step.SaveCharge? || step.Reconcile?) && exists c :: OnRecord(c, s.row) && after.row.ids == Some(c.ids)
  {
    RunKeepsInv(Initial(amountCents, expiresAt), steps);
    var s := Exec(Initial(amountCents, expiresAt), steps);
    if Apply(s, step).row.ids != s.row.ids {
      IdsFromCharge(s, step);
    }
  }

  lemma IdsFromCharge(s: State, step: Step)
    requires Inv(s) && Apply(s, step).row.ids != s.row.ids
    ensures step.SaveCharge? || step.Reconcile?
    ensures exists c :: OnRecord(c, s.row) && Apply(s, step).row.ids == Some(c.ids)
  {
    assert WorkerInv(s, step.w);
    if step.Reconcile? {
      ReconciledExactlyWhen(s, step.w, step.current, step.charges);
    } else {
      assert OnRecord(s.workers[step.w].phase.reply.value, s.row);
    }
  }

  // And a payment is booked only from a charge on record whose ids are recorded.
  lemma PaymentsComeFromTheRecordedCharge(amountCents: nat, expiresAt: int, steps: seq<Step>, step: Step)
    ensures var s := Exec(Initial(amountCents, expiresAt), steps);
            Apply(s, step).credits > s.credits ==>
              && step.Settle? && step.w in s.workers && s.workers[step.w].phase.Found?
              && var c := s.workers[step.w].phase.charge;
              OnRecord(c, s.row) && s.row.ids == Some(c.ids) && c.payment.Some?
  {
    RunKeepsInv(Initial(amountCents, expiresAt), steps);
    var s := Exec(Initial(amountCents, expiresAt), steps);
    if step.Settle? && step.w in s.workers {
      assert WorkerInv(s, step.w);
    }
  }

  // What a reply leaves of the row: its ids if it is a usable charge on record,
  // pending until the order expires, and otherwise an order to be reviewed.
  lemma SavedReply(amountCents: nat, expiresAt: int, steps: seq<Step>, w: nat)
    requires var s := Exec(Initial(amountCents, expiresAt), steps);
             Live(s, w) && s.workers[w].phase.Posted?
    ensures var s := Exec(Initial(amountCents, expiresAt), steps);
            var reply, after := s.workers[w].phase.reply, Apply(s, SaveCharge(w)).row;
            if reply.Some? && OnRecord(reply.value, s.row) && reply.value.usable
            then && after.ids == Some(reply.value.ids)
                 && after.status == (if s.now < s.row.expiresAt then Pending else Expired)
            else after.ids == s.row.ids && after.status == ReviewRequired
  {
    RunKeepsInv(Initial(amountCents, expiresAt), steps);
    assert WorkerInv(Exec(Initial(amountCents, expiresAt), steps), w);
  }

  /// Reconciliation

  // A charge is the order's by its provider id once that is known, before by its tag.
  predicate Identified(c: Charge, ids: Option<ChargeIds>) {
    (ids.None? ==> c.orderTag) && (ids.Some? ==> c.ids.provider == ids.value.provider)
  }

  // Only the charge at k is the order's.
  predicate Sole(charges: seq<Charge>, ids: Option<ChargeIds>, k: nat) {
    k < |charges| && forall j | 0 <= j < |charges| :: Identified(charges[j], ids) <==> j == k
  }

  lemma {:induction false} NoCandidate(charges: seq<Charge>, ids: Option<ChargeIds>)
    ensures Candidates(charges, ids) == [] <==> forall j | 0 <= j < |charges| :: !Identified(charges[j], ids)
  {
    if charges != [] {
      NoCandidate(charges[1..], ids);
      assert forall j | 0 < j < |charges| :: charges[j] == charges[1..][j - 1];
    }
  }

  lemma {:induction false} SoleCandidate(charges: seq<Charge>, ids: Option<ChargeIds>, k: nat)
    requires Sole(charges, ids, k)
    ensures Candidates(charges, ids) == [charges[k]]
  {
    var rest := charges[1..];
    forall j | 0 <= j < |rest| ensures Identified(rest[j], ids) <==> j == k - 1 {
      assert rest[j] == charges[j + 1];
    }
    if k == 0 {
      NoCandidate(rest, ids);
    } else {
      SoleCandidate(rest, ids, k - 1);
    }
  }

  lemma {:induction false} OneCandidateIsSole(charges: seq<Charge>, ids: Option<ChargeIds>) returns (k: nat)
    requires |Candidates(charges, ids)| == 1
    ensures Sole(charges, ids, k) && Candidates(charges, ids) == [charges[k]]
  {
    var rest := charges[1..];
    if Identified(charges[0], ids) {
      k := 0;
      NoCandidate(rest, ids);
      assert forall j | 0 < j < |charges| :: charges[j] == rest[j - 1];
    } else {
      k := OneCandidateIsSole(rest, ids);
      k := k + 1;
      assert forall j | 0 < j < |charges| :: charges[j] == rest[j - 1];
    }
  }

  ghost predicate Reconciles(row: Payment, current: Account, charges: seq<Charge>, k: nat) {
    && Sole(charges, row.ids, k) && OnRecord(charges[k], row) && current.taxId == row.account.value.taxId
    && (row.ids.Some? ==> charges[k].ids == row.ids.value)
  }

  // A charge is taken for the order's exactly when the account in force has the
  // recorded tax id and it is the only one that is the order's, is on record and
  // has the ids on record, if there are any; its ids are then recorded, and
  // otherwise nothing is. No charge is requested either way.
  lemma ReconciledExactlyWhen(s: State, w: nat, current: Account, charges: seq<Charge>)
    requires Inv(s) && Live(s, w) && s.workers[w].phase.Loaded? && s.workers[w].phase.row.status != Created
    ensures var after := Apply(s, Reconcile(w, current, charges));
            && after.posts == s.posts
            && (w in after.workers <==> exists k: nat :: Reconciles(s.row, current, charges, k))
            && (forall k: nat | Reconciles(s.row, current, charges, k) ::
                  && after.row == s.row.(ids := Some(charges[k].ids))
                  && w in after.workers && after.workers[w].phase == Found(charges[k]))
            && (w !in after.workers ==> after.row == s.row)
  {
    assert WorkerInv(s, w);
    var found := Candidates(charges, s.row.ids);
    if |found| == 1 {
      var k := OneCandidateIsSole(charges, s.row.ids);
      assert Reconciles(s.row, current, charges, k) <==> w in Apply(s, Reconcile(w, current, charges)).workers;
    }
    forall k: nat | Sole(charges, s.row.ids, k) ensures found == [charges[k]] {
      SoleCandidate(charges, s.row.ids, k);
    }
  }

  // A charge whose creation went unanswered can still be found at the bank; its
  // ids are recorded and no second request is made.
  lemma UnknownOutcomeIsReconciled(s: State, w: nat, current: Account, charges: seq<Charge>, k: nat)
    requires Inv(s) && s.lock.None? && w !in s.workers
    requires s.row.status == ReviewRequired && s.row.account.Some? && s.row.ids.None? && s.row.paidAt.None?
    ensures var after := Exec(s, [Acquire(w), Load(w), Reconcile(w, current, charges)]);
            Reconciles(s.row, current, charges, k) ==> after.row.ids == Some(charges[k].ids) && after.posts == s.posts
  {
    var loaded := Apply(Apply(s, Acquire(w)), Load(w));
    ApplyKeepsInv(s, Acquire(w));
    ApplyKeepsInv(Apply(s, Acquire(w)), Load(w));
    ExecReconciliation(s, w, current, charges);
    ReconciledExactlyWhen(loaded, w, current, charges);
  }

  lemma ExecReconciliation(s: State, w: nat, current: Account, charges: seq<Charge>)
    ensures Exec(s, [Acquire(w), Load(w), Reconcile(w, current, charges)])
         == Apply(Apply(Apply(s, Acquire(w)), Load(w)), Reconcile(w, current, charges))
  {
    var steps := [Acquire(w), Load(w), Reconcile(w, current, charges)];
    assert steps[..2][..1][..0] == [];
    assert Exec(s, steps[..2][..1]) == Apply(s, Acquire(w));
  }

  /// One uninterrupted pass

  class PixWorker {
    var now: int
    var row: Payment
    var waiting: bool
    var lock: Option<nat>
    ghost var workers: map<nat, Worker>
    ghost var posts: nat
    ghost var intent: Option<nat>
    ghost var credits: nat

    ghost function View(): State reads this { State(now, row, waiting, lock, workers, posts, intent, credits) }

    constructor (amountCents: nat, expiresAt: int)
      ensures View() == Initial(amountCents, expiresAt)
    {
      now, row, waiting, lock := 0, Payment(Created, None, None, amountCents, expiresAt, None), true, None;
      workers, posts, intent, credits := map[], 0, None, 0;
    }

    // Takes the lock and reads the row, or finds nothing to do.
    method Begin(w: nat) returns (read: Option<Payment>)
      requires lock.None? && w !in workers
      modifies this
      ensures View() == Apply(Apply(old(View()), Acquire(w)), Load(w))
      ensures read == if old(row).paidAt.Some? then None else Some(old(row))
      ensures read.None? ==> View() == old(View())
    {
      if row.paidAt.Some? {
        assert workers[w := Worker(true, Locked)] - {w} == workers;
        return None;
      }
      lock, workers := Some(w), workers[w := Worker(true, Loaded(row, waiting))];
      return Some(row);
    }

    method Release(w: nat)
      modifies this
      ensures View() == Apply(old(View()), Leave(w))
    {
      lock, workers := if lock == Some(w) then None else lock, workers - {w};
    }

    method CommitChargeIntent(w: nat, account: Account)
      requires Live(View(), w) && workers[w].phase == Loaded(row, waiting) && MayIntend(row, waiting, now)
      modifies this
      ensures View() == Apply(old(View()), CommitIntent(w, account, true))
      ensures Live(View(), w) && workers[w].phase == Intended(account)
    {
      row := row.(status := Requested, account := Some(account));
      intent, workers := Some(w), workers[w := Worker(true, Intended(account))];
    }

    method PostCharge(w: nat, account: Account, reply: Option<Charge>)
      requires Live(View(), w) && workers[w].phase == Intended(account)
      modifies this
      ensures View() == Apply(old(View()), Post(w, reply)) && row == old(row)
      ensures Live(View(), w) && workers[w].phase == Posted(account, reply)
    {
      posts, workers := posts + 1, workers[w := Worker(true, Posted(account, reply))];
    }

    method SaveReply(w: nat, account: Account, reply: Option<Charge>)
      requires Live(View(), w) && workers[w].phase == Posted(account, reply)
      modifies this
      ensures View() == Apply(old(View()), SaveCharge(w))
    {
      if reply.Some? && Matches(reply.value, account, row.amountCents, None) && reply.value.usable {
        row := row.(status := if row.expiresAt > now then Pending else Expired, ids := Some(reply.value.ids));
      } else {
        row := row.(status := ReviewRequired);
      }
      Release(w);
    }

    // Intent, request, result.
    method Charge(w: nat, account: Account, reply: Option<Charge>)
      requires Live(View(), w) && workers[w].phase == Loaded(row, waiting) && MayIntend(row, waiting, now)
      modifies this
      ensures View() == Apply(Apply(Apply(old(View()), CommitIntent(w, account, true)), Post(w, reply)), SaveCharge(w))
    {
      CommitChargeIntent(w, account);
      PostCharge(w, account, reply);
      SaveReply(w, account, reply);
    }

    // Identifies the charge at the bank and records its ids.
    method Identify(w: nat, account: Account, charges: seq<Charge>) returns (charge: Option<Charge>)
      requires Live(View(), w) && workers[w].phase == Loaded(row, waiting) && row.status != Created
      modifies this
      ensures View() == Apply(old(View()), Reconcile(w, account, charges))
      ensures charge.None? ==> w !in workers
      ensures charge.Some? ==> w in workers && workers[w].phase == Found(charge.value)
    {
      var found := Candidates(charges, row.ids);
      if row.account.None? || account.taxId != row.account.value.taxId || |found| != 1
         || !Matches(found[0], row.account.value, row.amountCents, row.ids) {
        Release(w);
        return None;
      }
      row := row.(ids := Some(found[0].ids));
      workers := workers[w := Worker(true, Found(found[0]))];
      return Some(found[0]);
    }

    method Credit(cents: Option<int>, at: int)
      modifies this
      ensures View() == Credited(old(View()), cents, at)
    {
      if row.paidAt.None? && cents.Some? && cents.value > 0 && at <= now + CLOCK_SKEW {
        var exact := waiting && cents.value == row.amountCents && at <= row.expiresAt;
        row := row.(paidAt := Some(at), status := if exact then Paid else ReviewRequired);
        waiting, credits := waiting && !exact, credits + 1;
      }
    }

    // Books the payment of an identified charge, once.
    method Book(w: nat, charge: Charge)
      requires w in workers && workers[w].phase == Found(charge)
      modifies this
      ensures View() == Apply(old(View()), Settle(w))
    {
      if charge.payment.Some? {
        var (value, at) := charge.payment.value;
        Credit(BankCents(value), at);
      }
      Release(w);
    }

    method Conciliate(w: nat, account: Account, charges: seq<Charge>)
      requires Live(View(), w) && workers[w].phase == Loaded(row, waiting) && row.status != Created
      modifies this
      ensures View() == Apply(Apply(old(View()), Reconcile(w, account, charges)), Settle(w))
    {
      var charge := Identify(w, account, charges);
      if charge.Some? {
        Book(w, charge.value);
      }
    }

    // `settings` is the account in force, if the company is configured and the
    // bank accepts it; `reply` and `charges` are what the bank answers.
    method ProcessOrder(w: nat, settings: Option<Account>, reply: Option<Charge>, charges: seq<Charge>)
      returns (ghost steps: seq<Step>)
      requires w !in workers
      modifies this
      ensures View() == Exec(old(View()), steps)
    {
      steps := [];
      if lock.Some? { return; }
      var read := Begin(w);
      steps := Note(old(View()), Note(old(View()), steps, Acquire(w)), Load(w));
      if read.None? { return; }
      if settings.None? || (read.value.status == Created && !MayIntend(read.value, waiting, now)) {
        Release(w);
        steps := Note(old(View()), steps, Leave(w));
      } else if read.value.status == Created {
        Charge(w, settings.value, reply);
        steps := Note(old(View()), steps, CommitIntent(w, settings.value, true));
        steps := Note(old(View()), Note(old(View()), steps, Post(w, reply)), SaveCharge(w));
      } else {
        Conciliate(w, settings.value, charges);
        steps := Note(old(View()), Note(old(View()), steps, Reconcile(w, settings.value, charges)), Settle(w));
      }
    }
  }

  // Appends a step to a trace.
  ghost function Note(start: State, steps: seq<Step>, step: Step): (longer: seq<Step>)
    ensures longer == steps + [step] && Exec(start, longer) == Apply(Exec(start, steps), step)
  {
    assert (steps + [step])[..|steps|] == steps;
    steps + [step]
  }
}
