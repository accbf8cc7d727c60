/** Outgoing iFood commands: a table of intents, workers that may crash, stall
    or lose the answer, and the events that settle a command from outside. */
module IfoodCommands {
  import opened Wrappers
  import opened IfoodStatus

  datatype Operation = Confirm | Prepare | Dispatch | Cancel
  datatype Key = Key(order: nat, operation: Operation)

  datatype CommandStatus = Requested | Sending | RequestSent | Confirmed | Error | Uncertain
  datatype Command = Command(
    status: CommandStatus, attempts: nat, nextAttemptAt: int, updatedAt: int,
    reason: Option<nat>)   // of a cancellation

  // What the command service reads of an external order and its connection.
  datatype Order = Order(status: Status, ownDelivery: bool, enabled: bool, prepareFrom: Option<int>)

  // `NoAnswer` covers timeouts, network failures and every non-HTTP error.
  datatype Answer = Accepted | Http(code: nat, retryAfter: nat) | NoAnswer

  // A call of the provider client, which posts a second time with a new token
  // if the first request was answered 401; `answer` is that of the last request.
  datatype Post = Post(renewed: bool, answer: Answer)

  // A worker between its reservation and its final update. It keeps the
  // attempts counter it read, which is the one from before the reservation.
  datatype Flight = Flight(key: Key, attemptsRead: nat, answer: Option<Answer>)

  datatype State = State(
    now: int,
    orders: map<nat, Order>,
    rows: map<Key, Command>,
    flights: map<nat, Flight>,
    calls: map<Key, seq<Post>>) // every provider call ever made for a key, in order

  datatype Step =
    | Tick(seconds: nat)
    | OrderChanges(id: nat, view: Order)
    | RequestAction(key: Key, reason: Option<nat>, offered: set<nat>)  // the platform offers reasons to cancel
    | QueueDispatch(order: nat)          // its delivery has left
    | Sweep
    | Claim(worker: nat, key: Key)
    | Call(worker: nat, sent: Post)
    | Record(worker: nat, stored: bool)  // stored: the success update reached the database
    | Crash(worker: nat)
    | EventConfirms(key: Key)
    | EventRejectsCancellation(order: nat)

  const STALE_AFTER: int := 120
  const MAX_ATTEMPTS: nat := 5
  const MIN_RETRY_DELAY: nat := 30

  predicate Closed(status: Status) {
    status == CANCELLED || status == CONCLUDED
  }

  predicate MayRequest(s: State, key: Key, reason: Option<nat>, offered: set<nat>) {
    && key.order in s.orders && key.operation != Dispatch
    && var o := s.orders[key.order];
    && o.enabled && o.ownDelivery && !Closed(o.status)
    && (key.operation == Cancel ==> reason.Some? && reason.value in offered)
    && (key.operation == Confirm ==> o.status == PLACED)
    && (key.operation == Prepare ==>
          && (o.status == IfoodStatus.CONFIRMED || o.status == PREPARATION_STARTED)
          && (o.prepareFrom.Some? ==> o.prepareFrom.value <= s.now))
  }

  predicate MayDispatch(s: State, order: nat) {
    order in s.orders && s.orders[order].ownDelivery && !Closed(s.orders[order].status)
  }

  predicate Claimable(s: State, key: Key) {
    && key in s.rows && key.order in s.orders
    && var o := s.orders[key.order];
    && s.rows[key].status == Requested
    && s.rows[key].nextAttemptAt <= s.now
    && s.rows[key].attempts < MAX_ATTEMPTS
    && o.enabled && o.ownDelivery && !Closed(o.status)
  }

  predicate Stale(c: Command, now: int) {
    c.status == Sending && c.updatedAt < now - STALE_AFTER
  }

  predicate KnownRejection(a: Answer) {
    a.Http? && a.code in {400, 401, 403, 404, 409, 422, 429}
  }

  predicate Throttled(a: Answer) {
    a.Http? && a.code == 429
  }

  // The status a failed call leaves behind.
  function FailureStatus(f: Flight): CommandStatus {
    match f.answer
    case None => Uncertain
    case Some(a) =>
      if Throttled(a) && f.attemptsRead < MAX_ATTEMPTS - 1 then Requested
      else if KnownRejection(a) then Error
      else Uncertain
  }

  function RetryDelay(f: Flight): nat {
    if f.answer.Some? && f.answer.value.Http? && f.answer.value.retryAfter > MIN_RETRY_DELAY
    then f.answer.value.retryAfter else MIN_RETRY_DELAY
  }

  // The guarded final update: it touches the row only while it is still Sending.
  function Recorded(c: Command, f: Flight, stored: bool, now: int): Command {
    if c.status != Sending then c
    else if f.answer == Some(Accepted) && stored then c.(status := RequestSent, updatedAt := now)
    else c.(status := FailureStatus(f), nextAttemptAt := now + RetryDelay(f), updatedAt := now)
  }

  function CallsFor(s: State, key: Key): seq<Post> {
    if key in s.calls then s.calls[key] else []
  }

  function NewCommand(now: int, reason: Option<nat>): Command { Command(Requested, 0, now, now, reason) }

  function Apply(s: State, step: Step): State {
    match step
    case Tick(seconds) => s.(now := s.now + seconds)
    case OrderChanges(id, view) => s.(orders := s.orders[id := view])
    case RequestAction(key, reason, offered) =>
      if MayRequest(s, key, reason, offered) && key !in s.rows
      then s.(rows := s.rows[key := NewCommand(s.now, if key.operation == Cancel then reason else None)]) else s
    case QueueDispatch(order) =>
      if MayDispatch(s, order) && Key(order, Dispatch) !in s.rows
      then s.(rows := s.rows[Key(order, Dispatch) := NewCommand(s.now, None)]) else s
    case Sweep =>
      s.(rows := map k | k in s.rows ::
           if Stale(s.rows[k], s.now) then s.rows[k].(status := Uncertain) else s.rows[k])
    case Claim(w, key) =>
      if w !in s.flights && Claimable(s, key)
      then s.(rows := s.rows[key := s.rows[key].(status := Sending, attempts := s.rows[key].attempts + 1,
          updatedAt := s.now)],
              flights := s.flights[w := Flight(key, s.rows[key].attempts, None)])
      else s
    case Call(w, sent) =>
      if w in s.flights && s.flights[w].answer.None?
      then s.(flights := s.flights[w := s.flights[w].(answer := Some(sent.answer))],
              calls := s.calls[s.flights[w].key := CallsFor(s, s.flights[w].key) + [sent]])
      else s
    case Record(w, stored) =>
      if w in s.flights && s.flights[w].key in s.rows
      then var f := s.flights[w];
           s.(rows := s.rows[f.key := Recorded(s.rows[f.key], f, stored, s.now)], flights := s.flights - {w})
      else s
    case Crash(w) => s.(flights := s.flights - {w})
    case EventConfirms(key) =>
      if key in s.rows then s.(rows := s.rows[key := s.rows[key].(status := Confirmed, updatedAt := s.now)]) else s
    case EventRejectsCancellation(order) =>
      var key := Key(order, Cancel);
      if key in s.rows && s.rows[key].status != Confirmed
      then s.(rows := s.rows[key := s.rows[key].(status := Error, updatedAt := s.now)]) else s
  }

  function Initial(): State { State(0, map[], map[], map[], map[]) }

  function Exec(s: State, steps: seq<Step>): State {
    if steps == [] then s else Apply(Exec(s, steps[..|steps| - 1]), steps[|steps| - 1])
  }

  /// The invariant

  ghost predicate AllThrottled(sent: seq<Post>) {
    forall i | 0 <= i < |sent| :: Throttled(sent[i].answer)
  }

  ghost predicate ThrottledBeforeLast(sent: seq<Post>) {
    forall i | 0 <= i < |sent| - 1 :: Throttled(sent[i].answer)
  }

  ghost predicate RowInv(c: Command, sent: seq<Post>) {
    && |sent| <= c.attempts <= MAX_ATTEMPTS
    && ThrottledBeforeLast(sent)
    && (c.status == Requested ==> AllThrottled(sent))
  }

  ghost predicate FlightInv(f: Flight, c: Command, sent: seq<Post>) {
    && c.status != Requested
    && c.attempts == f.attemptsRead + 1
    && match f.answer
       case None => |sent| < c.attempts && AllThrottled(sent)
       case Some(a) => sent != [] && sent[|sent| - 1].answer == a
  }

  ghost predicate RowsInv(s: State) {
    && s.calls.Keys <= s.rows.Keys
    && forall k | k in s.rows :: RowInv(s.rows[k], CallsFor(s, k))
  }

  ghost predicate FlightsInv(s: State) {
    && s.calls.Keys <= s.rows.Keys
    && forall w | w in s.flights ::
         && s.flights[w].key in s.rows
         && FlightInv(s.flights[w], s.rows[s.flights[w].key], CallsFor(s, s.flights[w].key))
  }

  // No two workers ever hold the same command.
  ghost predicate Exclusive(s: State) {
    forall v, w | v in s.flights && w in s.flights && s.flights[v].key == s.flights[w].key :: v == w
  }

  ghost predicate Inv(s: State) {
    RowsInv(s) && FlightsInv(s) && Exclusive(s)
  }

  lemma CallKeepsInv(s: State, w: nat, sent: Post)
    requires Inv(s)
    ensures Inv(Apply(s, Call(w, sent)))
  {
    if w in s.flights && s.flights[w].answer.None? {
      var key := s.flights[w].key;
      var s' := Apply(s, Call(w, sent));
      assert FlightInv(s.flights[w], s.rows[key], CallsFor(s, key));
      assert CallsFor(s', key) == CallsFor(s, key) + [sent];
      assert forall k | k != key :: CallsFor(s', k) == CallsFor(s, k);
      assert RowInv(s'.rows[key], CallsFor(s', key));
      assert Exclusive(s');
      forall v | v in s'.flights
        ensures FlightInv(s'.flights[v], s'.rows[s'.flights[v].key], CallsFor(s', s'.flights[v].key))
      {
        if v != w {
          assert s.flights[v].key != key;
        }
      }
    }
  }

  lemma RecordKeepsInv(s: State, w: nat, stored: bool)
    requires Inv(s)
    ensures Inv(Apply(s, Record(w, stored)))
  {}

  lemma ClaimKeepsInv(s: State, w: nat, key: Key)
    requires Inv(s)
    ensures Inv(Apply(s, Claim(w, key)))
  {}

  lemma SweepKeepsInv(s: State)
    requires Inv(s)
    ensures Inv(Apply(s, Sweep))
  {}

  lemma RequestKeepsInv(s: State, step: Step)
    requires Inv(s) && (step.RequestAction? || step.QueueDispatch?)
    ensures Inv(Apply(s, step))
  {
    var s' := Apply(s, step);
    assert forall k :: CallsFor(s', k) == CallsFor(s, k);
  }

  lemma EventKeepsInv(s: State, step: Step)
    requires Inv(s) && (step.EventConfirms? || step.EventRejectsCancellation?)
    ensures Inv(Apply(s, step))
  {
    var key := if step.EventConfirms? then step.key else Key(step.order, Cancel);
    if key in s.rows {
      ClosingKeepsInv(s, key, Confirmed);
      ClosingKeepsInv(s, key, Error);
    }
  }

  lemma ClosingKeepsInv(s: State, key: Key, status: CommandStatus)
    requires Inv(s) && key in s.rows && status != Requested
    ensures Inv(s.(rows := s.rows[key := s.rows[key].(status := status, updatedAt := s.now)]))
  {
    var s' := s.(rows := s.rows[key := s.rows[key].(status := status, updatedAt := s.now)]);
    assert RowInv(s.rows[key], CallsFor(s, key));
    assert forall k :: CallsFor(s', k) == CallsFor(s, k);
    assert Exclusive(s');
    forall w | w in s'.flights
      ensures FlightInv(s'.flights[w], s'.rows[s'.flights[w].key], CallsFor(s', s'.flights[w].key))
    {
      assert FlightInv(s.flights[w], s.rows[s.flights[w].key], CallsFor(s, s.flights[w].key));
    }
  }

  lemma ApplyKeepsInv(s: State, step: Step)
    requires Inv(s)
    ensures Inv(Apply(s, step))
  {
    match step
    case Tick(_) =>
    case OrderChanges(_, _) =>
    case RequestAction(_, _, _) => RequestKeepsInv(s, step);
    case QueueDispatch(_) => RequestKeepsInv(s, step);
    case Sweep => SweepKeepsInv(s);
    case Claim(w, key) => ClaimKeepsInv(s, w, key);
    case Call(w, sent) => CallKeepsInv(s, w, sent);
    case Record(w, stored) => RecordKeepsInv(s, w, stored);
    case Crash(_) =>
    case EventConfirms(_) => EventKeepsInv(s, step);
    case EventRejectsCancellation(_) => EventKeepsInv(s, step);
  }

  lemma {:induction false} RunKeepsInv(steps: seq<Step>)
    ensures Inv(Exec(Initial(), steps))
  {
    if steps != [] {
      RunKeepsInv(steps[..|steps| - 1]);
      ApplyKeepsInv(Exec(Initial(), steps[..|steps| - 1]), steps[|steps| - 1]);
    }
  }

  lemma ExecStep(s: State, steps: seq<Step>, step: Step)
    ensures Exec(s, steps + [step]) == Apply(Exec(s, steps), step)
  {
    assert (steps + [step])[..|steps|] == steps;
  }

  lemma {:induction false} ExecConcat(s: State, first: seq<Step>, second: seq<Step>)
    ensures Exec(s, first + second) == Exec(Exec(s, first), second)
  {
    if second == [] {
      assert first + second == first;
    } else {
      var last := |second| - 1;
      ExecConcat(s, first, second[..last]);
      ExecStep(s, first + second[..last], second[last]);
      assert first + second == first + second[..last] + [second[last]];
    }
  }

  function Turn(w: nat, key: Key, sent: Post, stored: bool): seq<Step> {
    [Claim(w, key), Call(w, sent), Record(w, stored)]
  }

  lemma ExecTurn(s: State, w: nat, key: Key, sent: Post, stored: bool)
    ensures Exec(s, Turn(w, key, sent, stored))
        == Apply(Apply(Apply(s, Claim(w, key)), Call(w, sent)), Record(w, stored))
  {
    var steps := Turn(w, key, sent, stored);
    assert steps[..2][..1][..0] == [];
    assert Exec(s, steps[..2][..1]) == Apply(s, Claim(w, key));
  }

  lemma ExecExpiry(s: State, w: nat, wait: nat)
    ensures Exec(s, [Crash(w), Tick(wait), Sweep]) == Apply(Apply(Apply(s, Crash(w)), Tick(wait)), Sweep)
  {
    var steps := [Crash(w), Tick(wait), Sweep];
    assert steps[..2][..1][..0] == [];
    assert Exec(s, steps[..2][..1]) == Apply(s, Crash(w));
  }

  /// Main results

  // Over every interleaving, the provider is called again only when every earlier
  // call was answered 429, and at most five times.
  lemma CalledAgainOnlyWhenThrottled(steps: seq<Step>, key: Key)
    ensures var calls := CallsFor(Exec(Initial(), steps), key);
            |calls| <= MAX_ATTEMPTS && ThrottledBeforeLast(calls)
  {
    RunKeepsInv(steps);
    var s := Exec(Initial(), steps);
    if key in s.rows {
      assert RowInv(s.rows[key], CallsFor(s, key));
    }
  }

  // The requests these calls sent, by what each was answered.
  function Requests(calls: seq<Post>): seq<Answer> {
    if calls == [] then []
    else
      var n := |calls| - 1;
      Requests(calls[..n]) + (if calls[n].renewed then [Http(401, 0), calls[n].answer] else [calls[n].answer])
  }

  predicate Refused(a: Answer) { a.Http? && (a.code == 401 || a.code == 429) }

  lemma {:induction false} RequestsAreRefused(calls: seq<Post>)
    requires AllThrottled(calls)
    ensures |Requests(calls)| <= 2 * |calls| && forall i | 0 <= i < |Requests(calls)| :: Refused(Requests(calls)[i])
  {
    if calls != [] {
      var n := |calls| - 1;
      RequestsAreRefused(calls[..n]);
      assert Throttled(calls[n].answer);
    }
  }

  // So over every interleaving a command is posted again only if every earlier
  // request was refused with 429, or with 401 for its token, and at most ten times.
  lemma ResentOnlyWhenRefused(steps: seq<Step>, key: Key)
    ensures var requests := Requests(CallsFor(Exec(Initial(), steps), key));
            && |requests| <= 2 * MAX_ATTEMPTS
            && forall i | 0 <= i < |requests| - 1 :: Refused(requests[i])
  {
    CalledAgainOnlyWhenThrottled(steps, key);
    var calls := CallsFor(Exec(Initial(), steps), key);
    if calls != [] {
      RequestsAreRefused(calls[..|calls| - 1]);
    }
  }

  // At most one request for an order and operation has an accepted or unknown outcome.
  lemma AtMostOneEffectiveRequest(steps: seq<Step>, key: Key, i: nat, j: nat)
    requires var requests := Requests(CallsFor(Exec(Initial(), steps), key));
             i < |requests| && j < |requests| && !Refused(requests[i]) && !Refused(requests[j])
    ensures i == j
  {
    ResentOnlyWhenRefused(steps, key);
  }

  predicate Settled(s: State, key: Key) {
    key in s.rows && s.rows[key].status in {RequestSent, Confirmed, Error, Uncertain}
  }

  ghost predicate InFlight(s: State, key: Key) {
    exists w :: w in s.flights && s.flights[w].key == key
  }

  // RequestSent, Error, Uncertain and Confirmed never lead back to Requested; a
  // settled command that no worker still holds is never sent again.
  lemma {:induction false} SettledForGood(s: State, key: Key, more: seq<Step>)
    requires Settled(s, key)
    ensures Settled(Exec(s, more), key)
    ensures !InFlight(s, key) ==>
              !InFlight(Exec(s, more), key) && CallsFor(Exec(s, more), key) == CallsFor(s, key)
  {
    if more != [] {
      SettledForGood(s, key, more[..|more| - 1]);
      SettledStep(Exec(s, more[..|more| - 1]), key, more[|more| - 1]);
      if !InFlight(s, key) {
        UnheldStep(Exec(s, more[..|more| - 1]), key, more[|more| - 1]);
      }
    }
  }

  lemma SettledStep(s: State, key: Key, step: Step)
    requires Settled(s, key)
    ensures Settled(Apply(s, step), key)
  {}

  lemma UnheldStep(s: State, key: Key, step: Step)
    requires Settled(s, key) && !InFlight(s, key)
    ensures !InFlight(Apply(s, step), key) && CallsFor(Apply(s, step), key) == CallsFor(s, key)
  {
    var s' := Apply(s, step);
    forall w | w in s'.flights ensures s'.flights[w].key != key {
      assert w in s.flights ==> s.flights[w].key != key;
    }
  }

  // Confirmation by the platform is final whatever a slow worker still writes.
  lemma {:induction false} ConfirmationIsFinal(s: State, key: Key, more: seq<Step>)
    requires key in s.rows && s.rows[key].status == Confirmed
    ensures key in Exec(s, more).rows && Exec(s, more).rows[key].status == Confirmed
  {
    if more != [] {
      ConfirmationIsFinal(s, key, more[..|more| - 1]);
      ConfirmedStep(Exec(s, more[..|more| - 1]), key, more[|more| - 1]);
    }
  }

  lemma ConfirmedStep(s: State, key: Key, step: Step)
    requires key in s.rows && s.rows[key].status == Confirmed
    ensures key in Apply(s, step).rows && Apply(s, step).rows[key].status == Confirmed
  {}

  /// When each step takes effect

  predicate Ended(o: Order) { o.status == CANCELLED || o.status == CONCLUDED }

  // A command is created exactly for an own delivery of an enabled connection that
  // is not over: a confirmation while the order is placed, a preparation once it is
  // confirmed and its time has come, a cancellation with a reason on offer.
  lemma RequestedExactlyWhen(s: State, key: Key, reason: Option<nat>, offered: set<nat>)
    ensures Apply(s, RequestAction(key, reason, offered))
         == if && key !in s.rows && key.order in s.orders
               && s.orders[key.order].enabled && s.orders[key.order].ownDelivery && !Ended(s.orders[key.order])
               && match key.operation
                  case Confirm => s.orders[key.order].status == PLACED
                  case Prepare =>
                    && s.orders[key.order].status in {IfoodStatus.CONFIRMED, PREPARATION_STARTED}
                    && (s.orders[key.order].prepareFrom.None? || s.orders[key.order].prepareFrom.value <= s.now)
                  case Cancel => reason.Some? && reason.value in offered
                  case Dispatch => false
            then s.(rows := s.rows[key := Command(Requested, 0, s.now, s.now,
                                                  if key.operation == Cancel then reason else None)])
            else s
  {}

  // A delivery that leaves queues the dispatch of its order, whether or not the
  // connection is enabled.
  lemma DispatchQueuedExactlyWhen(s: State, order: nat)
    ensures Apply(s, QueueDispatch(order))
         == if && Key(order, Dispatch) !in s.rows && order in s.orders
               && s.orders[order].ownDelivery && !Ended(s.orders[order])
            then s.(rows := s.rows[Key(order, Dispatch) := Command(Requested, 0, s.now, s.now, None)]) else s
  {}

  // A command is reserved exactly when it was requested, its time has come, it had
  // fewer than five calls and its order may still be operated.
  lemma ReservedExactlyWhen(s: State, w: nat, key: Key)
    requires w !in s.flights
    ensures Apply(s, Claim(w, key))
         == if && key in s.rows && key.order in s.orders
               && s.rows[key].status == Requested && s.rows[key].nextAttemptAt <= s.now && s.rows[key].attempts < 5
               && s.orders[key.order].enabled && s.orders[key.order].ownDelivery && !Ended(s.orders[key.order])
            then s.(rows := s.rows[key := s.rows[key].(status := Sending, attempts := s.rows[key].attempts + 1,
                                                       updatedAt := s.now)],
                    flights := s.flights[w := Flight(key, s.rows[key].attempts, None)])
            else s
  {}

  // The sweep gives up exactly the reservations older than two minutes.
  lemma SweptExactlyWhenOld(s: State, key: Key)
    requires key in s.rows
    ensures key in Apply(s, Sweep).rows
    ensures Apply(s, Sweep).rows[key]
         == if s.rows[key].status == Sending && s.now - s.rows[key].updatedAt > 120
            then s.rows[key].(status := Uncertain) else s.rows[key]
  {}

  /// What a status says about the calls

  predicate RefusedWith(a: Answer, codes: set<nat>) { a.Http? && a.code in codes }

  // What recording an answer leaves of a command that is still being sent: only a
  // stored success is a success, the listed codes are refusals, a 429 is tried
  // again after at least thirty seconds up to the fifth call, and the rest is unknown.
  lemma RecordLeaves(s: State, w: nat, stored: bool)
    requires w in s.flights && s.flights[w].key in s.rows && s.rows[s.flights[w].key].status == Sending
    ensures var f, after := s.flights[w], Apply(s, Record(w, stored)).rows[s.flights[w].key];
            && after == s.rows[f.key].(status := after.status, updatedAt := s.now, nextAttemptAt := after.nextAttemptAt)
            && (after.status == RequestSent <==> f.answer == Some(Accepted) && stored)
            && (after.status == Requested <==>
                  f.answer.Some? && RefusedWith(f.answer.value, {429}) && f.attemptsRead < 4)
            && (after.status == Error <==>
                  f.answer.Some?
                  && (RefusedWith(f.answer.value, {400, 401, 403, 404, 409, 422})
                      || (RefusedWith(f.answer.value, {429}) && f.attemptsRead >= 4)))
            && (after.status == Uncertain <==>
                  || f.answer.None? || f.answer == Some(NoAnswer) || (f.answer == Some(Accepted) && !stored)
                  || (f.answer.value.Http? && !RefusedWith(f.answer.value, {400, 401, 403, 404, 409, 422, 429})))
            && (after.status == Requested ==>
                  && var delay := f.answer.value.retryAfter;
                  after.nextAttemptAt == s.now + (if delay > 30 then delay else 30))
  {}

  // An event confirms the command it answers, whatever its status, or rejects a
  // cancellation that is not yet confirmed.
  lemma EventsDecide(s: State, key: Key)
    ensures Apply(s, EventConfirms(key))
         == if key in s.rows
            then s.(rows := s.rows[key := s.rows[key].(status := Confirmed, updatedAt := s.now)]) else s
    ensures var cancellation := Key(key.order, Cancel);
            Apply(s, EventRejectsCancellation(key.order))
            == if cancellation in s.rows && s.rows[cancellation].status != Confirmed
               then s.(rows := s.rows[cancellation := s.rows[cancellation].(status := Error, updatedAt := s.now)])
               else s
  {}

  predicate LastAnswer(sent: seq<Post>, a: Answer) { sent != [] && sent[|sent| - 1].answer == a }

  // The platform rejected the cancellation at some step of the run.
  predicate RejectedIn(steps: seq<Step>, key: Key) {
    key.operation == Cancel && EventRejectsCancellation(key.order) in steps
  }

  ghost predicate SuccessInv(s: State, key: Key) {
    key in s.rows && s.rows[key].status == RequestSent ==> !InFlight(s, key) && LastAnswer(CallsFor(s, key), Accepted)
  }

  ghost predicate LastRefused(s: State, key: Key) {
    && !InFlight(s, key) && CallsFor(s, key) != []
    && RefusedWith(CallsFor(s, key)[|CallsFor(s, key)| - 1].answer, {400, 401, 403, 404, 409, 422, 429})
  }

  ghost predicate RefusalInv(s: State, key: Key, rejected: bool) {
    key in s.rows && s.rows[key].status == Error && !rejected ==> LastRefused(s, key)
  }

  lemma UnheldAfterRecord(s: State, w: nat, stored: bool)
    requires Inv(s) && w in s.flights
    ensures !InFlight(Apply(s, Record(w, stored)), s.flights[w].key)
  {}

  lemma OutcomeAfterRecord(s: State, w: nat, stored: bool, rejected: bool)
    requires Inv(s) && w in s.flights
    requires SuccessInv(s, s.flights[w].key) && RefusalInv(s, s.flights[w].key, rejected)
    ensures var s' := Apply(s, Record(w, stored));
            SuccessInv(s', s.flights[w].key) && RefusalInv(s', s.flights[w].key, rejected)
  {
    var f := s.flights[w];
    UnheldAfterRecord(s, w, stored);
    assert FlightInv(f, s.rows[f.key], CallsFor(s, f.key));
    if s.rows[f.key].status == Sending {
      RecordLeaves(s, w, stored);
    }
  }

  predicate Records(s: State, step: Step, key: Key) {
    step.Record? && step.worker in s.flights && s.flights[step.worker].key == key
  }

  lemma OutcomeWithoutRecord(s: State, step: Step, key: Key)
    requires key in Apply(s, step).rows && Apply(s, step).rows[key].status in {RequestSent, Error}
    requires !Records(s, step, key)
    ensures || (key in s.rows && s.rows[key].status == Apply(s, step).rows[key].status)
            || (step == EventRejectsCancellation(key.order) && key.operation == Cancel
                && Apply(s, step).rows[key].status == Error)
  {}

  lemma OutcomeStep(s: State, step: Step, key: Key, rejected: bool)
    requires Inv(s) && SuccessInv(s, key) && RefusalInv(s, key, rejected)
    requires step == EventRejectsCancellation(key.order) && key.operation == Cancel ==> rejected
    ensures SuccessInv(Apply(s, step), key) && RefusalInv(Apply(s, step), key, rejected)
  {
    var s' := Apply(s, step);
    if Records(s, step, key) {
      OutcomeAfterRecord(s, step.worker, step.stored, rejected);
    } else if key in s'.rows && s'.rows[key].status in {RequestSent, Error} {
      OutcomeWithoutRecord(s, step, key);
      if Settled(s, key) && !InFlight(s, key) {
        UnheldStep(s, key, step);
      }
    }
  }

  // In every run a command is REQUEST_SENT only if its last call was accepted, and
  // ERROR only if its last call was refused or the platform rejected its cancellation.
  lemma {:induction false} StatusTellsTheOutcome(steps: seq<Step>, key: Key)
    ensures var s := Exec(Initial(), steps);
            key in s.rows ==>
              && (s.rows[key].status == RequestSent ==> LastAnswer(CallsFor(s, key), Accepted))
              && (s.rows[key].status == Error ==> RejectedIn(steps, key) || LastRefused(s, key))
  {
    OutcomeOfRun(steps, key, RejectedIn(steps, key));
  }

  lemma {:induction false} OutcomeOfRun(steps: seq<Step>, key: Key, rejected: bool)
    requires RejectedIn(steps, key) ==> rejected
    ensures SuccessInv(Exec(Initial(), steps), key) && RefusalInv(Exec(Initial(), steps), key, rejected)
  {
    if steps != [] {
      var n := |steps| - 1;
      OutcomeOfRun(steps[..n], key, rejected);
      RunKeepsInv(steps[..n]);
      OutcomeStep(Exec(Initial(), steps[..n]), steps[n], key, rejected);
    }
  }

  // A throttled command is not lost: once its delay has passed it can be claimed again.
  lemma ThrottledIsRetried(steps: seq<Step>, w: nat)
    requires var s := Exec(Initial(), steps);
             && w in s.flights && s.flights[w].answer.Some? && Throttled(s.flights[w].answer.value)
             && s.flights[w].key in s.rows && s.rows[s.flights[w].key].status == Sending
             && s.rows[s.flights[w].key].attempts < MAX_ATTEMPTS
             && s.flights[w].key.order in s.orders
             && var o := s.orders[s.flights[w].key.order];
             o.enabled && o.ownDelivery && !Closed(o.status)
    ensures var s := Exec(Initial(), steps);
            Claimable(Apply(Apply(s, Record(w, true)), Tick(RetryDelay(s.flights[w]))), s.flights[w].key)
  {
    RunKeepsInv(steps);
    var s := Exec(Initial(), steps);
    assert FlightInv(s.flights[w], s.rows[s.flights[w].key], CallsFor(s, s.flights[w].key));
  }

  // A reservation whose worker died becomes Uncertain at the first sweep more
  // than two minutes later, and whatever happens next it is not sent again.
  lemma CrashedReservationIsNeverResent(s: State, w: nat, wait: nat, more: seq<Step>)
    requires Inv(s) && w in s.flights && s.flights[w].key in s.rows
    requires s.rows[s.flights[w].key].status == Sending && s.rows[s.flights[w].key].updatedAt <= s.now
    requires wait > STALE_AFTER
    ensures var key := s.flights[w].key;
            var swept := Exec(s, [Crash(w), Tick(wait), Sweep]);
            && key in swept.rows && swept.rows[key].status == Uncertain
            && CallsFor(Exec(swept, more), key) == CallsFor(s, key)
  {
    var key := s.flights[w].key;
    var waited := Apply(Apply(s, Crash(w)), Tick(wait));
    var swept := Exec(s, [Crash(w), Tick(wait), Sweep]);
    ExecExpiry(s, w, wait);
    assert swept == Apply(waited, Sweep);
    assert !InFlight(swept, key);
    SettledForGood(swept, key, more);
  }

  /// The command table as the service updates it

  class CommandQueue {
    var now: int
    var orders: map<nat, Order>
    var rows: map<Key, Command>
    var created: seq<Key>  // keys in creation order
    ghost var flights: map<nat, Flight>
    ghost var calls: map<Key, seq<Post>>

    ghost function View(): State reads this { State(now, orders, rows, flights, calls) }

    ghost predicate Valid() reads this {
      forall k :: k in created <==> k in rows
    }

    constructor ()
      ensures Valid() && View() == Initial()
    {
      now, orders, rows, created := 0, map[], map[], [];
      flights, calls := map[], map[];
    }

    // The service offers every action but the dispatch of an order.
    method RequestAction(key: Key, reason: Option<nat>, offered: set<nat>) returns (current: Option<Command>)
      requires Valid() && key.operation != Dispatch
      modifies this
      ensures Valid() && View() == Apply(old(View()), Step.RequestAction(key, reason, offered))
      ensures current == if MayRequest(old(View()), key, reason, offered) then Some(rows[key]) else None
    {
      if key.operation == Cancel && (reason.None? || reason.value !in offered) { return None; }
      if key.order !in orders || !orders[key.order].enabled || !orders[key.order].ownDelivery { return None; }
      var order := orders[key.order];
      if Closed(order.status) { return None; }
      if key.operation == Confirm && order.status != PLACED { return None; }
      if key.operation == Prepare {
        if order.status != IfoodStatus.CONFIRMED && order.status != PREPARATION_STARTED { return None; }
        if order.prepareFrom.Some? && order.prepareFrom.value > now { return None; }
      }
      if key !in rows {
        rows := rows[key := Command(Requested, 0, now, now, if key.operation == Cancel then reason else None)];
        created := created + [key];
      }
      return Some(rows[key]);
    }

    // The trigger of a delivery that leaves, whether on its own or on a route.
    method QueueDispatch(order: nat)
      requires Valid()
      modifies this
      ensures Valid() && View() == Apply(old(View()), Step.QueueDispatch(order))
    {
      if order !in orders || !orders[order].ownDelivery || Closed(orders[order].status) { return; }
      var key := Key(order, Dispatch);
      if key !in rows {
        rows := rows[key := Command(Requested, 0, now, now, None)];
        created := created + [key];
      }
    }

    method SweepStale()
      requires Valid()
      modifies this
      ensures Valid() && created == old(created) && View() == Apply(old(View()), Sweep)
    {
      for i := 0 to |created|
        invariant created == old(created) && now == old(now) && orders == old(orders)
        invariant flights == old(flights) && calls == old(calls)
        invariant rows.Keys == old(rows).Keys
        invariant forall k | k in rows ::
          rows[k] == if k in created[..i] && Stale(old(rows)[k], now)
                     then old(rows)[k].(status := Uncertain) else old(rows)[k]
      {
        var key := created[i];
        if rows[key].status == Sending && rows[key].updatedAt < now - STALE_AFTER {
          rows := rows[key := rows[key].(status := Uncertain)];
        }
      }
    }

    // Reserves the oldest command that may be sent now.
    method ClaimNext(worker: nat) returns (claimed: Option<Key>)
      requires Valid() && worker !in flights
      modifies this
      ensures Valid() && created == old(created)
      ensures claimed.None? ==> View() == old(View()) && forall k :: !Claimable(old(View()), k)
      ensures claimed.Some? ==>
                && Claimable(old(View()), claimed.value)
                && View() == Apply(old(View()), Claim(worker, claimed.value))
                && exists i | 0 <= i < |created| && created[i] == claimed.value ::
                     forall j | 0 <= j < i :: !Claimable(old(View()), created[j])
    {
      for i := 0 to |created|
        invariant View() == old(View()) && created == old(created)
        invariant forall j | 0 <= j < i :: !Claimable(View(), created[j])
      {
        var key := created[i];
        var row := rows[key];
        if row.status == Requested && row.nextAttemptAt <= now && row.attempts < MAX_ATTEMPTS && key.order in orders {
          var order := orders[key.order];
          if order.enabled && order.ownDelivery && !Closed(order.status) {
            flights := flights[worker := Flight(key, row.attempts, None)];
            rows := rows[key := row.(status := Sending, attempts := row.attempts + 1, updatedAt := now)];
            return Some(key);
          }
        }
      }
      return None;
    }

    // The update after a provider call, guarded by the Sending status.
    method RecordOutcome(worker: nat, key: Key, attemptsRead: nat, answer: Answer, stored: bool)
      requires Valid() && worker in flights && flights[worker] == Flight(key, attemptsRead, Some(answer)) && key in rows
      modifies this
      ensures Valid() && created == old(created) && View() == Apply(old(View()), Record(worker, stored))
    {
      var row := rows[key];
      if row.status == Sending {
        if answer == Accepted && stored {
          row := row.(status := RequestSent, updatedAt := now);
        } else {
          var retryAfter := if answer.Http? then answer.retryAfter else 0;
          var delay := if retryAfter > MIN_RETRY_DELAY then retryAfter else MIN_RETRY_DELAY;
          var retry := answer.Http? && answer.code == 429 && attemptsRead < 4;
          var known := answer.Http? && answer.code in {400, 401, 403, 404, 409, 422, 429};
          row := row.(status := if retry then Requested else if known then Error else Uncertain,
          nextAttemptAt := now + delay, updatedAt := now);
        }
      }
      rows := rows[key := row];
      flights := flights - {worker};
    }

    // The call and its answer, which only this worker has seen so far.
    method CallProvider(worker: nat, key: Key, call: Post)
      requires Valid() && worker in flights && flights[worker].key == key && flights[worker].answer.None?
      modifies `flights, `calls
      ensures Valid() && View() == Apply(old(View()), Call(worker, call))
    {
      flights := flights[worker := flights[worker].(answer := Some(call.answer))];
      calls := calls[key := (if key in calls then calls[key] else []) + [call]];
    }

    // Reserve, call, record: one turn of the worker's loop.
    method SendNext(worker: nat, call: Post, stored: bool) returns (sent: Option<Key>)
      requires Valid() && worker !in flights
      modifies this
      ensures Valid() && worker !in flights && now == old(now)
      ensures sent.None? ==> View() == old(View()) && forall k :: !Claimable(old(View()), k)
      ensures sent.Some? ==>
                && Claimable(old(View()), sent.value)
                && View() == Exec(old(View()), Turn(worker, sent.value, call, stored))
    {
      var claimed := ClaimNext(worker);
      if claimed.None? { return None; }
      var key := claimed.value;
      var attemptsRead := rows[key].attempts - 1;
      CallProvider(worker, key, call);
      RecordOutcome(worker, key, attemptsRead, call.answer, stored);
      ExecTurn(old(View()), worker, key, call, stored);
      return Some(key);
    }

    // One pass of the command worker. Whatever the provider answers, the pass is
    // a run of the protocol, so every result about runs applies to it.
    method ProcessCommands(worker: nat, answers: seq<Post>, stored: seq<bool>) returns (ghost steps: seq<Step>)
      requires Valid() && worker !in flights && |answers| == |stored| == 25
      modifies this
      ensures Valid() && View() == Exec(old(View()), steps)
      ensures |steps| == 1 + 3 * 25 || forall k :: !Claimable(View(), k)
    {
      SweepStale();
      steps := [] + [Sweep];
      ExecStep(old(View()), [], Sweep);
      for n := 0 to 25
        invariant Valid() && worker !in flights && |steps| == 1 + 3 * n
        invariant View() == Exec(old(View()), steps)
      {
        var sent := SendNext(worker, answers[n], stored[n]);
        if sent.None? { return; }
        ExecConcat(old(View()), steps, Turn(worker, sent.value, answers[n], stored[n]));
        steps := steps + Turn(worker, sent.value, answers[n], stored[n]);
      }
    }
  }
}
