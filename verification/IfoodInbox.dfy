/** The inbox of iFood events, the orders they build and the deliveries linked
    to those orders. Workers may be several, late, or die between any two steps. */
module IfoodInbox {
  import opened Wrappers
  import opened IfoodStatus

  datatype EventState = Received | Processed | Ignored | Failed
  datatype InboxEvent = InboxEvent(
    merchant: nat,
    order: nat,
    status: Option<Status>,       // what the codes mean, if they are used at all
    rejection: bool,              // the platform refused a cancellation
    at: int,
    attached: bool,               // the merchant's connection was known
    state: EventState,
    attempts: nat)

  datatype Incoming = Incoming(id: nat, merchant: nat, order: nat, status: Option<Status>, rejection: bool, at: int)
  // A merchant has at most one connection, which is never moved to another merchant.
  datatype Connection = Connection(enabled: bool, autoImport: bool, autoCreate: bool)
  datatype OrderKey = OrderKey(merchant: nat, order: nat)
  datatype Order = Order(status: Status, statusAt: int, ownDelivery: bool, delivery: Option<nat>)

  datatype DeliveryStatus =
    | Draft | AwaitingCourier | Assigned | AwaitingPickup | Collected | InRoute | NextStop
    | Delivered | Aborted | DeliveryFailed | ReturnStarted | Returned
  datatype Delivery = Delivery(order: Option<OrderKey>, status: DeliveryStatus)

  // The order details as the provider returns them; `valid` is whether they can
  // be normalised and belong to the event's order and merchant.
  datatype Details = Details(ownDelivery: bool, valid: bool)

  datatype State = State(
    connections: map<nat, Connection>,
    events: map<nat, InboxEvent>,
    orders: map<OrderKey, Order>,
    deliveries: map<nat, Delivery>,
    selected: map<nat, (nat, InboxEvent)>,  // by worker: the event it took and the row it read
    returned: set<nat>,                     // ids whose ingestion was reported back after its commit
    acknowledged: set<nat>,                 // ids acknowledged to the platform
    effects: map<nat, nat>,                 // by event: committed effects
    history: map<OrderKey, seq<Event>>)     // by order: the status events whose effects committed

  datatype Step =
    | SetConnection(merchant: nat, settings: Connection)
    | Ingest(batch: seq<Incoming>)
    | Acknowledge(ids: set<nat>)
    | Reattach
    | Select(w: nat, id: nat)
    | Process(w: nat, details: Details, access: bool, newDelivery: nat)
    | Fail(w: nat)
    | Crash(w: nat)
    | Reprocess(id: nat)
    | CreateManually(key: OrderKey, newDelivery: nat)
    | Release(key: OrderKey)
    | MoveDelivery(delivery: nat, to: DeliveryStatus)

  const MAX_ATTEMPTS: nat := 5

  /// Deliveries

  // Final, failed or on its way back: no courier is or will be carrying it to the customer.
  predicate Over(d: DeliveryStatus) {
    d in {Delivered, Aborted, DeliveryFailed, ReturnStarted, Returned}
  }

  predicate AllowedMove(from: DeliveryStatus, to: DeliveryStatus) {
    match from
    case Draft => to in {AwaitingCourier, Aborted}
    case AwaitingCourier => to in {Assigned, Aborted}
    case Assigned => to in {AwaitingPickup, AwaitingCourier, Aborted}
    case AwaitingPickup => to in {Collected, AwaitingCourier, DeliveryFailed, Aborted}
    case Collected => to in {InRoute, DeliveryFailed, Aborted}
    case InRoute => to in {NextStop, Delivered, DeliveryFailed, Aborted}
    case NextStop => to in {Delivered, DeliveryFailed, Aborted}
    case DeliveryFailed => to == ReturnStarted
    case ReturnStarted => to == Returned
    case _ => false
  }

  predicate LinkAllowed(status: Status) {
    status !in {CANCELLED, CONCLUDED, DISPATCHED}
  }

  /// Transactions

  function Inserted(
      events: map<nat, InboxEvent>, connections: map<nat, Connection>, e: Incoming): map<nat, InboxEvent> {
    if e.id in events then events
    else events[e.id := InboxEvent(e.merchant, e.order, e.status, e.rejection, e.at, e.merchant in connections,
        Received, 0)]
  }

  function InsertedAll(
      events: map<nat, InboxEvent>, connections: map<nat, Connection>, batch: seq<Incoming>): map<nat, InboxEvent> {
    if batch == [] then events
    else Inserted(InsertedAll(events, connections, batch[..|batch| - 1]), connections, batch[|batch| - 1])
  }

  function Reattached(e: InboxEvent, connections: map<nat, Connection>): InboxEvent {
    if !e.attached && e.merchant in connections && connections[e.merchant].enabled
    then e.(attached := true, state := Received, attempts := 0) else e
  }

  predicate Open(e: InboxEvent) {
    e.state == Received || e.state == Failed
  }

  predicate Selectable(s: State, id: nat) {
    && id in s.events
    && var e := s.events[id];
    && Open(e) && e.attempts < MAX_ATTEMPTS
    && (e.attached ==>
          && e.merchant in s.connections && s.connections[e.merchant].enabled
          && (s.connections[e.merchant].autoImport || OrderKey(e.merchant, e.order) in s.orders))
  }

  function EffectCount(s: State, id: nat): nat {
    if id in s.effects then s.effects[id] else 0
  }

  function History(s: State, key: OrderKey): seq<Event> {
    if key in s.history then s.history[key] else []
  }

  // The order after the event: inserted, advanced, or left as it is.
  function Observed(s: State, e: InboxEvent, details: Details): Order
    requires e.status.Some?
  {
    var key := OrderKey(e.merchant, e.order);
    if key !in s.orders then Order(e.status.value, e.at, details.ownDelivery, None)
    else
      var o := s.orders[key];
      var p := Observe(Known(o.status, o.statusAt), Event(e.status.value, e.at));
      o.(status := p.status, statusAt := p.at)
  }

  predicate Advanced(s: State, e: InboxEvent)
    requires e.status.Some?
  {
    var key := OrderKey(e.merchant, e.order);
    key in s.orders ==> e.at >= s.orders[key].statusAt && Advances(s.orders[key].status, e.status.value)
  }

  predicate Links(s: State, e: InboxEvent, details: Details)
    requires e.status.Some? && e.merchant in s.connections
  {
    var o := Observed(s, e, details);
    details.ownDelivery && o.ownDelivery && o.delivery.None? && s.connections[e.merchant].autoCreate
      && LinkAllowed(o.status)
  }

  function CancelledWith(deliveries: map<nat, Delivery>, o: Order): map<nat, Delivery> {
    if o.delivery.Some? && o.delivery.value in deliveries && !Over(deliveries[o.delivery.value].status)
    then deliveries[o.delivery.value := deliveries[o.delivery.value].(status := Aborted)] else deliveries
  }

  // The order once a delivery was created for it, when it gets one.
  function Linked(s: State, e: InboxEvent, details: Details, newDelivery: nat): Order
    requires e.status.Some? && e.merchant in s.connections
  {
    var seen := Observed(s, e, details);
    if Links(s, e, details) then seen.(delivery := Some(newDelivery)) else seen
  }

  function DeliveriesAfter(s: State, e: InboxEvent, details: Details, newDelivery: nat): map<nat, Delivery>
    requires e.status.Some? && e.merchant in s.connections
  {
    var order := Linked(s, e, details, newDelivery);
    var created := if Links(s, e, details)
                   then s.deliveries[newDelivery := Delivery(Some(OrderKey(e.merchant, e.order)), Draft)]
                       else s.deliveries;
    if Advanced(s, e) && order.ownDelivery && e.status.value == CANCELLED then CancelledWith(created, order)
        else created
  }

  // The effects of a used event, all in one transaction.
  function Import(s: State, id: nat, e: InboxEvent, details: Details, newDelivery: nat): State
    requires id in s.events && e.status.Some? && e.merchant in s.connections
  {
    var key := OrderKey(e.merchant, e.order);
    s.(orders := s.orders[key := Linked(s, e, details, newDelivery)],
       deliveries := DeliveriesAfter(s, e, details, newDelivery),
       events := s.events[id := s.events[id].(state := if details.ownDelivery then Processed else Ignored,
                                              attempts := s.events[id].attempts + 1)],
       effects := s.effects[id := EffectCount(s, id) + 1],
       history := s.history[key := History(s, key) + [Event(e.status.value, e.at)]])
  }

  function Process1(s: State, id: nat, e: InboxEvent, details: Details, access: bool, newDelivery: nat): Option<State>
    requires id in s.events
  {
    if !Open(s.events[id]) then Some(s)
    else if e.rejection && e.attached then
      Some(s.(events := s.events[id := s.events[id].(state := Processed)],
        effects := s.effects[id := EffectCount(s, id) + 1]))
    else if e.status.None? || !e.attached then
      Some(s.(events := s.events[id := s.events[id].(state := Ignored)]))
    else if e.merchant !in s.connections || !s.connections[e.merchant].enabled then Some(s)
    else if !s.connections[e.merchant].autoImport && OrderKey(e.merchant, e.order) !in s.orders then Some(s)
    else if !access || !details.valid || newDelivery in s.deliveries then None  // the transaction rolls back
    else Some(Import(s, id, e, details, newDelivery))
  }

  predicate MayCreate(s: State, key: OrderKey) {
    && key.merchant in s.connections && s.connections[key.merchant].enabled
    && key in s.orders && s.orders[key].ownDelivery && s.orders[key].delivery.None?
    && LinkAllowed(s.orders[key].status)
  }

  predicate MayRelease(s: State, key: OrderKey) {
    && key.merchant in s.connections && s.connections[key.merchant].enabled
    && key in s.orders && s.orders[key].ownDelivery && s.orders[key].delivery.Some?
    && s.orders[key].status in {CONFIRMED, PREPARATION_STARTED}
    && s.orders[key].delivery.value in s.deliveries
    && s.deliveries[s.orders[key].delivery.value].status == Draft
  }

  function Apply(s: State, step: Step): State {
    match step
    case SetConnection(m, settings) => s.(connections := s.connections[m := settings])
    case Ingest(batch) =>
      s.(events := InsertedAll(s.events, s.connections, batch), returned := s.returned + (set e | e in batch :: e.id))
    case Acknowledge(ids) => if ids <= s.returned then s.(acknowledged := s.acknowledged + ids) else s
    case Reattach => s.(events := map id | id in s.events :: Reattached(s.events[id], s.connections))
    case Select(w, id) =>
      if w !in s.selected && Selectable(s, id) then s.(selected := s.selected[w := (id, s.events[id])]) else s
    case Process(w, details, access, newDelivery) =>
      if w in s.selected && s.selected[w].0 in s.events
      then
        var (id, read) := s.selected[w];
        match Process1(s, id, read, details, access, newDelivery)
        case Some(next) => next.(selected := s.selected - {w})
        case None => s
      else s
    case Fail(w) =>
      if w in s.selected && s.selected[w].0 in s.events
      then
        var id := s.selected[w].0;
        var e := s.events[id];
        s.(events := if Open(e) then s.events[id := e.(state := Failed, attempts := e.attempts + 1)] else s.events,
           selected := s.selected - {w})
      else s
    case Crash(w) => s.(selected := s.selected - {w})
    case Reprocess(id) =>
      if id in s.events && s.events[id].state == Failed
      then s.(events := s.events[id := s.events[id].(state := Received, attempts := 0)]) else s
    case CreateManually(key, newDelivery) =>
      if MayCreate(s, key) && newDelivery !in s.deliveries
      then s.(orders := s.orders[key := s.orders[key].(delivery := Some(newDelivery))],
              deliveries := s.deliveries[newDelivery := Delivery(Some(key), Draft)])
      else s
    case Release(key) =>
      if MayRelease(s, key)
      then
        var d := s.orders[key].delivery.value;
        s.(deliveries := s.deliveries[d := s.deliveries[d].(status := AwaitingCourier)])
      else s
    case MoveDelivery(d, to) =>
      // The operation works on released deliveries; a draft can only be aborted.
      if d in s.deliveries && AllowedMove(s.deliveries[d].status, to)
          && (s.deliveries[d].status == Draft ==> to == Aborted)
      then s.(deliveries := s.deliveries[d := s.deliveries[d].(status := to)]) else s
  }

  function Initial(): State { State(map[], map[], map[], map[], map[], {}, {}, map[], map[]) }

  function Exec(s: State, steps: seq<Step>): State {
    if steps == [] then s else Apply(Exec(s, steps[..|steps| - 1]), steps[|steps| - 1])
  }

  /// When each step takes effect

  // A worker may take an event exactly while it is open, has failed fewer than five
  // times and, if its merchant is known, that connection is enabled and imports its
  // order or has it already.
  lemma SelectedExactlyWhen(s: State, w: nat, id: nat)
    requires w !in s.selected
    ensures Apply(s, Select(w, id))
         == if && id in s.events && s.events[id].state in {Received, Failed} && s.events[id].attempts < 5
               && (s.events[id].attached ==>
                     && s.events[id].merchant in s.connections && s.connections[s.events[id].merchant].enabled
                     && (s.connections[s.events[id].merchant].autoImport
                         || OrderKey(s.events[id].merchant, s.events[id].order) in s.orders))
            then s.(selected := s.selected[w := (id, s.events[id])]) else s
  {}

  // The event as it was read concerns an order of a known, enabled connection that
  // imports it or has it, and can be read and delivered for the store.
  predicate Used(s: State, id: nat, e: InboxEvent, details: Details, access: bool, newDelivery: nat) {
    && id in s.events && s.events[id].state in {Received, Failed} && !e.rejection && e.status.Some? && e.attached
    && e.merchant in s.connections && s.connections[e.merchant].enabled
    && (s.connections[e.merchant].autoImport || OrderKey(e.merchant, e.order) in s.orders)
    && access && details.valid && newDelivery !in s.deliveries
  }

  // How a selected event ends: closed before, it stays; a refused cancellation is
  // processed; an event without a meaning or a connection is ignored; one that is
  // used is processed, or ignored if the store does not deliver it; any other stays.
  lemma EventEnds(s: State, w: nat, details: Details, access: bool, newDelivery: nat)
    requires w in s.selected && s.selected[w].0 in s.events && !s.selected[w].1.rejection
    ensures var (id, e) := s.selected[w];
            var s' := Apply(s, Process(w, details, access, newDelivery));
            && id in s'.events
            && (if Used(s, id, e, details, access, newDelivery)
                then s'.events[id] == s.events[id].(state := if details.ownDelivery then Processed else Ignored,
                                                    attempts := s.events[id].attempts + 1)
                else if s.events[id].state in {Received, Failed} && (e.status.None? || !e.attached)
                then s'.events[id] == s.events[id].(state := Ignored)
                else s'.events[id] == s.events[id])
            && (!Used(s, id, e, details, access, newDelivery) ==>
                  s'.orders == s.orders && s'.deliveries == s.deliveries && s'.effects == s.effects)
            && (Used(s, id, e, details, access, newDelivery) ==> s'.effects == s.effects[id := EffectCount(s, id) + 1])
  {}

  lemma RejectionEnds(s: State, w: nat, details: Details, access: bool, newDelivery: nat)
    requires w in s.selected && s.selected[w].0 in s.events && s.selected[w].1.rejection && s.selected[w].1.attached
    ensures var id, s' := s.selected[w].0, Apply(s, Process(w, details, access, newDelivery));
            && s'.orders == s.orders && s'.deliveries == s.deliveries && id in s'.events
            && (if s.events[id].state in {Received, Failed}
                then && s'.events[id] == s.events[id].(state := Processed)
                     && s'.effects == s.effects[id := EffectCount(s, id) + 1]
                else s'.events[id] == s.events[id] && s'.effects == s.effects)
  {}

  // What a used event does to its order: it is created, or advanced to a status of
  // higher rank that is no older; and it gets a delivery exactly when the store
  // delivers it, has none yet, wants one made, and the order is not over by then.
  lemma OrderAfter(s: State, w: nat, details: Details, access: bool, newDelivery: nat)
    requires w in s.selected && Used(s, s.selected[w].0, s.selected[w].1, details, access, newDelivery)
    ensures var e := s.selected[w].1;
            var key, s' := OrderKey(e.merchant, e.order), Apply(s, Process(w, details, access, newDelivery));
            && s'.orders.Keys == s.orders.Keys + {key}
            && (forall other | other in s.orders && other != key :: s'.orders[other] == s.orders[other])
            && var o := s'.orders[key];
            && (if key in s.orders
                then
                  && o.ownDelivery == s.orders[key].ownDelivery
                  && (if e.at >= s.orders[key].statusAt && Advances(s.orders[key].status, e.status.value)
                      then o.status == e.status.value && o.statusAt == e.at
                      else o.status == s.orders[key].status && o.statusAt == s.orders[key].statusAt)
                else o.ownDelivery == details.ownDelivery && o.status == e.status.value && o.statusAt == e.at)
            && o.delivery == (if key in s.orders && s.orders[key].delivery.Some? then s.orders[key].delivery
                              else if && details.ownDelivery && o.ownDelivery && s.connections[e.merchant].autoCreate
                                      && o.status != CANCELLED && o.status != CONCLUDED && o.status != DISPATCHED
                              then Some(newDelivery) else None)
  {}

  // And to deliveries: the new one is a draft, and a cancellation that advances an
  // own delivery aborts it unless it is over.
  lemma DeliveriesAfterUse(s: State, w: nat, details: Details, access: bool, newDelivery: nat, d: nat)
    requires LinkInv(s)
    requires w in s.selected && Used(s, s.selected[w].0, s.selected[w].1, details, access, newDelivery)
    ensures var e := s.selected[w].1;
            var key, s' := OrderKey(e.merchant, e.order), Apply(s, Process(w, details, access, newDelivery));
            && (d in s'.deliveries <==>
                  d in s.deliveries || (d == newDelivery && key in s'.orders && s'.orders[key].delivery == Some(d)))
            && (d in s'.deliveries && d !in s.deliveries ==> s'.deliveries[d] == Delivery(Some(key), Draft))
            && (d in s.deliveries ==>
                  s'.deliveries[d]
                  == if && key in s.orders && s.orders[key].delivery == Some(d) && s.orders[key].ownDelivery
                        && e.status == Some(CANCELLED) && e.at >= s.orders[key].statusAt
                        && Advances(s.orders[key].status, CANCELLED)
                        && s.deliveries[d].status !in {Delivered, Aborted, DeliveryFailed, ReturnStarted, Returned}
                     then s.deliveries[d].(status := Aborted) else s.deliveries[d])
  {}

  // A failure counts against an open event only, and a manual retry takes exactly
  // a failed one, as if it had never failed.
  lemma FailedAndRetried(s: State, w: nat, id: nat)
    requires w in s.selected && s.selected[w].0 == id && id in s.events
    ensures Apply(s, Fail(w))
         == s.(selected := s.selected - {w},
               events := if s.events[id].state in {Received, Failed}
                         then s.events[id := s.events[id].(state := Failed, attempts := s.events[id].attempts + 1)]
                         else s.events)
    ensures Apply(s, Reprocess(id))
         == if s.events[id].state == Failed
            then s.(events := s.events[id := s.events[id].(state := Received, attempts := 0)]) else s
  {}

  // An event whose merchant was unknown is taken up again exactly once its
  // connection exists and is enabled.
  lemma ReattachedExactlyWhen(s: State, id: nat)
    requires id in s.events
    ensures id in Apply(s, Reattach).events
    ensures Apply(s, Reattach).events[id]
         == if && !s.events[id].attached && s.events[id].merchant in s.connections
               && s.connections[s.events[id].merchant].enabled
            then s.events[id].(attached := true, state := Received, attempts := 0) else s.events[id]
  {}

  // A delivery is made by hand exactly for an own delivery of an enabled connection
  // that has none and is not over, and released to the couriers exactly as a draft
  // of an order confirmed or in preparation.
  lemma CreatedAndReleasedExactlyWhen(s: State, key: OrderKey, newDelivery: nat)
    ensures var own := key.merchant in s.connections && s.connections[key.merchant].enabled
                       && key in s.orders && s.orders[key].ownDelivery;
            && Apply(s, CreateManually(key, newDelivery))
            == (if && own && s.orders[key].delivery.None? && newDelivery !in s.deliveries
                   && s.orders[key].status !in {CANCELLED, CONCLUDED, DISPATCHED}
                then s.(orders := s.orders[key := s.orders[key].(delivery := Some(newDelivery))],
                        deliveries := s.deliveries[newDelivery := Delivery(Some(key), Draft)])
                else s)
            && Apply(s, Release(key))
            == (if && own && s.orders[key].delivery.Some? && s.orders[key].delivery.value in s.deliveries
                   && s.deliveries[s.orders[key].delivery.value].status == Draft
                   && (s.orders[key].status == CONFIRMED || s.orders[key].status == PREPARATION_STARTED)
                then s.(deliveries := s.deliveries[s.orders[key].delivery.value :=
                          s.deliveries[s.orders[key].delivery.value].(status := AwaitingCourier)])
                else s)
  {}

  // Deliveries move on as operations moves them, except that a draft is only
  // released by its order; connections are as they were last set.
  lemma MovedExactlyWhen(s: State, d: nat, to: DeliveryStatus, m: nat, settings: Connection)
    ensures Apply(s, MoveDelivery(d, to))
         == if && d in s.deliveries && AllowedMove(s.deliveries[d].status, to)
               && !(s.deliveries[d].status == Draft && to != Aborted)
            then s.(deliveries := s.deliveries[d := Delivery(s.deliveries[d].order, to)]) else s
    ensures Apply(s, SetConnection(m, settings)) == s.(connections := s.connections[m := settings])
  {}

  // An incoming event is stored once, attached if its merchant is known.
  lemma {:induction false} StoredAsReceived(s: State, batch: seq<Incoming>, id: nat)
    ensures var s' := Apply(s, Ingest(batch));
            && (id in s'.events <==> id in s.events || exists e :: e in batch && e.id == id)
            && (id in s.events ==> s'.events[id] == s.events[id])
            && (id in s'.events && id !in s.events ==>
                  exists e :: e in batch && e.id == id
                    && s'.events[id] == InboxEvent(e.merchant, e.order, e.status, e.rejection, e.at,
                                                   e.merchant in s.connections, Received, 0))
            && s'.returned == s.returned + set e | e in batch :: e.id
  {
    if batch != [] {
      var n := |batch| - 1;
      StoredAsReceived(s, batch[..n], id);
      assert batch == batch[..n] + [batch[n]];
    }
  }

  // A batch is acknowledged once it is stored, whole, and nothing else is.
  lemma AcknowledgedOnceStored(s: State, batch: seq<Incoming>, ids: set<nat>)
    ensures var stored, all := Apply(s, Ingest(batch)), set e | e in batch :: e.id;
            && stored.acknowledged == s.acknowledged
            && Apply(stored, Acknowledge(all)) == stored.(acknowledged := s.acknowledged + all)
            && (Apply(s, Acknowledge(ids)) != s ==>
                  ids <= s.returned && Apply(s, Acknowledge(ids)).acknowledged == s.acknowledged + ids)
  {}

  /// The invariant

  ghost predicate EventInv(s: State, id: nat) {
    && EffectCount(s, id) <= 1
    && (EffectCount(s, id) == 1 ==> id in s.events && s.events[id].attached && !Open(s.events[id]))
    && (id in s.events && s.events[id].state == Processed ==> s.events[id].attached)
  }

  ghost predicate SelectionInv(s: State, w: nat)
    requires w in s.selected
  {
    var (id, read) := s.selected[w];
    && id in s.events
    && read.merchant == s.events[id].merchant && read.order == s.events[id].order && read.status == s.events[id].status
    && (read.attached ==> s.events[id].attached)
  }

  ghost predicate LinkInv(s: State) {
    && (forall key | key in s.orders && s.orders[key].delivery.Some? ::
          s.orders[key].delivery.value in s.deliveries && s.deliveries[s.orders[key].delivery.value].order == Some(key))
    && (forall d | d in s.deliveries && s.deliveries[d].order.Some? ::
          s.deliveries[d].order.value in s.orders && s.orders[s.deliveries[d].order.value].delivery == Some(d))
  }

  ghost predicate OrderInv(s: State, key: OrderKey)
    requires key in s.orders
  {
    var o := s.orders[key];
    o.delivery.Some? && o.delivery.value in s.deliveries ==>
      && o.ownDelivery
      && (o.status == CANCELLED ==> Over(s.deliveries[o.delivery.value].status))
      && (o.status == PLACED ==> s.deliveries[o.delivery.value].status in {Draft, Aborted})
  }

  ghost predicate EventsInv(s: State) {
    && s.acknowledged <= s.returned <= s.events.Keys
    && (forall id: nat :: EventInv(s, id))
    && (forall w | w in s.selected :: SelectionInv(s, w))
  }

  // The stored status is what the committed status events replay to.
  ghost predicate HistoryInv(s: State, key: OrderKey) {
    Replay(Unseen, History(s, key)) == if key in s.orders then Known(s.orders[key].status, s.orders[key].statusAt)
      else Unseen
  }

  ghost predicate OrdersInv(s: State) {
    && LinkInv(s)
    && (forall key | key in s.orders :: OrderInv(s, key))
    && (forall key :: HistoryInv(s, key))
  }

  lemma {:induction false} InsertedAllKeeps(events: map<nat, InboxEvent>, connections: map<nat, Connection>,
      batch: seq<Incoming>)
    ensures var after := InsertedAll(events, connections, batch);
            && after.Keys == events.Keys + (set e | e in batch :: e.id)
            && (forall id | id in events :: after[id] == events[id])
            && (forall id | id in after && id !in events :: after[id].state == Received)
  {
    if batch != [] {
      InsertedAllKeeps(events, connections, batch[..|batch| - 1]);
      assert batch == batch[..|batch| - 1] + [batch[|batch| - 1]];
    }
  }

  lemma IngestKeepsEvents(s: State, batch: seq<Incoming>)
    requires EventsInv(s)
    ensures EventsInv(Apply(s, Ingest(batch)))
  {
    InsertedAllKeeps(s.events, s.connections, batch);
    var s' := Apply(s, Ingest(batch));
    forall id: nat ensures EventInv(s', id) {
      assert EventInv(s, id);
    }
    forall w | w in s'.selected ensures SelectionInv(s', w) {
      assert SelectionInv(s, w);
    }
  }

  lemma ReattachKeepsEvents(s: State)
    requires EventsInv(s)
    ensures EventsInv(Apply(s, Reattach))
  {
    var s' := Apply(s, Reattach);
    forall id: nat ensures EventInv(s', id) {
      assert EventInv(s, id);
    }
    forall w | w in s'.selected ensures SelectionInv(s', w) {
      assert SelectionInv(s, w);
    }
  }

  // What one processing transaction may do to its event: nothing, or close it;
  // with an effect only if the event was open and attached.
  ghost predicate Closes(s: State, id: nat, next: State)
    requires id in s.events
  {
    && next.events.Keys == s.events.Keys
    && next.selected == s.selected && next.returned == s.returned && next.acknowledged == s.acknowledged
    && var e, e' := s.events[id], next.events[id];
    && next.events == s.events[id := e']
    && e' == e.(state := e'.state, attempts := e'.attempts)
    && (e' == e || (Open(e) && !Open(e') && (e'.state == Processed ==> e.attached)))
    && (next.effects == s.effects
        || (next.effects == s.effects[id := EffectCount(s, id) + 1] && Open(e) && !Open(e') && e.attached))
  }

  lemma ProcessCloses(s: State, id: nat, e: InboxEvent, details: Details, access: bool, newDelivery: nat)
    requires id in s.events && (e.attached ==> s.events[id].attached)
    ensures var next := Process1(s, id, e, details, access, newDelivery);
            next.Some? ==> Closes(s, id, next.value)
  {}

  lemma ClosingKeepsEvents(s: State, w: nat, next: State)
    requires EventsInv(s) && w in s.selected && s.selected[w].0 in s.events
    requires Closes(s, s.selected[w].0, next)
    ensures EventsInv(next.(selected := s.selected - {w}))
  {
    var id := s.selected[w].0;
    var s' := next.(selected := s.selected - {w});
    assert EventInv(s, id);
    forall other: nat ensures EventInv(s', other) {
      assert EventInv(s, other);
    }
    forall v | v in s'.selected ensures SelectionInv(s', v) {
      assert SelectionInv(s, v);
    }
  }

  lemma ProcessKeepsEvents(s: State, w: nat, details: Details, access: bool, newDelivery: nat)
    requires EventsInv(s)
    ensures EventsInv(Apply(s, Process(w, details, access, newDelivery)))
  {
    if w in s.selected {
      assert SelectionInv(s, w);
      var (id, read) := s.selected[w];
      ProcessCloses(s, id, read, details, access, newDelivery);
      var next := Process1(s, id, read, details, access, newDelivery);
      if next.Some? {
        ClosingKeepsEvents(s, w, next.value);
      }
    }
  }

  // Failing and reprocessing only move an event among the open states.
  lemma OpenEventsMayChange(s: State, s': State, id: nat)
    requires EventsInv(s) && id in s.events && Open(s.events[id])
    requires s' == s.(events := s'.events, selected := s'.selected)
    requires s'.selected.Keys <= s.selected.Keys && forall w | w in s'.selected :: s'.selected[w] == s.selected[w]
    requires s'.events.Keys == s.events.Keys && Open(s'.events[id])
    requires s'.events == s.events[id := s.events[id].(state := s'.events[id].state,
        attempts := s'.events[id].attempts)]
    ensures EventsInv(s')
  {
    forall other: nat ensures EventInv(s', other) {
      assert EventInv(s, other);
    }
    forall w | w in s'.selected ensures SelectionInv(s', w) {
      assert SelectionInv(s, w);
    }
  }

  lemma RetryStepsKeepEvents(s: State, step: Step)
    requires EventsInv(s) && (step.Fail? || step.Reprocess?)
    ensures EventsInv(Apply(s, step))
  {
    var s' := Apply(s, step);
    if step.Reprocess? {
      if s' != s {
        OpenEventsMayChange(s, s', step.id);
      }
    } else if step.w in s.selected {
      assert SelectionInv(s, step.w);
      if Open(s.events[s.selected[step.w].0]) {
        OpenEventsMayChange(s, s', s.selected[step.w].0);
      } else {
        ForgettingKeepsEvents(s, step.w);
      }
    }
  }

  lemma ForgettingKeepsEvents(s: State, w: nat)
    requires EventsInv(s)
    ensures EventsInv(s.(selected := s.selected - {w}))
  {
    OtherStepsKeepEvents(s, Crash(w));
  }

  lemma OtherStepsKeepEvents(s: State, step: Step)
    requires EventsInv(s) && !step.Ingest? && !step.Reattach? && !step.Process? && !step.Fail? && !step.Reprocess?
    ensures EventsInv(Apply(s, step))
  {
    var s' := Apply(s, step);
    assert s'.events == s.events && s'.effects == s.effects;
    forall id: nat ensures EventInv(s', id) {
      assert EventInv(s, id);
    }
    forall w | w in s'.selected ensures SelectionInv(s', w) {
      OtherStepsKeepSelection(s, step, w);
    }
  }

  lemma OtherStepsKeepSelection(s: State, step: Step, w: nat)
    requires EventsInv(s) && w in Apply(s, step).selected
    requires !step.Ingest? && !step.Reattach? && !step.Process? && !step.Fail? && !step.Reprocess?
    ensures SelectionInv(Apply(s, step), w)
  {
    if w in s.selected {
      assert SelectionInv(s, w);
    }
  }

  lemma ImportKeepsOrders(s: State, id: nat, e: InboxEvent, details: Details, newDelivery: nat)
    requires OrdersInv(s) && id in s.events && e.status.Some? && e.merchant in s.connections
        && newDelivery !in s.deliveries
    ensures OrdersInv(Import(s, id, e, details, newDelivery))
  {
    var s' := Import(s, id, e, details, newDelivery);
    var key := OrderKey(e.merchant, e.order);
    forall k | k in s'.orders ensures OrderInv(s', k) {
      if k in s.orders {
        assert OrderInv(s, k);
      }
    }
    forall k ensures HistoryInv(s', k) {
      assert HistoryInv(s, k);
      if k == key {
        assert History(s', k)[..|History(s', k)| - 1] == History(s, k);
      }
    }
  }

  lemma ProcessImportsOrLeaves(s: State, id: nat, read: InboxEvent, details: Details, access: bool, newDelivery: nat)
    requires id in s.events && Process1(s, id, read, details, access, newDelivery).Some?
    ensures var next := Process1(s, id, read, details, access, newDelivery).value;
            || (next.orders == s.orders && next.deliveries == s.deliveries && next.history == s.history)
            || (read.status.Some? && read.merchant in s.connections && newDelivery !in s.deliveries
                && next == Import(s, id, read, details, newDelivery))
  {}

  lemma ProcessKeepsOrders(s: State, w: nat, details: Details, access: bool, newDelivery: nat)
    requires OrdersInv(s)
    ensures OrdersInv(Apply(s, Process(w, details, access, newDelivery)))
  {
    if w in s.selected && s.selected[w].0 in s.events {
      var (id, read) := s.selected[w];
      var next := Process1(s, id, read, details, access, newDelivery);
      if next.Some? {
        ProcessImportsOrLeaves(s, id, read, details, access, newDelivery);
        NextKeepsOrders(s, id, read, details, newDelivery, next.value);
        OtherTablesAreIrrelevant(next.value, next.value.(selected := s.selected - {w}));
      }
    }
  }

  lemma NextKeepsOrders(s: State, id: nat, read: InboxEvent, details: Details, newDelivery: nat, next: State)
    requires OrdersInv(s) && id in s.events
    requires || (next.orders == s.orders && next.deliveries == s.deliveries && next.history == s.history)
             || (read.status.Some? && read.merchant in s.connections && newDelivery !in s.deliveries
                 && next == Import(s, id, read, details, newDelivery))
    ensures OrdersInv(next)
  {
    if next.orders == s.orders && next.deliveries == s.deliveries && next.history == s.history {
      OtherTablesAreIrrelevant(s, next);
    } else {
      ImportKeepsOrders(s, id, read, details, newDelivery);
    }
  }

  lemma OtherTablesAreIrrelevant(s: State, s': State)
    requires OrdersInv(s)
    requires s'.orders == s.orders && s'.deliveries == s.deliveries && s'.history == s.history
    ensures OrdersInv(s')
  {
    forall k | k in s'.orders ensures OrderInv(s', k) {
      assert OrderInv(s, k);
    }
    forall k ensures HistoryInv(s', k) {
      assert HistoryInv(s, k);
    }
  }

  lemma CreatingKeepsOrders(s: State, key: OrderKey, newDelivery: nat)
    requires OrdersInv(s)
    ensures OrdersInv(Apply(s, CreateManually(key, newDelivery)))
  {
    var s' := Apply(s, CreateManually(key, newDelivery));
    forall k | k in s'.orders ensures OrderInv(s', k) {
      assert OrderInv(s, k);
    }
    forall k ensures HistoryInv(s', k) {
      assert HistoryInv(s, k);
    }
  }

  lemma ReleasingKeepsOrders(s: State, key: OrderKey)
    requires OrdersInv(s)
    ensures OrdersInv(Apply(s, Release(key)))
  {
    var s' := Apply(s, Release(key));
    forall k | k in s'.orders ensures OrderInv(s', k) {
      assert OrderInv(s, k);
    }
    forall k ensures HistoryInv(s', k) {
      assert HistoryInv(s, k);
    }
  }

  lemma MovingKeepsOrders(s: State, d: nat, to: DeliveryStatus)
    requires OrdersInv(s)
    ensures OrdersInv(Apply(s, MoveDelivery(d, to)))
  {
    var s' := Apply(s, MoveDelivery(d, to));
    forall k | k in s'.orders ensures OrderInv(s', k) {
      assert OrderInv(s, k);
    }
    forall k ensures HistoryInv(s', k) {
      assert HistoryInv(s, k);
    }
  }

  ghost predicate Inv(s: State) {
    EventsInv(s) && OrdersInv(s)
  }

  lemma ApplyKeepsInv(s: State, step: Step)
    requires Inv(s)
    ensures Inv(Apply(s, step))
  {
    if step.Process? {
      ProcessKeepsEvents(s, step.w, step.details, step.access, step.newDelivery);
      ProcessKeepsOrders(s, step.w, step.details, step.access, step.newDelivery);
    } else if step.CreateManually? {
      OtherStepsKeepEvents(s, step);
      CreatingKeepsOrders(s, step.key, step.newDelivery);
    } else if step.Release? {
      OtherStepsKeepEvents(s, step);
      ReleasingKeepsOrders(s, step.key);
    } else if step.MoveDelivery? {
      OtherStepsKeepEvents(s, step);
      MovingKeepsOrders(s, step.delivery, step.to);
    } else {
      OtherTablesAreIrrelevant(s, Apply(s, step));
      match step
      case Ingest(batch) => IngestKeepsEvents(s, batch);
      case Reattach => ReattachKeepsEvents(s);
      case Fail(_) => RetryStepsKeepEvents(s, step);
      case Reprocess(_) => RetryStepsKeepEvents(s, step);
      case _ => OtherStepsKeepEvents(s, step);
    }
  }

  lemma {:induction false} RunKeepsInv(s: State, steps: seq<Step>)
    requires Inv(s)
    ensures Inv(Exec(s, steps))
  {
    if steps != [] {
      RunKeepsInv(s, steps[..|steps| - 1]);
      ApplyKeepsInv(Exec(s, steps[..|steps| - 1]), steps[|steps| - 1]);
    }
  }

  /// Main results

  lemma StoredStep(s: State, step: Step, id: nat)
    requires id in s.events
    ensures id in Apply(s, step).events
    ensures var e, e' := s.events[id], Apply(s, step).events[id];
            && e'.merchant == e.merchant && e'.order == e.order && e'.status == e.status && e'.at == e.at
            && (e.attached ==> e'.attached)
            && (e.attached && !Open(e) ==> e' == e)
  {
    match step
    case Ingest(batch) => InsertedAllKeeps(s.events, s.connections, batch);
    case Process(w, details, access, newDelivery) =>
      if w in s.selected && s.selected[w].0 in s.events {
        ProcessTouchesOne(s, s.selected[w].0, s.selected[w].1, details, access, newDelivery);
      }
    case _ =>
  }

  lemma ProcessTouchesOne(s: State, id: nat, e: InboxEvent, details: Details, access: bool, newDelivery: nat)
    requires id in s.events
    ensures var next := Process1(s, id, e, details, access, newDelivery);
            next.Some? ==>
              && next.value.events.Keys == s.events.Keys
              && var now := next.value.events[id];
              next.value.events == s.events[id := s.events[id].(state := now.state, attempts := now.attempts)]
              && (!Open(s.events[id]) ==> now == s.events[id])
  {}

  // An acknowledged event is stored, under its id, for good, and a closed event
  // of a known merchant is never opened again, not even by hand.
  lemma {:induction false} AcknowledgedIsStored(steps: seq<Step>, more: seq<Step>, id: nat)
    requires id in Exec(Initial(), steps).acknowledged
    ensures var s, later := Exec(Initial(), steps), Exec(Exec(Initial(), steps), more);
            && id in s.events && id in later.events
            && var e, e' := s.events[id], later.events[id];
            && e'.merchant == e.merchant && e'.order == e.order && e'.status == e.status && e'.at == e.at
            && (e.attached && !Open(e) ==> e' == e)
  {
    RunKeepsInv(Initial(), steps);
    StoredForGood(Exec(Initial(), steps), more, id);
  }

  lemma {:induction false} StoredForGood(s: State, more: seq<Step>, id: nat)
    requires id in s.events
    ensures id in Exec(s, more).events
    ensures var e, e' := s.events[id], Exec(s, more).events[id];
            && e'.merchant == e.merchant && e'.order == e.order && e'.status == e.status && e'.at == e.at
            && (e.attached ==> e'.attached) && (e.attached && !Open(e) ==> e' == e)
  {
    if more != [] {
      StoredForGood(s, more[..|more| - 1], id);
      StoredStep(Exec(s, more[..|more| - 1]), more[|more| - 1], id);
    }
  }

  // The effects of one stored event commit at most once over all retries,
  // re-attachments, manual reprocessing and competing workers.
  lemma EffectsCommitOnce(steps: seq<Step>, id: nat)
    ensures EffectCount(Exec(Initial(), steps), id) <= 1
  {
    RunKeepsInv(Initial(), steps);
    assert EventInv(Exec(Initial(), steps), id);
  }

  // Orders and deliveries are linked one to one.
  lemma LinkIsOneToOne(steps: seq<Step>, key: OrderKey, d: nat)
    ensures var s := Exec(Initial(), steps);
            (key in s.orders && s.orders[key].delivery == Some(d))
              <==> (d in s.deliveries && s.deliveries[d].order == Some(key))
  {
    RunKeepsInv(Initial(), steps);
  }

  // What one step may do to an order.
  ghost predicate Proceeds(o: Order, o': Order) {
    && NotBefore(Known(o.status, o.statusAt), Known(o'.status, o'.statusAt))
    && (o.status == CANCELLED ==> o'.status == CANCELLED && o'.statusAt == o.statusAt)
    && (o.delivery.Some? ==> o'.delivery == o.delivery)
    && (o.delivery.None? && o'.delivery.Some? ==> LinkAllowed(o'.status) && o'.ownDelivery)
  }

  lemma ProcessProceeds(s: State, id: nat, e: InboxEvent, details: Details, access: bool, newDelivery: nat,
      key: OrderKey)
    requires id in s.events && key in s.orders
    ensures var next := Process1(s, id, e, details, access, newDelivery);
            next.Some? ==> key in next.value.orders && Proceeds(s.orders[key], next.value.orders[key])
  {}

  lemma OrderStep(s: State, step: Step, key: OrderKey)
    requires key in s.orders
    ensures key in Apply(s, step).orders && Proceeds(s.orders[key], Apply(s, step).orders[key])
  {
    match step
    case Process(w, details, access, newDelivery) =>
      if w in s.selected && s.selected[w].0 in s.events {
        var (id, read) := s.selected[w];
        ProcessProceeds(s, id, read, details, access, newDelivery, key);
      }
    case _ =>
  }

  // No step links a delivery to an order that is cancelled, concluded or dispatched
  // by then, nor to one the store does not deliver itself.
  lemma NeverLinkedWhenOver(s: State, step: Step, key: OrderKey)
    requires key in Apply(s, step).orders && Apply(s, step).orders[key].delivery.Some?
    requires key in s.orders ==> s.orders[key].delivery.None?
    ensures var o := Apply(s, step).orders[key];
            o.ownDelivery && o.status != CANCELLED && o.status != CONCLUDED && o.status != DISPATCHED
  {
    match step
    case Process(w, details, access, newDelivery) =>
      if w in s.selected && s.selected[w].0 in s.events {
        var (id, read) := s.selected[w];
        ProcessLinksOpenOrders(s, id, read, details, access, newDelivery, key);
      }
    case _ =>
  }

  lemma ProcessLinksOpenOrders(
      s: State, id: nat, e: InboxEvent, details: Details, access: bool, newDelivery: nat, key: OrderKey)
    requires id in s.events && (key in s.orders ==> s.orders[key].delivery.None?)
    ensures var next := Process1(s, id, e, details, access, newDelivery);
            next.Some? && key in next.value.orders && next.value.orders[key].delivery.Some? ==>
              var o := next.value.orders[key];
              o.ownDelivery && o.status != CANCELLED && o.status != CONCLUDED && o.status != DISPATCHED
  {}

  // Once linked, always linked to the same delivery; the status of an order never
  // goes back in rank or time, and a cancelled order stays cancelled and unlinked.
  lemma {:induction false} OrderOnlyAdvances(s: State, more: seq<Step>, key: OrderKey)
    requires Inv(s) && key in s.orders
    ensures key in Exec(s, more).orders
    ensures var o, o' := s.orders[key], Exec(s, more).orders[key];
            && NotBefore(Known(o.status, o.statusAt), Known(o'.status, o'.statusAt))
            && (o.delivery.Some? ==> o'.delivery == o.delivery)
            && (o.status == CANCELLED ==> o'.status == CANCELLED && o'.delivery == o.delivery)
  {
    if more != [] {
      OrderOnlyAdvances(s, more[..|more| - 1], key);
      RunKeepsInv(s, more[..|more| - 1]);
      OrderStep(Exec(s, more[..|more| - 1]), more[|more| - 1], key);
    }
  }

  // No delivery of a cancelled order is open, and no delivery of an order that
  // was only placed has been released to couriers.
  lemma DeliveryFollowsOrder(steps: seq<Step>, key: OrderKey)
    requires key in Exec(Initial(), steps).orders && Exec(Initial(), steps).orders[key].delivery.Some?
    ensures var s := Exec(Initial(), steps);
            && s.orders[key].delivery.value in s.deliveries
            && var status := s.deliveries[s.orders[key].delivery.value].status;
            && (s.orders[key].status == CANCELLED ==> Over(status))
            && (s.orders[key].status == PLACED ==> status == Draft || status == Aborted)
  {
    RunKeepsInv(Initial(), steps);
    assert OrderInv(Exec(Initial(), steps), key);
  }

  // Processing an event leaves a draft alone, or aborts it.
  lemma ProcessReleasesNothing(s: State, id: nat, e: InboxEvent, details: Details, access: bool, newDelivery: nat,
      d: nat)
    requires id in s.events && d in s.deliveries && s.deliveries[d].status == Draft
    ensures var next := Process1(s, id, e, details, access, newDelivery);
            next.Some? ==> d in next.value.deliveries && next.value.deliveries[d].status in {Draft, Aborted}
  {}

  lemma ProcessReleasesNone(
      s: State, id: nat, e: InboxEvent, details: Details, access: bool, newDelivery: nat, d: nat)
    requires id in s.events && !Released(s, d)
    ensures var next := Process1(s, id, e, details, access, newDelivery);
            next.Some? ==> !Released(next.value, d)
  {}

  // A draft leaves for the couriers only while its order is confirmed or in preparation.
  lemma ReleasedOnlyWhenConfirmed(s: State, step: Step, d: nat)
    requires LinkInv(s) && d in s.deliveries && s.deliveries[d].status == Draft && s.deliveries[d].order.Some?
    ensures d in Apply(s, step).deliveries
    ensures Apply(s, step).deliveries[d].status !in {Draft, Aborted} ==>
              && s.deliveries[d].order.value in s.orders
              && s.orders[s.deliveries[d].order.value].status in {CONFIRMED, PREPARATION_STARTED}
              && Apply(s, step).deliveries[d].status == AwaitingCourier
  {
    match step
    case Process(w, details, access, newDelivery) =>
      if w in s.selected && s.selected[w].0 in s.events {
        var (id, read) := s.selected[w];
        ProcessReleasesNothing(s, id, read, details, access, newDelivery, d);
      }
    case _ =>
  }

  predicate Released(s: State, d: nat) {
    d in s.deliveries && s.deliveries[d].order.Some? && s.deliveries[d].status !in {Draft, Aborted}
  }

  lemma ReleaseStep(s: State, step: Step, d: nat)
    requires LinkInv(s) && !Released(s, d) && Released(Apply(s, step), d)
    ensures d in s.deliveries && s.deliveries[d].order == Apply(s, step).deliveries[d].order
    ensures s.deliveries[d].status == Draft
    ensures step == Release(s.deliveries[d].order.value)
  {
    match step
    case Process(w, details, access, newDelivery) =>
      if w in s.selected && s.selected[w].0 in s.events {
        var (id, read) := s.selected[w];
        ProcessReleasesNone(s, id, read, details, access, newDelivery, d);
      }
    case _ =>
  }

  // A released delivery was released as a draft, by a release of its order while
  // that was confirmed or in preparation.
  lemma {:induction false} ReleasedOnlyWhileConfirmed(steps: seq<Step>, d: nat) returns (k: nat)
    requires Released(Exec(Initial(), steps), d)
    ensures var key := Exec(Initial(), steps).deliveries[d].order.value;
            && k < |steps| && steps[k] == Release(key)
            && var before := Exec(Initial(), steps[..k]);
            && d in before.deliveries && before.deliveries[d] == Delivery(Some(key), Draft)
            && key in before.orders && before.orders[key].status in {CONFIRMED, PREPARATION_STARTED}
  {
    var n := |steps| - 1;
    var before := Exec(Initial(), steps[..n]);
    RunKeepsInv(Initial(), steps[..n]);
    if Released(before, d) {
      OrderOfDeliveryStays(before, steps[n], d);
      k := ReleasedOnlyWhileConfirmed(steps[..n], d);
      assert steps[..n][..k] == steps[..k];
    } else {
      ReleaseStep(before, steps[n], d);
      ReleasedOnlyWhenConfirmed(before, steps[n], d);
      k := n;
    }
  }

  lemma OrderOfDeliveryStays(s: State, step: Step, d: nat)
    requires d in s.deliveries
    ensures d in Apply(s, step).deliveries && Apply(s, step).deliveries[d].order == s.deliveries[d].order
  {}

  // The stored status is the replay of the events whose effects committed, so it
  // is the most advanced of them whenever one of them is both most advanced and
  // latest, in whatever order they were processed.
  lemma StatusIsTopOfCommittedEvents(steps: seq<Step>, key: OrderKey)
    requires key in Exec(Initial(), steps).orders
    ensures var s := Exec(Initial(), steps);
            var committed := set e | e in History(s, key);
            && Replay(Unseen, History(s, key)) == Known(s.orders[key].status, s.orders[key].statusAt)
            && (TopIsLatest(committed) ==> forall e | e in committed :: e.status.Rank() <= s.orders[key].status.Rank())
  {
    RunKeepsInv(Initial(), steps);
    var s := Exec(Initial(), steps);
    assert HistoryInv(s, key);
    var committed := set e | e in History(s, key);
    assert Delivers(History(s, key), committed);
    if committed != {} {
      OrderIndependentExactlyWhen(committed);
    }
  }

  /// The tables as the service updates them

  class Inbox {
    var connections: map<nat, Connection>
    var events: map<nat, InboxEvent>
    var orders: map<OrderKey, Order>
    var deliveries: map<nat, Delivery>
    ghost var selected: map<nat, (nat, InboxEvent)>
    ghost var returned: set<nat>
    ghost var acknowledged: set<nat>
    ghost var effects: map<nat, nat>
    ghost var history: map<OrderKey, seq<Event>>

    ghost function View(): State reads this {
      State(connections, events, orders, deliveries, selected, returned, acknowledged, effects, history)
    }

    constructor ()
      ensures View() == Initial()
    {
      connections, events, orders, deliveries := map[], map[], map[], map[];
      selected, returned, acknowledged, effects, history := map[], {}, {}, map[], map[];
    }

    // Stores a batch in one transaction; the ids are reported only after it.
    method IngestBatch(batch: seq<Incoming>) returns (ids: seq<nat>)
      modifies this
      ensures View() == Apply(old(View()), Ingest(batch))
      ensures |ids| == |batch| && forall i | 0 <= i < |batch| :: ids[i] == batch[i].id && ids[i] in events
    {
      ids := [];
      for i := 0 to |batch|
        invariant View() == old(View()).(events := InsertedAll(old(events), connections, batch[..i]))
        invariant |ids| == i && forall j | 0 <= j < i :: ids[j] == batch[j].id && ids[j] in events
      {
        var e := batch[i];
        assert batch[..i + 1][..i] == batch[..i];
        if e.id !in events {
          events := events[e.id := InboxEvent(e.merchant, e.order, e.status, e.rejection, e.at,
            e.merchant in connections, Received, 0)];
        }
        ids := ids + [e.id];
      }
      assert batch[..|batch|] == batch;
      returned := returned + set e | e in batch :: e.id;
    }

    // The transaction of one selected event. It either commits, closing the
    // event or leaving it for later, or reports an error and changes nothing.
    method ProcessEvent(w: nat, id: nat, read: InboxEvent, details: Details, access: bool, newDelivery: nat)
      returns (ok: bool)
      requires w in selected && selected[w] == (id, read) && id in events
      modifies this
      ensures View() == Apply(old(View()), Process(w, details, access, newDelivery))
      ensures ok <==> Process1(old(View()), id, read, details, access, newDelivery).Some?
    {
      ok := CommitEvent(id, read, details, access, newDelivery);
      if ok {
        selected := selected - {w};
      }
    }

    // The transaction of one event: false when it is rolled back.
    method CommitEvent(id: nat, read: InboxEvent, details: Details, access: bool, newDelivery: nat) returns (ok: bool)
      requires id in events
      modifies this
      ensures ok <==> Process1(old(View()), id, read, details, access, newDelivery).Some?
      ensures View() == if ok then Process1(old(View()), id, read, details, access, newDelivery).value else old(View())
    {
      var locked := events[id];
      if locked.state != Received && locked.state != Failed { return true; }
      if read.rejection && read.attached {
        events := events[id := locked.(state := Processed)];
        effects := effects[id := EffectCount(old(View()), id) + 1];
        return true;
      }
      if read.status.None? || !read.attached {
        events := events[id := locked.(state := Ignored)];
        return true;
      }
      var key := OrderKey(read.merchant, read.order);
      if read.merchant !in connections || !connections[read.merchant].enabled
         || (!connections[read.merchant].autoImport && key !in orders) { return true; }
      if !access || !details.valid || newDelivery in deliveries { return false; }
      ImportOrder(id, read, details, newDelivery);
      return true;
    }

    method ImportOrder(id: nat, read: InboxEvent, details: Details, newDelivery: nat)
      requires id in events && read.status.Some? && read.merchant in connections && newDelivery !in deliveries
      modifies this
      ensures View() == Import(old(View()), id, read, details, newDelivery)
    {
      var key := OrderKey(read.merchant, read.order);
      var order := AdvanceAndLink(read, details, newDelivery);
      orders := orders[key := order];
      events := events[id := events[id].(state := if details.ownDelivery then Processed else Ignored,
                                              attempts := events[id].attempts + 1)];
      effects := effects[id := EffectCount(old(View()), id) + 1];
      history := history[key := History(old(View()), key) + [Event(read.status.value, read.at)]];
    }

    // The order as the event leaves it, with the delivery it gets or loses.
    method AdvanceAndLink(read: InboxEvent, details: Details, newDelivery: nat) returns (order: Order)
      requires read.status.Some? && read.merchant in connections && newDelivery !in deliveries
      modifies `deliveries
      ensures order == Linked(old(View()), read, details, newDelivery)
      ensures deliveries == DeliveriesAfter(old(View()), read, details, newDelivery)
    {
      var key, status := OrderKey(read.merchant, read.order), read.status.value;
      var inserted := key !in orders;
      order := if inserted then Order(status, read.at, details.ownDelivery, None) else orders[key];
      var advances := inserted || (read.at >= order.statusAt && Advances(order.status, status));
      if advances {
        order := order.(status := status, statusAt := read.at);
      }
      assert order == Observed(View(), read, details) && advances == Advanced(View(), read);
      if details.ownDelivery && order.ownDelivery && order.delivery.None? && connections[read.merchant].autoCreate
         && order.status !in {CANCELLED, CONCLUDED, DISPATCHED} {
        deliveries := deliveries[newDelivery := Delivery(Some(key), Draft)];
        order := order.(delivery := Some(newDelivery));
      }
      if advances && order.ownDelivery && status == CANCELLED {
        AbortDelivery(order);
      }
    }

    method AbortDelivery(order: Order)
      modifies `deliveries
      ensures deliveries == CancelledWith(old(deliveries), order)
    {
      if order.delivery.Some? && order.delivery.value in deliveries {
        var delivery := deliveries[order.delivery.value];
        if delivery.status !in {Delivered, Aborted, Returned, ReturnStarted, DeliveryFailed} {
          deliveries := deliveries[order.delivery.value := delivery.(status := Aborted)];
        }
      }
    }

    method CreateManualDelivery(key: OrderKey, newDelivery: nat) returns (delivery: Option<nat>)
      requires newDelivery !in deliveries
      modifies this
      ensures View() == Apply(old(View()), CreateManually(key, newDelivery))
      ensures delivery.Some? ==> key in orders && orders[key].delivery == delivery
      ensures MayCreate(old(View()), key) ==> delivery == Some(newDelivery)
    {
      if key.merchant !in connections || !connections[key.merchant].enabled || key !in orders
          || !orders[key].ownDelivery {
        return None;
      }
      var order := orders[key];
      if order.delivery.Some? { return order.delivery; }
      if order.status in {CANCELLED, CONCLUDED, DISPATCHED} { return None; }
      deliveries := deliveries[newDelivery := Delivery(Some(key), Draft)];
      orders := orders[key := order.(delivery := Some(newDelivery))];
      return Some(newDelivery);
    }

    method ReleaseDelivery(key: OrderKey) returns (released: bool)
      modifies this
      ensures View() == Apply(old(View()), Release(key))
      ensures released <==> MayRelease(old(View()), key)
    {
      if key.merchant !in connections || !connections[key.merchant].enabled || key !in orders { return false; }
      var order := orders[key];
      if !order.ownDelivery || order.delivery.None? || order.delivery.value !in deliveries { return false; }
      if order.status != CONFIRMED && order.status != PREPARATION_STARTED { return false; }
      var delivery := deliveries[order.delivery.value];
      if delivery.status != Draft { return false; }
      deliveries := deliveries[order.delivery.value := delivery.(status := AwaitingCourier)];
      return true;
    }
  }
}
