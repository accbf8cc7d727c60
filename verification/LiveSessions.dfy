/** Live sales sessions of the stores: planned, started within a quota, steered
    through their products, and ended by hand, by deadline or with the contract. */
module LiveSessions {
  import opened Wrappers
  import opened LiveSelection

  datatype Status = WAITING | LIVE | ENDED
  datatype Session = Session(
    store: nat, status: Status, version: nat, items: seq<nat>, current: Option<nat>, subscription: Option<nat>,
    startedAt: Option<int>, deadline: Option<int>, endedAt: Option<int>)

  // A contract with the terms of its plan.
  datatype Subscription = Subscription(store: nat, active: bool, startsAt: int, endsAt: int, limit: nat, duration: nat)

  datatype State = State(
    now: int,
    sessions: map<nat, Session>,
    subscriptions: map<nat, Subscription>,
    eligible: set<nat>,             // products that may be shown
    published: set<nat>)            // stores whose catalogue is public

  datatype Step =
    | Tick(seconds: nat)
    | SetSubscription(sub: nat, terms: Subscription)
    | SetEligible(products: set<nat>)
    | SetPublished(stores: set<nat>)
    | Expire(expiring: nat)                                   // maintenance of one store
    | Create(id: nat, store: nat, items: seq<nat>)
    | Edit(id: nat, expected: nat, items: seq<nat>)
    | Start(id: nat, expected: nat, plan: nat)                // plan: the contract in force
    | Highlight(id: nat, expected: nat, action: Action)
    | End(id: nat, expected: nat)

  // The month of an instant in the service's calendar.
  type Calendar = int -> int

  const MINUTE: int := 60
  const MAX_ITEMS: nat := 100

  predicate InForce(s: State, sub: nat) {
    && sub in s.subscriptions && s.subscriptions[sub].active
    && s.subscriptions[sub].startsAt <= s.now < s.subscriptions[sub].endsAt
  }

  predicate Covers(s: State, sub: nat, store: nat) { InForce(s, sub) && s.subscriptions[sub].store == store }

  // The store's contract in force; the latest to start, then the first by identity.
  predicate IsCurrent(s: State, store: nat, sub: nat) {
    && Covers(s, sub, store)
    && forall other | other in s.subscriptions && Covers(s, other, store) ::
      || s.subscriptions[other].startsAt < s.subscriptions[sub].startsAt
      || (s.subscriptions[other].startsAt == s.subscriptions[sub].startsAt && sub <= other)
  }

  predicate HasPlan(s: State, store: nat) {
    exists sub | sub in s.subscriptions :: Covers(s, sub, store)
  }

  /// Expiry, which comes first in every operation

  predicate Expired(s: State, x: Session) {
    x.status == LIVE
    && (|| (x.deadline.Some? && x.deadline.value <= s.now)
        || x.subscription.None? || !Covers(s, x.subscription.value, x.store))
  }

  function Min(a: int, b: int): int { if a < b then a else b }

  function AfterExpiry(s: State, x: Session): Session {
    if Expired(s, x)
    then x.(status := ENDED, version := x.version + 1,
            endedAt := Some(if x.deadline.Some? then Min(s.now, x.deadline.value) else s.now))
    else x
  }

  function Swept(s: State, store: nat): State {
    s.(sessions := map id | id in s.sessions ::
      if s.sessions[id].store == store then AfterExpiry(s, s.sessions[id]) else s.sessions[id])
  }

  /// Operations, on a store already swept

  predicate ValidList(s: State, items: seq<nat>) {
    1 <= |items| <= MAX_ITEMS && Distinct(items) && forall k | 0 <= k < |items| :: items[k] in s.eligible
  }

  predicate Locked(s: State, id: nat, expected: nat) {
    id in s.sessions && s.sessions[id].version == expected
  }

  ghost function Starts(s: State, c: Calendar, store: nat, month: int): set<nat> {
    set id | id in s.sessions && s.sessions[id].store == store
             && s.sessions[id].startedAt.Some? && c(s.sessions[id].startedAt.value) == month
  }

  predicate Running(s: State, store: nat) {
    exists id | id in s.sessions :: s.sessions[id].store == store && s.sessions[id].status == LIVE
  }

  ghost predicate MayStart(s: State, c: Calendar, id: nat, expected: nat, plan: nat) {
    && Locked(s, id, expected) && s.sessions[id].status == WAITING
    && var store := s.sessions[id].store;
    && IsCurrent(s, store, plan)
    && |Starts(s, c, store, c(s.now))| < s.subscriptions[plan].limit
    && !Running(s, store) && store in s.published
    && ValidList(s, s.sessions[id].items)
  }

  function Started(s: State, id: nat, plan: nat): Session
    requires id in s.sessions && plan in s.subscriptions && s.sessions[id].items != []
  {
    var x, p := s.sessions[id], s.subscriptions[plan];
    x.(status := LIVE, version := x.version + 1, startedAt := Some(s.now),
       deadline := Some(Min(s.now + p.duration * MINUTE, p.endsAt)), subscription := Some(plan),
         current := Some(x.items[0]))
  }

  // The product an action leads to: none to hide, an error when there is no neighbour.
  function Selected(s: State, x: Session, action: Action): Result<Option<nat>> {
    match action
    case HIDE => Ok(None)
    case SELECT(p) => if p in x.items && p in s.eligible then Ok(Some(p)) else Err("not available")
    case NEXT => Offered(Neighbour(x.items, s.eligible, x.current, true))
    case PREVIOUS => Offered(Neighbour(x.items, s.eligible, x.current, false))
  }

  function Offered(p: Option<nat>): Result<Option<nat>> {
    if p.Some? then Ok(p) else Err("no neighbour")
  }

  predicate MayHighlight(s: State, id: nat, expected: nat, action: Action) {
    && Locked(s, id, expected) && s.sessions[id].status == LIVE && s.sessions[id].store in s.published
    && Selected(s, s.sessions[id], action).Ok?
  }

  function Shown(x: Session, next: Option<nat>): Session {
    if next == x.current then x else x.(current := next, version := x.version + 1)
  }

  function Finished(x: Session, now: int): Session {
    if x.status == ENDED then x else x.(status := ENDED, version := x.version + 1, endedAt := Some(now))
  }

  // A refused operation changes nothing, not even what it swept.
  ghost function Apply(c: Calendar, s: State, step: Step): State {
    match step
    case Tick(seconds) => s.(now := s.now + seconds)
    case SetSubscription(sub, terms) => s.(subscriptions := s.subscriptions[sub := terms])
    case SetEligible(products) => s.(eligible := products)
    case SetPublished(stores) => s.(published := stores)
    case Expire(store) => Swept(s, store)
    case Create(id, store, items) =>
      if id !in s.sessions && HasPlan(s, store) && ValidList(s, items)
      then
        var t := Swept(s, store);
        t.(sessions := t.sessions[id := Session(store, WAITING, 1, items, None, None, None, None, None)])
      else s
    case Edit(id, expected, items) =>
      if id !in s.sessions then s
      else
        var t := Swept(s, s.sessions[id].store);
        if Locked(t, id, expected) && t.sessions[id].status == WAITING && HasPlan(s, s.sessions[id].store)
            && ValidList(s, items)
        then t.(sessions := t.sessions[id := t.sessions[id].(items := items, version := expected + 1)]) else s
    case Start(id, expected, plan) =>
      if id !in s.sessions then s
      else
        var t := Swept(s, s.sessions[id].store);
        if MayStart(t, c, id, expected, plan) then t.(sessions := t.sessions[id := Started(t, id, plan)]) else s
    case Highlight(id, expected, action) =>
      if id !in s.sessions then s
      else
        var t := Swept(s, s.sessions[id].store);
        if MayHighlight(t, id, expected, action)
        then t.(sessions := t.sessions[id := Shown(t.sessions[id], Selected(t, t.sessions[id], action).value)]) else s
    case End(id, expected) =>
      if id !in s.sessions then s
      else
        var t := Swept(s, s.sessions[id].store);
        if Locked(t, id, expected) then t.(sessions := t.sessions[id := Finished(t.sessions[id], s.now)]) else s
  }

  function Initial(): State { State(0, map[], map[], {}, {}) }

  ghost function Exec(c: Calendar, s: State, steps: seq<Step>): State {
    if steps == [] then s else Apply(c, Exec(c, s, steps[..|steps| - 1]), steps[|steps| - 1])
  }

  /// The invariant

  ghost predicate SessionInv(x: Session, now: int) {
    && x.items != [] && Distinct(x.items)
    && (x.current.Some? ==> x.current.value in x.items)
    && (x.startedAt.Some? <==> x.deadline.Some?)
    && (x.startedAt.Some? ==> x.startedAt.value <= now && x.startedAt.value <= x.deadline.value)
    && (x.status == WAITING ==> x.startedAt.None? && x.current.None?)
    && (x.status == LIVE ==> x.startedAt.Some? && x.endedAt.None?)
    && (x.status == ENDED <==> x.endedAt.Some?)
    && (x.startedAt.Some? && x.endedAt.Some? ==> x.startedAt.value <= x.endedAt.value <= x.deadline.value)
  }

  ghost predicate SessionsInv(s: State) {
    forall id | id in s.sessions :: SessionInv(s.sessions[id], s.now)
  }

  ghost predicate OneLive(s: State) {
    forall a, b | a in s.sessions && b in s.sessions && s.sessions[a].status == s.sessions[b].status == LIVE
                  && s.sessions[a].store == s.sessions[b].store :: a == b
  }

  ghost predicate Inv(s: State) {
    SessionsInv(s) && OneLive(s)
  }

  lemma SweepKeepsInv(s: State, store: nat)
    requires Inv(s)
    ensures Inv(Swept(s, store))
    ensures forall id | id in s.sessions && s.sessions[id].store == store :: !Expired(s, Swept(s, store).sessions[id])
  {}

  lemma OneChanged(s: State, id: nat, x: Session)
    requires Inv(s) && SessionInv(x, s.now)
    requires x.status == LIVE ==>
        forall other | other in s.sessions && other != id && s.sessions[other].store == x.store ::
                                    s.sessions[other].status != LIVE
    ensures Inv(s.(sessions := s.sessions[id := x]))
  {}

  lemma StartKeepsInv(c: Calendar, s: State, id: nat, expected: nat, plan: nat)
    requires Inv(s)
    ensures Inv(Apply(c, s, Start(id, expected, plan)))
  {
    if id in s.sessions {
      var t := Swept(s, s.sessions[id].store);
      SweepKeepsInv(s, s.sessions[id].store);
      if MayStart(t, c, id, expected, plan) {
        OneChanged(t, id, Started(t, id, plan));
      }
    }
  }

  lemma HighlightKeepsInv(c: Calendar, s: State, id: nat, expected: nat, action: Action)
    requires Inv(s)
    ensures Inv(Apply(c, s, Highlight(id, expected, action)))
  {
    if id in s.sessions {
      var t := Swept(s, s.sessions[id].store);
      SweepKeepsInv(s, s.sessions[id].store);
      if MayHighlight(t, id, expected, action) {
        NeighbourIsListed(t.sessions[id].items, t.eligible, t.sessions[id].current, true);
        NeighbourIsListed(t.sessions[id].items, t.eligible, t.sessions[id].current, false);
        OneChanged(t, id, Shown(t.sessions[id], Selected(t, t.sessions[id], action).value));
      }
    }
  }

  lemma EndKeepsInv(c: Calendar, s: State, id: nat, expected: nat)
    requires Inv(s)
    ensures Inv(Apply(c, s, End(id, expected)))
  {
    if id in s.sessions {
      var t := Swept(s, s.sessions[id].store);
      SweepKeepsInv(s, s.sessions[id].store);
      OneChanged(t, id, Finished(t.sessions[id], s.now));
    }
  }

  lemma EditKeepsInv(c: Calendar, s: State, id: nat, expected: nat, items: seq<nat>)
    requires Inv(s)
    ensures Inv(Apply(c, s, Edit(id, expected, items)))
  {
    if id in s.sessions {
      var t := Swept(s, s.sessions[id].store);
      SweepKeepsInv(s, s.sessions[id].store);
      if t.sessions[id].status == WAITING && ValidList(s, items) {
        OneChanged(t, id, t.sessions[id].(items := items, version := expected + 1));
      }
    }
  }

  lemma CreateKeepsInv(c: Calendar, s: State, id: nat, store: nat, items: seq<nat>)
    requires Inv(s)
    ensures Inv(Apply(c, s, Create(id, store, items)))
  {
    SweepKeepsInv(s, store);
    if ValidList(s, items) {
      OneChanged(Swept(s, store), id, Session(store, WAITING, 1, items, None, None, None, None, None));
    }
  }

  lemma ApplyKeepsInv(c: Calendar, s: State, step: Step)
    requires Inv(s)
    ensures Inv(Apply(c, s, step))
  {
    match step
    case Expire(store) => SweepKeepsInv(s, store);
    case Create(id, store, items) => CreateKeepsInv(c, s, id, store, items);
    case Edit(id, expected, items) => EditKeepsInv(c, s, id, expected, items);
    case Start(id, expected, plan) => StartKeepsInv(c, s, id, expected, plan);
    case Highlight(id, expected, action) => HighlightKeepsInv(c, s, id, expected, action);
    case End(id, expected) => EndKeepsInv(c, s, id, expected);
    case _ =>
  }

  lemma {:induction false} RunKeepsInv(c: Calendar, s: State, steps: seq<Step>)
    requires Inv(s)
    ensures Inv(Exec(c, s, steps))
  {
    if steps != [] {
      RunKeepsInv(c, s, steps[..|steps| - 1]);
      ApplyKeepsInv(c, Exec(c, s, steps[..|steps| - 1]), steps[|steps| - 1]);
    }
  }

  /// Main results

  // Every session of every run: at most one live for each store, the product on
  // screen is in the list, and what was started ends no later than its deadline.
  lemma EverySession(c: Calendar, steps: seq<Step>, a: nat, b: nat)
    requires a in Exec(c, Initial(), steps).sessions && b in Exec(c, Initial(), steps).sessions
    ensures var s := Exec(c, Initial(), steps);
            var x := s.sessions[a];
            && (x.current.Some? ==> x.current.value in x.items)
            && (x.startedAt.Some? && x.endedAt.Some? ==>
                  x.deadline.Some? && x.startedAt.value <= x.endedAt.value <= x.deadline.value)
            && (x.status == LIVE && s.sessions[b].status == LIVE && s.sessions[b].store == x.store ==> a == b)
  {
    RunKeepsInv(c, Initial(), steps);
  }

  ghost predicate Later(x: Session, x': Session) {
    && x'.store == x.store && x.version <= x'.version
    && (x.startedAt.Some? ==> x'.startedAt == x.startedAt && x'.deadline == x.deadline && x'.items == x.items)
    && (x.status != WAITING ==> x'.status != WAITING)
    && (x.status == ENDED ==> x' == x)
  }

  lemma SweptLater(s: State, store: nat, id: nat)
    requires id in s.sessions
    ensures id in Swept(s, store).sessions && Later(s.sessions[id], Swept(s, store).sessions[id])
  {}

  lemma ListStepLater(c: Calendar, s: State, step: Step, id: nat)
    requires Inv(s) && id in s.sessions && (step.Create? || step.Edit?)
    ensures id in Apply(c, s, step).sessions && Later(s.sessions[id], Apply(c, s, step).sessions[id])
    ensures Apply(c, s, step).sessions[id].startedAt == s.sessions[id].startedAt
  {
    if step.Create? {
      SweptLater(s, step.store, id);
    } else if step.id in s.sessions {
      SweptLater(s, s.sessions[step.id].store, id);
    }
  }

  lemma LiveStepLater(c: Calendar, s: State, step: Step, id: nat)
    requires Inv(s) && id in s.sessions && (step.Highlight? || step.End?)
    ensures id in Apply(c, s, step).sessions && Later(s.sessions[id], Apply(c, s, step).sessions[id])
    ensures Apply(c, s, step).sessions[id].startedAt == s.sessions[id].startedAt
  {
    if step.id in s.sessions {
      SweptLater(s, s.sessions[step.id].store, id);
    }
  }

  lemma StartLater(c: Calendar, s: State, step: Step, id: nat)
    requires Inv(s) && id in s.sessions && step.Start?
    ensures id in Apply(c, s, step).sessions && Later(s.sessions[id], Apply(c, s, step).sessions[id])
  {
    if step.id in s.sessions {
      SweptLater(s, s.sessions[step.id].store, id);
    }
  }

  lemma SessionStep(c: Calendar, s: State, step: Step, id: nat)
    requires Inv(s) && id in s.sessions
    ensures id in Apply(c, s, step).sessions && Later(s.sessions[id], Apply(c, s, step).sessions[id])
    ensures !step.Start? ==> Apply(c, s, step).sessions[id].startedAt == s.sessions[id].startedAt
  {
    if step.Create? || step.Edit? {
      ListStepLater(c, s, step, id);
    } else if step.Start? {
      StartLater(c, s, step, id);
    } else if step.Highlight? || step.End? {
      LiveStepLater(c, s, step, id);
    } else if step.Expire? {
      SweptLater(s, step.expiring, id);
    }
  }

  // A session starts at most once, keeps its list from then on, and once ended
  // it does not change.
  lemma {:induction false} SessionsOnlyAdvance(c: Calendar, s: State, more: seq<Step>, id: nat)
    requires Inv(s) && id in s.sessions
    ensures id in Exec(c, s, more).sessions && Later(s.sessions[id], Exec(c, s, more).sessions[id])
  {
    if more != [] {
      SessionsOnlyAdvance(c, s, more[..|more| - 1], id);
      RunKeepsInv(c, s, more[..|more| - 1]);
      SessionStep(c, Exec(c, s, more[..|more| - 1]), more[|more| - 1], id);
    }
  }

  /// Quotas

  lemma SameStarts(s: State, s': State, c: Calendar, store: nat, month: int)
    requires s'.sessions.Keys >= s.sessions.Keys
    requires forall id | id in s'.sessions ::
               if id in s.sessions
                 then s'.sessions[id].startedAt == s.sessions[id].startedAt
                     && s'.sessions[id].store == s.sessions[id].store
               else s'.sessions[id].startedAt.None?
    ensures Starts(s', c, store, month) == Starts(s, c, store, month)
  {}

  lemma OnlyStartsStart(c: Calendar, s: State, step: Step, store: nat, month: int)
    requires Inv(s) && !step.Start?
    ensures Starts(Apply(c, s, step), c, store, month) == Starts(s, c, store, month)
  {
    var s' := Apply(c, s, step);
    forall id | id in s'.sessions
      ensures if id in s.sessions
                 then s'.sessions[id].startedAt == s.sessions[id].startedAt
                     && s'.sessions[id].store == s.sessions[id].store
              else s'.sessions[id].startedAt.None?
    {
      if id in s.sessions {
        SessionStep(c, s, step, id);
      }
    }
    forall id | id in s.sessions ensures id in s'.sessions {
      SessionStep(c, s, step, id);
    }
    SameStarts(s, s', c, store, month);
  }

  // A start is one more of its store and month, and keeps the month's starts
  // within the limit of the contract in force.
  lemma StartsWithinQuota(c: Calendar, s: State, step: Step, store: nat, month: int)
    requires Inv(s) && step.Start?
    ensures var before, after := Starts(s, c, store, month), Starts(Apply(c, s, step), c, store, month);
            || after == before
            || (step.plan in s.subscriptions && IsCurrent(s, store, step.plan) && month == c(s.now)
                && after == before + {step.id} && step.id !in before && |after| <= s.subscriptions[step.plan].limit)
  {
    if step.id in s.sessions {
      var t := Swept(s, s.sessions[step.id].store);
      SweptStarts(c, s, s.sessions[step.id].store, store, month);
      if MayStart(t, c, step.id, step.expected, step.plan) {
        assert SessionInv(s.sessions[step.id], s.now);
        StartAddsOne(c, t, step.id, step.plan, store, month);
        assert IsCurrent(s, s.sessions[step.id].store, step.plan);
      }
    }
  }

  lemma SweptStarts(c: Calendar, s: State, swept: nat, store: nat, month: int)
    ensures Starts(Swept(s, swept), c, store, month) == Starts(s, c, store, month)
  {}

  lemma StartAddsOne(c: Calendar, t: State, id: nat, plan: nat, store: nat, month: int)
    requires id in t.sessions && plan in t.subscriptions && t.sessions[id].items != [] && t.sessions[id].startedAt.None?
    ensures var t' := t.(sessions := t.sessions[id := Started(t, id, plan)]);
            && id !in Starts(t, c, store, month)
            && Starts(t', c, store, month)
               == Starts(t, c, store, month) + (if t.sessions[id].store == store && c(t.now) == month then {id} else {})
  {}

  // A start shows the first product and may last no longer than the plan allows,
  // nor beyond the contract.
  lemma StartHonoursTheContract(c: Calendar, s: State, step: Step)
    requires Inv(s) && step.Start? && step.id in s.sessions
    requires s.sessions[step.id].status == WAITING && Apply(c, s, step).sessions[step.id].status == LIVE
    ensures step.plan in s.subscriptions && InForce(s, step.plan)
        && s.subscriptions[step.plan].store == s.sessions[step.id].store
    ensures var x, p := Apply(c, s, step).sessions[step.id], s.subscriptions[step.plan];
            && x.startedAt == Some(s.now) && x.subscription == Some(step.plan) && x.deadline.Some?
            && x.current == Some(x.items[0]) && x.items == s.sessions[step.id].items
            && x.deadline.value <= p.endsAt && x.deadline.value <= s.now + p.duration * 60
            && (x.deadline.value == p.endsAt || x.deadline.value == s.now + p.duration * 60)
  {
    var t := Swept(s, s.sessions[step.id].store);
    assert t.sessions[step.id] == s.sessions[step.id];
  }

  // If no contract of a store ever allows more than a number of lives a month,
  // no month of any run has more starts than that.
  lemma {:induction false} MonthlyQuota(c: Calendar, steps: seq<Step>, store: nat, month: int, limit: nat)
    requires forall k | 0 <= k < |steps| && steps[k].SetSubscription? && steps[k].terms.store == store ::
        steps[k].terms.limit <= limit
    ensures |Starts(Exec(c, Initial(), steps), c, store, month)| <= limit
    ensures var s := Exec(c, Initial(), steps);
            forall sub | sub in s.subscriptions && s.subscriptions[sub].store == store ::
                s.subscriptions[sub].limit <= limit
  {
    if steps != [] {
      var n := |steps| - 1;
      var before, last := Exec(c, Initial(), steps[..n]), steps[n];
      forall k | 0 <= k < n && steps[..n][k].SetSubscription? && steps[..n][k].terms.store == store
        ensures steps[..n][k].terms.limit <= limit
      {
        assert steps[k].SetSubscription?;
      }
      MonthlyQuota(c, steps[..n], store, month, limit);
      RunKeepsInv(c, Initial(), steps[..n]);
      TermsStayWithin(c, before, last, store, limit);
      if last.Start? {
        StartsWithinQuota(c, before, last, store, month);
      } else {
        OnlyStartsStart(c, before, last, store, month);
      }
    }
  }

  lemma TermsStayWithin(c: Calendar, s: State, step: Step, store: nat, limit: nat)
    requires forall sub | sub in s.subscriptions && s.subscriptions[sub].store == store ::
        s.subscriptions[sub].limit <= limit
    requires step.SetSubscription? && step.terms.store == store ==> step.terms.limit <= limit
    ensures var s' := Apply(c, s, step);
            forall sub | sub in s'.subscriptions && s'.subscriptions[sub].store == store ::
                s'.subscriptions[sub].limit <= limit
  {}

  /// What each operation asks for and leaves

  // A contract of the store, active and neither to begin nor over.
  predicate Entitles(s: State, sub: nat, store: nat) {
    && sub in s.subscriptions
    && var p := s.subscriptions[sub];
    p.active && p.store == store && p.startsAt <= s.now && s.now < p.endsAt
  }

  predicate Listable(s: State, items: seq<nat>) {
    && 1 <= |items| <= 100
    && (forall k | 0 <= k < |items| :: items[k] in s.eligible)
    && forall j, k | 0 <= j < k < |items| :: items[j] != items[k]
  }

  // A session is over when its deadline has come or its contract no longer
  // entitles it, and ends at its deadline, or now if that is earlier.
  lemma EndedExactlyWhenOver(c: Calendar, s: State, store: nat, id: nat)
    requires Inv(s) && id in s.sessions
    ensures var x, s' := s.sessions[id], Apply(c, s, Expire(store));
            && s' == s.(sessions := s'.sessions) && s'.sessions.Keys == s.sessions.Keys
            && (if && x.store == store && x.status == LIVE
                   && (x.deadline.value <= s.now || x.subscription.None? || !Entitles(s, x.subscription.value, store))
                then s'.sessions[id] == x.(
                       status := ENDED, version := x.version + 1,
                       endedAt := Some(if x.deadline.value < s.now then x.deadline.value else s.now))
                else s'.sessions[id] == x)
  {}

  // Whatever is done to a store first ends its sessions that are over; what is
  // refused does not even do that.
  lemma EveryOperationExpires(c: Calendar, s: State, step: Step, store: nat, other: nat)
    requires step.Create? || step.Edit? || step.Start? || step.Highlight? || step.End?
    requires other in s.sessions && other != step.id
    requires if step.Create? then step.store == store else step.id in s.sessions && s.sessions[step.id].store == store
    ensures var s' := Apply(c, s, step);
            && other in s'.sessions && s' == s.(sessions := s'.sessions)
            && (s' != s ==> s'.sessions[other] == Apply(c, s, Expire(store)).sessions[other])
            && (step.id in s'.sessions && (step.id in s.sessions ==> s'.sessions[step.id] != s.sessions[step.id]) ==>
                  s'.sessions[other] == Apply(c, s, Expire(store)).sessions[other])
  {}

  lemma ClockRuns(c: Calendar, s: State, step: Step)
    ensures Apply(c, s, step).now == s.now + if step.Tick? then step.seconds else 0
  {}

  // A list is planned, or replaced before the start, under a contract in force.
  lemma PlannedExactlyWhen(c: Calendar, s: State, id: nat, store: nat, items: seq<nat>)
    requires id !in s.sessions
    ensures var s' := Apply(c, s, Create(id, store, items));
            && (id in s'.sessions <==> Listable(s, items) && exists sub :: Entitles(s, sub, store))
            && (id !in s'.sessions ==> s' == s)
            && (id in s'.sessions ==>
                  var x := s'.sessions[id];
                  x == Session(store, WAITING, 1, items, None, None, None, None, None))
  {
    ListableExactly(s, items);
    EntitledExactly(s, store);
  }

  lemma ListableExactly(s: State, items: seq<nat>)
    ensures ValidList(s, items) <==> Listable(s, items)
  {}

  lemma EntitledExactly(s: State, store: nat)
    ensures HasPlan(s, store) <==> exists sub :: Entitles(s, sub, store)
  {
    if sub :| Entitles(s, sub, store) {
      assert Covers(s, sub, store);
    }
    if HasPlan(s, store) {
      var sub :| sub in s.subscriptions && Covers(s, sub, store);
      assert Entitles(s, sub, store);
    }
  }

  lemma ReplannedExactlyWhen(c: Calendar, s: State, id: nat, expected: nat, items: seq<nat>)
    requires id in s.sessions
    ensures var x, s' := s.sessions[id], Apply(c, s, Edit(id, expected, items));
            if && x.status == WAITING && x.version == expected && Listable(s, items)
               && exists sub :: Entitles(s, sub, x.store)
            then id in s'.sessions && s'.sessions[id] == x.(items := items, version := expected + 1)
            else s' == s
  {
    ListableExactly(s, items);
    EntitledExactly(s, s.sessions[id].store);
  }

  // A waiting session starts, in the version expected, under the latest contract
  // of its store, with quota left, no other session running and its products on
  // sale in a public catalogue.
  lemma StartedExactlyWhen(c: Calendar, s: State, id: nat, expected: nat, plan: nat)
    requires Inv(s) && id in s.sessions
    ensures var x, s' := s.sessions[id], Apply(c, s, Start(id, expected, plan));
            && (s' != s <==>
                  && x.status == WAITING && x.version == expected && Entitles(s, plan, x.store)
                  && (forall sub | Entitles(s, sub, x.store) && sub != plan ::
                        || s.subscriptions[sub].startsAt < s.subscriptions[plan].startsAt
                        || (s.subscriptions[sub].startsAt == s.subscriptions[plan].startsAt && plan < sub))
                  && |Starts(s, c, x.store, c(s.now))| < s.subscriptions[plan].limit
                  && (forall other | other in s.sessions && s.sessions[other].store == x.store ::
                        Apply(c, s, Expire(x.store)).sessions[other].status != LIVE)
                  && x.store in s.published && Listable(s, x.items))
            && (s' != s ==> id in s'.sessions && s'.sessions[id].status == LIVE
                            && s'.sessions[id].version == x.version + 1)
  {
    var x := s.sessions[id];
    var t := Swept(s, x.store);
    assert t.sessions[id].status == WAITING <==> x.status == WAITING;
    SweptStarts(c, s, x.store, x.store, c(s.now));
    ListableExactly(t, x.items);
    CurrentExactly(s, x.store, plan);
    assert IsCurrent(t, x.store, plan) <==> IsCurrent(s, x.store, plan);
  }

  lemma CurrentExactly(s: State, store: nat, plan: nat)
    ensures IsCurrent(s, store, plan) <==>
              && Entitles(s, plan, store)
              && forall sub | Entitles(s, sub, store) && sub != plan ::
                   || s.subscriptions[sub].startsAt < s.subscriptions[plan].startsAt
                   || (s.subscriptions[sub].startsAt == s.subscriptions[plan].startsAt && plan < sub)
  {
    assert forall sub :: Covers(s, sub, store) <==> Entitles(s, sub, store);
  }

  // A session is ended by hand once, in the version its store's expiry left.
  lemma FinishedExactlyWhen(c: Calendar, s: State, id: nat, expected: nat)
    requires id in s.sessions
    ensures var x, s' := Apply(c, s, Expire(s.sessions[id].store)).sessions[id], Apply(c, s, End(id, expected));
            && id in s'.sessions
            && (x.version == expected && x.status != ENDED ==>
                  s'.sessions[id] == x.(status := ENDED, version := expected + 1, endedAt := Some(s.now)))
            && (x.version == expected && x.status == ENDED ==> s' == Apply(c, s, Expire(s.sessions[id].store)))
            && (x.version != expected ==> s' == s)
  {
    var t := Swept(s, s.sessions[id].store);
    assert t.sessions[id].status == ENDED ==> t.sessions == t.sessions[id := t.sessions[id]];
  }

  /// Main results: what is shown

  // The session is live, in the version expected, in a published store.
  ghost predicate Showing(s: State, id: nat, expected: nat) {
    && id in s.sessions
    && var x := Swept(s, s.sessions[id].store).sessions[id];
    x.version == expected && x.status == LIVE && s.sessions[id].store in s.published
  }

  // The session after a step shows this product, or none, and is the same otherwise.
  ghost predicate Shows(s: State, s': State, id: nat, product: Option<nat>)
    requires id in s.sessions
  {
    var x := Swept(s, s.sessions[id].store).sessions[id];
    && id in s'.sessions
    && s'.sessions[id] == x.(current := product, version := x.version + if product == x.current then 0 else 1)
  }

  // NEXT shows the first eligible product after the current one, or of the list if
  // none is shown, and is refused exactly when there is none.
  lemma NextShowsTheFirstAfter(c: Calendar, s: State, id: nat, expected: nat, i: int)
    requires Inv(s) && Showing(s, id, expected) && Position(s.sessions[id].items, s.sessions[id].current, i)
    ensures var x, s' := s.sessions[id], Apply(c, s, Highlight(id, expected, NEXT));
            && (forall j | FirstAfter(x.items, s.eligible, i, j) :: Shows(s, s', id, Some(x.items[j])))
            && ((forall j :: !FirstAfter(x.items, s.eligible, i, j)) ==> s' == s)
  {
    ForwardIsFirstAfter(s.sessions[id].items, s.eligible, s.sessions[id].current, i);
  }

  // PREVIOUS shows the last eligible product before it.
  lemma PreviousShowsTheLastBefore(c: Calendar, s: State, id: nat, expected: nat, i: int)
    requires Inv(s) && Showing(s, id, expected) && Position(s.sessions[id].items, s.sessions[id].current, i)
    ensures var x, s' := s.sessions[id], Apply(c, s, Highlight(id, expected, PREVIOUS));
            var n := if i < 0 then |x.items| else i;
            && (forall j | LastBefore(x.items, s.eligible, n, j) :: Shows(s, s', id, Some(x.items[j])))
            && ((forall j :: !LastBefore(x.items, s.eligible, n, j)) ==> s' == s)
  {
    BackwardIsLastBefore(s.sessions[id].items, s.eligible, s.sessions[id].current, i);
  }

  // A product is shown when chosen exactly if it is listed and eligible; hiding
  // shows none; and nothing is shown in a session that is not live in the version
  // expected.
  lemma ChosenAndHidden(c: Calendar, s: State, id: nat, expected: nat, product: nat)
    requires id in s.sessions
    ensures var chosen := Apply(c, s, Highlight(id, expected, SELECT(product)));
            var hidden := Apply(c, s, Highlight(id, expected, HIDE));
            if Showing(s, id, expected)
            then
              && Shows(s, hidden, id, None)
              && (if product in s.sessions[id].items && product in s.eligible then Shows(s, chosen, id, Some(product))
                  else chosen == s)
            else
              hidden == chosen == s && forall action :: Apply(c, s, Highlight(id, expected, action)) == s
  {}

  // NEXT pressed n times, each with the version the one before left.
  function Presses(id: nat, version: nat, n: nat): seq<Step> {
    seq(n, k requires 0 <= k < n => Highlight(id, version + k, NEXT))
  }

  lemma ExecPresses(c: Calendar, s: State, id: nat, version: nat, n: nat)
    ensures Exec(c, s, Presses(id, version, n))
         == if n == 0 then s
            else Apply(c, Exec(c, s, Presses(id, version, n - 1)), Highlight(id, version + n - 1, NEXT))
  {
    if n > 0 {
      assert Presses(id, version, n)[..n - 1] == Presses(id, version, n - 1);
    }
  }

  // The session still runs with its list, and shows the n-th eligible product.
  ghost predicate Pressed(s: State, s': State, id: nat, n: nat)
    requires id in s.sessions
  {
    var x, all := s.sessions[id], EligibleFrom(s.sessions[id].items, s.eligible, 0);
    && s'.eligible == s.eligible && Showing(s', id, x.version + n)
    && s'.sessions[id].items == x.items && s'.sessions[id].version == x.version + n
    && n <= |all| && s'.sessions[id].current == if n == 0 then None else Some(all[n - 1])
  }

  lemma OnePress(c: Calendar, s: State, id: nat, expected: nat)
    requires Showing(s, id, expected)
    ensures var x, after := s.sessions[id], Apply(c, s, Highlight(id, expected, NEXT));
            var p := Neighbour(x.items, s.eligible, x.current, true);
            if p.Some? && p != x.current
            then
              && after.eligible == s.eligible && Showing(after, id, expected + 1) && after.sessions[id].items == x.items
              && after.sessions[id].version == expected + 1 && after.sessions[id].current == p
            else p.None? ==> after == s
  {}

  lemma PressOnce(c: Calendar, s: State, s': State, id: nat, n: nat)
    requires id in s.sessions && Distinct(s.sessions[id].items) && Pressed(s, s', id, n)
    ensures var x, all := s.sessions[id], EligibleFrom(s.sessions[id].items, s.eligible, 0);
            var after := Apply(c, s', Highlight(id, x.version + n, NEXT));
            if n < |all| then Pressed(s, after, id, n + 1) else after == s'
  {
    var x, all := s.sessions[id], EligibleFrom(s.sessions[id].items, s.eligible, 0);
    var after := Apply(c, s', Highlight(id, x.version + n, NEXT));
    NextOfEligible(x.items, s.eligible, s'.sessions[id].current, n);
    if 0 < n < |all| {
      EligibleDiffer(x.items, s.eligible, 0, n - 1, n);
    }
    OnePress(c, s', id, x.version + n);
    assert after == s' || n < |all|;
  }

  // From nothing shown, NEXT shows exactly the eligible products of the list, in
  // their order, and is then refused.
  lemma {:induction false} NextShowsEligibleInOrder(c: Calendar, s: State, id: nat, n: nat)
    requires Inv(s) && id in s.sessions && Showing(s, id, s.sessions[id].version) && s.sessions[id].current.None?
    requires n <= |EligibleFrom(s.sessions[id].items, s.eligible, 0)|
    ensures var x, all := s.sessions[id], EligibleFrom(s.sessions[id].items, s.eligible, 0);
            var s' := Exec(c, s, Presses(id, x.version, n));
            && id in s'.sessions && s'.sessions[id].current == (if n == 0 then None else Some(all[n - 1]))
            && (n == |all| ==> Apply(c, s', Highlight(id, x.version + n, NEXT)) == s')
  {
    assert SessionInv(s.sessions[id], s.now);
    PressedTimes(c, s, id, n);
    PressOnce(c, s, Exec(c, s, Presses(id, s.sessions[id].version, n)), id, n);
  }

  lemma {:induction false} PressedTimes(c: Calendar, s: State, id: nat, n: nat)
    requires id in s.sessions && Distinct(s.sessions[id].items)
    requires Showing(s, id, s.sessions[id].version) && s.sessions[id].current.None?
    requires n <= |EligibleFrom(s.sessions[id].items, s.eligible, 0)|
    ensures Pressed(s, Exec(c, s, Presses(id, s.sessions[id].version, n)), id, n)
  {
    var version := s.sessions[id].version;
    ExecPresses(c, s, id, version, n);
    if n > 0 {
      PressedTimes(c, s, id, n - 1);
      PressOnce(c, s, Exec(c, s, Presses(id, version, n - 1)), id, n - 1);
    }
  }

  // From an eligible product, PREVIOUS after NEXT shows it again.
  lemma PreviousReturns(c: Calendar, s: State, id: nat)
    requires Inv(s) && id in s.sessions && Showing(s, id, s.sessions[id].version)
    requires s.sessions[id].current.Some? && s.sessions[id].current.value in s.eligible
    ensures var x := s.sessions[id];
            var next := Apply(c, s, Highlight(id, x.version, NEXT));
            next != s && id in next.sessions ==>
              var back := Apply(c, next, Highlight(id, next.sessions[id].version, PREVIOUS));
              id in back.sessions && back.sessions[id].current == x.current
  {
    PreviousUndoesNext(s.sessions[id].items, s.eligible, s.sessions[id].current.value);
  }

  /// The tables as the service updates them

  class LiveTables {
    const calendar: Calendar
    var now: int
    var sessions: map<nat, Session>
    var subscriptions: map<nat, Subscription>
    var eligible: set<nat>
    var published: set<nat>

    ghost function View(): State reads this { State(now, sessions, subscriptions, eligible, published) }

    constructor (c: Calendar)
      ensures calendar == c && View() == Initial()
    {
      calendar := c;
      now, sessions, subscriptions, eligible, published := 0, map[], map[], {}, {};
    }

    method ExpireStore(store: nat)
      modifies `sessions
      ensures View() == Apply(calendar, old(View()), Expire(store))
    {
      var s := State(now, sessions, subscriptions, eligible, published);
      sessions := map id | id in sessions ::
        if sessions[id].store == store && Expired(s, sessions[id])
        then sessions[id].(status := ENDED, version := sessions[id].version + 1,
                           endedAt := Some(if sessions[id].deadline.Some? then Min(now, sessions[id].deadline.value)
                             else now))
        else sessions[id];
    }

    // The maintenance of every store that has something to expire.
    method ExpireStores(stores: seq<nat>) returns (ghost steps: seq<Step>)
      modifies `sessions
      ensures View() == Exec(calendar, old(View()), steps)
          && steps == seq(|stores|, k requires 0 <= k < |stores| => Expire(stores[k]))
    {
      steps := [];
      for k := 0 to |stores|
        invariant View() == Exec(calendar, old(View()), steps)
        invariant steps == seq(k, j requires 0 <= j < k => Expire(stores[j]))
      {
        ExpireStore(stores[k]);
        ghost var all := steps + [Expire(stores[k])];
        assert all[..|all| - 1] == steps;
        steps := all;
      }
    }

    // The contract in force with the latest start, the first by identity among equals.
    method CurrentPlan(store: nat) returns (plan: Option<nat>)
      ensures plan.Some? <==> HasPlan(View(), store)
      ensures plan.Some? ==> IsCurrent(View(), store, plan.value)
    {
      var s := State(now, sessions, subscriptions, eligible, published);
      plan := None;
      var rest := subscriptions.Keys;
      while rest != {}
        invariant rest <= subscriptions.Keys
        invariant plan.Some? ==> plan.value in subscriptions && InForce(s, plan.value)
        invariant plan.Some? ==> subscriptions[plan.value].store == store
        invariant forall other | other in subscriptions.Keys - rest && subscriptions[other].store == store
            && InForce(s, other) ::
          && plan.Some?
          && (subscriptions[other].startsAt < subscriptions[plan.value].startsAt
              || (subscriptions[other].startsAt == subscriptions[plan.value].startsAt && plan.value <= other))
        decreases |rest|
      {
        var sub: nat :| sub in rest;
        rest := rest - {sub};
        if InForce(s, sub) && subscriptions[sub].store == store
           && (plan.None? || subscriptions[plan.value].startsAt < subscriptions[sub].startsAt
               || (subscriptions[plan.value].startsAt == subscriptions[sub].startsAt && sub < plan.value)) {
          plan := Some(sub);
        }
      }
    }

    // A session of another store is not found.
    predicate Known(id: nat, store: nat)
      reads this
    {
      id in sessions && sessions[id].store == store
    }

    // Replaces the list of a session that has not started, or plans a new one.
    method SaveLive(id: nat, store: nat, items: seq<nat>, expected: Option<nat>) returns (ok: bool)
      requires expected.None? ==> id !in sessions
      modifies `sessions
      ensures expected.None? ==> View() == Apply(calendar, old(View()), Create(id, store, items))
      ensures expected.Some? && old(Known(id, store)) ==>
          View() == Apply(calendar, old(View()), Edit(id, expected.value, items))
      ensures expected.Some? && !old(Known(id, store)) ==> !ok
      ensures ok ==> id in sessions && sessions[id].items == items && sessions[id].status == WAITING
      ensures !ok ==> View() == old(View())
    {
      ghost var before := View();
      var s := State(now, sessions, subscriptions, eligible, published);
      var plan := CurrentPlan(store);
      if plan.None? || !ValidList(s, items) { return false; }
      if expected.Some? {
        if !Known(id, store) { return false; }
        var x := AfterExpiry(s, sessions[id]);
        if x.version != expected.value || x.status != WAITING { return false; }
      }
      ExpireStore(store);
      var x := if expected.Some? then sessions[id].(version := sessions[id].version + 1, items := [])
      else Session(store, WAITING, 1, [], None, None, None, None, None);
      ghost var empty := x;
      for position := 0 to |items|
        invariant x == empty.(items := items[..position])
      {
        x := x.(items := x.items + [items[position]]);
      }
      assert items[..|items|] == items;
      sessions := sessions[id := x];
      return true;
    }

    method StartLive(id: nat, store: nat, expected: nat) returns (r: Result<nat>)
      modifies `sessions
      ensures r.Ok? ==> old(Known(id, store)) && id in sessions && sessions[id].status == LIVE
                        && View() == Apply(calendar, old(View()), Start(id, expected, r.value))
      ensures r.Err? ==> View() == old(View())
      ensures r.Err? && Known(id, store) ==> forall plan: nat ::
          !MayStart(Swept(View(), store), calendar, id, expected, plan)
    {
      if !Known(id, store) { return Err("not found"); }
      var s := State(now, sessions, subscriptions, eligible, published);
      var t := Swept(s, store);
      var x := t.sessions[id];
      if x.version != expected { return Err("version conflict"); }
      if x.status != WAITING { return Err("already started or ended"); }
      var plan := CurrentPlan(store);
      if plan.None? { return Err("no contract in force"); }
      var used := set other | other in t.sessions && t.sessions[other].store == store
                              && t.sessions[other].startedAt.Some?
                                  && calendar(t.sessions[other].startedAt.value) == calendar(now);
      assert used == Starts(t, calendar, store, calendar(now));
      OneCurrent(t, store, plan.value);
      if |used| >= subscriptions[plan.value].limit { return Err("monthly quota"); }
      if Running(t, store) { return Err("another live is running"); }
      if store !in published { return Err("catalogue not published"); }
      if !ValidList(t, x.items) { return Err("products"); }
      sessions := t.sessions[id := Started(t, id, plan.value)];
      return Ok(plan.value);
    }

    // The product an action leads to, if it is listed and may be shown.
    method ChooseProduct(x: Session, action: Action) returns (r: Result<Option<nat>>)
      ensures r.Ok? <==> Selected(View(), x, action).Ok?
      ensures r.Ok? ==> r.value == Selected(View(), x, action).value
    {
      var next: Option<nat> := None;
      if action.SELECT? {
        next := Some(action.product);
      } else if action != HIDE {
        var index := IndexOf(x.items, x.current);
        var candidates := if action == NEXT then x.items[index + 1..]
        else Reversed(if index < 0 then x.items else x.items[..index]);
        next := FirstEligible(candidates, eligible);
        if next.None? { return Err("no neighbour"); }
        NeighbourIsListed(x.items, eligible, x.current, action == NEXT);
      }
      if next.Some? && (next.value !in x.items || next.value !in eligible) { return Err("not available"); }
      return Ok(next);
    }

    method HighlightLive(id: nat, store: nat, expected: nat, action: Action) returns (r: Result<Option<nat>>)
      modifies `sessions
      ensures View() == if old(Known(id, store)) then Apply(calendar, old(View()), Highlight(id, expected, action))
          else old(View())
      ensures r.Ok? <==> old(Known(id, store)) && MayHighlight(Swept(old(View()), store), id, expected, action)
      ensures r.Ok? ==> id in sessions && sessions[id].current == r.value
    {
      if !Known(id, store) { return Err("not found"); }
      var s := State(now, sessions, subscriptions, eligible, published);
      var t := Swept(s, store);
      var x := t.sessions[id];
      if x.version != expected { return Err("version conflict"); }
      if x.status != LIVE { return Err("not live"); }
      if x.store !in published { return Err("catalogue not published"); }
      var chosen := ChooseProduct(x, action);
      if chosen.Err? { return chosen; }
      var next := chosen.value;
      if next != x.current {
        x := x.(current := next, version := x.version + 1);
      }
      sessions := t.sessions[id := x];
      return Ok(next);
    }

    method EndLive(id: nat, store: nat, expected: nat) returns (ok: bool)
      modifies `sessions
      ensures View() == if old(Known(id, store)) then Apply(calendar, old(View()), End(id, expected)) else old(View())
      ensures ok ==> id in sessions && sessions[id].status == ENDED
    {
      if !Known(id, store) { return false; }
      var s := State(now, sessions, subscriptions, eligible, published);
      var t := Swept(s, store);
      var x := t.sessions[id];
      if x.version != expected { return false; }
      if x.status != ENDED {
        x := x.(status := ENDED, endedAt := Some(now), version := x.version + 1);
      }
      sessions := t.sessions[id := x];
      return true;
    }
  }

  lemma OneCurrent(s: State, store: nat, sub: nat)
    requires IsCurrent(s, store, sub)
    ensures forall other | IsCurrent(s, store, other) :: other == sub
  {}
}
