/** External order status: its ranks, and what a stream of status events that
    may be late, repeated or out of order leaves behind. */
module IfoodStatus {
  import opened Wrappers

  datatype Status = PLACED | CONFIRMED | PREPARATION_STARTED | DISPATCHED | CONCLUDED | CANCELLED {
    function Rank(): nat {
      match this
      case PLACED => 0
      case CONFIRMED => 1
      case PREPARATION_STARTED => 2
      case DISPATCHED => 3
      case CONCLUDED => 4
      case CANCELLED => 5
    }
  }

  const CODES: map<string, Status> := map[
    "PLC" := PLACED, "PLACED" := PLACED, "CFM" := CONFIRMED, "CONFIRMED" := CONFIRMED,
    "PRP" := PREPARATION_STARTED, "PREPARATION_STARTED" := PREPARATION_STARTED,
    "DSP" := DISPATCHED, "DISPATCHED" := DISPATCHED,
    "CON" := CONCLUDED, "CONCLUDED" := CONCLUDED, "CAN" := CANCELLED, "CANCELLED" := CANCELLED]

  // The full code wins over the short one.
  function ExternalStatus(code: string, fullCode: string): Option<Status> {
    if fullCode in CODES then Some(CODES[fullCode])
    else if code in CODES then Some(CODES[code])
    else None
  }

  predicate Advances(previous: Status, next: Status) {
    if previous == CANCELLED then false
    else if previous == CONCLUDED then next == CANCELLED
    else next.Rank() >= previous.Rank()
  }

  datatype Event = Event(status: Status, at: int)
  datatype Progress = Unseen | Known(status: Status, at: int)

  // One status event against the stored order.
  function Observe(p: Progress, e: Event): Progress {
    match p
    case Unseen => Known(e.status, e.at)
    case Known(status, at) =>
      if e.at >= at && Advances(status, e.status) then Known(e.status, e.at) else p
  }

  function Replay(start: Progress, events: seq<Event>): Progress {
    if events == [] then start else Observe(Replay(start, events[..|events| - 1]), events[|events| - 1])
  }

  ghost predicate NotBefore(p: Progress, q: Progress) {
    p.Known? ==> q.Known? && p.status.Rank() <= q.status.Rank() && p.at <= q.at
  }

  // The codes the platform gives a status.
  function CodesOf(status: Status): set<string> {
    match status
    case PLACED => {"PLC", "PLACED"}
    case CONFIRMED => {"CFM", "CONFIRMED"}
    case PREPARATION_STARTED => {"PRP", "PREPARATION_STARTED"}
    case DISPATCHED => {"DSP", "DISPATCHED"}
    case CONCLUDED => {"CON", "CONCLUDED"}
    case CANCELLED => {"CAN", "CANCELLED"}
  }

  // An event means a status exactly by its full code or, if that means none, by
  // its short one.
  lemma MeansExactlyByCode(code: string, fullCode: string, status: Status)
    ensures ExternalStatus(code, fullCode) == Some(status) <==>
              || fullCode in CodesOf(status)
              || ((forall other :: fullCode !in CodesOf(other)) && code in CodesOf(status))
  {
    assert forall c: string, other :: c in CodesOf(other) <==> c in CODES && CODES[c] == other;
    assert fullCode in CODES ==> fullCode in CodesOf(CODES[fullCode]);
  }

  // What may follow a status, itself included.
  predicate MayFollow(previous: Status, next: Status) {
    match previous
    case PLACED => true
    case CONFIRMED => next != PLACED
    case PREPARATION_STARTED => next != PLACED && next != CONFIRMED
    case DISPATCHED => next == DISPATCHED || next == CONCLUDED || next == CANCELLED
    case CONCLUDED => next == CANCELLED
    case CANCELLED => false
  }

  // An order takes an event exactly when it is the first, or not older than its
  // status and of one that may follow it.
  lemma TakenExactlyWhen(p: Progress, e: Event)
    ensures Observe(p, e)
         == if p.Unseen? || (p.at <= e.at && MayFollow(p.status, e.status)) then Known(e.status, e.at) else p
  {}

  // With arbitrary timestamps the rank and the time of an order still never
  // decrease, and a cancelled order stays exactly as it is.
  lemma {:induction false} NeverRegresses(start: Progress, events: seq<Event>)
    ensures NotBefore(start, Replay(start, events))
    ensures start.Known? && start.status == CANCELLED ==> Replay(start, events) == start
  {
    if events != [] {
      NeverRegresses(start, events[..|events| - 1]);
    }
  }

  /// Which deliveries of the same events agree

  // An event that is both the most advanced and the latest.
  ghost predicate Dominates(top: Event, events: set<Event>) {
    && top in events
    && forall e | e in events :: e.status.Rank() <= top.status.Rank() && e.at <= top.at
  }

  ghost predicate TopIsLatest(events: set<Event>) {
    exists top :: Dominates(top, events)
  }

  // `order` delivers every event of the set at least once and nothing else.
  ghost predicate Delivers(order: seq<Event>, events: set<Event>) {
    forall e :: e in order <==> e in events
  }

  ghost predicate HasTopRank(p: Progress, events: set<Event>) {
    p.Known? && forall e | e in events :: e.status.Rank() <= p.status.Rank()
  }

  lemma {:induction false} DominatedReplay(order: seq<Event>, top: Event)
    requires forall e | e in order :: e.status.Rank() <= top.status.Rank() && e.at <= top.at
    ensures var p := Replay(Unseen, order);
            && (p.Known? ==> p.status.Rank() <= top.status.Rank() && p.at <= top.at)
            && (order != [] ==> p.Known?)
            && (top in order ==> p.Known? && p.status == top.status)
  {
    if order != [] {
      var earlier := order[..|order| - 1];
      DominatedReplay(earlier, top);
      assert order == earlier + [order[|order| - 1]];
    }
  }

  lemma {:induction false} LateLowEventBlocks(order: seq<Event>, low: Event, rank: nat)
    requires order != [] && order[0] == low && low.status.Rank() < rank
    requires forall e | e in order && e.status.Rank() >= rank :: e.at < low.at
    ensures var p := Replay(Unseen, order);
            p.Known? && p.at >= low.at && p.status.Rank() < rank
  {
    var earlier := order[..|order| - 1];
    assert order == earlier + [order[|order| - 1]];
    if earlier != [] {
      LateLowEventBlocks(earlier, low, rank);
    } else {
      assert Replay(Unseen, earlier) == Unseen;
    }
  }

  lemma {:induction false} SomeOrder(events: set<Event>) returns (order: seq<Event>)
    ensures Delivers(order, events)
  {
    if events == {} {
      order := [];
    } else {
      var e :| e in events;
      var rest := SomeOrder(events - {e});
      order := [e] + rest;
      assert forall x :: x in order <==> x == e || x in rest;
    }
  }

  lemma {:induction false} LatestEvent(events: set<Event>) returns (latest: Event)
    requires events != {}
    ensures latest in events && forall e | e in events :: e.at <= latest.at
  {
    var e :| e in events;
    if events == {e} {
      latest := e;
    } else {
      latest := LatestEvent(events - {e});
      assert events == (events - {e}) + {e};
      if latest.at < e.at {
        latest := e;
      }
    }
  }

  lemma {:induction false} TopEvent(events: set<Event>) returns (top: Event)
    requires events != {}
    ensures top in events && forall e | e in events :: e.status.Rank() <= top.status.Rank()
  {
    var e :| e in events;
    if events == {e} {
      top := e;
    } else {
      top := TopEvent(events - {e});
      assert events == (events - {e}) + {e};
      if top.status.Rank() < e.status.Rank() {
        top := e;
      }
    }
  }

  // The exact condition: every order of delivery, with any repetitions, ends in
  // the most advanced status if and only if one of the events with that status
  // is also not earlier than any other event.
  lemma OrderIndependentExactlyWhen(events: set<Event>)
    requires events != {}
    ensures (forall order | Delivers(order, events) :: HasTopRank(Replay(Unseen, order), events))
            <==> TopIsLatest(events)
  {
    if TopIsLatest(events) {
      var top :| Dominates(top, events);
      forall order | Delivers(order, events) ensures HasTopRank(Replay(Unseen, order), events) {
        DominatedReplay(order, top);
      }
    } else {
      var order := BlockingOrder(events);
    }
  }

  lemma BlockingOrder(events: set<Event>) returns (order: seq<Event>)
    requires events != {} && !TopIsLatest(events)
    ensures Delivers(order, events) && !HasTopRank(Replay(Unseen, order), events)
  {
    var low := LatestEvent(events);
    var top := TopEvent(events);
    assert !Dominates(low, events);
    var rest := SomeOrder(events);
    order := [low] + rest;
    assert forall e :: e in order <==> e == low || e in rest;
    forall e | e in order && e.status.Rank() >= top.status.Rank() ensures e.at < low.at {
      assert !Dominates(e, events);
    }
    LateLowEventBlocks(order, low, top.status.Rank());
  }

  // In particular it holds when a more advanced event is never earlier than a less advanced one.
  lemma RanksFollowTimeSuffices(events: set<Event>, order: seq<Event>)
    requires events != {} && Delivers(order, events)
    requires forall a, b | a in events && b in events && a.status.Rank() < b.status.Rank() :: a.at <= b.at
    ensures HasTopRank(Replay(Unseen, order), events)
  {
    var highest := TopEvent(events);
    var tops := set e | e in events && e.status.Rank() == highest.status.Rank();
    assert highest in tops;
    var top := LatestEvent(tops);
    assert Dominates(top, events);
    OrderIndependentExactlyWhen(events);
  }

  // The condition is needed: a confirmation stamped before the placement is
  // lost when the placement arrives first.
  lemma ReorderedTimestampsDisagree()
    ensures var placed, confirmed := Event(PLACED, 5), Event(CONFIRMED, 3);
            && Replay(Unseen, [placed, confirmed]) == Known(PLACED, 5)
            && Replay(Unseen, [confirmed, placed]) == Known(CONFIRMED, 3)
  {
    var placed, confirmed := Event(PLACED, 5), Event(CONFIRMED, 3);
    assert [placed, confirmed][..1] == [placed] && [confirmed, placed][..1] == [confirmed];
    assert Replay(Unseen, [placed]) == Known(PLACED, 5) && Replay(Unseen, [confirmed]) == Known(CONFIRMED, 3);
  }
}
