/** The leased outbox of notifications. Workers claim events for a time, may
    outlive their lease, crash, or lose the answer to their last update. */
module Outbox {
  import opened Wrappers
  import opened RetryDelay

  datatype Event = Event(attempts: nat, availableAt: int, processedAt: Option<int>, deadLetteredAt: Option<int>)

  // A worker with a claimed event: the attempts its claim returned, when its
  // lease ends, and whether its handler succeeded.
  datatype Work = Work(event: nat, attempts: nat, leaseEnd: int, handled: Option<bool>)

  datatype Config = Config(maxAttempts: nat, lease: nat, base: nat, max: nat)

  datatype State = State(
    now: int,
    events: map<nat, Event>,
    deadLetters: map<nat, nat>,     // by event: the attempts it failed with
    workers: map<nat, Work>,
    succeeded: set<nat>,            // events some handler finished without error
    superseded: set<nat>,           // events another flow withdrew
    crashes: map<nat, nat>)         // by event: workers that died or gave up holding it

  datatype Step =
    | Tick(seconds: nat)
    | Publish(id: nat)
    | Supersede(id: nat)
    | Claim(w: nat, id: nat)
    | Handle(w: nat, ok: bool)
    | MarkProcessed(w: nat, acknowledged: bool)  // the update commits; its answer may be lost
    | MarkRetry(w: nat, jitter: real)
    | Crash(w: nat)

  predicate ValidConfig(c: Config) {
    1 <= c.maxAttempts <= 20 && c.lease >= 30 && Settings(c.base, c.max)
  }

  predicate Claimable(s: State, id: nat) {
    id in s.events && s.events[id].processedAt.None? && s.events[id].availableAt <= s.now
  }

  function Crashes(s: State, id: nat): nat {
    if id in s.crashes then s.crashes[id] else 0
  }

  // The update after a failure: a dead letter at the last attempt, else another try later.
  function Failed(c: Config, s: State, w: Work, jitter: real): State
    requires w.event in s.events
  {
    var e := s.events[w.event];
    if w.attempts >= c.maxAttempts
    then s.(deadLetters := s.deadLetters[w.event := w.attempts],
            events := s.events[w.event := e.(processedAt := Some(s.now), deadLetteredAt := Some(s.now))])
    else s.(events := s.events[w.event := e.(processedAt := None, deadLetteredAt := None,
                                             availableAt := s.now + Delay(w.attempts, jitter, c.base, c.max))])
  }

  function Apply(c: Config, s: State, step: Step): State {
    match step
    case Tick(seconds) => s.(now := s.now + seconds)
    case Publish(id) =>
      if id !in s.events then s.(events := s.events[id := Event(0, s.now, None, None)]) else s
    case Supersede(id) =>
      if id in s.events && s.events[id].processedAt.None?
      then s.(events := s.events[id := s.events[id].(processedAt := Some(s.now))], superseded := s.superseded + {id})
          else s
    case Claim(w, id) =>
      if w !in s.workers && Claimable(s, id)
      then
        var e := s.events[id];
        s.(events := s.events[id := e.(attempts := e.attempts + 1, availableAt := s.now + c.lease)],
           workers := s.workers[w := Work(id, e.attempts + 1, s.now + c.lease, None)])
      else s
    case Handle(w, ok) =>
      if w in s.workers && s.workers[w].handled.None?
      then s.(workers := s.workers[w := s.workers[w].(handled := Some(ok))],
              succeeded := if ok then s.succeeded + {s.workers[w].event} else s.succeeded)
      else s
    case MarkProcessed(w, acknowledged) =>
      if w in s.workers && s.workers[w].handled == Some(true) && s.workers[w].event in s.events
      then
        var id := s.workers[w].event;
        s.(events := s.events[id := s.events[id].(processedAt := Some(s.now))],
           workers := if acknowledged then s.workers - {w} else s.workers)
      else s
    case MarkRetry(w, jitter) =>
      if w in s.workers && s.workers[w].handled.Some? && s.workers[w].event in s.events && Jitter(jitter)
      then Failed(c, s, s.workers[w], jitter).(workers := s.workers - {w}) else s
    case Crash(w) =>
      if w in s.workers
      then s.(workers := s.workers - {w},
          crashes := s.crashes[s.workers[w].event := Crashes(s, s.workers[w].event) + 1]) else s
  }

  function Initial(): State { State(0, map[], map[], map[], {}, {}, map[]) }

  function Exec(c: Config, s: State, steps: seq<Step>): State {
    if steps == [] then s else Apply(c, Exec(c, s, steps[..|steps| - 1]), steps[|steps| - 1])
  }

  /// When each step takes effect

  // An event is taken exactly while it is not processed and its time has come, and
  // is leased to the worker who takes it.
  lemma ClaimedExactlyWhen(c: Config, s: State, w: nat, id: nat)
    requires w !in s.workers
    ensures Apply(c, s, Claim(w, id))
         == if id in s.events && s.events[id].processedAt.None? && s.events[id].availableAt <= s.now
            then
              var attempts := s.events[id].attempts + 1;
              s.(events := s.events[id := s.events[id].(attempts := attempts, availableAt := s.now + c.lease)],
                 workers := s.workers[w := Work(id, attempts, s.now + c.lease, None)])
            else s
  {}

  // A success marks the event whoever holds it; a failure gives it a later try, or
  // a dead letter after the last attempt.
  lemma MarkedExactly(c: Config, s: State, w: nat, jitter: real)
    requires ValidConfig(c) && Jitter(jitter) && w in s.workers && s.workers[w].event in s.events
    ensures var id, work := s.workers[w].event, s.workers[w];
            var done, failed := Apply(c, s, MarkProcessed(w, true)), Apply(c, s, MarkRetry(w, jitter));
            && done == (if work.handled == Some(true)
                        then s.(events := s.events[id := s.events[id].(processedAt := Some(s.now))],
                                workers := s.workers - {w})
                        else s)
            && (work.handled.None? ==> failed == s)
            && (work.handled.Some? ==>
                  && failed.workers == s.workers - {w}
                  && if work.attempts < c.maxAttempts
                     then
                       && failed.deadLetters == s.deadLetters && failed.events.Keys == s.events.Keys
                       && failed.events[id].processedAt.None? && failed.events[id].deadLetteredAt.None?
                       && failed.events[id].attempts == s.events[id].attempts
                       && s.now + Exponential(work.attempts, c.base, c.max) <= failed.events[id].availableAt
                       && failed.events[id].availableAt <= s.now + c.max
                     else
                       && failed.deadLetters == s.deadLetters[id := work.attempts]
                       && failed.events == s.events[id := s.events[id].(processedAt := Some(s.now),
                                                                        deadLetteredAt := Some(s.now))])
  {
    DelayIsBounded(s.workers[w].attempts, jitter, c.base, c.max);
  }

  // A handler answers once, and a worker that dies lets go and writes nothing.
  lemma HandledAndCrashed(c: Config, s: State, w: nat, ok: bool)
    requires w in s.workers
    ensures var work, handled, dead := s.workers[w], Apply(c, s, Handle(w, ok)), Apply(c, s, Crash(w));
            && handled == (if work.handled.Some? then s
                           else s.(workers := s.workers[w := work.(handled := Some(ok))],
                                   succeeded := s.succeeded + if ok then {work.event} else {}))
            && dead.workers == s.workers - {w} && dead.events == s.events && dead.deadLetters == s.deadLetters
            && Crashes(dead, work.event) == Crashes(s, work.event) + 1
  {}

  // An event is published once, open and at once available, and withdrawn only
  // while it is open.
  lemma PublishedAndWithdrawn(c: Config, s: State, id: nat)
    ensures Apply(c, s, Publish(id))
         == if id in s.events then s else s.(events := s.events[id := Event(0, s.now, None, None)])
    ensures Apply(c, s, Supersede(id))
         == if id in s.events && s.events[id].processedAt.None?
            then s.(events := s.events[id := s.events[id].(processedAt := Some(s.now))],
                    superseded := s.superseded + {id})
            else s
  {}

  /// What holds in every interleaving

  ghost predicate EventInv(c: Config, s: State, id: nat)
    requires id in s.events
  {
    && (s.events[id].processedAt.Some? ==> id in s.succeeded || id in s.deadLetters || id in s.superseded)
    && s.events[id].availableAt <= s.now + (if c.lease > c.max then c.lease else c.max)
  }

  ghost predicate Inv(c: Config, s: State) {
    && (forall id | id in s.events :: EventInv(c, s, id))
    && (forall id | id in s.deadLetters :: id in s.events && s.deadLetters[id] >= c.maxAttempts)
    && (forall w | w in s.workers :: s.workers[w].event in s.events
                                     && (s.workers[w].handled == Some(true) ==> s.workers[w].event in s.succeeded))
  }

  lemma RetryKeepsInv(c: Config, s: State, w: nat, jitter: real)
    requires ValidConfig(c) && Inv(c, s)
    ensures Inv(c, Apply(c, s, MarkRetry(w, jitter)))
  {
    if w in s.workers && Jitter(jitter) {
      DelayIsBounded(s.workers[w].attempts, jitter, c.base, c.max);
    }
  }

  lemma OthersKeepInv(c: Config, s: State, step: Step)
    requires ValidConfig(c) && Inv(c, s) && !step.MarkRetry?
    ensures Inv(c, Apply(c, s, step))
  {
    var s' := Apply(c, s, step);
    forall id | id in s'.events ensures EventInv(c, s', id) {
      if id in s.events {
        assert EventInv(c, s, id);
      }
    }
  }

  lemma {:induction false} RunKeepsInv(c: Config, steps: seq<Step>)
    requires ValidConfig(c)
    ensures Inv(c, Exec(c, Initial(), steps))
  {
    if steps != [] {
      var before, last := Exec(c, Initial(), steps[..|steps| - 1]), steps[|steps| - 1];
      RunKeepsInv(c, steps[..|steps| - 1]);
      if last.MarkRetry? {
        RetryKeepsInv(c, before, last.w, last.jitter);
      } else {
        OthersKeepInv(c, before, last);
      }
    }
  }

  // No event is lost, whatever leases are overrun: one that is marked processed
  // was handled successfully, has a dead letter, or was withdrawn by its publisher.
  lemma NothingIsLost(c: Config, steps: seq<Step>, id: nat)
    requires ValidConfig(c) && id in Exec(c, Initial(), steps).events
    ensures var s := Exec(c, Initial(), steps);
            && (s.events[id].processedAt.Some? ==> id in s.succeeded || id in s.deadLetters || id in s.superseded)
            && (id in s.deadLetters ==> s.deadLetters[id] >= c.maxAttempts)
  {
    RunKeepsInv(c, steps);
    assert EventInv(c, Exec(c, Initial(), steps), id);
  }

  // An unprocessed event can be claimed again after the longer of a lease and
  // the largest retry delay, whoever still holds it.
  lemma NothingWaitsForever(c: Config, steps: seq<Step>, id: nat, wait: nat, w: nat)
    requires ValidConfig(c) && wait >= c.lease && wait >= c.max
    requires var s := Exec(c, Initial(), steps); id in s.events && s.events[id].processedAt.None? && w !in s.workers
    ensures var s := Exec(c, Initial(), steps);
            var claimed := Apply(c, Apply(c, s, Tick(wait)), Claim(w, id));
            w in claimed.workers && claimed.workers[w].event == id
              && claimed.workers[w].attempts == s.events[id].attempts + 1
  {
    RunKeepsInv(c, steps);
    assert EventInv(c, Exec(c, Initial(), steps), id);
  }

  // A failed event waits at least the exponential delay of its attempt, and at
  // its last attempt it has a dead letter instead.
  lemma FailureBacksOff(c: Config, s: State, w: nat, jitter: real, wait: nat)
    requires ValidConfig(c) && w in s.workers && s.workers[w].handled.Some? && s.workers[w].event in s.events
        && Jitter(jitter)
    ensures var id, attempts, after := s.workers[w].event, s.workers[w].attempts, Apply(c, s, MarkRetry(w, jitter));
            if attempts >= c.maxAttempts
            then after.events[id].processedAt == Some(s.now) && after.deadLetters == s.deadLetters[id := attempts]
            else && (wait < Exponential(attempts, c.base, c.max) ==> !Claimable(Apply(c, after, Tick(wait)), id))
                 && (wait >= c.max ==> Claimable(Apply(c, after, Tick(wait)), id))
  {
    DelayIsBounded(s.workers[w].attempts, jitter, c.base, c.max);
  }

  // The event waits for its next try and nobody works on it.
  predicate Waits(s: State, id: nat, until: int) {
    && id in s.events && (s.events[id].processedAt.Some? || s.events[id].availableAt >= until)
    && forall w | w in s.workers :: s.workers[w].event != id
  }

  lemma WaitsStep(c: Config, s: State, step: Step, id: nat, until: int)
    requires Waits(s, id, until) && Apply(c, s, step).now < until
    ensures Waits(Apply(c, s, step), id, until) && Apply(c, s, step).now >= s.now
  {}

  lemma {:induction false} WaitsOn(c: Config, s: State, more: seq<Step>, id: nat, until: int)
    requires Waits(s, id, until) && Exec(c, s, more).now < until
    ensures Waits(Exec(c, s, more), id, until)
  {
    if more != [] {
      var before := Exec(c, s, more[..|more| - 1]);
      assert before.now <= Apply(c, before, more[|more| - 1]).now;
      WaitsOn(c, s, more[..|more| - 1], id, until);
      WaitsStep(c, before, more[|more| - 1], id, until);
    }
  }

  // After a failure nobody takes the event, over any further run, before the
  // exponential delay of its attempt is over, and after its last attempt it is a
  // dead letter for good, unless another worker holds it still.
  lemma NotRetriedBeforeItsDelay(c: Config, s: State, w: nat, jitter: real, more: seq<Step>)
    requires ValidConfig(c) && Jitter(jitter)
    requires w in s.workers && s.workers[w].handled.Some? && s.workers[w].event in s.events
    requires forall v | v in s.workers && v != w :: s.workers[v].event != s.workers[w].event
    ensures var id, attempts := s.workers[w].event, s.workers[w].attempts;
            var failed := Apply(c, s, MarkRetry(w, jitter));
            var after := Exec(c, failed, more);
            && (after.now < s.now + Exponential(attempts, c.base, c.max) ==>
                 !Claimable(after, id) && forall v | v in after.workers :: after.workers[v].event != id)
            && (attempts >= c.maxAttempts ==>
                 && failed.deadLetters == s.deadLetters[id := attempts]
                 && id in after.events && after.events[id] == failed.events[id]
                 && after.events[id].processedAt == Some(s.now))
  {
    var id, attempts := s.workers[w].event, s.workers[w].attempts;
    var failed := Apply(c, s, MarkRetry(w, jitter));
    var until := s.now + Exponential(attempts, c.base, c.max);
    DelayIsBounded(attempts, jitter, c.base, c.max);
    FailureBacksOff(c, s, w, jitter, 0);
    if Exec(c, failed, more).now < until {
      WaitsOn(c, failed, more, id, until);
    }
    if attempts >= c.maxAttempts {
      FinishedIsFinal(c, failed, more, id);
    }
  }

  lemma EventsStay(c: Config, s: State, step: Step, id: nat)
    requires id in s.events
    ensures id in Apply(c, s, step).events && s.events[id].attempts <= Apply(c, s, step).events[id].attempts
  {}

  /// What holds while every worker finishes within its lease

  ghost predicate InTime(s: State) {
    forall w | w in s.workers :: s.now < s.workers[w].leaseEnd
  }

  ghost predicate RunInTime(c: Config, s: State, steps: seq<Step>) {
    forall k | 0 <= k <= |steps| :: InTime(Exec(c, s, steps[..k]))
  }

  ghost predicate Held(s: State, id: nat) {
    exists w :: w in s.workers && s.workers[w].event == id
  }

  ghost predicate LeaseInv(c: Config, s: State) {
    && (forall w | w in s.workers ::
          && s.workers[w].event in s.events
          && s.events[s.workers[w].event].availableAt == s.workers[w].leaseEnd
          && s.events[s.workers[w].event].attempts == s.workers[w].attempts)
    && (forall v, w | v in s.workers && w in s.workers && s.workers[v].event == s.workers[w].event :: v == w)
  }

  ghost predicate ClaimsOf(c: Config, s: State, id: nat)
    requires id in s.events
  {
    && s.events[id].attempts <= c.maxAttempts + Crashes(s, id)
    && (s.events[id].processedAt.None? && !Held(s, id) ==> s.events[id].attempts < c.maxAttempts + Crashes(s, id))
  }

  ghost predicate ClaimsInv(c: Config, s: State) {
    forall id | id in s.events :: ClaimsOf(c, s, id)
  }

  lemma StepKeepsLeases(c: Config, s: State, step: Step)
    requires InTime(s) && LeaseInv(c, s)
    ensures LeaseInv(c, Apply(c, s, step))
  {}

  lemma StillHeld(s: State, s': State, id: nat)
    requires forall w | w in s.workers && s.workers[w].event == id :: w in s'.workers && s'.workers[w].event == id
    ensures Held(s, id) ==> Held(s', id)
  {
    if Held(s, id) {
      var w :| w in s.workers && s.workers[w].event == id;
      assert s'.workers[w].event == id;
    }
  }

  lemma ClaimKeepsClaimsOf(c: Config, s: State, w: nat, other: nat, id: nat)
    requires c.maxAttempts >= 1 && InTime(s) && LeaseInv(c, s) && id in s.events && ClaimsOf(c, s, id)
    ensures id in Apply(c, s, Claim(w, other)).events && ClaimsOf(c, Apply(c, s, Claim(w, other)), id)
  {
    var s' := Apply(c, s, Claim(w, other));
    if s' != s && other == id {
      forall v | v in s.workers ensures s.workers[v].event != id {}
      assert s'.workers[w].event == id;
    } else {
      StillHeld(s, s', id);
    }
  }

  // The update or the crash of a worker that holds another event, or none.
  lemma ReleaseKeepsClaimsOf(c: Config, s: State, step: Step, id: nat)
    requires c.maxAttempts >= 1 && InTime(s) && LeaseInv(c, s) && id in s.events && ClaimsOf(c, s, id)
    requires step.MarkProcessed? || step.MarkRetry? || step.Crash?
    ensures id in Apply(c, s, step).events && ClaimsOf(c, Apply(c, s, step), id)
  {
    if step.w !in s.workers || s.workers[step.w].event != id {
      StillHeld(s, Apply(c, s, step), id);
    }
  }

  lemma StepKeepsClaimsOf(c: Config, s: State, step: Step, id: nat)
    requires c.maxAttempts >= 1 && InTime(s) && LeaseInv(c, s) && id in s.events && ClaimsOf(c, s, id)
    ensures id in Apply(c, s, step).events && ClaimsOf(c, Apply(c, s, step), id)
  {
    if step.Claim? {
      ClaimKeepsClaimsOf(c, s, step.w, step.id, id);
    } else if step.MarkProcessed? || step.MarkRetry? || step.Crash? {
      ReleaseKeepsClaimsOf(c, s, step, id);
    } else {
      StillHeld(s, Apply(c, s, step), id);
    }
  }

  lemma StepKeepsClaims(c: Config, s: State, step: Step)
    requires c.maxAttempts >= 1 && InTime(s) && LeaseInv(c, s) && ClaimsInv(c, s)
    ensures ClaimsInv(c, Apply(c, s, step))
  {
    var s' := Apply(c, s, step);
    forall id | id in s'.events ensures ClaimsOf(c, s', id) {
      if id in s.events {
        StepKeepsClaimsOf(c, s, step, id);
      }
    }
  }

  lemma RunInTimePrefix(c: Config, s: State, steps: seq<Step>, n: nat)
    requires RunInTime(c, s, steps) && n <= |steps|
    ensures RunInTime(c, s, steps[..n])
    ensures InTime(Exec(c, s, steps[..n]))
  {
    forall k | 0 <= k <= n ensures InTime(Exec(c, s, steps[..n][..k])) {
      assert steps[..n][..k] == steps[..k];
    }
  }

  lemma {:induction false} RunKeepsLeases(c: Config, s: State, steps: seq<Step>)
    requires c.maxAttempts >= 1 && RunInTime(c, s, steps) && LeaseInv(c, s) && ClaimsInv(c, s)
    ensures LeaseInv(c, Exec(c, s, steps)) && ClaimsInv(c, Exec(c, s, steps))
  {
    if steps != [] {
      var n := |steps| - 1;
      RunInTimePrefix(c, s, steps, n);
      RunKeepsLeases(c, s, steps[..n]);
      StepKeepsLeases(c, Exec(c, s, steps[..n]), steps[n]);
      StepKeepsClaims(c, Exec(c, s, steps[..n]), steps[n]);
    }
  }

  // An event is claimed at most the configured number of times, plus once for
  // every crash while it was held, and never by two workers at once.
  lemma ClaimsAreBounded(c: Config, steps: seq<Step>, id: nat)
    requires ValidConfig(c) && RunInTime(c, Initial(), steps) && id in Exec(c, Initial(), steps).events
    ensures var s := Exec(c, Initial(), steps);
            && s.events[id].attempts <= c.maxAttempts + Crashes(s, id)
            && forall v, w | v in s.workers && w in s.workers && s.workers[v].event == s.workers[w].event == id ::
                v == w
  {
    RunKeepsLeases(c, Initial(), steps);
  }

  // Processed, and no worker still about to write.
  ghost predicate Finished(s: State, id: nat) {
    id in s.events && s.events[id].processedAt.Some? && !Held(s, id)
  }

  lemma FinishedStep(c: Config, s: State, step: Step, id: nat)
    requires Finished(s, id)
    ensures Finished(Apply(c, s, step), id) && Apply(c, s, step).events[id] == s.events[id]
  {
    var s' := Apply(c, s, step);
    forall w | w in s'.workers ensures s'.workers[w].event != id {
      if w in s.workers {
        assert s.workers[w].event != id;
      }
    }
  }

  // Once a worker's last update of an event is acknowledged, in a run where
  // leases are kept, the event is finished, and what is finished is final.
  lemma {:induction false} FinishedIsFinal(c: Config, s: State, more: seq<Step>, id: nat)
    requires Finished(s, id)
    ensures Finished(Exec(c, s, more), id) && Exec(c, s, more).events[id] == s.events[id]
  {
    if more != [] {
      FinishedIsFinal(c, s, more[..|more| - 1], id);
      FinishedStep(c, Exec(c, s, more[..|more| - 1]), more[|more| - 1], id);
    }
  }

  lemma AcknowledgedIsFinished(c: Config, steps: seq<Step>, w: nat, more: seq<Step>)
    requires ValidConfig(c) && RunInTime(c, Initial(), steps)
    requires w in Exec(c, Initial(), steps).workers && Exec(c, Initial(), steps).workers[w].handled == Some(true)
    ensures var s := Exec(c, Initial(), steps);
            var marked := Apply(c, s, MarkProcessed(w, true));
            && Finished(marked, s.workers[w].event)
            && Exec(c, marked, more).events.Keys >= {s.workers[w].event}
            && Exec(c, marked, more).events[s.workers[w].event].processedAt == Some(s.now)
  {
    RunKeepsLeases(c, Initial(), steps);
    var s := Exec(c, Initial(), steps);
    FinishedIsFinal(c, Apply(c, s, MarkProcessed(w, true)), more, s.workers[w].event);
  }

  /// When processed is final, exactly

  predicate Processed(s: State, id: nat) {
    id in s.events && s.events[id].processedAt.Some?
  }

  // Whoever still holds the event is at its last attempt.
  ghost predicate LastAttempts(c: Config, s: State, id: nat) {
    forall w | w in s.workers && s.workers[w].event == id :: s.workers[w].attempts >= c.maxAttempts
  }

  lemma LastAttemptsStep(c: Config, s: State, step: Step, id: nat)
    requires Processed(s, id) && LastAttempts(c, s, id)
    ensures Processed(Apply(c, s, step), id) && LastAttempts(c, Apply(c, s, step), id)
  {
    EventsStay(c, s, step, id);
    var s' := Apply(c, s, step);
    forall w | w in s'.workers && s'.workers[w].event == id ensures s'.workers[w].attempts >= c.maxAttempts {
      assert w in s.workers && s.workers[w].event == id;
    }
  }

  lemma {:induction false} LastAttemptsStay(c: Config, s: State, more: seq<Step>, id: nat)
    requires Processed(s, id) && LastAttempts(c, s, id)
    ensures Processed(Exec(c, s, more), id) && LastAttempts(c, Exec(c, s, more), id)
  {
    if more != [] {
      LastAttemptsStay(c, s, more[..|more| - 1], id);
      LastAttemptsStep(c, Exec(c, s, more[..|more| - 1]), more[|more| - 1], id);
    }
  }

  // A holder with attempts left reopens the event by failing.
  lemma HolderReopens(c: Config, s: State, w: nat) returns (more: seq<Step>)
    requires w in s.workers && s.workers[w].attempts < c.maxAttempts && s.workers[w].event in s.events
    ensures !Processed(Exec(c, s, more), s.workers[w].event)
  {
    more := [Handle(w, false), MarkRetry(w, 0.0)];
    assert more[..1] == [Handle(w, false)] && more[..1][..0] == [];
    assert Exec(c, s, more[..1]) == Apply(c, s, Handle(w, false));
  }

  // A processed event stays processed, whatever happens next, if and only if
  // every worker that still holds it is at its last attempt.
  lemma ProcessedForGoodExactlyWhen(c: Config, s: State, id: nat)
    requires Processed(s, id)
    ensures (forall more: seq<Step> :: Processed(Exec(c, s, more), id)) <==> LastAttempts(c, s, id)
  {
    if LastAttempts(c, s, id) {
      forall more: seq<Step> ensures Processed(Exec(c, s, more), id) {
        LastAttemptsStay(c, s, more, id);
      }
    } else {
      var w :| w in s.workers && s.workers[w].event == id && s.workers[w].attempts < c.maxAttempts;
      var more := HolderReopens(c, s, w);
    }
  }

  // In particular, an acknowledged success is processed for good if and only if
  // every other holder, each past its lease, is at its last attempt.
  lemma AcknowledgedForGoodExactlyWhen(c: Config, s: State, w: nat)
    requires w in s.workers && s.workers[w].handled == Some(true) && s.workers[w].event in s.events
    ensures var id, marked := s.workers[w].event, Apply(c, s, MarkProcessed(w, true));
            (forall more: seq<Step> :: Processed(Exec(c, marked, more), id))
            <==> (forall v | v in s.workers && v != w && s.workers[v].event == id ::
              s.workers[v].attempts >= c.maxAttempts)
  {
    var id, marked := s.workers[w].event, Apply(c, s, MarkProcessed(w, true));
    ProcessedForGoodExactlyWhen(c, marked, id);
    assert marked.workers == s.workers - {w};
    if LastAttempts(c, marked, id) {
      forall v | v in s.workers && v != w && s.workers[v].event == id ensures s.workers[v].attempts >= c.maxAttempts {
        assert v in marked.workers && marked.workers[v] == s.workers[v];
      }
    }
  }

  // The condition can fail: a worker with attempts left that overran its lease
  // reopens an event that another one finished and marked.
  lemma OverrunReopens(c: Config, jitter: real)
    requires ValidConfig(c) && c.maxAttempts >= 2 && Jitter(jitter)
    ensures var first := Apply(c, Apply(c, Apply(c, Initial(), Publish(0)), Claim(1, 0)), Tick(c.lease));
            var second := Apply(c, Apply(c, Apply(c, first, Claim(2, 0)), Handle(2, true)), MarkProcessed(2, true));
            var late := Apply(c, Apply(c, second, Handle(1, false)), MarkRetry(1, jitter));
            && second.events[0].processedAt.Some?
            && late.events[0].processedAt.None? && !Held(late, 0)
  {}

  lemma ExecStep(c: Config, s: State, steps: seq<Step>, step: Step)
    ensures Exec(c, s, steps + [step]) == Apply(c, Exec(c, s, steps), step)
  {
    assert (steps + [step])[..|steps|] == steps;
  }

  lemma {:induction false} ExecConcat(c: Config, s: State, first: seq<Step>, second: seq<Step>)
    ensures Exec(c, s, first + second) == Exec(c, Exec(c, s, first), second)
  {
    if second == [] {
      assert first + second == first;
    } else {
      var last := |second| - 1;
      ExecConcat(c, s, first, second[..last]);
      ExecStep(c, s, first + second[..last], second[last]);
      assert first + second == first + second[..last] + [second[last]];
    }
  }

  /// The outbox as a worker updates it

  // What happens to one claimed event: its handler, whether the success could be
  // stored, and the jitter of its identity and attempt.
  datatype Turn = Turn(ok: bool, stored: bool, jitter: real)

  // How the worker concludes a turn.
  function Conclusion(w: nat, t: Turn): Step {
    if t.ok && t.stored then MarkProcessed(w, true) else MarkRetry(w, t.jitter)
  }

  function TurnSteps(w: nat, id: nat, t: Turn): seq<Step> {
    [Claim(w, id), Handle(w, t.ok), Conclusion(w, t)]
  }

  lemma ExecTurn(c: Config, s: State, w: nat, id: nat, t: Turn)
    ensures Exec(c, s, TurnSteps(w, id, t))
         == Apply(c, Apply(c, Apply(c, s, Claim(w, id)), Handle(w, t.ok)), Conclusion(w, t))
  {
    var steps := TurnSteps(w, id, t);
    assert steps[..2] == [Claim(w, id), Handle(w, t.ok)] && steps[..2][..1] == [Claim(w, id)];
    assert Exec(c, s, steps[..2][..1]) == Apply(c, s, Claim(w, id)) by {
      assert steps[..2][..1][..0] == [];
    }
  }

  // One turn closes the event exactly when its handler succeeded and that could be
  // stored; otherwise it is open for a later try, or a dead letter after the last.
  lemma TurnEndsExactly(c: Config, s: State, w: nat, id: nat, t: Turn)
    requires ValidConfig(c) && Jitter(t.jitter) && w !in s.workers
    requires id in s.events && s.events[id].processedAt.None? && s.events[id].availableAt <= s.now
    ensures var e, s' := s.events[id], Exec(c, s, TurnSteps(w, id, t));
            && s'.workers == s.workers && id in s'.events && s'.events[id].attempts == e.attempts + 1
            && s'.succeeded == s.succeeded + (if t.ok then {id} else {})
            && (if t.ok && t.stored
                then s'.events[id].processedAt == Some(s.now) && s'.deadLetters == s.deadLetters
                else if e.attempts + 1 < c.maxAttempts
                then && s'.events[id].processedAt.None? && s'.deadLetters == s.deadLetters
                     && s.now < s'.events[id].availableAt <= s.now + c.max
                else s'.events[id].processedAt == Some(s.now) && s'.deadLetters == s.deadLetters[id := e.attempts + 1])
  {
    var handled := Apply(c, Apply(c, s, Claim(w, id)), Handle(w, t.ok));
    ExecTurn(c, s, w, id, t);
    TurnHandled(c, s, w, id, t);
    MarkedExactly(c, handled, w, t.jitter);
    ExponentialAtLeastOne(s.events[id].attempts + 1, c.base, c.max);
  }

  lemma TurnHandled(c: Config, s: State, w: nat, id: nat, t: Turn)
    requires w !in s.workers && Claimable(s, id)
    ensures var e, handled := s.events[id], Apply(c, Apply(c, s, Claim(w, id)), Handle(w, t.ok));
            && w in handled.workers && handled.workers - {w} == s.workers
            && handled.workers[w] == Work(id, e.attempts + 1, s.now + c.lease, Some(t.ok))
            && id in handled.events
            && handled.events[id] == e.(attempts := e.attempts + 1, availableAt := s.now + c.lease)
            && handled.now == s.now && handled.deadLetters == s.deadLetters
            && handled.succeeded == s.succeeded + (if t.ok then {id} else {})
  {
    var claimed := Apply(c, s, Claim(w, id));
    assert claimed.workers - {w} == s.workers;
    assert Apply(c, claimed, Handle(w, t.ok)).workers - {w} == s.workers;
  }

  datatype Tally = Tally(processed: nat, retried: nat, deadLettered: nat)

  class OutboxTable {
    const config: Config
    var now: int
    var events: map<nat, Event>
    var order: seq<nat>  // event ids as they occurred
    var deadLetters: map<nat, nat>
    ghost var workers: map<nat, Work>
    ghost var succeeded: set<nat>
    ghost var superseded: set<nat>
    ghost var crashes: map<nat, nat>

    ghost function View(): State reads this { State(now, events, deadLetters, workers, succeeded, superseded, crashes) }

    ghost predicate Valid() reads this {
      ValidConfig(config) && forall id :: id in order <==> id in events
    }

    constructor (c: Config)
      requires ValidConfig(c)
      ensures Valid() && config == c && View() == Initial()
    {
      config := c;
      now, events, order, deadLetters := 0, map[], [], map[];
      workers, succeeded, superseded, crashes := map[], {}, {}, map[];
    }

    // Leases the earliest event that is available.
    method ClaimEvent(w: nat) returns (claimed: Option<(nat, nat)>)
      requires Valid() && w !in workers
      modifies `events, `workers
      ensures Valid()
      ensures claimed.None? ==> View() == old(View()) && forall id :: !Claimable(View(), id)
      ensures claimed.Some? ==>
                && Claimable(old(View()), claimed.value.0)
                && View() == Apply(config, old(View()), Claim(w, claimed.value.0))
                && claimed.value.1 == events[claimed.value.0].attempts
                && exists k | 0 <= k < |order| && order[k] == claimed.value.0 ::
                     forall j | 0 <= j < k :: !Claimable(old(View()), order[j])
    {
      for k := 0 to |order|
        invariant View() == old(View())
        invariant forall j | 0 <= j < k :: !Claimable(View(), order[j])
      {
        var id := order[k];
        var e := events[id];
        if e.processedAt.None? && e.availableAt <= now {
          events := events[id := e.(attempts := e.attempts + 1, availableAt := now + config.lease)];
          workers := workers[w := Work(id, e.attempts + 1, now + config.lease, None)];
          return Some((id, e.attempts + 1));
        }
      }
      return None;
    }

    method MarkEventProcessed(w: nat, id: nat)
      requires Valid() && id in events && w in workers && workers[w].event == id && workers[w].handled == Some(true)
      modifies `events, `workers
      ensures Valid() && View() == Apply(config, old(View()), MarkProcessed(w, true))
    {
      events := events[id := events[id].(processedAt := Some(now))];
      workers := workers - {w};
    }

    method MarkEventForRetry(w: nat, id: nat, attempts: nat, jitter: real) returns (terminal: bool)
      requires Valid() && id in events && Jitter(jitter)
      requires w in workers && workers[w].event == id && workers[w].attempts == attempts && workers[w].handled.Some?
      modifies `events, `workers, `deadLetters
      ensures Valid() && View() == Apply(config, old(View()), MarkRetry(w, jitter))
      ensures terminal <==> attempts >= config.maxAttempts
      ensures terminal ==> id in deadLetters
    {
      terminal := attempts >= config.maxAttempts;
      var delay := Delay(attempts, jitter, config.base, config.max);
      var e := events[id];
      if terminal {
        deadLetters := deadLetters[id := attempts];
        events := events[id := e.(processedAt := Some(now), deadLetteredAt := Some(now))];
      } else {
        events := events[id := e.(processedAt := None, deadLetteredAt := None, availableAt := now + delay)];
      }
      workers := workers - {w};
    }

    // Claim, handle, conclude: one turn of the loop.
    method ProcessNext(w: nat, turn: Turn, before: Tally) returns (claimed: Option<nat>, after: Tally)
      requires Valid() && w !in workers && Jitter(turn.jitter)
      modifies this
      ensures Valid() && w !in workers && now == old(now)
      ensures claimed.None? ==> View() == old(View()) && after == before && forall id :: !Claimable(View(), id)
      ensures claimed.Some? ==>
                && Claimable(old(View()), claimed.value)
                && View() == Exec(config, old(View()), TurnSteps(w, claimed.value, turn))
                && claimed.value in events
                && after == (if turn.ok && turn.stored then before.(processed := before.processed + 1)
                             else if events[claimed.value].attempts >= config.maxAttempts
                             then before.(deadLettered := before.deadLettered + 1)
                             else before.(retried := before.retried + 1))
    {
      var next := ClaimEvent(w);
      if next.None? { return None, before; }
      var (id, attempts) := next.value;
      ghost var leased := View();
      ExecTurn(config, old(View()), w, id, turn);
      workers := workers[w := workers[w].(handled := Some(turn.ok))];
      if turn.ok {
        succeeded := succeeded + {id};
      }
      assert View() == Apply(config, leased, Handle(w, turn.ok));
      if turn.ok && turn.stored {
        MarkEventProcessed(w, id);
        return Some(id), before.(processed := before.processed + 1);
      }
      var terminal := MarkEventForRetry(w, id, attempts, turn.jitter);
      if terminal {
        return Some(id), before.(deadLettered := before.deadLettered + 1);
      }
      return Some(id), before.(retried := before.retried + 1);
    }

    // One batch. Whatever the handlers do, it is a run of the protocol, so every
    // result about runs applies; it stops early only when nothing can be claimed.
    method ProcessBatch(w: nat, turns: seq<Turn>) returns (tally: Tally, ghost steps: seq<Step>)
      requires Valid() && w !in workers && forall k | 0 <= k < |turns| :: Jitter(turns[k].jitter)
      modifies this
      ensures Valid() && View() == Exec(config, old(View()), steps)
      ensures |steps| == 3 * (tally.processed + tally.retried + tally.deadLettered) <= 3 * |turns|
      ensures |steps| == 3 * |turns| || forall id :: !Claimable(View(), id)
    {
      tally, steps := Tally(0, 0, 0), [];
      for k := 0 to |turns|
        invariant Valid() && w !in workers && View() == Exec(config, old(View()), steps)
        invariant |steps| == 3 * k == 3 * (tally.processed + tally.retried + tally.deadLettered)
      {
        ghost var before := View();
        var claimed, after := ProcessNext(w, turns[k], tally);
        if claimed.None? { return; }
        tally := after;
        ExecConcat(config, old(View()), steps, TurnSteps(w, claimed.value, turns[k]));
        steps := steps + TurnSteps(w, claimed.value, turns[k]);
      }
    }
  }
}
