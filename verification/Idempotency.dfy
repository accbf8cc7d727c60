/** Execution under an idempotency key: the first committed response is stored
    with the key and returned to every accepted repeat until the key expires. */
module Idempotency {
  import opened Wrappers
  import C = CanonicalJson
  import D = CanonicalDates

  datatype Key = Key(tenant: nat, key: string, operation: string)
  datatype Body = Nothing | Content(value: nat)   // Nothing is a null body
  datatype Response = Response(status: nat, body: Body)

  // The stored hash is taken to be injective, so a row keeps the canonical request.
  datatype Row = Row(actor: nat, request: C.Json, response: Option<Response>, expiresAt: int)

  // One request: what executing it would answer, if it does not fail, and
  // whether its transaction commits.
  datatype Attempt = Attempt(key: Key, actor: nat, payload: C.Json, result: Option<Response>, commits: bool)

  datatype State = State(
    now: int,
    rows: map<Key, Row>,
    effects: map<Key, nat>,         // committed executions
    empties: map<Key, nat>,         // of those, the ones that answered a null body
    purged: map<Key, nat>)          // stored answers deleted after they expired

  datatype Step = Tick(seconds: nat) | Try(attempt: Attempt) | Purge(keys: set<Key>)

  datatype Outcome = Conflict | Replayed(replay: Response) | Executed(response: Response) | Failed

  const LIFETIME: int := 86400

  function Count(m: map<Key, nat>, k: Key): nat { if k in m then m[k] else 0 }

  // The row after the insertion that does nothing on conflict.
  function Locked(w: C.Collation, s: State, a: Attempt): Row {
    if a.key in s.rows then s.rows[a.key] else Row(a.actor, C.Canonical(w, a.payload), None, s.now + LIFETIME)
  }

  predicate Answered(row: Row) {
    row.response.Some? && row.response.value.body != Nothing
  }

  function OutcomeOf(w: C.Collation, s: State, a: Attempt): Outcome {
    var row := Locked(w, s, a);
    if row.actor != a.actor || row.request != C.Canonical(w, a.payload) then Conflict
    else if Answered(row) then Replayed(row.response.value)
    else if a.result.None? || !a.commits then Failed
    else Executed(a.result.value)
  }

  function Purged(s: State, keys: set<Key>): set<Key> {
    set k | k in keys && k in s.rows && s.rows[k].expiresAt <= s.now
  }

  // A conflict or a failure rolls the whole attempt back.
  function Apply(w: C.Collation, s: State, step: Step): State {
    match step
    case Tick(seconds) => s.(now := s.now + seconds)
    case Try(a) =>
      (match OutcomeOf(w, s, a)
       case Executed(r) =>
         s.(rows := s.rows[a.key := Locked(w, s, a).(response := Some(r))],
            effects := s.effects[a.key := Count(s.effects, a.key) + 1],
            empties := if r.body == Nothing then s.empties[a.key := Count(s.empties, a.key) + 1] else s.empties)
       case _ => s)
    case Purge(keys) =>
      var gone := Purged(s, keys);
      s.(rows := s.rows - gone,
         purged := map k | k in s.purged.Keys + gone ::
           Count(s.purged, k) + if k in gone && k in s.rows && Answered(s.rows[k]) then 1 else 0)
  }

  function Initial(): State { State(0, map[], map[], map[], map[]) }

  function Exec(w: C.Collation, s: State, steps: seq<Step>): State {
    if steps == [] then s else Apply(w, Exec(w, s, steps[..|steps| - 1]), steps[|steps| - 1])
  }

  /// When each step takes effect

  // A request is executed exactly when its key is new, or was used by the same
  // actor for the same request and holds no answer yet, and it succeeds; its
  // answer is then kept with the key, for a day from the first use.
  lemma ExecutedExactlyWhen(w: C.Collation, s: State, a: Attempt)
    ensures var s', k, request := Apply(w, s, Try(a)), a.key, C.Canonical(w, a.payload);
            if && (k in s.rows ==>
                     && s.rows[k].actor == a.actor && s.rows[k].request == request
                     && (s.rows[k].response.Some? ==> s.rows[k].response.value.body == Nothing))
               && a.result.Some? && a.commits
            then
              && s'.rows == s.rows[k := Row(a.actor, request, a.result,
                                            if k in s.rows then s.rows[k].expiresAt else s.now + 24 * 60 * 60)]
              && Count(s'.effects, k) == Count(s.effects, k) + 1
            else s' == s
  {}

  // Exactly the keys whose day is over can be deleted.
  lemma PurgedExactlyWhenOver(w: C.Collation, s: State, keys: set<Key>, k: Key)
    ensures var s' := Apply(w, s, Purge(keys));
            && (k in s'.rows <==> k in s.rows && !(k in keys && s.rows[k].expiresAt <= s.now))
            && (k in s'.rows ==> s'.rows[k] == s.rows[k]) && s'.effects == s.effects
            && Count(s'.purged, k) == Count(s.purged, k) +
                 if k in s.rows && k !in s'.rows && s.rows[k].response.Some?
                    && s.rows[k].response.value.body != Nothing then 1 else 0
  {}

  /// The invariant

  // Every committed effect is the stored answer, or answered null, or was purged.
  ghost predicate KeyInv(s: State, k: Key) {
    Count(s.effects, k) == Count(s.empties, k) + Count(s.purged, k) + if k in s.rows && Answered(s.rows[k]) then 1
      else 0
  }

  ghost predicate Inv(s: State) {
    forall k: Key :: KeyInv(s, k)
  }

  lemma TryKeepsInv(w: C.Collation, s: State, a: Attempt)
    requires Inv(s)
    ensures Inv(Apply(w, s, Try(a)))
  {
    var s' := Apply(w, s, Try(a));
    forall k: Key ensures KeyInv(s', k) {
      assert KeyInv(s, k);
    }
  }

  lemma PurgeKeepsInv(w: C.Collation, s: State, keys: set<Key>)
    requires Inv(s)
    ensures Inv(Apply(w, s, Purge(keys)))
  {
    var s' := Apply(w, s, Purge(keys));
    forall k: Key ensures KeyInv(s', k) {
      assert KeyInv(s, k);
    }
  }

  lemma {:induction false} RunKeepsInv(w: C.Collation, steps: seq<Step>)
    ensures Inv(Exec(w, Initial(), steps))
  {
    if steps != [] {
      RunKeepsInv(w, steps[..|steps| - 1]);
      var before, last := Exec(w, Initial(), steps[..|steps| - 1]), steps[|steps| - 1];
      match last
      case Tick(_) => assert forall k: Key :: KeyInv(before, k) ==> KeyInv(Apply(w, before, last), k);
      case Try(a) => TryKeepsInv(w, before, a);
      case Purge(keys) => PurgeKeepsInv(w, before, keys);
    }
  }

  /// Main results

  // Effects are at most one, one more for each answer that expired and was
  // deleted, and one more for each execution that answered a null body.
  lemma EffectsAreAccountedFor(w: C.Collation, steps: seq<Step>, k: Key)
    ensures var s := Exec(w, Initial(), steps);
            && Count(s.effects, k) <= 1 + Count(s.purged, k) + Count(s.empties, k)
            && (k in s.rows && Answered(s.rows[k]) ==> Count(s.effects, k) >= 1)
  {
    RunKeepsInv(w, steps);
    assert KeyInv(Exec(w, Initial(), steps), k);
  }

  predicate AnswersNull(a: Attempt) { a.result.Some? && a.result.value.body == Nothing }

  // With no null answer of its own the effect of a key commits at most once in its lifetime.
  lemma AtMostOnce(w: C.Collation, steps: seq<Step>, k: Key)
    requires forall i | 0 <= i < |steps| && steps[i].Try? && steps[i].attempt.key == k :: !AnswersNull(steps[i].attempt)
    requires forall i | 0 <= i < |steps| && steps[i].Purge? :: k !in steps[i].keys
    ensures Count(Exec(w, Initial(), steps).effects, k) <= 1
  {
    EffectsAreAccountedFor(w, steps, k);
    NothingToExcept(w, steps, k);
  }

  lemma {:induction false} NothingToExcept(w: C.Collation, steps: seq<Step>, k: Key)
    requires forall i | 0 <= i < |steps| && steps[i].Try? && steps[i].attempt.key == k :: !AnswersNull(steps[i].attempt)
    requires forall i | 0 <= i < |steps| && steps[i].Purge? :: k !in steps[i].keys
    ensures var s := Exec(w, Initial(), steps); Count(s.purged, k) == Count(s.empties, k) == 0
  {
    if steps != [] {
      var n := |steps| - 1;
      assert forall i | 0 <= i < n :: steps[..n][i] == steps[i];
      NothingToExcept(w, steps[..n], k);
      assert steps[n].Try? && steps[n].attempt.key == k ==> !AnswersNull(steps[n].attempt);
    }
  }

  lemma RowStays(w: C.Collation, s: State, step: Step, k: Key)
    requires k in s.rows && Answered(s.rows[k]) && s.now < s.rows[k].expiresAt
    ensures k in Apply(w, s, step).rows && Apply(w, s, step).rows[k] == s.rows[k]
    ensures Count(Apply(w, s, step).effects, k) == Count(s.effects, k)
  {}

  lemma ClockRuns(w: C.Collation, s: State, step: Step)
    ensures Apply(w, s, step).now == s.now + if step.Tick? then step.seconds else 0
  {}

  // Until it expires a stored answer stays, and nothing is executed for its key.
  lemma {:induction false} AnswerStays(w: C.Collation, s: State, more: seq<Step>, k: Key)
    requires k in s.rows && Answered(s.rows[k]) && Exec(w, s, more).now < s.rows[k].expiresAt
    ensures k in Exec(w, s, more).rows && Exec(w, s, more).rows[k] == s.rows[k]
    ensures Count(Exec(w, s, more).effects, k) == Count(s.effects, k)
  {
    if more != [] {
      var before := Exec(w, s, more[..|more| - 1]);
      ClockRuns(w, before, more[|more| - 1]);
      AnswerStays(w, s, more[..|more| - 1], k);
      RowStays(w, before, more[|more| - 1], k);
    }
  }

  // After a first execution that answered a body, and until the key expires,
  // whatever attempts come and roll back in between: a repeat by the same actor
  // with the same request, up to the order of its fields and to its dates, gets
  // the first response; any other attempt with the key is a conflict. Where the
  // dates of the two agree, the same request is the same with its dates.
  lemma RepeatsGetTheFirstResponse(w: C.Collation, s: State, first: Attempt, more: seq<Step>, repeat: Attempt)
    requires OutcomeOf(w, s, first).Executed? && OutcomeOf(w, s, first).response.body != Nothing
    requires repeat.key == first.key
    requires C.WellFormed(first.payload) && C.WellFormed(repeat.payload) && C.Separated(w, first.payload)
    requires Exec(w, Apply(w, s, Try(first)), more).now < Locked(w, s, first).expiresAt
    ensures OutcomeOf(w, Exec(w, Apply(w, s, Try(first)), more), repeat)
         == if repeat.actor == first.actor && C.Same(D.Erased(first.payload), D.Erased(repeat.payload))
            then Replayed(OutcomeOf(w, s, first).response) else Conflict
    ensures D.DatesAgree(first.payload, repeat.payload) ==>
              (C.Same(D.Erased(first.payload), D.Erased(repeat.payload)) <==> C.Same(first.payload, repeat.payload))
  {
    AnswerStays(w, Apply(w, s, Try(first)), more, first.key);
    D.CanonicalExactlyWhenSame(w, first.payload, repeat.payload);
    if C.Same(D.Erased(first.payload), D.Erased(repeat.payload)) {
      D.SameExactlyWhenDatesAgree(first.payload, repeat.payload);
    } else if C.Same(first.payload, repeat.payload) {
      C.SameLooksTheSame(w, first.payload, repeat.payload);
    }
  }

  // Every other request under the key is refused exactly when the first holds
  // neither a date nor an empty object.
  lemma OthersAreRefusedExactlyWhenSolid(w: C.Collation, s: State, first: Attempt, more: seq<Step>)
    requires OutcomeOf(w, s, first).Executed? && OutcomeOf(w, s, first).response.body != Nothing
    requires C.WellFormed(first.payload)
    requires Exec(w, Apply(w, s, Try(first)), more).now < Locked(w, s, first).expiresAt
    ensures (forall other | C.WellFormed(other) && !C.Same(first.payload, other) ::
              OutcomeOf(w, Exec(w, Apply(w, s, Try(first)), more), first.(payload := other)).Conflict?)
            <==> D.Solid(first.payload)
  {
    AnswerStays(w, Apply(w, s, Try(first)), more, first.key);
    D.ToldApartExactlyWhenSolid(w, first.payload);
    var s' := Exec(w, Apply(w, s, Try(first)), more);
    forall other ensures OutcomeOf(w, s', first.(payload := other)).Conflict?
        <==> C.Canonical(w, other) != C.Canonical(w, first.payload) {}
    if !D.Solid(first.payload) {
      var other :| C.WellFormed(other) && C.Canonical(w, other) == C.Canonical(w, first.payload)
        && !C.Same(first.payload, other);
      assert !OutcomeOf(w, s', first.(payload := other)).Conflict?;
    }
  }

  // Two shifts that start at different times are taken for one request.
  lemma DifferentDatesAreReplayed(w: C.Collation, k: Key)
    ensures var a := Attempt(k, 0, C.Obj([C.Field("startsAt", C.Date(1))]), Some(Response(201, Content(1))), true);
            var b := a.(payload := C.Obj([C.Field("startsAt", C.Date(2))]), result := Some(Response(201, Content(2))));
            && !C.Same(a.payload, b.payload)
            && OutcomeOf(w, Exec(w, Initial(), [Try(a)]), b) == Replayed(Response(201, Content(1)))
  {
    var a := Attempt(k, 0, C.Obj([C.Field("startsAt", C.Date(1))]), Some(Response(201, Content(1))), true);
    var x := C.Obj([C.Field("startsAt", C.Date(2))]);
    assert [Try(a)][..0] == [];
    assert Exec(w, Initial(), [Try(a)]) == Apply(w, Initial(), Try(a));
    assert C.Canonical(w, C.Date(1)) == C.Canonical(w, C.Date(2));
    C.ChangedLooksTheSame(w, a.payload.fields, 0, C.Date(2));
    C.ChangedIsAnother(a.payload.fields, 0, C.Date(2));
    assert C.Changed(a.payload.fields, 0, C.Date(2)) == x.fields;
  }

  // After these steps, and before its key expires, the request is executed once more.
  predicate ExecutedAgain(w: C.Collation, s: State, a: Attempt, more: seq<Step>) {
    var after := Exec(w, Apply(w, s, Try(a)), more);
    after.now < Locked(w, s, a).expiresAt && OutcomeOf(w, after, a).Executed?
  }

  // A null answer is stored but not recognised: the same request can be executed
  // again before its key expires exactly when the first execution answered null.
  lemma RepeatedExactlyWhenNull(w: C.Collation, s: State, a: Attempt)
    requires OutcomeOf(w, s, a).Executed? && s.now < Locked(w, s, a).expiresAt
    ensures (exists more :: ExecutedAgain(w, s, a, more)) <==> OutcomeOf(w, s, a).response.body == Nothing
    ensures OutcomeOf(w, s, a).response.body == Nothing ==>
              Count(Apply(w, Apply(w, s, Try(a)), Try(a)).effects, a.key) == Count(s.effects, a.key) + 2
  {
    if OutcomeOf(w, s, a).response.body != Nothing {
      forall more ensures !ExecutedAgain(w, s, a, more) {
        if ExecutedAgain(w, s, a, more) {
          AnswerStays(w, Apply(w, s, Try(a)), more, a.key);
          assert false;
        }
      }
    } else {
      assert ExecutedAgain(w, s, a, []);
    }
  }

  // So a null answer breaks the promise, from the empty table on.
  lemma NullAnswerRepeats(w: C.Collation, k: Key)
    ensures var a := Attempt(k, 0, C.Null, Some(Response(200, Nothing)), true);
            Count(Exec(w, Initial(), [Try(a), Try(a)]).effects, k) == 2
  {
    var a := Attempt(k, 0, C.Null, Some(Response(200, Nothing)), true);
    var steps := [Try(a), Try(a)];
    assert steps[..1] == [Try(a)] && steps[..1][..0] == [];
    assert Exec(w, Initial(), steps[..1]) == Apply(w, Initial(), Try(a));
    RepeatedExactlyWhenNull(w, Initial(), a);
  }

  /// The table as the service updates it

  class KeyTable {
    var now: int
    var rows: map<Key, Row>
    ghost var effects: map<Key, nat>
    ghost var empties: map<Key, nat>
    ghost var purged: map<Key, nat>

    ghost function View(): State reads this { State(now, rows, effects, empties, purged) }

    constructor ()
      ensures View() == Initial()
    {
      now, rows := 0, map[];
      effects, empties, purged := map[], map[], map[];
    }

    // The transaction of one request. Whatever it inserted is undone unless it commits.
    method WithIdempotency(w: C.Collation, a: Attempt) returns (outcome: Outcome)
      modifies this
      ensures View() == Apply(w, old(View()), Try(a))
      ensures outcome == OutcomeOf(w, old(View()), a)
      ensures !outcome.Executed? ==> View() == old(View())
      ensures outcome.Executed? ==> a.key in rows && rows[a.key].response == Some(outcome.response)
                                    && Count(effects, a.key) == Count(old(effects), a.key) + 1
    {
      var hash := C.Canonical(w, a.payload);
      var stored := if a.key in rows then rows[a.key] else Row(a.actor, hash, None, now + LIFETIME);
      if stored.actor != a.actor || stored.request != hash { return Conflict; }
      if stored.response.Some? && stored.response.value.body != Nothing { return Replayed(stored.response.value); }
      if a.result.None? { return Failed; }
      if !a.commits { return Failed; }
      rows := rows[a.key := stored.(response := a.result)];
      effects := effects[a.key := Count(effects, a.key) + 1];
      if a.result.value.body == Nothing {
        empties := empties[a.key := Count(empties, a.key) + 1];
      }
      return Executed(a.result.value);
    }
  }
}
