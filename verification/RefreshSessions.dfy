/** Refresh tokens: each is exchanged once for a successor; presenting one again
    ends every session of its user in that tenant. */
module RefreshSessions {
  import opened Wrappers

  datatype Account = Account(tenant: nat, user: nat)
  // A secret stands for a token and for its hash, taken to be injective.
  datatype Token = Token(session: nat, account: Account, secret: nat)
  datatype Session = Session(account: Account, secret: nat, expiresAt: int, revokedAt: Option<int>,
      replacedBy: Option<nat>)

  // Where a session comes from: its place in the order of creation, the login
  // its chain began with, how far it is from it, and the session it replaced.
  datatype Origin = Origin(born: nat, root: nat, depth: nat, predecessor: Option<nat>)

  datatype State = State(
    now: int,
    sessions: map<nat, Session>,
    origins: map<nat, Origin>,
    ends: map<nat, nat>,            // by login: the last session of its chain
    births: nat,
    exchanged: map<nat, nat>)       // by session: successful exchanges of its token

  datatype Step =
    | Tick(seconds: nat)
    | Login(account: Account, id: nat, secret: nat, expiresAt: int)
    // verified: the signature holds; allowed: the member and at least one unit are active
    | Refresh(token: Token, verified: bool, allowed: bool, newId: nat, newSecret: nat, newExpiry: int)
    | Logout(token: Token, verified: bool)
    | RevokeAll(account: Account)   // an administrator's revocation

  datatype Outcome = Rotated | ReuseDetected | Refused

  predicate Presents(s: State, t: Token) {
    && t.session in s.sessions && s.sessions[t.session].account == t.account
    && s.sessions[t.session].secret == t.secret
  }

  function OutcomeOf(s: State, t: Token, verified: bool, allowed: bool, newId: nat): Outcome {
    if !verified || !Presents(s, t) || s.sessions[t.session].expiresAt <= s.now then Refused
    else if s.sessions[t.session].revokedAt.Some? then ReuseDetected
    else if !allowed || newId in s.sessions then Refused
    else Rotated
  }

  function Revoked(x: Session, now: int): Session {
    if x.revokedAt.Some? then x else x.(revokedAt := Some(now))
  }

  function AllRevoked(sessions: map<nat, Session>, account: Account, now: int): map<nat, Session> {
    map id | id in sessions :: if sessions[id].account == account then Revoked(sessions[id], now) else sessions[id]
  }

  function Exchanges(s: State, id: nat): nat {
    if id in s.exchanged then s.exchanged[id] else 0
  }

  function Opened(s: State, id: nat, x: Session): State {
    s.(sessions := s.sessions[id := x], origins := s.origins[id := Origin(s.births, id, 0, None)],
       ends := s.ends[id := id], births := s.births + 1)
  }

  function Replaced(s: State, id: nat, newId: nat, x: Session): State
    requires id in s.sessions && id in s.origins
  {
    var o := s.origins[id];
    s.(sessions := s.sessions[newId := x][id := s.sessions[id].(revokedAt := Some(s.now), replacedBy := Some(newId))],
       origins := s.origins[newId := Origin(s.births, o.root, o.depth + 1, Some(id))],
       ends := s.ends[o.root := newId], births := s.births + 1,
       exchanged := s.exchanged[id := Exchanges(s, id) + 1])
  }

  // A detected reuse is answered with an error, but its revocations commit.
  function Apply(s: State, step: Step): State {
    match step
    case Tick(seconds) => s.(now := s.now + seconds)
    case Login(account, id, secret, expiresAt) =>
      if id in s.sessions then s else Opened(s, id, Session(account, secret, expiresAt, None, None))
    case Refresh(t, verified, allowed, newId, newSecret, newExpiry) =>
      (match OutcomeOf(s, t, verified, allowed, newId)
       case Refused => s
       case ReuseDetected => s.(sessions := AllRevoked(s.sessions, t.account, s.now))
       case Rotated =>
         if t.session in s.sessions && t.session in s.origins
         then Replaced(s, t.session, newId, Session(t.account, newSecret, newExpiry, None, None)) else s)
    case Logout(t, verified) =>
      if verified && t.session in s.sessions && s.sessions[t.session].secret == t.secret
      then s.(sessions := s.sessions[t.session := Revoked(s.sessions[t.session], s.now)]) else s
    case RevokeAll(account) => s.(sessions := AllRevoked(s.sessions, account, s.now))
  }

  function Initial(): State { State(0, map[], map[], map[], 0, map[]) }

  function Exec(s: State, steps: seq<Step>): State {
    if steps == [] then s else Apply(Exec(s, steps[..|steps| - 1]), steps[|steps| - 1])
  }

  /// Chains

  // The session reached from id by n replacements.
  function Follow(sessions: map<nat, Session>, id: nat, n: nat): Option<nat> {
    if id !in sessions then None
    else if n == 0 then Some(id)
    else
      match Follow(sessions, id, n - 1)
      case None => None
      case Some(last) => if last in sessions then sessions[last].replacedBy else None
  }

  ghost predicate Linked(s: State, id: nat)
    requires id in s.sessions && id in s.origins
  {
    var x, o := s.sessions[id], s.origins[id];
    && o.born < s.births && o.root in s.sessions && o.root in s.origins && s.origins[o.root].predecessor.None?
    && (x.replacedBy.None? ==> o.root in s.ends && s.ends[o.root] == id)
    && (x.replacedBy.Some? ==>
          && x.revokedAt.Some? && x.replacedBy.value in s.sessions && x.replacedBy.value in s.origins
          && s.sessions[x.replacedBy.value].account == x.account
          && var next := s.origins[x.replacedBy.value];
          next.predecessor == Some(id) && o.born < next.born && next.root == o.root)
  }

  ghost predicate Reached(s: State, id: nat)
    requires id in s.origins
  {
    Follow(s.sessions, s.origins[id].root, s.origins[id].depth) == Some(id)
  }

  ghost predicate Inv(s: State) {
    && s.origins.Keys == s.sessions.Keys
    && (forall id {:trigger Linked(s, id)} | id in s.sessions :: Linked(s, id))
    && (forall id {:trigger Reached(s, id)} | id in s.sessions :: Reached(s, id))
    && (forall id: nat {:trigger Exchanges(s, id)} ::
          Exchanges(s, id) == (if id in s.sessions && s.sessions[id].replacedBy.Some? then 1 else 0))
  }

  // Sessions may be added and revoked and get a successor; what is there stays.
  ghost predicate Extends(before: map<nat, Session>, after: map<nat, Session>) {
    forall id | id in before ::
      && id in after && after[id].account == before[id].account && after[id].secret == before[id].secret
      && (before[id].replacedBy.Some? ==> after[id].replacedBy == before[id].replacedBy)
      && (before[id].revokedAt.Some? ==> after[id].revokedAt == before[id].revokedAt)
  }

  lemma {:induction false} FollowKept(before: map<nat, Session>, after: map<nat, Session>, id: nat, n: nat)
    requires Extends(before, after)
    ensures Follow(before, id, n).Some? ==> Follow(after, id, n) == Follow(before, id, n)
  {
    if n > 0 {
      FollowKept(before, after, id, n - 1);
    }
  }

  lemma OpeningKeepsLinks(s: State, id: nat, x: Session, other: nat)
    requires Inv(s) && id !in s.sessions && x.replacedBy.None? && other in s.sessions
    ensures Linked(Opened(s, id, x), other) && Reached(Opened(s, id, x), other)
  {
    assert Linked(s, other) && Reached(s, other);
    FollowKept(s.sessions, Opened(s, id, x).sessions, s.origins[other].root, s.origins[other].depth);
  }

  lemma OpeningKeepsExchanges(s: State, id: nat, x: Session, other: nat)
    requires Inv(s) && id !in s.sessions && x.replacedBy.None?
    ensures var s' := Opened(s, id, x);
            Exchanges(s', other) == if other in s'.sessions && s'.sessions[other].replacedBy.Some? then 1 else 0
  {
    assert Exchanges(s, other) == Exchanges(Opened(s, id, x), other);
  }

  lemma OpeningKeepsInv(s: State, id: nat, x: Session)
    requires Inv(s) && id !in s.sessions && x.replacedBy.None?
    ensures Inv(Opened(s, id, x))
  {
    var s' := Opened(s, id, x);
    forall other | other in s'.sessions ensures Linked(s', other) && Reached(s', other) {
      if other != id {
        OpeningKeepsLinks(s, id, x, other);
      }
    }
    forall other: nat ensures Exchanges(s', other)
        == (if other in s'.sessions && s'.sessions[other].replacedBy.Some? then 1 else 0) {
      OpeningKeepsExchanges(s, id, x, other);
    }
  }

  lemma RevokingKeepsLinks(s: State, sessions: map<nat, Session>, id: nat)
    requires Inv(s) && OnlyRevokes(s.sessions, sessions) && id in s.sessions
    ensures Linked(s.(sessions := sessions), id) && Reached(s.(sessions := sessions), id)
  {
    assert Linked(s, id) && Reached(s, id);
    FollowKept(s.sessions, sessions, s.origins[id].root, s.origins[id].depth);
  }

  // Sessions are revoked, and nothing is added or replaced.
  ghost predicate OnlyRevokes(before: map<nat, Session>, after: map<nat, Session>) {
    && after.Keys == before.Keys && Extends(before, after)
    && forall id | id in before :: after[id].replacedBy == before[id].replacedBy
  }

  lemma RevokingKeepsChains(s: State, sessions: map<nat, Session>)
    requires Inv(s) && OnlyRevokes(s.sessions, sessions)
    ensures forall id {:trigger Linked(s.(sessions := sessions), id)} | id in s.sessions ::
              Linked(s.(sessions := sessions), id)
    ensures forall id {:trigger Reached(s.(sessions := sessions), id)} | id in s.sessions ::
              Reached(s.(sessions := sessions), id)
  {
    forall id | id in s.sessions ensures Linked(s.(sessions := sessions), id) && Reached(s.(sessions := sessions), id) {
      RevokingKeepsLinks(s, sessions, id);
    }
  }

  lemma RevokingKeepsInv(s: State, sessions: map<nat, Session>)
    requires Inv(s) && OnlyRevokes(s.sessions, sessions)
    ensures Inv(s.(sessions := sessions))
  {
    RevokingKeepsChains(s, sessions);
    forall id: nat ensures Exchanges(s.(sessions := sessions), id)
        == (if id in sessions && sessions[id].replacedBy.Some? then 1 else 0) {
      RevokingKeepsExchanges(s, sessions, id);
    }
  }

  lemma RevokingKeepsExchanges(s: State, sessions: map<nat, Session>, id: nat)
    requires Inv(s) && OnlyRevokes(s.sessions, sessions)
    ensures Exchanges(s.(sessions := sessions), id) == if id in sessions && sessions[id].replacedBy.Some? then 1 else 0
  {
    assert Exchanges(s, id) == Exchanges(s.(sessions := sessions), id);
    assert id in sessions <==> id in s.sessions;
  }

  lemma ReplacingKeepsLinks(s: State, id: nat, newId: nat, x: Session, other: nat)
    requires Inv(s) && id in s.sessions && newId !in s.sessions && x.replacedBy.None?
    requires s.sessions[id].replacedBy.None? && s.sessions[id].account == x.account
    requires other in Replaced(s, id, newId, x).sessions
    ensures Linked(Replaced(s, id, newId, x), other)
  {
    assert Linked(s, id);
    if other in s.sessions {
      assert Linked(s, other);
    }
  }

  lemma ReplacingKeepsReach(s: State, id: nat, newId: nat, x: Session, other: nat)
    requires Inv(s) && id in s.sessions && newId !in s.sessions && s.sessions[id].replacedBy.None?
        && s.sessions[id].revokedAt.None?
    requires other in Replaced(s, id, newId, x).sessions
    ensures Reached(Replaced(s, id, newId, x), other)
  {
    var s' := Replaced(s, id, newId, x);
    assert Extends(s.sessions, s'.sessions);
    assert Linked(s, id) && Reached(s, id);
    FollowKept(s.sessions, s'.sessions, s.origins[id].root, s.origins[id].depth);
    if other in s.sessions {
      assert Reached(s, other);
      FollowKept(s.sessions, s'.sessions, s.origins[other].root, s.origins[other].depth);
    } else {
      assert Follow(s'.sessions, s.origins[id].root, s.origins[id].depth) == Some(id);
    }
  }

  lemma ReplacingKeepsInv(s: State, id: nat, newId: nat, x: Session)
    requires Inv(s) && id in s.sessions && newId !in s.sessions && x.replacedBy.None?
    requires s.sessions[id].revokedAt.None? && s.sessions[id].account == x.account
    ensures Inv(Replaced(s, id, newId, x))
  {
    var s' := Replaced(s, id, newId, x);
    assert Linked(s, id);
    forall other | other in s'.sessions ensures Linked(s', other) && Reached(s', other) {
      ReplacingKeepsLinks(s, id, newId, x, other);
      ReplacingKeepsReach(s, id, newId, x, other);
    }
    forall other: nat ensures Exchanges(s', other)
        == (if other in s'.sessions && s'.sessions[other].replacedBy.Some? then 1 else 0) {
      assert Exchanges(s, other) >= 0;
    }
  }

  lemma ApplyKeepsInv(s: State, step: Step)
    requires Inv(s)
    ensures Inv(Apply(s, step))
  {
    match step
    case Tick(seconds) => ClockIsIrrelevant(s, s.now + seconds);
    case Login(account, id, secret, expiresAt) =>
      if id !in s.sessions {
        OpeningKeepsInv(s, id, Session(account, secret, expiresAt, None, None));
      }
    case Refresh(t, verified, allowed, newId, newSecret, newExpiry) =>
      var outcome := OutcomeOf(s, t, verified, allowed, newId);
      if outcome == ReuseDetected {
        RevokingKeepsInv(s, AllRevoked(s.sessions, t.account, s.now));
      } else if outcome == Rotated {
        ReplacingKeepsInv(s, t.session, newId, Session(t.account, newSecret, newExpiry, None, None));
      }
    case Logout(t, _) => RevokingKeepsInv(s, Apply(s, step).sessions);
    case RevokeAll(account) => RevokingKeepsInv(s, AllRevoked(s.sessions, account, s.now));
  }

  lemma ClockIsIrrelevant(s: State, now: int)
    requires Inv(s)
    ensures Inv(s.(now := now))
  {
    var s' := s.(now := now);
    forall id | id in s'.sessions ensures Linked(s', id) && Reached(s', id) {
      assert Linked(s, id) && Reached(s, id);
    }
    forall id: nat ensures Exchanges(s', id) == Exchanges(s, id) {}
  }

  lemma {:induction false} RunKeepsInv(s: State, steps: seq<Step>)
    requires Inv(s)
    ensures Inv(Exec(s, steps))
  {
    if steps != [] {
      RunKeepsInv(s, steps[..|steps| - 1]);
      ApplyKeepsInv(Exec(s, steps[..|steps| - 1]), steps[|steps| - 1]);
    }
  }

  /// Main results: chains

  lemma {:induction false} FollowAges(s: State, id: nat, n: nat)
    requires Inv(s)
    ensures var last := Follow(s.sessions, id, n);
            last.Some? ==> id in s.sessions && last.value in s.sessions
                           && s.origins[id].born + n <= s.origins[last.value].born
                           && s.origins[last.value].root == s.origins[id].root
  {
    if n > 0 {
      FollowAges(s, id, n - 1);
      var before := Follow(s.sessions, id, n - 1);
      if before.Some? {
        assert Linked(s, before.value);
      }
    }
  }

  // Replacement is a partial injection without cycles, within one account.
  lemma ReplacementsFormChains(steps: seq<Step>, a: nat, b: nat, n: nat)
    requires a in Exec(Initial(), steps).sessions && b in Exec(Initial(), steps).sessions
    ensures var sessions := Exec(Initial(), steps).sessions;
            && (n > 0 ==> Follow(sessions, a, n) != Some(a))
            && (sessions[a].replacedBy.Some? && sessions[a].replacedBy == sessions[b].replacedBy ==> a == b)
            && (sessions[a].replacedBy == Some(b) ==>
                sessions[a].account == sessions[b].account && sessions[a].revokedAt.Some?)
  {
    RunKeepsInv(Initial(), steps);
    var s := Exec(Initial(), steps);
    FollowAges(s, a, n);
    assert Linked(s, a) && Linked(s, b);
  }

  // Each chain, from its login on, has at most one session that is not revoked.
  lemma OneUnrevokedInAChain(steps: seq<Step>, login: nat, n: nat, m: nat, a: nat, b: nat)
    requires var sessions := Exec(Initial(), steps).sessions;
             && Follow(sessions, login, n) == Some(a) && Follow(sessions, login, m) == Some(b)
             && a in sessions && b in sessions && sessions[a].revokedAt.None? && sessions[b].revokedAt.None?
    ensures a == b
  {
    RunKeepsInv(Initial(), steps);
    var s := Exec(Initial(), steps);
    FollowAges(s, login, n);
    FollowAges(s, login, m);
    assert Linked(s, a) && Linked(s, b);
  }

  // And every session is in the chain of a login, which replaced nothing, so that
  // covers them all.
  lemma EverySessionIsInAChain(steps: seq<Step>, id: nat) returns (login: nat, n: nat)
    requires id in Exec(Initial(), steps).sessions
    ensures Follow(Exec(Initial(), steps).sessions, login, n) == Some(id)
    ensures forall x | x in Exec(Initial(), steps).sessions ::
        Exec(Initial(), steps).sessions[x].replacedBy != Some(login)
  {
    RunKeepsInv(Initial(), steps);
    var s := Exec(Initial(), steps);
    assert Reached(s, id) && Linked(s, id);
    login, n := s.origins[id].root, s.origins[id].depth;
    forall x | x in s.sessions ensures s.sessions[x].replacedBy != Some(login) {
      assert Linked(s, x);
    }
  }

  // Each refresh token is exchanged at most once in any run.
  lemma ExchangedAtMostOnce(steps: seq<Step>, id: nat)
    ensures Exchanges(Exec(Initial(), steps), id) <= 1
  {
    RunKeepsInv(Initial(), steps);
  }

  /// Main results: reuse

  // A session of this account that could still be refreshed.
  predicate Unrevoked(s: State, account: Account, id: nat) {
    id in s.sessions && s.sessions[id].account == account && s.sessions[id].revokedAt.None?
  }

  // A detected reuse leaves, and commits, no unrevoked session of that user in that tenant.
  lemma ReuseRevokesEverything(s: State, step: Step, id: nat)
    requires step.Refresh? && OutcomeOf(s, step.token, step.verified, step.allowed, step.newId) == ReuseDetected
    ensures !Unrevoked(Apply(s, step), step.token.account, id)
    ensures id in s.sessions && s.sessions[id].account != step.token.account ==>
              id in Apply(s, step).sessions && Apply(s, step).sessions[id] == s.sessions[id]
  {}

  lemma StepExtends(s: State, step: Step)
    requires Inv(s)
    ensures Extends(s.sessions, Apply(s, step).sessions)
  {
    if step.Refresh? && step.token.session in s.sessions {
      assert Linked(s, step.token.session);
    }
  }

  lemma {:induction false} RevokedForGood(s: State, more: seq<Step>, id: nat)
    requires Inv(s) && id in s.sessions && s.sessions[id].revokedAt.Some?
    ensures var later := Exec(s, more).sessions; id in later && later[id].revokedAt == s.sessions[id].revokedAt
  {
    if more != [] {
      RevokedForGood(s, more[..|more| - 1], id);
      RunKeepsInv(s, more[..|more| - 1]);
      StepExtends(Exec(s, more[..|more| - 1]), more[|more| - 1]);
    }
  }

  // After it, no token issued to that user before is ever exchanged again.
  lemma NothingSurvivesReuse(s: State, step: Step, more: seq<Step>, t: Token, verified: bool, allowed: bool, newId: nat)
    requires Inv(s) && step.Refresh?
        && OutcomeOf(s, step.token, step.verified, step.allowed, step.newId) == ReuseDetected
    requires t.session in s.sessions && s.sessions[t.session].account == step.token.account
    ensures OutcomeOf(Exec(Apply(s, step), more), t, verified, allowed, newId) != Rotated
  {
    ApplyKeepsInv(s, step);
    RevokedForGood(Apply(s, step), more, t.session);
  }

  // Nor is a token that has been exchanged or logged out.
  lemma SpentIsSpent(s: State, step: Step, more: seq<Step>, t: Token, verified: bool, allowed: bool, newId: nat)
    requires Inv(s) && t.session in s.sessions
    requires (step.Refresh? && step.token.session == t.session
              && OutcomeOf(s, step.token, step.verified, step.allowed, step.newId) == Rotated)
             || (step.Logout? && step.verified && step.token.session == t.session
                 && step.token.secret == s.sessions[t.session].secret)
    ensures OutcomeOf(Exec(Apply(s, step), more), t, verified, allowed, newId) != Rotated
  {
    ApplyKeepsInv(s, step);
    RevokedForGood(Apply(s, step), more, t.session);
  }

  lemma ExpiredStep(s: State, step: Step, id: nat)
    requires id in s.sessions && s.sessions[id].expiresAt <= s.now
    ensures id in Apply(s, step).sessions && Apply(s, step).sessions[id].expiresAt == s.sessions[id].expiresAt
    ensures s.now <= Apply(s, step).now && Exchanges(Apply(s, step), id) == Exchanges(s, id)
  {}

  // A token past its expiry is never exchanged again, whatever follows.
  lemma {:induction false} ExpiredIsNeverExchanged(s: State, more: seq<Step>, id: nat)
    requires id in s.sessions && s.sessions[id].expiresAt <= s.now
    ensures id in Exec(s, more).sessions && Exec(s, more).sessions[id].expiresAt == s.sessions[id].expiresAt
    ensures s.now <= Exec(s, more).now && Exchanges(Exec(s, more), id) == Exchanges(s, id)
  {
    if more != [] {
      ExpiredIsNeverExchanged(s, more[..|more| - 1], id);
      ExpiredStep(Exec(s, more[..|more| - 1]), more[|more| - 1], id);
    }
  }

  // A signed token of a session's secret ends that session; an administrator ends
  // all of an account's. What had ended keeps its time.
  lemma EndedExactlyWhen(s: State, t: Token, verified: bool, account: Account, id: nat)
    requires id in s.sessions
    ensures var x, out, all := s.sessions[id], Apply(s, Logout(t, verified)), Apply(s, RevokeAll(account));
            var ended := x.(revokedAt := if x.revokedAt.Some? then x.revokedAt else Some(s.now));
            && id in out.sessions && id in all.sessions
            && out.sessions[id] == (if verified && t.session == id && t.secret == x.secret then ended else x)
            && all.sessions[id] == (if x.account == account then ended else x)
  {}

  // An exchange needs a signed token of the account and secret of a session that
  // is neither revoked nor expired, and a member that is active; nothing else is
  // needed of a new session.
  lemma ExchangedExactlyWhen(steps: seq<Step>, step: Step)
    requires step.Refresh?
    ensures var s, t := Exec(Initial(), steps), step.token;
            Exchanges(Apply(s, step), t.session) == Exchanges(s, t.session) +
              if && step.verified && step.allowed && step.newId !in s.sessions
                 && t.session in s.sessions && s.sessions[t.session].account == t.account
                 && s.sessions[t.session].secret == t.secret
                 && s.sessions[t.session].revokedAt.None? && s.now < s.sessions[t.session].expiresAt
              then 1 else 0
  {
    RunKeepsInv(Initial(), steps);
  }

  // An exchange opens a session of the new secret and expiry and ends the one
  // presented for it; a spent token ends all of its account; any other
  // refresh changes nothing.
  lemma RefreshLeavesExactly(steps: seq<Step>, step: Step)
    requires step.Refresh?
    ensures var s, s', t := Exec(Initial(), steps), Apply(Exec(Initial(), steps), step), step.token;
            if step.verified && t.session in s.sessions && s.sessions[t.session].account == t.account
               && s.sessions[t.session].secret == t.secret && s.now < s.sessions[t.session].expiresAt
            then
              var x := s.sessions[t.session];
              if x.revokedAt.Some?
              then s'.sessions == map id | id in s.sessions ::
                     if s.sessions[id].account == t.account && s.sessions[id].revokedAt.None?
                     then s.sessions[id].(revokedAt := Some(s.now)) else s.sessions[id]
              else if step.allowed && step.newId !in s.sessions
              then s'.sessions
                   == s.sessions[step.newId := Session(t.account, step.newSecret, step.newExpiry, None, None)]
                        [t.session := x.(revokedAt := Some(s.now), replacedBy := Some(step.newId))]
              else s' == s
            else s' == s
  {
    RunKeepsInv(Initial(), steps);
  }

  lemma ClockRuns(s: State, step: Step)
    ensures Apply(s, step).now == s.now + if step.Tick? then step.seconds else 0
  {}

  lemma LoginOpens(s: State, account: Account, id: nat, secret: nat, expiresAt: int)
    ensures Apply(s, Login(account, id, secret, expiresAt)).sessions
         == if id in s.sessions then s.sessions
            else s.sessions[id := Session(account, secret, expiresAt, None, None)]
  {}

  /// The table as the service updates it

  class SessionTable {
    var now: int
    var sessions: map<nat, Session>
    ghost var origins: map<nat, Origin>
    ghost var ends: map<nat, nat>
    ghost var births: nat
    ghost var exchanged: map<nat, nat>

    ghost function View(): State reads this { State(now, sessions, origins, ends, births, exchanged) }

    constructor ()
      ensures View() == Initial()
    {
      now, sessions := 0, map[];
      origins, ends, births, exchanged := map[], map[], 0, map[];
    }

    method StoreSession(id: nat, account: Account, secret: nat, expiresAt: int)
      requires id !in sessions
      modifies `sessions
      ensures sessions == old(sessions)[id := Session(account, secret, expiresAt, None, None)]
    {
      sessions := sessions[id := Session(account, secret, expiresAt, None, None)];
    }

    method LoginSession(account: Account, id: nat, secret: nat, expiresAt: int)
      requires id !in sessions
      modifies this
      ensures View() == Apply(old(View()), Login(account, id, secret, expiresAt))
    {
      StoreSession(id, account, secret, expiresAt);
      origins, ends, births := origins[id := Origin(births, id, 0, None)], ends[id := id], births + 1;
    }

    method RevokeAccount(account: Account)
      modifies `sessions
      ensures View() == Apply(old(View()), RevokeAll(account))
      ensures forall id | id in sessions && sessions[id].account == account :: sessions[id].revokedAt.Some?
    {
      sessions := map id | id in sessions ::
        if sessions[id].account == account && sessions[id].revokedAt.None? then sessions[id].(revokedAt := Some(now))
            else sessions[id];
    }

    method RefreshSession(t: Token, verified: bool, allowed: bool, newId: nat, newSecret: nat, newExpiry: int)
      returns (outcome: Outcome)
      requires newId !in sessions && Inv(View())
      modifies this
      ensures View() == Apply(old(View()), Refresh(t, verified, allowed, newId, newSecret, newExpiry))
      ensures outcome == OutcomeOf(old(View()), t, verified, allowed, newId)
      ensures outcome == Rotated ==>
          newId in sessions && sessions[newId].revokedAt.None? && sessions[newId].account == t.account
      ensures outcome == Refused ==> View() == old(View())
    {
      if !verified { return Refused; }
      if t.session !in sessions || sessions[t.session].account != t.account { return Refused; }
      var session := sessions[t.session];
      if session.secret != t.secret || session.expiresAt <= now { return Refused; }
      if session.revokedAt.Some? {
        RevokeAccount(t.account);
        return ReuseDetected;
      }
      if !allowed { return Refused; }
      StoreSession(newId, t.account, newSecret, newExpiry);
      sessions := sessions[t.session := session.(revokedAt := Some(now), replacedBy := Some(newId))];
      exchanged := exchanged[t.session := Exchanges(old(View()), t.session) + 1];
      var o := origins[t.session];
      origins, ends, births := origins[newId := Origin(births, o.root, o.depth + 1, Some(t.session))],
        ends[o.root := newId], births + 1;
      return Rotated;
    }

    method LogoutSession(t: Token, verified: bool)
      modifies `sessions
      ensures View() == Apply(old(View()), Logout(t, verified))
    {
      if verified && t.session in sessions && sessions[t.session].secret == t.secret {
        var session := sessions[t.session];
        sessions := sessions[t.session := session.(revokedAt := Some(if session.revokedAt.Some?
          then session.revokedAt.value else now))];
      }
    }
  }
}
