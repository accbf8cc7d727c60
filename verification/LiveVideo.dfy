/** The video lease of a live session and the stream keys it causes at the
    provider. The intent to clean up is committed before any provider call. */
module LiveVideo {
  import opened Wrappers

  datatype VideoState = Preparing | Ready | Stopped
  datatype Video = Video(channel: nat, owner: nat, hash: nat, leaseUntil: int, state: VideoState, shutdown: bool)

  // A key with no tag is managed by hand, outside this system.
  datatype StreamKey = StreamKey(channel: nat, tag: Option<nat>)

  // What became of the provider work inside the second transaction of a connect.
  datatype IssueOutcome =
    | Refused               // the provider failed before creating anything
    | Lost                  // the key exists at the provider, the transaction does not commit
    | Abandoned             // the create request was given up while it may still be carried out
    | Issued(deadline: int) // committed: the key is handed to the studio

  datatype State = State(
    now: int,
    videos: map<nat, Video>,
    keys: map<nat, StreamKey>,
    unanswered: map<nat, StreamKey>)  // create requests given up and not carried out yet

  datatype Step =
    | Tick(seconds: nat)
    | Reserve(live: nat, channel: nat, owner: nat, hash: nat)
    | Issue(live: nat, owner: nat, hash: nat, newKey: nat, outcome: IssueOutcome)
    | Heartbeat(live: nat, owner: nat, hash: nat, deadline: int)
    | Disconnect(live: nat)
    | Stop(live: nat, over: bool, removed: set<nat>, completes: bool)
    | ForeignKey(channel: nat, newKey: nat)
    | LateCreate(request: nat)  // the provider carries out a request that was given up

  const LEASE: int := 90

  function Min(a: int, b: int): int { if a < b then a else b }

  function KeysOn(keys: map<nat, StreamKey>, channel: nat): set<nat> {
    set k | k in keys && keys[k].channel == channel
  }

  predicate Foreign(keys: map<nat, StreamKey>, channel: nat, live: nat) {
    exists k | k in keys :: keys[k].channel == channel && keys[k].tag != Some(live)
  }

  // The unique index on the channel of the videos that are not stopped.
  predicate ChannelFree(s: State, live: nat, channel: nat) {
    forall l | l in s.videos && l != live && s.videos[l].state != Stopped :: s.videos[l].channel != channel
  }

  predicate MayReserve(s: State, live: nat, channel: nat, owner: nat, hash: nat) {
    && ChannelFree(s, live, channel)
    && (live in s.videos ==>
          var v := s.videos[live];
          && v.channel == channel
          && (v.state == Stopped || (v.hash == hash && v.owner == owner && !v.shutdown && v.leaseUntil > s.now)))
  }

  predicate Holds(s: State, live: nat, owner: nat, hash: nat) {
    && live in s.videos
    && var v := s.videos[live];
    v.hash == hash && v.owner == owner && !v.shutdown && v.state != Stopped
  }

  predicate Due(s: State, live: nat, over: bool) {
    && live in s.videos
    && var v := s.videos[live];
    v.state != Stopped && (v.shutdown || v.leaseUntil <= s.now || over)
  }

  function IssueKey(s: State, live: nat, newKey: nat, outcome: IssueOutcome): State
    requires live in s.videos
  {
    var v := s.videos[live];
    if outcome.Refused? || newKey in s.keys || newKey in s.unanswered || Foreign(s.keys, v.channel, live) then s
    else
      var create := KeysOn(s.keys, v.channel) == {};
      match outcome
      case Abandoned => if create then s.(unanswered := s.unanswered[newKey := StreamKey(v.channel, Some(live))]) else s
      case Lost => if create then s.(keys := s.keys[newKey := StreamKey(v.channel, Some(live))]) else s
      case Issued(deadline) =>
        s.(keys := if create then s.keys[newKey := StreamKey(v.channel, Some(live))] else s.keys,
        videos := s.videos[live := v.(state := Ready, leaseUntil := Min(deadline, s.now + LEASE))])
  }

  function Apply(s: State, step: Step): State {
    match step
    case Tick(seconds) => s.(now := s.now + seconds)
    case Reserve(live, channel, owner, hash) =>
      if MayReserve(s, live, channel, owner, hash)
      then s.(videos := s.videos[live := Video(channel, owner, hash, s.now + LEASE, Preparing, false)]) else s
    case Issue(live, owner, hash, newKey, outcome) =>
      if Holds(s, live, owner, hash) then IssueKey(s, live, newKey, outcome) else s
    case Heartbeat(live, owner, hash, deadline) =>
      if Holds(s, live, owner, hash) && s.videos[live].state == Ready && s.videos[live].leaseUntil > s.now
      then s.(videos := s.videos[live := s.videos[live].(leaseUntil := Min(deadline, s.now + LEASE))]) else s
    case Disconnect(live) =>
      if live in s.videos then s.(videos := s.videos[live := s.videos[live].(shutdown := true)]) else s
    case Stop(live, over, removed, completes) =>
      if !Due(s, live, over) || Foreign(s.keys, s.videos[live].channel, live) then s
      else
        var channel := s.videos[live].channel;
        if completes
        then s.(keys := s.keys - KeysOn(s.keys, channel),
                videos := s.videos[live := s.videos[live].(state := Stopped, shutdown := false)])
        else s.(keys := s.keys - (removed * KeysOn(s.keys, channel)))
    case ForeignKey(channel, newKey) =>
      if newKey !in s.keys then s.(keys := s.keys[newKey := StreamKey(channel, None)]) else s
    case LateCreate(request) =>
      if request in s.unanswered && request !in s.keys
      then s.(keys := s.keys[request := s.unanswered[request]], unanswered := s.unanswered - {request}) else s
  }

  function Initial(): State { State(0, map[], map[], map[]) }

  function Exec(s: State, steps: seq<Step>): State {
    if steps == [] then s else Apply(Exec(s, steps[..|steps| - 1]), steps[|steps| - 1])
  }

  /// When each step takes effect

  // A key of the channel that is not tagged with this live.
  predicate Taken(s: State, channel: nat, live: nat) {
    exists k | k in s.keys :: s.keys[k].channel == channel && s.keys[k].tag != Some(live)
  }

  predicate HasKey(s: State, channel: nat) { exists k | k in s.keys :: s.keys[k].channel == channel }

  // The studio that reserved the video may still use it.
  predicate Studio(s: State, live: nat, owner: nat, hash: nat) {
    && live in s.videos && s.videos[live].owner == owner && s.videos[live].hash == hash
    && !s.videos[live].shutdown && (s.videos[live].state == Preparing || s.videos[live].state == Ready)
  }

  // A video is reserved, for ninety seconds, exactly on a channel no other running
  // video has, and if it runs already, by its studio while the lease lasts.
  lemma ReservedExactlyWhen(s: State, live: nat, channel: nat, owner: nat, hash: nat)
    ensures Apply(s, Reserve(live, channel, owner, hash))
         == if && (forall l | l in s.videos && l != live && s.videos[l].channel == channel ::
                     s.videos[l].state == Stopped)
               && (live in s.videos ==>
                     && s.videos[live].channel == channel
                     && (s.videos[live].state == Stopped
                         || (Studio(s, live, owner, hash) && s.now < s.videos[live].leaseUntil)))
            then s.(videos := s.videos[live := Video(channel, owner, hash, s.now + 90, Preparing, false)]) else s
  {}

  // A key is handed out exactly to the studio of the video, on a channel without
  // keys of others: the one there is, or a new one tagged with the live. Whether
  // the transaction commits or not, no key is made beside one that exists.
  lemma IssuedExactlyWhen(s: State, live: nat, owner: nat, hash: nat, newKey: nat, deadline: int)
    requires newKey !in s.keys && newKey !in s.unanswered
    ensures var handed := Apply(s, Issue(live, owner, hash, newKey, Issued(deadline)));
            var lost := Apply(s, Issue(live, owner, hash, newKey, Lost));
            var abandoned := Apply(s, Issue(live, owner, hash, newKey, Abandoned));
            if Studio(s, live, owner, hash) && !Taken(s, s.videos[live].channel, live)
            then
              var v, key := s.videos[live], StreamKey(s.videos[live].channel, Some(live));
              && lost == (if HasKey(s, v.channel) then s else s.(keys := s.keys[newKey := key]))
              && abandoned == (if HasKey(s, v.channel) then s else s.(unanswered := s.unanswered[newKey := key]))
              && handed == lost.(videos := s.videos[live := v.(state := Ready,
                                   leaseUntil := if deadline < s.now + 90 then deadline else s.now + 90)])
            else handed == lost == abandoned == s
  {
    if Studio(s, live, owner, hash) {
      var channel := s.videos[live].channel;
      assert HasKey(s, channel) <==> KeysOn(s.keys, channel) != {} by {
        if HasKey(s, channel) {
          var k :| k in s.keys && s.keys[k].channel == channel;
          assert k in KeysOn(s.keys, channel);
        }
      }
    }
  }

  // A lease is renewed exactly for its studio, connected and before it ends.
  lemma RenewedExactlyWhen(s: State, live: nat, owner: nat, hash: nat, deadline: int)
    ensures Apply(s, Heartbeat(live, owner, hash, deadline))
         == if Studio(s, live, owner, hash) && s.videos[live].state == Ready && s.now < s.videos[live].leaseUntil
            then s.(videos := s.videos[live := s.videos[live].(
                      leaseUntil := if deadline < s.now + 90 then deadline else s.now + 90)])
            else s
  {}

  // Keys are deleted exactly when the video is not stopped and was shut down, its
  // lease has ended or the live is over, and only on a channel without keys of
  // others; the video stops once they are all gone.
  lemma StoppedExactlyWhen(s: State, live: nat, over: bool, removed: set<nat>)
    ensures var stopped := Apply(s, Stop(live, over, removed, true));
            var partial := Apply(s, Stop(live, over, removed, false));
            if && live in s.videos && s.videos[live].state != Stopped
               && (over || s.videos[live].shutdown || s.videos[live].leaseUntil <= s.now)
               && !Taken(s, s.videos[live].channel, live)
            then
              var v := s.videos[live];
              && stopped == s.(videos := s.videos[live := v.(state := Stopped, shutdown := false)],
                               keys := map k | k in s.keys && s.keys[k].channel != v.channel :: s.keys[k])
              && partial == s.(keys := map k | k in s.keys && !(s.keys[k].channel == v.channel && k in removed) ::
                                         s.keys[k])
            else stopped == partial == s
  {}

  /// Leases

  // The deadline of the live as a step that hands out or renews a lease read it.
  function DeadlineOf(step: Step): Option<int> {
    match step
    case Issue(_, _, _, _, Issued(deadline)) => Some(deadline)
    case Heartbeat(_, _, _, deadline) => Some(deadline)
    case _ => None
  }

  ghost predicate LeaseBounded(s: State, live: nat, deadline: int) {
    live in s.videos ==>
      && s.videos[live].leaseUntil <= s.now + 90
      && (s.videos[live].state == Ready ==> s.videos[live].leaseUntil <= deadline)
  }

  // Over every run, a lease ends at most ninety seconds from now, and that of a
  // connected studio no later than the live.
  lemma {:induction false} LeaseEndsInTime(steps: seq<Step>, live: nat, deadline: int)
    requires forall k | 0 <= k < |steps| && (steps[k].Issue? || steps[k].Heartbeat?) && steps[k].live == live ::
               DeadlineOf(steps[k]).Some? ==> DeadlineOf(steps[k]).value <= deadline
    ensures LeaseBounded(Exec(Initial(), steps), live, deadline)
  {
    if steps != [] {
      var n := |steps| - 1;
      assert forall k | 0 <= k < n :: steps[..n][k] == steps[k];
      LeaseEndsInTime(steps[..n], live, deadline);
      LeaseStep(Exec(Initial(), steps[..n]), steps[n], live, deadline);
    }
  }

  lemma LeaseStep(s: State, step: Step, live: nat, deadline: int)
    requires LeaseBounded(s, live, deadline)
    requires (step.Issue? || step.Heartbeat?) && step.live == live && DeadlineOf(step).Some? ==>
               DeadlineOf(step).value <= deadline
    ensures LeaseBounded(Apply(s, step), live, deadline)
  {}

  // A step that hands out or renews a lease makes it as long as that allows.
  lemma LeaseIsFull(s: State, step: Step)
    requires (step.Issue? || step.Heartbeat?) && DeadlineOf(step).Some? && Apply(s, step) != s
    ensures var until := Apply(s, step).videos[step.live].leaseUntil;
            step.live in Apply(s, step).videos && (until == s.now + 90 || until == DeadlineOf(step).value)
  {}

  /// No orphan key

  // A key this system created belongs to a video row that is not stopped.
  ghost predicate Backed(s: State, key: StreamKey) {
    key.tag.Some? ==>
      && key.tag.value in s.videos
      && s.videos[key.tag.value].state != Stopped
      && s.videos[key.tag.value].channel == key.channel
  }

  ghost predicate NoOrphan(s: State) {
    forall k | k in s.keys :: Backed(s, s.keys[k])
  }

  ghost predicate OneVideoPerChannel(s: State) {
    forall l, m | l in s.videos && m in s.videos && l != m && s.videos[l].state != Stopped
        && s.videos[m].state != Stopped ::
      s.videos[l].channel != s.videos[m].channel
  }

  ghost predicate RequestsKnown(s: State) {
    forall r | r in s.unanswered :: var q := s.unanswered[r];
      q.tag.Some? && q.tag.value in s.videos && s.videos[q.tag.value].channel == q.channel
  }

  ghost predicate Structure(s: State) {
    OneVideoPerChannel(s) && RequestsKnown(s)
  }

  // A given-up request is carried out, if ever, while its video is not stopped.
  predicate Timely(s: State, step: Step) {
    step.LateCreate? && step.request in s.unanswered && step.request !in s.keys
      && s.unanswered[step.request].tag.Some? ==>
      var live := s.unanswered[step.request].tag.value;
      live in s.videos && s.videos[live].state != Stopped
  }

  lemma ApplyKeepsVideos(s: State, step: Step)
    requires OneVideoPerChannel(s)
    ensures OneVideoPerChannel(Apply(s, step))
  {}

  lemma ApplyKeepsRequests(s: State, step: Step)
    requires RequestsKnown(s)
    ensures RequestsKnown(Apply(s, step))
  {}

  lemma ApplyKeepsStructure(s: State, step: Step)
    requires Structure(s)
    ensures Structure(Apply(s, step))
  {
    ApplyKeepsVideos(s, step);
    ApplyKeepsRequests(s, step);
  }

  lemma StopKeepsNoOrphan(s: State, step: Step)
    requires step.Stop? && Structure(s) && NoOrphan(s)
    ensures NoOrphan(Apply(s, step))
  {}

  lemma ApplyKeepsNoOrphan(s: State, step: Step)
    requires Structure(s) && NoOrphan(s) && Timely(s, step)
    ensures NoOrphan(Apply(s, step))
  {
    match step
    case Stop(_, _, _, _) => StopKeepsNoOrphan(s, step);
    case _ =>
  }

  lemma ExecPrefix(s: State, steps: seq<Step>, i: nat)
    requires i < |steps|
    ensures Exec(s, steps[..i + 1]) == Apply(Exec(s, steps[..i]), steps[i])
  {
    assert steps[..i + 1][..i] == steps[..i];
  }

  lemma {:induction false} RunKeepsStructure(steps: seq<Step>)
    ensures Structure(Exec(Initial(), steps))
  {
    if steps != [] {
      RunKeepsStructure(steps[..|steps| - 1]);
      ApplyKeepsStructure(Exec(Initial(), steps[..|steps| - 1]), steps[|steps| - 1]);
    }
  }

  function At(steps: seq<Step>, i: nat): State
    requires i <= |steps|
  {
    Exec(Initial(), steps[..i])
  }

  predicate TimelyRun(steps: seq<Step>) {
    forall i | 0 <= i < |steps| :: Timely(At(steps, i), steps[i])
  }

  lemma {:induction false} TimelyRunHasNoOrphan(steps: seq<Step>, i: nat)
    requires TimelyRun(steps) && i <= |steps|
    ensures NoOrphan(At(steps, i))
  {
    if i > 0 {
      TimelyRunHasNoOrphan(steps, i - 1);
      RunKeepsStructure(steps[..i - 1]);
      ExecPrefix(Initial(), steps, i - 1);
      ApplyKeepsNoOrphan(At(steps, i - 1), steps[i - 1]);
    }
  }

  lemma UntimelyCreationOrphans(steps: seq<Step>, i: nat)
    requires i < |steps| && !Timely(At(steps, i), steps[i])
    ensures !NoOrphan(At(steps, i + 1))
  {
    ExecPrefix(Initial(), steps, i);
    var s, request := At(steps, i), steps[i].request;
    var s' := At(steps, i + 1);
    assert s'.keys[request] == s.unanswered[request] && !Backed(s', s'.keys[request]);
  }

  // Over every run with crashes, at every moment each key created for a live has
  // a video row that is not stopped, exactly as long as no create request that
  // was given up is carried out after its video stopped.
  lemma OrphanFreeExactlyWhenTimely(steps: seq<Step>)
    ensures (forall i | 0 <= i <= |steps| :: NoOrphan(At(steps, i))) <==> TimelyRun(steps)
  {
    if TimelyRun(steps) {
      forall i | 0 <= i <= |steps| ensures NoOrphan(At(steps, i)) {
        TimelyRunHasNoOrphan(steps, i);
      }
    } else {
      var i :| 0 <= i < |steps| && !Timely(At(steps, i), steps[i]);
      UntimelyCreationOrphans(steps, i);
      assert !NoOrphan(At(steps, i + 1));
    }
  }

  // The condition can fail: the studio's lease runs out, the video is stopped,
  // and only then the provider carries out the request that was given up.
  lemma LateCreationCanOrphan()
    ensures var steps := [Reserve(0, 1, 2, 3), Issue(0, 2, 3, 4, Abandoned), Tick(LEASE), Stop(0, false, {}, true),
        LateCreate(4)];
            !TimelyRun(steps) && !NoOrphan(At(steps, |steps|))
  {
    var steps := [Reserve(0, 1, 2, 3), Issue(0, 2, 3, 4, Abandoned), Tick(LEASE), Stop(0, false, {}, true),
      LateCreate(4)];
    assert At(steps, 0) == Initial();
    ExecPrefix(Initial(), steps, 0);
    ExecPrefix(Initial(), steps, 1);
    ExecPrefix(Initial(), steps, 2);
    ExecPrefix(Initial(), steps, 3);
    var stopped := At(steps, 4);
    assert stopped.videos[0].state == Stopped && stopped.unanswered == map[4 := StreamKey(1, Some(0))]
        && 4 !in stopped.keys;
    assert !Timely(At(steps, 4), steps[4]);
    UntimelyCreationOrphans(steps, 4);
  }

  // The request for key r was given up by step j, for the live of that step.
  predicate GaveUp(steps: seq<Step>, j: nat, r: nat) {
    && j < |steps| && steps[j].Issue? && steps[j].newKey == r
    && r !in At(steps, j).unanswered && r in At(steps, j + 1).unanswered
  }

  // The lease runs, no shutdown is asked for and the live is not found over.
  predicate Calm(s: State, step: Step, live: nat) {
    live in s.videos ==>
      && s.now < s.videos[live].leaseUntil && !s.videos[live].shutdown
      && !(step.Stop? && step.live == live && step.over)
  }

  predicate Undisturbed(steps: seq<Step>, j: nat, i: nat, live: nat)
    requires i <= |steps|
  {
    forall k: nat | j < k < i :: Calm(At(steps, k), steps[k], live)
  }

  // Whatever was given up is carried out, if ever, before the lease ends, a
  // shutdown is asked for or the live is over.
  ghost predicate PromptRun(steps: seq<Step>) {
    forall i: nat, j: nat | j < i < |steps| && steps[i].LateCreate? && GaveUp(steps, j, steps[i].request) ::
      Undisturbed(steps, j, i, steps[j].live)
  }

  lemma RequestStep(s: State, step: Step, r: nat)
    requires r in Apply(s, step).unanswered
    ensures if r in s.unanswered then Apply(s, step).unanswered[r] == s.unanswered[r]
            else step.Issue? && step.newKey == r && Apply(s, step).unanswered[r].tag == Some(step.live)
  {}

  lemma {:induction false} WhoGaveUp(steps: seq<Step>, i: nat, r: nat) returns (j: nat)
    requires i <= |steps| && r in At(steps, i).unanswered
    ensures j < i && GaveUp(steps, j, r) && At(steps, i).unanswered[r].tag == Some(steps[j].live)
  {
    var n: nat := i - 1;
    ExecPrefix(Initial(), steps, n);
    RequestStep(At(steps, n), steps[n], r);
    if r in At(steps, n).unanswered {
      j := WhoGaveUp(steps, n, r);
    } else {
      j := n;
    }
  }

  lemma NotStoppedStep(s: State, step: Step, live: nat)
    requires live in s.videos && s.videos[live].state != Stopped
    requires Calm(s, step, live)
    ensures live in Apply(s, step).videos && Apply(s, step).videos[live].state != Stopped
  {}

  lemma {:induction false} NotStoppedMeanwhile(steps: seq<Step>, j: nat, i: nat, live: nat)
    requires j < i <= |steps| && Undisturbed(steps, j, i, live)
    requires live in At(steps, j + 1).videos && At(steps, j + 1).videos[live].state != Stopped
    ensures live in At(steps, i).videos && At(steps, i).videos[live].state != Stopped
  {
    if j + 1 < i {
      NotStoppedMeanwhile(steps, j, i - 1, live);
      ExecPrefix(Initial(), steps, i - 1);
      assert Calm(At(steps, i - 1), steps[i - 1], live);
      NotStoppedStep(At(steps, i - 1), steps[i - 1], live);
    }
  }

  // So it is enough, for no key ever to be orphaned, that the provider is prompt.
  lemma PromptProviderLeavesNoOrphan(steps: seq<Step>, i: nat)
    requires PromptRun(steps) && i <= |steps|
    ensures NoOrphan(At(steps, i))
  {
    forall k | 0 <= k < |steps| ensures Timely(At(steps, k), steps[k]) {
      if steps[k].LateCreate? && steps[k].request in At(steps, k).unanswered {
        var j := WhoGaveUp(steps, k, steps[k].request);
        ExecPrefix(Initial(), steps, j);
        NotStoppedMeanwhile(steps, j, k, steps[j].live);
      }
    }
    TimelyRunHasNoOrphan(steps, i);
  }

  // All the keys this system has on one channel carry the same live.
  lemma OneLivePerChannel(steps: seq<Step>, k: nat, l: nat)
    requires TimelyRun(steps)
    requires var s := At(steps, |steps|);
             && k in s.keys && l in s.keys && s.keys[k].channel == s.keys[l].channel
             && s.keys[k].tag.Some? && s.keys[l].tag.Some?
    ensures At(steps, |steps|).keys[k].tag == At(steps, |steps|).keys[l].tag
  {
    TimelyRunHasNoOrphan(steps, |steps|);
    RunKeepsStructure(steps[..|steps|]);
    var s := At(steps, |steps|);
    assert Backed(s, s.keys[k]) && Backed(s, s.keys[l]);
  }

  /// One studio at a time

  // The step hands a stream key to a studio.
  predicate HandsKey(s: State, step: Step) {
    && step.Issue? && step.outcome.Issued?
    && Holds(s, step.live, step.owner, step.hash)
    && step.newKey !in s.keys && step.newKey !in s.unanswered
    && !Foreign(s.keys, s.videos[step.live].channel, step.live)
  }

  predicate StoppedVideo(s: State, live: nat) {
    live in s.videos && s.videos[live].state == Stopped
  }

  lemma StepKeepsHolder(s: State, step: Step, live: nat)
    requires live in s.videos && s.videos[live].state != Stopped
    requires !StoppedVideo(Apply(s, step), live)
    ensures live in Apply(s, step).videos
    ensures Apply(s, step).videos[live].hash == s.videos[live].hash
    ensures Apply(s, step).videos[live].owner == s.videos[live].owner
    ensures s.videos[live].shutdown ==> Apply(s, step).videos[live].shutdown
  {}

  lemma {:induction false} HolderKeptUntilStopped(steps: seq<Step>, live: nat, i: nat, j: nat)
    requires i <= j <= |steps|
    requires live in At(steps, i).videos
    requires forall k | i <= k <= j :: !StoppedVideo(At(steps, k), live)
    ensures live in At(steps, j).videos
    ensures At(steps, j).videos[live].hash == At(steps, i).videos[live].hash
    ensures At(steps, j).videos[live].owner == At(steps, i).videos[live].owner
    ensures At(steps, i).videos[live].shutdown ==> At(steps, j).videos[live].shutdown
    decreases j
  {
    if i < j {
      HolderKeptUntilStopped(steps, live, i, j - 1);
      ExecPrefix(Initial(), steps, j - 1);
      assert !StoppedVideo(At(steps, j - 1), live) && !StoppedVideo(At(steps, j), live);
      StepKeepsHolder(At(steps, j - 1), steps[j - 1], live);
    }
  }

  // Two connects to one live that both obtain a key, from different studios,
  // always have a moment between them at which the video is stopped.
  lemma StoppedBetweenStudios(steps: seq<Step>, i: nat, j: nat)
    requires i < j < |steps|
    requires HandsKey(At(steps, i), steps[i]) && HandsKey(At(steps, j), steps[j])
    requires steps[i].live == steps[j].live
    requires steps[i].hash != steps[j].hash || steps[i].owner != steps[j].owner
    ensures exists k | i < k <= j :: StoppedVideo(At(steps, k), steps[i].live)
  {
    var live := steps[i].live;
    ExecPrefix(Initial(), steps, i);
    if forall k | i < k <= j :: !StoppedVideo(At(steps, k), live) {
      HolderKeptUntilStopped(steps, live, i + 1, j);
    }
  }

  // Once a shutdown is asked for, nobody obtains a key until the video has stopped.
  lemma ShutdownEndsIssuing(steps: seq<Step>, i: nat, j: nat, live: nat)
    requires i <= j < |steps|
    requires live in At(steps, i).videos && At(steps, i).videos[live].shutdown
    requires HandsKey(At(steps, j), steps[j]) && steps[j].live == live
    ensures exists k | i <= k <= j :: StoppedVideo(At(steps, k), live)
  {
    if forall k | i <= k <= j :: !StoppedVideo(At(steps, k), live) {
      HolderKeptUntilStopped(steps, live, i, j);
    }
  }

  // A key left by a crash is recovered: once the lease has run out, one complete
  // maintenance pass leaves no key on the channel, unless a foreign one is there.
  lemma CrashIsRecoverable(steps: seq<Step>, live: nat, wait: nat)
    requires var s := At(steps, |steps|);
             && live in s.videos && s.videos[live].state != Stopped
             && !Foreign(s.keys, s.videos[live].channel, live)
             && s.videos[live].leaseUntil <= s.now + wait
    ensures var s := At(steps, |steps|);
            var cleaned := Apply(Apply(s, Tick(wait)), Stop(live, false, {}, true));
            && StoppedVideo(cleaned, live)
            && KeysOn(cleaned.keys, s.videos[live].channel) == {}
  {}

  /// The provider and the service as objects

  lemma {:induction false} SubsetSize(part: set<nat>, whole: set<nat>)
    requires part <= whole
    ensures |part| <= |whole|
  {
    if part != {} {
      var x :| x in part;
      SubsetSize(part - {x}, whole - {x});
    }
  }

  class IvsProvider {
    var keys: map<nat, StreamKey>

    // Reuses the key of this live, or creates one on an empty channel.
    method Key(channel: nat, live: nat, newKey: nat, refused: bool) returns (key: Option<nat>)
      requires newKey !in keys
      modifies this
      ensures key.None? <==> refused || Foreign(old(keys), channel, live)
      ensures key.None? ==> keys == old(keys)
      ensures key.Some? ==>
                && key.value in keys && keys[key.value] == StreamKey(channel, Some(live))
                && keys == if KeysOn(old(keys), channel) == {}
                           then old(keys)[newKey := StreamKey(channel, Some(live))] else old(keys)
    {
      var existing := KeysOn(keys, channel);
      if refused || exists k | k in existing :: keys[k].tag != Some(live) {
        return None;
      }
      if existing != {} {
        var first :| first in existing;
        return Some(first);
      }
      keys := keys[newKey := StreamKey(channel, Some(live))];
      return Some(newKey);
    }

    // Deletes every key of the channel, then disconnects. The first `failAfter`
    // calls succeed and the next one, if it comes to it, fails.
    method StopChannel(channel: nat, live: nat, failAfter: nat) returns (completes: bool, ghost removed: set<nat>)
      modifies this
      ensures Foreign(old(keys), channel, live) ==> !completes && keys == old(keys)
      ensures !Foreign(old(keys), channel, live) ==>
                && keys == old(keys) - (if completes then KeysOn(old(keys), channel)
                    else removed * KeysOn(old(keys), channel))
                && (completes <==> failAfter > |KeysOn(old(keys), channel)|)
    {
      var existing := KeysOn(keys, channel);
      ghost var all := existing;
      removed := {};
      if exists k | k in existing :: keys[k].tag != Some(live) {
        return false, removed;
      }
      var deleted := 0;
      while existing != {}
        invariant existing == all - removed && removed <= all
        invariant keys == old(keys) - removed
        invariant |removed| == deleted <= failAfter
        decreases existing
      {
        if deleted == failAfter {
          SubsetSize(removed, all);
          assert removed * all == removed;
          return false, removed;
        }
        var k :| k in existing;
        keys := keys - {k};
        existing, removed, deleted := existing - {k}, removed + {k}, deleted + 1;
      }
      assert removed == all && removed * all == removed;
      completes := failAfter > deleted;
    }
  }

  class LiveVideoService {
    var now: int
    var videos: map<nat, Video>
    const provider: IvsProvider
    ghost var unanswered: map<nat, StreamKey>

    ghost function View(): State reads this, provider { State(now, videos, provider.keys, unanswered) }

    constructor (provider: IvsProvider)
      ensures this.provider == provider && View() == State(0, map[], provider.keys, map[])
    {
      now, videos, this.provider := 0, map[], provider;
      unanswered := map[];
    }

    method ReserveVideo(live: nat, channel: nat, owner: nat, hash: nat) returns (ok: bool)
      modifies this
      ensures ok == MayReserve(old(View()), live, channel, owner, hash)
      ensures View() == Apply(old(View()), Reserve(live, channel, owner, hash))
    {
      if live in videos {
        var row := videos[live];
        if row.state != Stopped && (row.hash != hash || row.owner != owner || row.shutdown || row.leaseUntil <= now) {
          return false;
        }
        if row.channel != channel { return false; }
      }
      if exists l | l in videos :: l != live && videos[l].state != Stopped && videos[l].channel == channel {
        return false;
      }
      videos := videos[live := Video(channel, owner, hash, now + LEASE, Preparing, false)];
      return true;
    }

    // Two transactions: the intent, then the key. `ready` says whether each of
    // them found the session running and the monitor alive.
    method Connect(live: nat, channel: nat, owner: nat, hash: nat, ready: (bool, bool),
                   newKey: nat, refused: bool, deadline: int) returns (key: Option<nat>)
      requires newKey !in provider.keys && newKey !in unanswered
      modifies this, provider
      ensures !ready.0 ==> View() == old(View())
      ensures ready.0 ==>
                var reserved := Apply(old(View()), Reserve(live, channel, owner, hash));
                var issue := Issue(live, owner, hash, newKey, if refused then Refused else Issued(deadline));
                && View() == (if MayReserve(old(View()), live, channel, owner, hash) && ready.1
                              then Apply(reserved, issue) else reserved)
                && (key.Some? ==>
                      && HandsKey(reserved, issue)
                      && key.value in provider.keys && provider.keys[key.value] == StreamKey(channel, Some(live)))
      ensures key.Some? ==> ready.0 && ready.1 && MayReserve(old(View()), live, channel, owner, hash)
    {
      if !ready.0 { return None; }
      var ok := ReserveVideo(live, channel, owner, hash);
      if !ok || !ready.1 { return None; }
      var row := videos[live];
      if row.hash != hash || row.owner != owner || row.shutdown || row.state == Stopped { return None; }
      key := provider.Key(row.channel, live, newKey, refused);
      if key.Some? {
        videos := videos[live := row.(state := Ready, leaseUntil := Min(deadline, now + LEASE))];
      }
    }

    method RenewLease(live: nat, owner: nat, hash: nat, deadline: int) returns (ok: bool)
      modifies this
      ensures View() == Apply(old(View()), Heartbeat(live, owner, hash, deadline))
      ensures !ok ==> View() == old(View())
    {
      if live !in videos { return false; }
      var row := videos[live];
      if row.state != Ready || row.shutdown || row.leaseUntil <= now || row.hash != hash || row.owner != owner {
        return false;
      }
      videos := videos[live := row.(leaseUntil := Min(deadline, now + LEASE))];
      return true;
    }

    method RequestShutdown(live: nat)
      modifies this
      ensures View() == Apply(old(View()), Disconnect(live))
    {
      if live in videos {
        videos := videos[live := videos[live].(shutdown := true)];
      }
    }

    // One maintenance transaction; the row is marked only after the provider finished.
    method StopVideo(live: nat, over: bool, failAfter: nat) returns (failed: bool, ghost step: Step)
      modifies this, provider
      ensures step.Stop? && step.live == live && step.over == over
      ensures View() == Apply(old(View()), step)
      ensures !failed ==> !Due(View(), live, over)
    {
      step := Stop(live, over, {}, false);
      if live !in videos { return false, step; }
      var row := videos[live];
      if row.state == Stopped || !(row.shutdown || row.leaseUntil <= now || over) { return false, step; }
      var completes; ghost var removed;
      completes, removed := provider.StopChannel(row.channel, live, failAfter);
      step := Stop(live, over, removed, completes);
      if !completes { return true, step; }
      videos := videos[live := row.(state := Stopped, shutdown := false)];
      return false, step;
    }

    // The maintenance pass: a failure does not keep the other videos from being
    // handled, and a pass that reports none leaves nothing due in its batch.
    method Maintain(batch: seq<nat>, over: set<nat>, failAfter: seq<nat>) returns (failed: bool, ghost steps: seq<Step>)
      requires |failAfter| == |batch|
      modifies this, provider
      ensures View() == Exec(old(View()), steps)
      ensures forall step | step in steps :: step.Stop?
      ensures !failed ==> forall live | live in batch :: !Due(View(), live, live in over)
    {
      failed, steps := false, [];
      for i := 0 to |batch|
        invariant View() == Exec(old(View()), steps) && now == old(now)
        invariant forall step | step in steps :: step.Stop?
        invariant !failed ==> forall j | 0 <= j < i :: !Due(View(), batch[j], batch[j] in over)
      {
        ghost var before := View();
        var bad; ghost var step;
        bad, step := StopVideo(batch[i], batch[i] in over, failAfter[i]);
        failed := failed || bad;
        assert (steps + [step])[..|steps|] == steps;
        steps := steps + [step];
        StopMakesNothingDue(before, step);
      }
    }
  }

  lemma StopMakesNothingDue(s: State, step: Step)
    requires step.Stop?
    ensures forall live, over :: Due(Apply(s, step), live, over) ==> Due(s, live, over)
  {}
}
