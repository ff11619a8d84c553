/**
 The generation worker (lib/generation_worker.py): per-provider lanes for images and videos,
 a claim loop, draining of finished tasks and live reload of the limits.

 The queue, the lease and the end of a generation are the environment: claiming hands out some
 queued task or none, and which running generations are done is an input of draining.
 */
module GenerationWorkers {
  import opened Sets
  import opened Wrappers

  datatype Media = Image | Video

  /** A task with the provider that `_extract_provider` finds for it. */
  datatype Task = Task(id: string, media: Media, provider: string)

  datatype Lane = Lane(max: nat, inflight: set<Task>)
  datatype Pool = Pool(image: Lane, video: Lane)
  datatype Limits = Limits(image: nat, video: nat)

  type Pools = map<string, Pool>

  function LaneOf(pool: Pool, media: Media): Lane {
    if media == Image then pool.image else pool.video
  }

  function WithLane(pool: Pool, media: Media, lane: Lane): Pool {
    if media == Image then pool.(image := lane) else pool.(video := lane)
  }

  predicate HasRoom(lane: Lane) {
    lane.max > 0 && |lane.inflight| < lane.max
  }

  /** The tasks in flight in a lane; a pool that does not exist has none. */
  function InLane(pools: Pools, provider: string, media: Media): set<Task> {
    if provider in pools then LaneOf(pools[provider], media).inflight else {}
  }

  predicate Busy(pool: Pool) {
    pool.image.inflight != {} || pool.video.inflight != {}
  }

  ghost function AllInflight(pools: Pools): set<Task> {
    set p <- pools, m <- {Image, Video}, t <- InLane(pools, p, m) :: t
  }

  // ---------------------------------------------------------------- what can happen to the pools

  function NewPool(limits: Limits): Pool {
    Pool(Lane(limits.image, {}), Lane(limits.video, {}))
  }

  function Created(pools: Pools, provider: string, limits: Limits): Pools {
    if provider in pools then pools else pools[provider := NewPool(limits)]
  }

  function Dispatched(pools: Pools, t: Task): Pools
    requires t.provider in pools
  {
    var lane := LaneOf(pools[t.provider], t.media);
    pools[t.provider := WithLane(pools[t.provider], t.media, lane.(inflight := lane.inflight + {t}))]
  }

  function DrainedLane(lane: Lane, done: set<Task>): Lane {
    lane.(inflight := lane.inflight - done)
  }

  function Drained(pools: Pools, done: set<Task>): Pools {
    map p | p in pools :: Pool(DrainedLane(pools[p].image, done), DrainedLane(pools[p].video, done))
  }

  /** New limits for the registered providers, their in-flight tasks carried over; a provider
      that is no longer registered stays with limit 0 while it has tasks in flight. */
  function Reloaded(pools: Pools, limits: map<string, Limits>): Pools {
    map p | p in limits.Keys + pools.Keys && (p in limits || Busy(pools[p])) ::
      if p in limits
      then Pool(Lane(limits[p].image, InLane(pools, p, Image)), Lane(limits[p].video, InLane(pools, p, Video)))
      else Pool(Lane(0, InLane(pools, p, Image)), Lane(0, InLane(pools, p, Video)))
  }

  /** The shim that sets the limits of one provider from the environment. */
  function Relimited(pools: Pools, provider: string, limits: Limits): Pools {
    pools[provider := Pool(Lane(limits.image, InLane(pools, provider, Image)),
                           Lane(limits.video, InLane(pools, provider, Video)))]
  }

  datatype Event =
    | Create(provider: string, limits: Limits)
    | Dispatch(task: Task)
    | Drain(done: set<Task>)
    | Reload(all: map<string, Limits>)
    | Relimit(provider: string, limits: Limits)

  predicate Enabled(pools: Pools, e: Event) {
    e.Dispatch? ==> e.task.provider in pools && HasRoom(LaneOf(pools[e.task.provider], e.task.media))
  }

  function Step(pools: Pools, e: Event): Pools
    requires Enabled(pools, e)
  {
    match e
    case Create(p, limits) => Created(pools, p, limits)
    case Dispatch(t) => Dispatched(pools, t)
    case Drain(done) => Drained(pools, done)
    case Reload(limits) => Reloaded(pools, limits)
    case Relimit(p, limits) => Relimited(pools, p, limits)
  }

  ghost predicate IsRun(states: seq<Pools>, es: seq<Event>) {
    && |states| == |es| + 1
    && forall i :: 0 <= i < |es| ==> Enabled(states[i], es[i]) && states[i + 1] == Step(states[i], es[i])
  }

  // ---------------------------------------------------------------- every run

  predicate NothingInFlight(pools: Pools) {
    forall p <- pools :: !Busy(pools[p])
  }

  /** The limit of a lane, 0 if there is no such pool. */
  function LimitOf(pools: Pools, provider: string, media: Media): nat {
    if provider in pools then LaneOf(pools[provider], media).max else 0
  }

  /** What one step does to one lane: it takes tasks out, or it adds one where there was room. */
  lemma StepGrowth(pools: Pools, e: Event, provider: string, media: Media)
    requires Enabled(pools, e)
    ensures var before := InLane(pools, provider, media); var after := InLane(Step(pools, e), provider, media);
      || after <= before
      || (exists t: Task :: t !in before && after == before + {t} && |before| < LimitOf(pools, provider, media))
  {
    if e.Dispatch? && e.task.provider == provider && e.task.media == media {
      assert InLane(Step(pools, e), provider, media) == InLane(pools, provider, media) + {e.task};
    }
  }

  /** A lane at or above its current limit never grows. */
  lemma FullLaneNeverGrows(pools: Pools, e: Event, provider: string, media: Media)
    requires Enabled(pools, e)
    requires |InLane(pools, provider, media)| >= LimitOf(pools, provider, media)
    ensures InLane(Step(pools, e), provider, media) <= InLane(pools, provider, media)
  {
    StepGrowth(pools, e, provider, media);
  }

  /** A lane never holds more tasks than the largest limit ever in force for it. */
  lemma {:induction false} InFlightWithinLargestLimit(states: seq<Pools>, es: seq<Event>, provider: string,
      media: Media) returns (i: nat)
    requires IsRun(states, es) && NothingInFlight(states[0])
    ensures i < |states| && |InLane(states[|es|], provider, media)| <= LimitOf(states[i], provider, media)
    decreases |es|
  {
    if es == [] {
      return 0;
    }
    var n := |es| - 1;
    i := InFlightWithinLargestLimit(states[..n + 1], es[..n], provider, media);
    assert states[n + 1] == Step(states[n], es[n]);
    StepGrowth(states[n], es[n], provider, media);
    var before, after := InLane(states[n], provider, media), InLane(states[n + 1], provider, media);
    if after <= before {
      SubsetSize(after, before);
    } else {
      i := n;
    }
  }

  /** Reloading leaves every lane's tasks where they are. */
  lemma ReloadKeepsEveryLane(pools: Pools, limits: map<string, Limits>, provider: string, media: Media)
    ensures InLane(Reloaded(pools, limits), provider, media) == InLane(pools, provider, media)
    ensures AllInflight(Reloaded(pools, limits)) == AllInflight(pools)
    ensures LimitOf(Reloaded(pools, limits), provider, media) ==
      if provider !in limits then 0 else if media == Image then limits[provider].image else limits[provider].video
    ensures provider in Reloaded(pools, limits) <==>
      provider in limits || InLane(pools, provider, Image) != {} || InLane(pools, provider, Video) != {}
  {
    var after := Reloaded(pools, limits);
    assert forall p, m :: InLane(after, p, m) == InLane(pools, p, m);
    forall t | t in AllInflight(pools)
      ensures t in AllInflight(after)
    {
      var p, m :| p in pools && t in InLane(pools, p, m);
      assert t in InLane(after, p, m) && p in after;
    }
    forall t | t in AllInflight(after)
      ensures t in AllInflight(pools)
    {
      var p, m :| p in after && t in InLane(after, p, m);
      assert t in InLane(pools, p, m) && p in pools;
    }
  }

  /** So does setting the limits of one provider, whose pool is made if there is none. */
  lemma RelimitKeepsEveryLane(pools: Pools, changed: string, limits: Limits, provider: string, media: Media)
    ensures InLane(Relimited(pools, changed, limits), provider, media) == InLane(pools, provider, media)
    ensures LimitOf(Relimited(pools, changed, limits), provider, media) ==
      if provider != changed then LimitOf(pools, provider, media)
      else if media == Image then limits.image else limits.video
    ensures Relimited(pools, changed, limits).Keys == pools.Keys + {changed}
  {
  }

  /** The tasks done, and no others, leave their lanes; pools and limits stay. */
  lemma DrainTakesTheDone(pools: Pools, done: set<Task>, provider: string, media: Media)
    ensures InLane(Drained(pools, done), provider, media) == InLane(pools, provider, media) - done
    ensures LimitOf(Drained(pools, done), provider, media) == LimitOf(pools, provider, media)
    ensures Drained(pools, done).Keys == pools.Keys
  {
  }

  /** Every task in flight is in the lane of its own provider and medium, so in one lane only. */
  ghost predicate InOwnLane(pools: Pools) {
    forall p <- pools, m <- {Image, Video}, t <- InLane(pools, p, m) :: t.provider == p && t.media == m
  }

  lemma StepKeepsOwnLane(pools: Pools, e: Event, provider: string, media: Media, t: Task)
    requires Enabled(pools, e) && InOwnLane(pools) && t in InLane(Step(pools, e), provider, media)
    ensures t.provider == provider && t.media == media
  {
    assert t in InLane(pools, provider, media) || (e.Dispatch? && e.task == t);
  }

  lemma {:induction false} TasksStayInOwnLane(states: seq<Pools>, es: seq<Event>)
    requires IsRun(states, es) && InOwnLane(states[0])
    ensures InOwnLane(states[|es|])
    decreases |es|
  {
    if es != [] {
      var n := |es| - 1;
      TasksStayInOwnLane(states[..n + 1], es[..n]);
      var last := states[|es|];
      assert last == states[n + 1] == Step(states[n], es[n]);
      forall p, m, t | t in InLane(last, p, m)
        ensures t.provider == p && t.media == m
      {
        StepKeepsOwnLane(states[n], es[n], p, m, t);
      }
    }
  }

  /** No pool is gone and no limit has changed. */
  predicate LimitsKept(before: Pools, after: Pools) {
    forall p <- before ::
      p in after && after[p].image.max == before[p].image.max && after[p].video.max == before[p].video.max
  }

  /** What one turn of the claim loop did. */
  datatype Claim = Nothing | Dispatches(task: Task) | Rejects(task: Task) | PutsBack(task: Task)

  /** A task is dispatched only into room, rejected only by a lane without capacity, and put
      back only because its lane is full. */
  predicate Explains(claim: Claim, before: Pools, after: Pools) {
    match claim
    case Nothing => true
    case Dispatches(t) => |InLane(before, t.provider, t.media)| < LimitOf(after, t.provider, t.media)
    case Rejects(t) => LimitOf(after, t.provider, t.media) == 0
    case PutsBack(t) => 0 < LimitOf(after, t.provider, t.media) <= |InLane(after, t.provider, t.media)|
  }

  function Added(claim: Claim, provider: string, media: Media): set<Task> {
    if claim.Dispatches? && claim.task.provider == provider && claim.task.media == media then {claim.task} else {}
  }

  lemma LimitsStay(a: Pools, b: Pools, c: Pools)
    requires LimitsKept(a, b) && LimitsKept(b, c)
    ensures LimitsKept(a, c)
    ensures forall p, m :: p in b ==> p in c && LimitOf(c, p, m) == LimitOf(b, p, m)
  {
  }

  lemma LaneFacts(pools: Pools, provider: string, media: Media)
    requires provider in pools
    ensures LaneOf(pools[provider], media) == Lane(LimitOf(pools, provider, media), InLane(pools, provider, media))
  {
  }

  lemma CreateFacts(pools: Pools, provider: string, limits: Limits)
    ensures var after := Step(pools, Create(provider, limits));
      && provider in after && LimitsKept(pools, after)
      && (forall p, m :: InLane(after, p, m) == InLane(pools, p, m))
      && (provider !in pools ==>
            LimitOf(after, provider, Image) == limits.image && LimitOf(after, provider, Video) == limits.video)
  {
  }

  lemma DispatchFacts(pools: Pools, t: Task)
    requires Enabled(pools, Dispatch(t))
    ensures var after := Step(pools, Dispatch(t));
      && LimitsKept(pools, after)
      && InLane(after, t.provider, t.media) == InLane(pools, t.provider, t.media) + {t}
      && forall p, m :: (p != t.provider || m != t.media) ==> InLane(after, p, m) == InLane(pools, p, m)
  {
  }

  function DispatchedIn(claims: seq<Claim>): set<Task> {
    set c <- claims | c.Dispatches? :: c.task
  }

  function RejectedIn(claims: seq<Claim>): set<Task> {
    set c <- claims | c.Rejects? :: c.task
  }

  /** The claims of one call: each takes another task, and only the last one may have put its task back. */
  ghost predicate IsClaimRun(claims: seq<Claim>) {
    && (forall i :: 0 <= i < |claims| ==> claims[i] != Nothing && (claims[i].PutsBack? ==> i == |claims| - 1))
    && (forall i, k :: 0 <= i < k < |claims| ==> claims[i].task != claims[k].task)
  }

  ghost predicate PutBackLast(claims: seq<Claim>) {
    claims != [] && claims[|claims| - 1].PutsBack?
  }

  lemma OneMoreClaim(claims: seq<Claim>, claim: Claim)
    requires IsClaimRun(claims) && !PutBackLast(claims) && claim != Nothing
    requires forall c <- claims :: c.task != claim.task
    ensures IsClaimRun(claims + [claim])
    ensures DispatchedIn(claims + [claim]) == DispatchedIn(claims) + if claim.Dispatches? then {claim.task} else {}
    ensures RejectedIn(claims + [claim]) == RejectedIn(claims) + if claim.Rejects? then {claim.task} else {}
  {
    assert forall i :: 0 <= i < |claims| ==> claims[i] in claims;
    assert forall c :: c in claims + [claim] <==> c in claims || c == claim;
  }

  /** A task claimed before is not queued any more. */
  lemma ClaimedAreNotQueued(claims: seq<Claim>, before: map<Task, Status>, now: map<Task, Status>, t: Task)
    requires Claimed(before, now, DispatchedIn(claims), RejectedIn(claims))
    requires IsClaimRun(claims) && !PutBackLast(claims)
    requires t in QueuedTasks(now)
    ensures forall c <- claims :: c.task != t
  {
    forall i | 0 <= i < |claims|
      ensures claims[i].task != t
    {
      var c := claims[i];
      assert c in claims && !c.PutsBack?;
      assert c.task in DispatchedIn(claims) || c.task in RejectedIn(claims);
    }
  }

  /** The pools when a claimed task was placed, before and after. */
  datatype Moment = Moment(before: Pools, after: Pools)

  /** Every claim is explained by the pools of its own moment. */
  ghost predicate AllExplained(claims: seq<Claim>, moments: seq<Moment>) {
    && |moments| == |claims|
    && forall i :: 0 <= i < |claims| ==> Explains(claims[i], moments[i].before, moments[i].after)
  }

  /** The moments are states of the run. */
  ghost predicate AreOfRun(moments: seq<Moment>, states: seq<Pools>) {
    forall m <- moments :: m.before in states && m.after in states
  }

  /** What the claims made so far have done to the queue and to the lanes. */
  ghost predicate Progress(claims: seq<Claim>, before: map<Task, Status>, now: map<Task, Status>,
      pools: Pools, poolsNow: Pools, media: Media)
  {
    && IsClaimRun(claims)
    && Claimed(before, now, DispatchedIn(claims), RejectedIn(claims))
    && Routed(pools, poolsNow, media, DispatchedIn(claims))
  }

  /** Why a medium's claim loop has stopped: the queue gave no task, a task was put back, or no
      lane of the medium had room. */
  datatype Stop = QueueGaveNone | PutBack | NoRoom

  ghost predicate NoLaneHasRoom(pools: Pools, media: Media) {
    forall p <- pools :: !HasRoom(LaneOf(pools[p], media))
  }

  /** The reason given is true, of the state `now` for a lack of room. */
  ghost predicate StopsFor(stop: Stop, claims: seq<Claim>, now: Pools, media: Media) {
    match stop
    case QueueGaveNone => !PutBackLast(claims)
    case PutBack => PutBackLast(claims)
    case NoRoom => NoLaneHasRoom(now, media)
  }

  /** Some claim was not put back. */
  predicate SomethingDone(claims: seq<Claim>) {
    DispatchedIn(claims) + RejectedIn(claims) != {}
  }

  function StatusAfter(status: map<Task, Status>, claim: Claim): map<Task, Status> {
    match claim
    case Dispatches(t) => status[t := Running]
    case Rejects(t) => status[t := Failed]
    case _ => status
  }

  lemma NoProgressYet(status: map<Task, Status>, pools: Pools, media: Media)
    ensures Progress([], status, status, pools, pools, media) && !SomethingDone([]) && !PutBackLast([])
  {
    assert DispatchedIn([]) == {} && RejectedIn([]) == {};
  }

  /** Changes that keep every lane's tasks change nothing about the claims. */
  lemma LanesUnmoved(claims: seq<Claim>, before: map<Task, Status>, now: map<Task, Status>,
      pools: Pools, mid: Pools, after: Pools, media: Media)
    requires Progress(claims, before, now, pools, mid, media)
    requires forall p, m :: InLane(after, p, m) == InLane(mid, p, m) + Added(Nothing, p, m)
    ensures Progress(claims, before, now, pools, after, media)
  {
    hide Claimed, IsClaimRun, DispatchedIn, RejectedIn, InLane;
  }

  lemma ProgressOneMore(claims: seq<Claim>, before: map<Task, Status>, now: map<Task, Status>,
      pools: Pools, mid: Pools, after: Pools, media: Media, claim: Claim)
    requires Progress(claims, before, now, pools, mid, media) && !PutBackLast(claims)
    requires claim != Nothing && claim.task in QueuedTasks(now) && claim.task.media == media
    requires forall p, m :: InLane(after, p, m) == InLane(mid, p, m) + Added(claim, p, m)
    ensures Progress(claims + [claim], before, StatusAfter(now, claim), pools, after, media)
    ensures PutBackLast(claims + [claim]) <==> claim.PutsBack?
    ensures SomethingDone(claims + [claim]) <==> SomethingDone(claims) || !claim.PutsBack?
    ensures !claim.PutsBack? ==> QueuedTasks(StatusAfter(now, claim)) == QueuedTasks(now) - {claim.task}
  {
    hide *;
    var d, r := DispatchedIn(claims), RejectedIn(claims);
    ProgressParts(claims, before, now, pools, mid, media);
    ClaimedAreNotQueued(claims, before, now, claim.task);
    OneMoreClaim(claims, claim);
    ClaimedStep(before, now, d, r, claim);
    RoutedOneMore(pools, mid, after, media, d, claim);
    ProgressWhole(claims + [claim], before, StatusAfter(now, claim), pools, after, media);
    OneMoreDone(claims, claim);
  }

  lemma ProgressParts(claims: seq<Claim>, before: map<Task, Status>, now: map<Task, Status>,
      pools: Pools, poolsNow: Pools, media: Media)
    requires Progress(claims, before, now, pools, poolsNow, media)
    ensures IsClaimRun(claims)
    ensures Claimed(before, now, DispatchedIn(claims), RejectedIn(claims))
    ensures Routed(pools, poolsNow, media, DispatchedIn(claims))
  {
  }

  lemma ProgressWhole(claims: seq<Claim>, before: map<Task, Status>, now: map<Task, Status>,
      pools: Pools, poolsNow: Pools, media: Media)
    requires IsClaimRun(claims)
    requires Claimed(before, now, DispatchedIn(claims), RejectedIn(claims))
    requires Routed(pools, poolsNow, media, DispatchedIn(claims))
    ensures Progress(claims, before, now, pools, poolsNow, media)
  {
  }

  lemma ClaimedStep(before: map<Task, Status>, now: map<Task, Status>, d: set<Task>, r: set<Task>, claim: Claim)
    requires Claimed(before, now, d, r) && claim != Nothing && claim.task in QueuedTasks(now)
    ensures Claimed(before, StatusAfter(now, claim), d + (if claim.Dispatches? then {claim.task} else {}),
                    r + if claim.Rejects? then {claim.task} else {})
    ensures !claim.PutsBack? ==> QueuedTasks(StatusAfter(now, claim)) == QueuedTasks(now) - {claim.task}
  {
    hide Claimed, QueuedTasks;
    assert d + {} == d && r + {} == r;
    ClaimedOneMore(before, now, d, r, claim.task);
  }

  lemma OneMoreDone(claims: seq<Claim>, claim: Claim)
    requires !PutBackLast(claims) && claim != Nothing
    requires DispatchedIn(claims + [claim]) == DispatchedIn(claims) + if claim.Dispatches? then {claim.task} else {}
    requires RejectedIn(claims + [claim]) == RejectedIn(claims) + if claim.Rejects? then {claim.task} else {}
    ensures PutBackLast(claims + [claim]) <==> claim.PutsBack?
    ensures SomethingDone(claims + [claim]) <==> SomethingDone(claims) || !claim.PutsBack?
  {
    hide DispatchedIn, RejectedIn;
  }

  lemma NoneExplained(states: seq<Pools>)
    ensures AllExplained([], []) && AreOfRun([], states)
  {
  }

  lemma OneMoreExplained(claims: seq<Claim>, moments: seq<Moment>, claim: Claim, moment: Moment, states: seq<Pools>)
    requires AllExplained(claims, moments) && AreOfRun(moments, states)
    requires Explains(claim, moment.before, moment.after) && moment.before in states && moment.after in states
    ensures AllExplained(claims + [claim], moments + [moment]) && AreOfRun(moments + [moment], states)
  {
    hide Explains;
  }

  lemma BothExplained(claims: seq<Claim>, moments: seq<Moment>, more: seq<Claim>, later: seq<Moment>,
      states: seq<Pools>)
    requires AllExplained(claims, moments) && AreOfRun(moments, states)
    requires AllExplained(more, later) && AreOfRun(later, states)
    ensures AllExplained(claims + more, moments + later) && AreOfRun(moments + later, states)
  {
    hide Explains;
  }

  lemma RunGoesOn(moments: seq<Moment>, states: seq<Pools>, more: seq<Pools>)
    requires AreOfRun(moments, states) && states <= more
    ensures AreOfRun(moments, more)
  {
    InLongerRun(states, more);
  }

  lemma InLongerRun(states: seq<Pools>, more: seq<Pools>)
    requires states <= more
    ensures forall s <- states :: s in more
  {
    assert forall i :: 0 <= i < |states| ==> more[i] == states[i];
  }

  /** What `_claim_tasks` finds out about a claimed task's lane, and what follows from it. */
  lemma PlaceIsExplained(before: Pools, created: Pools, t: Task)
    requires t.provider in created && LimitsKept(before, created)
    requires forall p, m :: InLane(created, p, m) == InLane(before, p, m)
    ensures var lane := LaneOf(created[t.provider], t.media);
      && (lane.max == 0 ==> Explains(Rejects(t), before, created))
      && (lane.max > 0 && !HasRoom(lane) ==> Explains(PutsBack(t), before, created))
      && (HasRoom(lane) ==>
            Enabled(created, Dispatch(t)) &&
            var after := Step(created, Dispatch(t));
            && LimitsKept(before, after) && t.provider in after && Explains(Dispatches(t), before, after)
            && (forall m :: LimitOf(after, t.provider, m) == LimitOf(created, t.provider, m))
            && forall p, m :: InLane(after, p, m) == InLane(before, p, m) + Added(Dispatches(t), p, m))
  {
    hide Step, LimitsKept, LimitOf, InLane;
    LaneFacts(created, t.provider, t.media);
    if HasRoom(LaneOf(created[t.provider], t.media)) {
      DispatchFacts(created, t);
      LimitsStay(before, created, Step(created, Dispatch(t)));
    }
  }

  lemma ClaimedTwice(a: map<Task, Status>, b: map<Task, Status>, c: map<Task, Status>,
      d: set<Task>, r: set<Task>, e: set<Task>, s: set<Task>)
    requires Claimed(a, b, d, r) && Claimed(b, c, e, s)
    ensures Claimed(a, c, d + e, r + s)
  {
  }

  lemma RoutedTwice(a: Pools, b: Pools, c: Pools, d: set<Task>, e: set<Task>)
    requires Routed(a, b, Image, d) && Routed(b, c, Video, e)
    ensures forall t <- d + e :: t in InLane(c, t.provider, t.media)
  {
    hide InLane;
  }

  lemma NothingMoves(status: map<Task, Status>)
    ensures StatusAfter(status, Nothing) == status
  {
  }

  lemma NothingAdded(t: Task)
    ensures forall p, m :: Added(Rejects(t), p, m) == {} && Added(PutsBack(t), p, m) == {}
  {
  }

  // ---------------------------------------------------------------- the code

  datatype Status = Queued | Running | Failed

  function QueuedTasks(status: map<Task, Status>): set<Task> {
    set t <- status | status[t] == Queued
  }

  /** The queue's `requeue_running_tasks`. */
  function Requeued(status: map<Task, Status>): map<Task, Status> {
    map t | t in status :: if status[t] == Running then Queued else status[t]
  }

  /** The statuses after claiming: some queued tasks run, some have failed, nothing else moved. */
  ghost predicate Claimed(before: map<Task, Status>, after: map<Task, Status>, dispatched: set<Task>,
      rejected: set<Task>) {
    && dispatched !! rejected && dispatched + rejected <= QueuedTasks(before)
    && after.Keys == before.Keys
    && forall t <- before ::
         after[t] == if t in dispatched then Running else if t in rejected then Failed else before[t]
  }

  /** Where claimed tasks of one medium have gone: the dispatched ones into their lanes; nothing
      has left a lane. */
  ghost predicate Routed(before: Pools, after: Pools, media: Media, dispatched: set<Task>) {
    && (forall t <- dispatched :: t.media == media && t in InLane(after, t.provider, media))
    && (forall p, m :: InLane(before, p, m) <= InLane(after, p, m))
  }

  lemma RoutedOneMore(before: Pools, now: Pools, after: Pools, media: Media, dispatched: set<Task>, claim: Claim)
    requires Routed(before, now, media, dispatched) && claim != Nothing && claim.task.media == media
    requires forall p, m :: InLane(after, p, m) == InLane(now, p, m) + Added(claim, p, m)
    ensures Routed(before, after, media, dispatched + if claim.Dispatches? then {claim.task} else {})
  {
    hide InLane;
    assert dispatched + {} == dispatched;
  }

  class GenerationWorker {
    var pools: Pools
    var ownsLease: bool
    var status: map<Task, Status>  // the queue's table
    const defaults: Limits         // for providers without a pool, from the environment

    ghost var states: seq<Pools>
    ghost var events: seq<Event>

    /** The pools have changed by the events recorded, from an idle start. */
    ghost predicate Valid()
      reads this`pools, this`states, this`events
    {
      && IsRun(states, events) && states[|events|] == pools
      && NothingInFlight(states[0]) && InOwnLane(states[0])
    }

    constructor (limits: map<string, Limits>, defaults: Limits, status: map<Task, Status>)
      ensures Valid() && !ownsLease && this.status == status && this.defaults == defaults
      ensures pools.Keys == limits.Keys
      ensures forall p <- limits :: pools[p] == Pool(Lane(limits[p].image, {}), Lane(limits[p].video, {}))
    {
      this.defaults, this.status, ownsLease := defaults, status, false;
      pools := map p | p in limits :: NewPool(limits[p]);
      states := [map p | p in limits :: NewPool(limits[p])];
      events := [];
    }

    /** Records a change of the pools. */
    method Change(e: Event)
      requires Valid() && Enabled(pools, e)
      modifies this`pools, this`states, this`events
      ensures Valid() && pools == Step(old(pools), e)
      ensures states == old(states) + [pools]
    {
      pools := Step(pools, e);
      states, events := states + [pools], events + [e];
    }

    /** The queue's `claim_next_task`: some queued task of the medium starts running, or none. */
    method ClaimNext(media: Media) returns (t: Option<Task>)
      modifies this`status
      ensures t.None? ==> status == old(status)
      ensures t.Some? ==>
        t.value in QueuedTasks(old(status)) && t.value.media == media && status == old(status)[t.value := Running]
    {
      var candidates := set q <- QueuedTasks(status) | q.media == media;
      if * {
        return None;
      }
      if candidates == {} {
        return None;
      }
      var q :| q in candidates;
      status := status[q := Running];
      t := Some(q);
    }

    method AnyPoolHasRoom(media: Media) returns (room: bool)
      ensures room <==> exists p <- pools :: HasRoom(LaneOf(pools[p], media))
    {
      var todo := pools.Keys;
      while todo != {}
        invariant todo <= pools.Keys
        invariant forall p <- pools.Keys - todo :: !HasRoom(LaneOf(pools[p], media))
        decreases todo
      {
        var p :| p in todo;
        if HasRoom(LaneOf(pools[p], media)) {
          return true;
        }
        todo := todo - {p};
      }
      return false;
    }

    /** A claimed task is dispatched if its lane has room. */
    method Place(t: Task) returns (claim: Claim)
      requires Valid()
      modifies this`pools, this`states, this`events
      ensures Valid() && LimitsKept(old(pools), pools) && t.provider in pools
      ensures old(states) <= states && pools in states
      ensures forall p, m :: InLane(pools, p, m) == InLane(old(pools), p, m) + Added(claim, p, m)
      ensures claim != Nothing && claim.task == t
      ensures Explains(claim, old(pools), pools)
      ensures t.provider !in old(pools) ==>
        && LimitOf(pools, t.provider, Image) == defaults.image
        && LimitOf(pools, t.provider, Video) == defaults.video
    {
      hide *;
      ghost var before := pools;
      CreateFacts(pools, t.provider, defaults);
      Change(Create(t.provider, defaults));
      PlaceIsExplained(before, pools, t);
      NothingAdded(t);
      var lane := LaneOf(pools[t.provider], t.media);
      if lane.max == 0 {
        return Rejects(t);
      }
      if !HasRoom(lane) {
        return PutsBack(t);
      }
      Change(Dispatch(t));
      claim := Dispatches(t);
    }

    lemma CurrentState()
      requires Valid()
      ensures pools in states
    {
    }

    /** While the claim loop awaits, the limits may be reloaded any number of times. */
    method Await()
      requires Valid()
      modifies this`pools, this`states, this`events
      ensures Valid() && old(states) <= states && pools in states
      ensures forall p, m :: InLane(pools, p, m) == InLane(old(pools), p, m)
    {
      var reloads: seq<map<string, Limits>> := *;
      CurrentState();
      hide Valid, InLane, Reloaded, Step;
      for i := 0 to |reloads|
        invariant Valid() && old(states) <= states && pools in states
        invariant forall p, m :: InLane(pools, p, m) == InLane(old(pools), p, m)
      {
        ReloadLimits(Some(reloads[i]));
      }
    }

    /** One turn of the claim loop: the task claimed and what became of it, with the pools at the
        moment it was placed. Reloads may come before and after that. */
    method ClaimOne(media: Media) returns (claim: Claim, ghost moment: Moment)
      requires Valid()
      modifies this`pools, this`states, this`events, this`status
      ensures Valid() && old(states) <= states
      ensures claim != Nothing ==>
        Explains(claim, moment.before, moment.after) && moment.before in states && moment.after in states
      ensures forall p, m :: InLane(pools, p, m) == InLane(old(pools), p, m) + Added(claim, p, m)
      ensures claim != Nothing ==> claim.task in QueuedTasks(old(status)) && claim.task.media == media
      ensures status == StatusAfter(old(status), claim)
    {
      hide Valid, LimitsKept, InLane, LimitOf, Explains;
      moment := Moment(pools, pools);
      var claimed := ClaimNext(media);
      if claimed.None? {
        return Nothing, moment;
      }
      Await();
      ghost var before, run := pools, states;
      claim := Place(claimed.value);
      moment := Moment(before, pools);
      InLongerRun(run, states);
      run := states;
      Await();
      InLongerRun(run, states);
      match claim {
        case Rejects(t) => status := status[t := Failed];
        case PutsBack(t) => status := status[t := Queued];
        case Dispatches(_) =>
      }
    }

    /** One medium of `_claim_tasks`. Nothing is claimed unless some lane has room at first. It ends
        however long the queue is, and whatever reloads come in between. `claims` are all the
        claims made, of different tasks: those dispatched into room, those failed because their
        lane had no capacity, and at the end at most one put back because its lane was full,
        each at its own moment of the run. */
    method ClaimMedia(media: Media)
      returns (claimedAny: bool, ghost claims: seq<Claim>, ghost moments: seq<Moment>, ghost stop: Stop)
      requires Valid()
      modifies this`pools, this`states, this`events, this`status
      ensures Valid() && old(states) <= states
      ensures Progress(claims, old(status), status, old(pools), pools, media)
      ensures AllExplained(claims, moments) && AreOfRun(moments, states)
      ensures claimedAny <==> SomethingDone(claims)
      ensures claims != [] ==> exists p <- old(pools) :: HasRoom(LaneOf(old(pools)[p], media))
      ensures StopsFor(stop, claims, pools, media) && pools in states
    {
      claimedAny, claims, moments, stop := false, [], [], NoRoom;
      CurrentState();
      NoProgressYet(status, pools, media);
      NoneExplained(states);
      var room := AnyPoolHasRoom(media);
      ghost var roomAtFirst := room;
      hide HasRoom;
      hide Valid, Progress, SomethingDone, QueuedTasks, InLane, Added, StatusAfter;
      hide Explains, PutBackLast, AllExplained, AreOfRun;
      while room
        invariant Valid() && old(states) <= states
        invariant Progress(claims, old(status), status, old(pools), pools, media) && !PutBackLast(claims)
        invariant AllExplained(claims, moments) && AreOfRun(moments, states)
        invariant claimedAny <==> SomethingDone(claims)
        invariant room || claims != [] ==> roomAtFirst
        invariant stop == NoRoom && pools in states && (!room ==> NoLaneHasRoom(pools, media))
        decreases QueuedTasks(status)
      {
        ghost var before, table, run := pools, status, states;
        var claim;
        ghost var moment;
        claim, moment := ClaimOne(media);
        RunGoesOn(moments, run, states);
        if claim.Nothing? {
          NothingMoves(table);
          LanesUnmoved(claims, old(status), table, old(pools), before, pools, media);
          stop := QueueGaveNone;
          break;
        }
        ProgressOneMore(claims, old(status), table, old(pools), before, pools, media, claim);
        OneMoreExplained(claims, moments, claim, moment, states);
        claims, moments := claims + [claim], moments + [moment];
        if claim.PutsBack? {
          stop := PutBack;
          break;
        }
        claimedAny := true;
        if claim.Dispatches? {
          room := AnyPoolHasRoom(media);
        }
      }
    }

    /** `_claim_tasks`: images, then videos. */
    method ClaimTasks()
      returns (claimedAny: bool, ghost images: seq<Claim>, ghost videos: seq<Claim>, ghost moments: seq<Moment>,
               ghost stops: map<Media, Stop>)
      requires Valid()
      modifies this`pools, this`states, this`events, this`status
      ensures Valid() && old(states) <= states
      ensures IsClaimRun(images) && IsClaimRun(videos)
      ensures AllExplained(images + videos, moments) && AreOfRun(moments, states)
      ensures Claimed(old(status), status, DispatchedIn(images) + DispatchedIn(videos),
                      RejectedIn(images) + RejectedIn(videos))
      ensures forall t <- DispatchedIn(images) + DispatchedIn(videos) :: t in InLane(pools, t.provider, t.media)
      ensures claimedAny <==> SomethingDone(images) || SomethingDone(videos)
      ensures images != [] ==> exists p <- old(pools) :: HasRoom(LaneOf(old(pools)[p], Image))
      ensures stops.Keys == {Image, Video} && pools in states && StopsFor(stops[Video], videos, pools, Video)
      ensures exists at <- states :: StopsFor(stops[Image], images, at, Image)
    {
      hide *;
      var anyImage, anyVideo;
      ghost var stopImage, stopVideo;
      ghost var of1, of2;
      ghost var start, poolsThen := status, pools;
      anyImage, images, of1, stopImage := ClaimMedia(Image);
      ghost var table, run, mid := status, states, pools;
      ProgressParts(images, start, table, poolsThen, mid, Image);
      anyVideo, videos, of2, stopVideo := ClaimMedia(Video);
      InLongerRun(run, states);
      ProgressParts(videos, table, status, mid, pools, Video);
      RunGoesOn(of1, run, states);
      BothExplained(images, of1, videos, of2, states);
      ClaimedTwice(start, table, status, DispatchedIn(images), RejectedIn(images), DispatchedIn(videos),
                   RejectedIn(videos));
      RoutedTwice(poolsThen, mid, pools, DispatchedIn(images), DispatchedIn(videos));
      claimedAny := anyImage || anyVideo;
      moments := of1 + of2;
      stops := map[Image := stopImage, Video := stopVideo];
      assert mid in states && StopsFor(stops[Image], images, mid, Image);
    }

    /** `_drain_finished_tasks`, `done` being the generations that have ended. */
    method DrainFinished(done: set<Task>)
      requires Valid()
      modifies this`pools, this`states, this`events
      ensures Valid() && pools == Drained(old(pools), done)
      ensures forall p, m :: InLane(pools, p, m) == InLane(old(pools), p, m) - done
      ensures forall p, m :: LimitOf(pools, p, m) == LimitOf(old(pools), p, m)
    {
      forall p, m
        ensures InLane(Drained(pools, done), p, m) == InLane(pools, p, m) - done
        ensures LimitOf(Drained(pools, done), p, m) == LimitOf(pools, p, m)
      {
        DrainTakesTheDone(pools, done, p, m);
      }
      Change(Drain(done));
    }

    /** `reload_limits`, with what the configuration now says; None if it cannot be read. */
    method ReloadLimits(limits: Option<map<string, Limits>>)
      requires Valid()
      modifies this`pools, this`states, this`events
      ensures Valid() && AllInflight(pools) == AllInflight(old(pools))
      ensures old(states) <= states && (limits.Some? ==> pools in states)
      ensures forall p, m :: InLane(pools, p, m) == InLane(old(pools), p, m)
      ensures pools == if limits.Some? then Reloaded(old(pools), limits.value) else old(pools)
    {
      if limits.None? {
        return;
      }
      forall p, m
        ensures InLane(Reloaded(pools, limits.value), p, m) == InLane(pools, p, m)
      {
        ReloadKeepsEveryLane(pools, limits.value, p, m);
      }
      ReloadKeepsEveryLane(pools, limits.value, "", Image);
      Change(Reload(limits.value));
    }

    /** One turn of `_run_loop`: whether the lease is held now, and which generations have
        ended, is up to the environment. Running tasks are recovered only on gaining the lease,
        and never while this worker has a task in flight; they are queued again before any task is
        claimed. */
    method Turn(leaseNow: bool, done: set<Task>)
      returns (recovered: bool, ghost dispatched: set<Task>, ghost rejected: set<Task>, ghost stops: map<Media, Stop>)
      requires Valid()
      modifies this
      ensures Valid() && ownsLease == leaseNow
      ensures recovered <==> !old(ownsLease) && leaseNow && AllInflight(old(pools)) <= done
      ensures !leaseNow ==> pools == Drained(old(pools), done) && status == old(status)
      ensures dispatched !! rejected && status.Keys == old(status).Keys
      ensures forall t <- dispatched + rejected ::
        t in old(status) && (old(status)[t] == Queued || (recovered && old(status)[t] == Running))
      ensures forall t <- old(status) ::
        status[t] == if t in dispatched then Running
                     else if t in rejected then Failed
                     else if recovered && old(status)[t] == Running then Queued
                     else old(status)[t]
      ensures forall t <- dispatched :: t in InLane(pools, t.provider, t.media)
      ensures stops.Keys == if leaseNow then {Image, Video} else {}
      ensures forall m <- stops :: stops[m] == NoRoom ==> exists at <- states :: NoLaneHasRoom(at, m)
    {
      hide Drained, AllInflight, NothingInFlight, Claimed, Valid, InLane, NoLaneHasRoom, QueuedTasks, LimitOf, Requeued;
      var hadLease := ownsLease;
      ownsLease := leaseNow;
      DrainFinished(done);
      NothingBusyMeansNothingInFlight(pools);
      NothingLeft(old(pools), done);
      recovered := ownsLease && !hadLease && NothingInFlight(pools);
      if recovered {
        status := Requeued(status);
      }
      NothingClaimed(status);
      if ownsLease {
        var claimedAny;
        ghost var images, videos, moments;
        claimedAny, images, videos, moments, stops := ClaimTasks();
        assert stops[Video] == NoRoom ==> NoLaneHasRoom(pools, Video);
        ghost var at :| at in states && StopsFor(stops[Image], images, at, Image);
        assert stops[Image] == NoRoom ==> NoLaneHasRoom(at, Image);
        dispatched := DispatchedIn(images) + DispatchedIn(videos);
        rejected := RejectedIn(images) + RejectedIn(videos);
      } else {
        dispatched, rejected, stops := {}, {}, map[];
      }
      StatusesAfter(old(status), recovered, status, dispatched, rejected);
    }
  }

  lemma ClaimedOneMore(before: map<Task, Status>, now: map<Task, Status>, dispatched: set<Task>,
      rejected: set<Task>, t: Task)
    requires Claimed(before, now, dispatched, rejected) && t in QueuedTasks(now)
    ensures Claimed(before, now[t := Running], dispatched + {t}, rejected)
    ensures Claimed(before, now[t := Failed], dispatched, rejected + {t})
    ensures QueuedTasks(now[t := Running]) == QueuedTasks(now) - {t}
    ensures QueuedTasks(now[t := Failed]) == QueuedTasks(now) - {t}
  {
  }

  lemma NothingClaimed(status: map<Task, Status>)
    ensures Claimed(status, status, {}, {})
  {
  }

  lemma StatusesAfter(before: map<Task, Status>, recovered: bool, after: map<Task, Status>, dispatched: set<Task>,
      rejected: set<Task>)
    requires Claimed(if recovered then Requeued(before) else before, after, dispatched, rejected)
    ensures dispatched !! rejected && after.Keys == before.Keys
    ensures forall t <- dispatched + rejected ::
      t in before && (before[t] == Queued || (recovered && before[t] == Running))
    ensures forall t <- before ::
      after[t] == if t in dispatched then Running
                  else if t in rejected then Failed
                  else if recovered && before[t] == Running then Queued
                  else before[t]
  {
  }

  lemma NothingLeft(pools: Pools, done: set<Task>)
    ensures AllInflight(Drained(pools, done)) == {} <==> AllInflight(pools) <= done
  {
    var after := Drained(pools, done);
    forall p, m
      ensures InLane(after, p, m) == InLane(pools, p, m) - done
    {
      DrainTakesTheDone(pools, done, p, m);
    }
    hide InLane, Drained;
    forall t
      ensures t in AllInflight(after) <==> t in AllInflight(pools) && t !in done
    {
      assert after.Keys == pools.Keys by { DrainTakesTheDone(pools, done, "", Image); }
      if t in AllInflight(pools) && t !in done {
        var p, m :| p in pools && m in {Image, Video} && t in InLane(pools, p, m);
        assert p in after && t in InLane(after, p, m);
      }
      if t in AllInflight(after) {
        var p, m :| p in after && m in {Image, Video} && t in InLane(after, p, m);
        assert p in pools && t in InLane(pools, p, m);
      }
    }
  }

  lemma NothingBusyMeansNothingInFlight(pools: Pools)
    ensures NothingInFlight(pools) <==> AllInflight(pools) == {}
  {
    if AllInflight(pools) == {} {
      forall p <- pools
        ensures !Busy(pools[p])
      {
        assert forall m, t | t in InLane(pools, p, m) :: t in AllInflight(pools);
        assert InLane(pools, p, Image) == {} && InLane(pools, p, Video) == {};
      }
    }
  }
}
