/**
 The sliding-window rate limiter (lib/gemini_shared.py), with time as real numbers.

 A log holds the times of the last grants. One attempt is one turn of the loop of `acquire`
 (which reads the clock three times, holding the lock) or of `acquire_async` (which reads it
 once); its clock readings and the limit and gap in force are given by the environment.
 */
module RateLimiters {
  import opened Sets
  import opened Wrappers

  const WINDOW: real := 60.0

  /** Clock readings of one attempt: at the start, for the gap, and for the log entry. */
  datatype Reading = Reading(start: real, gap: real, grant: real)

  datatype Outcome = Granted(at: real) | Sleeps(seconds: real)

  /** Drops the entries older than the window from the front. */
  function Evict(log: seq<real>, now: real): (r: seq<real>)
    ensures |r| <= |log| && r == log[|log| - |r|..]
    ensures r != [] ==> now - r[0] <= 60.0
    ensures forall i :: 0 <= i < |log| - |r| ==> now - log[i] > 60.0
  {
    if log != [] && now - log[0] > WINDOW then Evict(log[1..], now) else log
  }

  /** One turn of the loop of `acquire`. */
  function Try(log: seq<real>, limit: int, gap: real, r: Reading): (seq<real>, Outcome) {
    var l := Evict(log, r.start);
    if l != [] && r.gap - l[|l| - 1] < gap then (l, Sleeps(gap - (r.gap - l[|l| - 1])))
    else if |l| < limit then (l + [r.grant], Granted(r.grant))
    else if l == [] then (l, Sleeps(0.0))
    else
      var wait := WINDOW - (r.start - l[0]) + 0.1;
      (l, Sleeps(if wait > 0.0 then wait else 0.0))
  }

  function Max(a: real, b: real): real {
    if a < b then b else a
  }

  /** One turn of the loop of `acquire_async`. */
  function TryAsync(log: seq<real>, limit: int, gap: real, now: real): (seq<real>, Outcome) {
    var l := Evict(log, now);
    var forGap := if l != [] && now - l[|l| - 1] < gap then gap - (now - l[|l| - 1]) else 0.0;
    var wait := if l != [] && |l| >= limit then Max(forGap, WINDOW - (now - l[0]) + 0.1) else forGap;
    if wait == 0.0 && |l| < limit then (l + [now], Granted(now))
    else (l, Sleeps(if wait > 0.0 then wait else 0.1))
  }

  // ---------------------------------------------------------------- every run

  /** One attempt by some caller on one model. A limit that is not positive never gets here. */
  datatype Attempt = Attempt(sync: bool, limit: int, gap: real, reading: Reading)

  datatype Grant = Grant(at: real, limit: int, gap: real)

  /** The log of a model with all grants ever made and the latest clock reading. */
  datatype History = History(log: seq<real>, grants: seq<Grant>, clock: real)

  predicate Timely(h: History, a: Attempt) {
    && a.limit > 0
    && h.clock <= a.reading.start <= a.reading.gap <= a.reading.grant
  }

  function Tried(h: History, a: Attempt): (seq<real>, Outcome) {
    if a.sync then Try(h.log, a.limit, a.gap, a.reading) else TryAsync(h.log, a.limit, a.gap, a.reading.start)
  }

  function After(h: History, a: Attempt): History {
    var (log, outcome) := Tried(h, a);
    History(log,
            if outcome.Granted? then h.grants + [Grant(outcome.at, a.limit, a.gap)] else h.grants,
            a.reading.grant)
  }

  predicate TimelyRun(h: History, attempts: seq<Attempt>)
    decreases |attempts|
  {
    attempts == [] || (Timely(h, attempts[0]) && TimelyRun(After(h, attempts[0]), attempts[1..]))
  }

  function AfterAll(h: History, attempts: seq<Attempt>): History
    decreases |attempts|
  {
    if attempts == [] then h else AfterAll(After(h, attempts[0]), attempts[1..])
  }

  /** The grants made no more than the window before the grant `k`, earlier than it. */
  function Recent(grants: seq<Grant>, k: nat): set<int>
    requires k < |grants|
  {
    set j | 0 <= j < k && grants[k].at - grants[j].at <= 60.0
  }

  ghost predicate IsTail(log: seq<real>, grants: seq<Grant>) {
    && |log| <= |grants|
    && (forall i :: 0 <= i < |log| ==> log[i] == grants[|grants| - |log| + i].at)
  }

  /** The first `count` grants are more than the window before the time `now`. */
  ghost predicate Expired(grants: seq<Grant>, count: int, now: real)
    requires count <= |grants|
  {
    forall j :: 0 <= j < count ==> now - grants[j].at > 60.0
  }

  ghost predicate InTimeOrder(grants: seq<Grant>) {
    forall j, k :: 0 <= j < k < |grants| ==> grants[j].at <= grants[k].at
  }

  ghost predicate NotAfter(grants: seq<Grant>, time: real) {
    forall j :: 0 <= j < |grants| ==> grants[j].at <= time
  }

  /** The log is the tail of the grants, and whatever fell off it is older than the window. */
  ghost predicate Tracks(h: History) {
    && IsTail(h.log, h.grants)
    && Expired(h.grants, |h.grants| - |h.log|, h.clock)
    && InTimeOrder(h.grants)
    && NotAfter(h.grants, h.clock)
  }

  /** The grant `k` has fewer than its limit earlier grants in the window before it, and keeps
      the gap to the one before, unless they are more than a window apart. */
  ghost predicate Fits(grants: seq<Grant>, k: nat)
    requires k < |grants|
  {
    && |Recent(grants, k)| < grants[k].limit
    && (k > 0 ==> grants[k].at - grants[k - 1].at >= grants[k].gap || grants[k].at - grants[k - 1].at > 60.0)
  }

  ghost predicate WithinLimits(grants: seq<Grant>) {
    forall k :: 0 <= k < |grants| ==> Fits(grants, k)
  }

  function Interval(low: int, high: int): (r: set<int>)
    requires low <= high
    ensures |r| == high - low && forall j :: j in r <==> low <= j < high
    decreases high - low
  {
    if low == high then {} else Interval(low, high - 1) + {high - 1}
  }

  /** What one attempt does to log and grants, whichever of the two loops makes it. */
  lemma AttemptShape(h: History, a: Attempt)
    requires Timely(h, a)
    ensures var l := Evict(h.log, a.reading.start); var r := After(h, a);
      || (r.log == l && r.grants == h.grants)
      || (exists at :: a.reading.start <= at <= a.reading.grant && |l| < a.limit
            && (l != [] ==> at - l[|l| - 1] >= a.gap)
            && r.log == l + [at] && r.grants == h.grants + [Grant(at, a.limit, a.gap)])
  {
    hide Evict;
    var (log, outcome) := Tried(h, a);
    if outcome.Granted? {
      assert After(h, a).grants == h.grants + [Grant(outcome.at, a.limit, a.gap)];
    }
  }

  /** Dropping old entries leaves a tail of the grants, with everything before it expired. */
  lemma EvictedTail(h: History, now: real)
    requires Tracks(h)
    ensures var l := Evict(h.log, now);
      && IsTail(l, h.grants)
      && (l != [] ==> l[|l| - 1] == h.grants[|h.grants| - 1].at)
      && (h.clock <= now ==> Expired(h.grants, |h.grants| - |l|, now))
  {
    hide Evict, InTimeOrder, NotAfter;
    var l := Evict(h.log, now);
    TailOfTail(h.log, l, h.grants);
    if h.clock <= now {
      forall j | 0 <= j < |h.grants| - |l|
        ensures now - h.grants[j].at > 60.0
      {
        OldGrant(h, now, j);
      }
    }
  }

  lemma TailOfTail(log: seq<real>, l: seq<real>, grants: seq<Grant>)
    requires IsTail(log, grants) && |l| <= |log| && l == log[|log| - |l|..]
    ensures IsTail(l, grants) && (l != [] ==> l[|l| - 1] == grants[|grants| - 1].at)
  {
    forall i | 0 <= i < |l|
      ensures l[i] == grants[|grants| - |l| + i].at
    {
      assert l[i] == log[|log| - |l| + i];
    }
  }

  lemma OldGrant(h: History, now: real, j: nat)
    requires Tracks(h) && h.clock <= now && j < |h.grants| - |Evict(h.log, now)|
    ensures now - h.grants[j].at > 60.0
  {
    hide Evict, InTimeOrder, NotAfter;
    if j >= |h.grants| - |h.log| {
      assert h.log[j - (|h.grants| - |h.log|)] == h.grants[j].at;
    }
  }

  lemma AttemptKeepsTrack(h: History, a: Attempt)
    requires Tracks(h) && Timely(h, a)
    ensures Tracks(After(h, a))
  {
    hide *;
    AttemptShape(h, a);
    var l := Evict(h.log, a.reading.start);
    ClockMoves(h, a);
    EvictKeepsTrack(h, l, a.reading.start, a.reading.grant);
    if at :| a.reading.start <= at <= a.reading.grant && After(h, a).log == l + [at]
             && After(h, a).grants == h.grants + [Grant(at, a.limit, a.gap)] {
      GrantKeepsTrack(History(l, h.grants, a.reading.grant), Grant(at, a.limit, a.gap), h.clock);
    }
  }

  lemma ClockMoves(h: History, a: Attempt)
    requires Timely(h, a)
    ensures h.clock <= a.reading.start <= a.reading.grant && After(h, a).clock == a.reading.grant
  {
  }

  lemma EvictKeepsTrack(h: History, l: seq<real>, start: real, now: real)
    requires Tracks(h) && l == Evict(h.log, start) && h.clock <= start <= now
    ensures Tracks(History(l, h.grants, now)) && NotAfter(h.grants, h.clock)
  {
    hide Evict, IsTail, Expired, InTimeOrder, NotAfter;
    EvictedTail(h, start);
    TimePasses(h.grants, |h.grants| - |l|, start, now);
    ClockPasses(h.grants, h.clock, now);
  }

  lemma TimePasses(grants: seq<Grant>, count: int, start: real, now: real)
    requires count <= |grants| && Expired(grants, count, start) && start <= now
    ensures Expired(grants, count, now)
  {
  }

  lemma ClockPasses(grants: seq<Grant>, clock: real, now: real)
    requires NotAfter(grants, clock) && clock <= now
    ensures NotAfter(grants, now)
  {
  }

  lemma GrantKeepsTrack(h: History, grant: Grant, before: real)
    requires Tracks(h) && before <= grant.at <= h.clock && NotAfter(h.grants, before)
    ensures Tracks(History(h.log + [grant.at], h.grants + [grant], h.clock))
  {
    OneMoreInTail(h.log, h.grants, grant);
    hide IsTail;
  }

  lemma OneMoreInTail(log: seq<real>, grants: seq<Grant>, grant: Grant)
    requires IsTail(log, grants)
    ensures IsTail(log + [grant.at], grants + [grant])
  {
  }

  lemma EarlierGrantsStillFit(grants: seq<Grant>, more: Grant)
    requires WithinLimits(grants)
    ensures forall k :: 0 <= k < |grants| ==> Fits(grants + [more], k)
  {
    var g := grants + [more];
    forall k | 0 <= k < |grants|
      ensures Fits(g, k)
    {
      assert Recent(g, k) == Recent(grants, k);
      assert Fits(grants, k);
    }
  }

  /** A new grant fits if everything older than `l` is out of the window. */
  lemma NewGrantFits(grants: seq<Grant>, l: nat, new_: Grant)
    requires l <= |grants| && l < new_.limit
    requires forall j :: 0 <= j < |grants| - l ==> new_.at - grants[j].at > 60.0
    requires l > 0 ==> new_.at - grants[|grants| - 1].at >= new_.gap
    ensures Fits(grants + [new_], |grants|)
  {
    var g, k := grants + [new_], |grants|;
    var low := k - l;
    forall j | j in Recent(g, k)
      ensures j in Interval(low, k)
    {
      assert g[j] == grants[j];
    }
    SubsetSize(Recent(g, k), Interval(low, k));
  }

  lemma AttemptKeepsLimits(h: History, a: Attempt)
    requires Tracks(h) && Timely(h, a) && WithinLimits(h.grants)
    ensures WithinLimits(After(h, a).grants)
  {
    hide After, Evict, Fits;
    AttemptShape(h, a);
    EvictedTail(h, a.reading.start);
    var l := Evict(h.log, a.reading.start);
    if at :| a.reading.start <= at && |l| < a.limit && (l != [] ==> at - l[|l| - 1] >= a.gap)
             && After(h, a).grants == h.grants + [Grant(at, a.limit, a.gap)] {
      EarlierGrantsStillFit(h.grants, Grant(at, a.limit, a.gap));
      NewGrantFits(h.grants, |l|, Grant(at, a.limit, a.gap));
    }
  }

  /** On every run of sync and async attempts with a clock that does not go back, whatever
      limits and gaps are in force along it. */
  lemma {:induction false} EveryGrantIsWithinLimits(h: History, attempts: seq<Attempt>)
    requires Tracks(h) && WithinLimits(h.grants) && TimelyRun(h, attempts)
    ensures Tracks(AfterAll(h, attempts)) && WithinLimits(AfterAll(h, attempts).grants)
    decreases |attempts|
  {
    if attempts != [] {
      AttemptKeepsTrack(h, attempts[0]);
      AttemptKeepsLimits(h, attempts[0]);
      EveryGrantIsWithinLimits(After(h, attempts[0]), attempts[1..]);
    }
  }

  /** With a constant limit L, grant k+L comes more than a window after grant k. */
  lemma ConstantLimitSpacing(h: History, limit: nat, k: nat)
    requires Tracks(h) && WithinLimits(h.grants)
    requires k + limit < |h.grants| && h.grants[k + limit].limit == limit
    ensures h.grants[k + limit].at - h.grants[k].at > 60.0
  {
    var top := k + limit;
    assert Fits(h.grants, top);
    if h.grants[top].at - h.grants[k].at <= 60.0 {
      forall j | j in Interval(k, top)
        ensures j in Recent(h.grants, top)
      {
        assert k == j || h.grants[k].at <= h.grants[j].at;
      }
      SubsetSize(Interval(k, top), Recent(h.grants, top));
    }
  }

  // ---------------------------------------------------------------- when it is granted

  /** The grants made no more than 60 seconds before `now`. */
  function InWindow(grants: seq<Grant>, now: real): set<int> {
    set j | 0 <= j < |grants| && now - grants[j].at <= 60.0
  }

  /** What is left of the log are the grants in the window. */
  lemma LogIsTheWindow(h: History, now: real)
    requires Tracks(h) && h.clock <= now
    ensures var l := Evict(h.log, now);
      && |InWindow(h.grants, now)| == |l| <= |h.grants|
      && (l != [] ==> l[0] == h.grants[|h.grants| - |l|].at && l[|l| - 1] == h.grants[|h.grants| - 1].at)
  {
    EvictedTail(h, now);
    hide Evict, Expired, InTimeOrder;
    var l, n := Evict(h.log, now), |h.grants|;
    forall j
      ensures j in InWindow(h.grants, now) <==> j in Interval(n - |l|, n)
    {
      if 0 <= j < n {
        WhichInWindow(h, now, j);
      }
    }
    assert InWindow(h.grants, now) == Interval(n - |l|, n);
  }

  lemma WhichInWindow(h: History, now: real, j: nat)
    requires Tracks(h) && h.clock <= now && j < |h.grants|
    ensures now - h.grants[j].at <= 60.0 <==> j >= |h.grants| - |Evict(h.log, now)|
  {
    hide *;
    EvictedTail(h, now);
    var l, n := Evict(h.log, now), |h.grants|;
    if j >= n - |l| {
      FirstOfTail(l, h.grants);
      EarlierFirst(h, n - |l|, j);
    } else {
      ExpiredOne(h.grants, n - |l|, now, j);
    }
  }

  lemma FirstOfTail(l: seq<real>, grants: seq<Grant>)
    requires IsTail(l, grants)
    ensures |l| <= |grants| && (l != [] ==> l[0] == grants[|grants| - |l|].at)
  {
  }

  lemma EarlierFirst(h: History, i: nat, j: nat)
    requires Tracks(h) && i <= j < |h.grants|
    ensures h.grants[i].at <= h.grants[j].at
  {
    hide IsTail, Expired, NotAfter;
  }

  lemma ExpiredOne(grants: seq<Grant>, count: int, now: real, j: nat)
    requires count <= |grants| && Expired(grants, count, now) && j < count
    ensures now - grants[j].at > 60.0
  {
  }

  /** The gap to the last log entry is not over when the attempt looks at it. */
  predicate TooEarly(l: seq<real>, a: Attempt) {
    l != [] && (if a.sync then a.reading.gap else a.reading.start) - l[|l| - 1] < a.gap
  }

  lemma OutcomeInLog(h: History, a: Attempt)
    requires Timely(h, a)
    ensures var l := Evict(h.log, a.reading.start); var outcome := Tried(h, a).1;
      && (outcome.Granted? <==> |l| < a.limit && !TooEarly(l, a))
      && (outcome.Granted? ==> outcome.at == if a.sync then a.reading.grant else a.reading.start)
      && (outcome.Sleeps? && a.sync && TooEarly(l, a) ==> a.reading.gap + outcome.seconds == l[|l| - 1] + a.gap)
      && (outcome.Sleeps? && a.sync && !TooEarly(l, a) ==> l != [] && a.reading.start + outcome.seconds == l[0] + 60.1)
  {
    hide Evict;
  }

  lemma AsyncSleepInLog(h: History, a: Attempt)
    requires Timely(h, a) && !a.sync && Tried(h, a).1.Sleeps?
    ensures var l := Evict(h.log, a.reading.start); var wake := a.reading.start + Tried(h, a).1.seconds;
      && l != []
      && (if !TooEarly(l, a) || (|l| >= a.limit && l[0] + 60.1 > l[|l| - 1] + a.gap) then wake == l[0] + 60.1
          else wake == l[|l| - 1] + a.gap)
  {
    hide Evict;
  }

  /** An attempt of either kind is granted exactly if fewer grants than the limit lie in the 60
      seconds before it and, unless there is none, the gap to the last grant has passed. */
  lemma GrantedExactly(h: History, a: Attempt)
    requires Tracks(h) && Timely(h, a)
    ensures var recent := InWindow(h.grants, a.reading.start);
      After(h, a).grants != h.grants <==>
        && |recent| < a.limit
        && (recent != {} ==>
              (if a.sync then a.reading.gap else a.reading.start) - h.grants[|h.grants| - 1].at >= a.gap)
    ensures After(h, a).grants != h.grants ==>
      After(h, a).grants == h.grants + [Grant(if a.sync then a.reading.grant else a.reading.start, a.limit, a.gap)]
  {
    hide Evict, Tracks, InWindow, Tried;
    LogIsTheWindow(h, a.reading.start);
    OutcomeInLog(h, a);
    assert |InWindow(h.grants, a.reading.start)| == 0 <==> InWindow(h.grants, a.reading.start) == {};
  }

  /** An attempt that is not granted sleeps until the gap to the last grant is over or, with the
      window full, until 0.1 seconds after its oldest grant has left it; an async one for both. */
  lemma SleepsLongEnough(h: History, a: Attempt)
    requires Tracks(h) && Timely(h, a) && Tried(h, a).1.Sleeps?
    ensures var recent := |InWindow(h.grants, a.reading.start)|; var n := |h.grants|;
      && 0 < recent <= n
      && var last := h.grants[n - 1].at; var oldest := h.grants[n - recent].at; var seconds := Tried(h, a).1.seconds;
         var early := (if a.sync then a.reading.gap else a.reading.start) - last < a.gap;
         && (early || recent >= a.limit)
         && (a.sync && early ==> a.reading.gap + seconds == last + a.gap)
         && (a.sync && !early ==> a.reading.start + seconds == oldest + 60.1)
         && (!a.sync && (!early || (recent >= a.limit && oldest + 60.1 > last + a.gap)) ==>
               a.reading.start + seconds == oldest + 60.1)
         && (!a.sync && early && (recent < a.limit || oldest + 60.1 <= last + a.gap) ==>
               a.reading.start + seconds == last + a.gap)
  {
    hide Evict, Tracks, InWindow, Tried;
    LogIsTheWindow(h, a.reading.start);
    OutcomeInLog(h, a);
    if !a.sync {
      AsyncSleepInLog(h, a);
    }
  }

  // ---------------------------------------------------------------- the code

  predicate Sorted(log: seq<real>) {
    forall i, k :: 0 <= i < k < |log| ==> log[i] <= log[k]
  }

  /** One turn that sleeps, `base` being some moment at which all entries already existed: on
      waking the gap has passed, and if the log was full its oldest entry has expired. */
  lemma OneSleep(l: seq<real>, limit: nat, gap: real, time: real, base: real)
    requires limit > 0 && Sorted(l) && base <= time && forall i :: 0 <= i < |l| ==> l[i] <= base
    requires TryAsync(l, limit, gap, time).1.Sleeps?
    ensures var (next, outcome) := TryAsync(l, limit, gap, time); var wake := time + outcome.seconds;
      && next == Evict(l, time) && next != [] && next[|next| - 1] == l[|l| - 1]
      && time < wake <= base + Max(60.1, gap)
      && wake - next[|next| - 1] >= gap
      && (|next| >= limit ==> wake - next[0] > 60.0)
      && (|next| < limit ==> time - next[|next| - 1] < gap)
  {
    hide Evict;
    var next := Evict(l, time);
    if next != [] {
      assert next[0] == l[|l| - |next|] && next[|next| - 1] == l[|l| - 1];
    }
  }

  /** After `sleeps` sleeps, the first of which found `n` entries in the window at `base`. */
  ghost predicate Waiting(l: seq<real>, limit: nat, gap: real, time: real, base: real, sleeps: nat, n: nat) {
    && limit > 0 && Sorted(l) && (forall i :: 0 <= i < |l| ==> l[i] <= base)
    && base <= time <= base + Max(60.1, gap)
    && (sleeps == 0 ==> time == base && |Evict(l, base)| == n)
    && (sleeps > 0 ==> l != [] && time - l[|l| - 1] >= gap && sleeps + |l| <= n + 1)
    && (sleeps > 0 && |l| >= limit ==> time - l[0] > 60.0)
    && (sleeps > 1 ==> |l| >= limit)
  }

  lemma OneMoreSleep(l: seq<real>, limit: nat, gap: real, time: real, base: real, sleeps: nat, n: nat)
    requires Waiting(l, limit, gap, time, base, sleeps, n)
    requires TryAsync(l, limit, gap, time).1.Sleeps?
    ensures var (next, outcome) := TryAsync(l, limit, gap, time);
      && Waiting(next, limit, gap, time + outcome.seconds, base, sleeps + 1, n)
      && (sleeps > 0 ==> |next| < |l|)
  {
    hide Evict, TryAsync, Max, Sorted;
    OneSleep(l, limit, gap, time, base);
    var next := TryAsync(l, limit, gap, time).0;
    TailStaysSorted(l, next, base);
    assert sleeps > 0 ==> |next| >= limit;
    if sleeps > 0 {
      OldestGoes(l, time);
    }
  }

  lemma OldestGoes(l: seq<real>, time: real)
    requires l != [] && time - l[0] > 60.0
    ensures |Evict(l, time)| < |l|
  {
  }

  lemma TailStaysSorted(l: seq<real>, tail: seq<real>, base: real)
    requires Sorted(l) && forall i :: 0 <= i < |l| ==> l[i] <= base
    requires |tail| <= |l| && tail == l[|l| - |tail|..]
    ensures Sorted(tail) && forall i :: 0 <= i < |tail| ==> tail[i] <= base
  {
  }

  /** `acquire_async` with exact sleeps and no competing caller: when it is granted, and after
      how many sleeps, however long the log. */
  method AcquireAlone(log: seq<real>, limit: nat, gap: real, now: real) returns (at: real, sleeps: nat)
    requires limit > 0 && Sorted(log) && forall i :: 0 <= i < |log| ==> log[i] <= now
    ensures now <= at <= now + Max(60.1, gap)
    ensures var n := |Evict(log, now)|; sleeps <= if n < limit then 1 else n - limit + 1
  {
    hide Evict, TryAsync;
    var l := log;
    var time := now;
    sleeps := 0;
    ghost var n := |Evict(log, now)|;
    while true
      invariant Waiting(l, limit, gap, time, now, sleeps, n)
      decreases if sleeps == 0 then 1 else 0, |l|
    {
      var (next, outcome) := TryAsync(l, limit, gap, time);
      if outcome.Granted? {
        return time, sleeps;
      }
      OneMoreSleep(l, limit, gap, time, now, sleeps, n);
      l := next;
      time := time + outcome.seconds;
      sleeps := sleeps + 1;
    }
  }

  /** What others do to a limiter while an async caller sleeps. */
  datatype Act =
    | Other(model: string, sync: bool, limit: int, reading: Reading)
    | Refreshed(limits: map<string, int>, requestGap: Option<real>)

  predicate ReadsInOrder(clock: real, r: Reading) {
    clock <= r.start <= r.gap <= r.grant
  }

  predicate ActsInOrder(clock: real, acts: seq<Act>)
    decreases |acts|
  {
    acts == [] ||
    match acts[0]
    case Other(_, _, limit, r) => limit > 0 && ReadsInOrder(clock, r) && ActsInOrder(r.grant, acts[1..])
    case Refreshed(_, _) => ActsInOrder(clock, acts[1..])
  }

  /** The clock after some acts. */
  function ClockAfter(clock: real, acts: seq<Act>): real
    decreases |acts|
  {
    if acts == [] then clock
    else ClockAfter(if acts[0].Other? then acts[0].reading.grant else clock, acts[1..])
  }

  /** A caller's readings and, after each turn, what others do: one clock that does not go back. */
  predicate InOrder(clock: real, readings: seq<Reading>, others: seq<seq<Act>>)
    requires |readings| == |others|
    decreases |readings|
  {
    readings == [] ||
    (ReadsInOrder(clock, readings[0]) && ActsInOrder(readings[0].grant, others[0]) &&
     InOrder(ClockAfter(readings[0].grant, others[0]), readings[1..], others[1..]))
  }

  predicate Leaves(acts: seq<Act>, model: string) {
    forall a <- acts :: a.Other? ==> a.model != model
  }

  predicate NoRefresh(acts: seq<Act>) {
    forall a <- acts :: !a.Refreshed?
  }

  predicate SameLog(h: History, g: History) {
    h.log == g.log && h.grants == g.grants
  }

  /** Trying is a matter of the log, whatever the clock read last. */
  lemma {:induction false} SameLogSameAttempts(h: History, g: History, attempts: seq<Attempt>)
    requires SameLog(h, g)
    ensures SameLog(AfterAll(h, attempts), AfterAll(g, attempts))
    decreases |attempts|
  {
    hide Evict, Try, TryAsync;
    if attempts != [] {
      SameLogSameAttempts(After(h, attempts[0]), After(g, attempts[0]), attempts[1..]);
    }
  }

  lemma {:induction false} AttemptsAfterAttempts(h: History, a: seq<Attempt>, b: seq<Attempt>)
    ensures AfterAll(h, a + b) == AfterAll(AfterAll(h, a), b)
    decreases |a|
  {
    hide After;
    if a == [] {
      assert a + b == b;
    } else {
      assert (a + b)[1..] == a[1..] + b;
      AttemptsAfterAttempts(After(h, a[0]), a[1..], b);
    }
  }

  /** Attempt `k` of `made` is granted. */
  predicate IsGranted(h: History, made: seq<Attempt>, k: nat)
    requires k < |made|
  {
    Tried(AfterAll(h, made[..k]), made[k]).1.Granted?
  }

  /** The attempts of one caller among all that were made: in order, under the limit it read at
      first, with its own readings, and none granted but the last. */
  ghost predicate AreOwn(h: History, made: seq<Attempt>, own: seq<nat>, sync: bool, limit: int,
      readings: seq<Reading>, granted: bool)
  {
    && |own| == |readings|
    && (forall i :: 0 <= i < |own| ==>
          && own[i] < |made| && made[own[i]].sync == sync && made[own[i]].limit == limit
          && made[own[i]].reading == readings[i]
          && (IsGranted(h, made, own[i]) <==> granted && i == |own| - 1))
    && (forall i, k :: 0 <= i < k < |own| ==> own[i] < own[k])
  }

  /** Others' attempts come behind the caller's. */
  lemma OwnBeforeOthers(h: History, made: seq<Attempt>, more: seq<Attempt>, own: seq<nat>, sync: bool, limit: int,
      readings: seq<Reading>, granted: bool)
    requires AreOwn(h, made, own, sync, limit, readings, granted)
    ensures AreOwn(h, made + more, own, sync, limit, readings, granted)
  {
    hide Tried, AfterAll;
    forall i | 0 <= i < |own|
      ensures (made + more)[..own[i]] == made[..own[i]]
    {
    }
  }

  /** One more turn of the caller itself. */
  lemma OwnOneMore(h: History, made: seq<Attempt>, own: seq<nat>, sync: bool, limit: int,
      readings: seq<Reading>, a: Attempt, granted: bool)
    requires AreOwn(h, made, own, sync, limit, readings, false)
    requires a.sync == sync && a.limit == limit && granted == Tried(AfterAll(h, made), a).1.Granted?
    ensures AreOwn(h, made + [a], own + [|made|], sync, limit, readings + [a.reading], granted)
  {
    hide Tried, AfterAll;
    OwnBeforeOthers(h, made, [a], own, sync, limit, readings, false);
    assert (made + [a])[..|made|] == made;
  }

  lemma {:induction false} OneMoreAttempt(h: History, attempts: seq<Attempt>, a: Attempt)
    ensures AfterAll(h, attempts + [a]) == After(AfterAll(h, attempts), a)
    decreases |attempts|
  {
    if attempts == [] {
      assert [] + [a] == [a];
    } else {
      assert (attempts + [a])[1..] == attempts[1..] + [a];
      OneMoreAttempt(After(h, attempts[0]), attempts[1..], a);
    }
  }

  lemma MadeOneMore(h: History, before: History, made: seq<Attempt>, a: Attempt)
    requires SameLog(before, AfterAll(h, made))
    ensures SameLog(After(before, a), AfterAll(h, made + [a]))
  {
    hide After;
    SameLogSameAttempts(before, AfterAll(h, made), [a]);
    OneMoreAttempt(h, made, a);
    AloneAfter(before, a);
    AloneAfter(AfterAll(h, made), a);
  }

  lemma AloneAfter(h: History, a: Attempt)
    ensures AfterAll(h, [a]) == After(h, a)
  {
    hide After;
    assert [a][1..] == [];
  }

  lemma ClockOnly()
    ensures forall h: History, c: real :: SameLog(h.(clock := c), h)
  {
  }

  lemma GrantedTells(h: History, a: Attempt)
    ensures |After(h, a).grants| == |h.grants| + if Tried(h, a).1.Granted? then 1 else 0
  {
    hide Tried;
  }

  lemma TriedOnSameLog(h: History, g: History, a: Attempt)
    requires SameLog(h, g)
    ensures Tried(h, a) == Tried(g, a)
  {
  }

  lemma NothingMade(h: History, sync: bool, limit: int)
    ensures AreOwn(h, [], [], sync, limit, [], false) && AfterAll(h, []) == h
  {
  }

  /** What the order of readings says about turn `k`. */
  lemma NextTurn(clock: real, readings: seq<Reading>, others: seq<seq<Act>>, k: nat)
    requires |readings| == |others| && k < |readings| && InOrder(clock, readings[k..], others[k..])
    ensures ReadsInOrder(clock, readings[k]) && ActsInOrder(readings[k].grant, others[k])
    ensures InOrder(ClockAfter(readings[k].grant, others[k]), readings[k + 1..], others[k + 1..])
  {
    assert readings[k..][1..] == readings[k + 1..] && others[k..][1..] == others[k + 1..];
  }

  lemma OwnTurn(h: History, before: History, made: seq<Attempt>, own: seq<nat>, sync: bool, limit: int,
      readings: seq<Reading>, k: nat, a: Attempt)
    requires k < |readings| && AreOwn(h, made, own, sync, limit, readings[..k], false)
    requires SameLog(before, AfterAll(h, made)) && a.sync == sync && a.limit == limit && a.reading == readings[k]
    ensures SameLog(After(before, a), AfterAll(h, made + [a]))
    ensures AreOwn(h, made + [a], own + [|made|], sync, limit, readings[..k + 1], Tried(before, a).1.Granted?)
  {
    hide After, AfterAll, AreOwn, Tried;
    MadeOneMore(h, before, made, a);
    TriedOnSameLog(before, AfterAll(h, made), a);
    OwnOneMore(h, made, own, sync, limit, readings[..k], a, Tried(before, a).1.Granted?);
    assert readings[..k + 1] == readings[..k] + [readings[k]];
  }

  lemma OthersTurn(h: History, before: History, after: History, made: seq<Attempt>, theirs: seq<Attempt>, own: seq<nat>,
      sync: bool, limit: int, readings: seq<Reading>)
    requires AreOwn(h, made, own, sync, limit, readings, false)
    requires SameLog(before, AfterAll(h, made)) && SameLog(after, AfterAll(before, theirs))
    ensures SameLog(after, AfterAll(h, made + theirs))
    ensures AreOwn(h, made + theirs, own, sync, limit, readings, false)
  {
    hide AfterAll, AreOwn;
    SameLogSameAttempts(before, AfterAll(h, made), theirs);
    AttemptsAfterAttempts(h, made, theirs);
    OwnBeforeOthers(h, made, theirs, own, sync, limit, readings, false);
  }

  class RateLimiter {
    var limits: map<string, int>
    var requestGap: real
    var requestLogs: map<string, seq<real>>
    ghost var grants: map<string, seq<Grant>>  // every grant made under a limit
    ghost var clock: real                      // the latest reading

    constructor (limits: map<string, int>, requestGap: real)
      ensures Valid() && this.limits == limits && this.requestGap == requestGap
      ensures forall model :: HistoryOf(model).grants == []
    {
      this.limits, this.requestGap := limits, requestGap;
      requestLogs, grants, clock := map[], map[], 0.0;
    }

    ghost function HistoryOf(model: string): History
      reads this`requestLogs, this`grants, this`clock
    {
      History(if model in requestLogs then requestLogs[model] else [],
              if model in grants then grants[model] else [], clock)
    }

    ghost predicate Valid()
      reads this`requestLogs, this`grants, this`clock
    {
      forall model: string :: Tracks(HistoryOf(model)) && WithinLimits(HistoryOf(model).grants)
    }

    predicate Limited(model: string)
      reads this
    {
      model in limits && limits[model] > 0
    }

    /** The eviction loop. */
    method PopOld(log: seq<real>, now: real) returns (r: seq<real>)
      ensures r == Evict(log, now)
    {
      r := log;
      while r != [] && now - r[0] > WINDOW
        invariant Evict(r, now) == Evict(log, now)
        decreases |r|
      {
        r := r[1..];
      }
    }

    /** One turn of the loop of `acquire`, under the lock. */
    method Turn(log: seq<real>, limit: int, r: Reading) returns (next: seq<real>, outcome: Outcome)
      requires limit > 0
      ensures (next, outcome) == Try(log, limit, requestGap, r)
    {
      hide Evict;
      next := PopOld(log, r.start);
      if next != [] {
        var gap := r.gap - next[|next| - 1];
        if gap < requestGap {
          return next, Sleeps(requestGap - gap);
        }
      }
      if |next| < limit {
        return next + [r.grant], Granted(r.grant);
      }
      var wait := WINDOW - (r.start - next[0]) + 0.1;
      outcome := Sleeps(if wait > 0.0 then wait else 0.0);
    }

    /** One turn of the loop of `acquire_async`, under the lock. */
    method TurnAsync(log: seq<real>, limit: int, now: real) returns (next: seq<real>, outcome: Outcome)
      requires limit > 0
      ensures (next, outcome) == TryAsync(log, limit, requestGap, now)
    {
      hide Evict;
      next := PopOld(log, now);
      var wait := 0.0;
      if next != [] {
        var gap := now - next[|next| - 1];
        if gap < requestGap {
          wait := requestGap - gap;
        }
      }
      if |next| >= limit {
        wait := Max(wait, WINDOW - (now - next[0]) + 0.1);
      }
      if wait == 0.0 && |next| < limit {
        return next + [now], Granted(now);
      }
      outcome := Sleeps(if wait > 0.0 then wait else 0.1);
    }

    /** What others do, and the attempts they make on `model`. */
    method Meanwhile(model: string, acts: seq<Act>) returns (ghost made: seq<Attempt>)
      requires Valid() && ActsInOrder(clock, acts)
      modifies this
      ensures Valid() && clock == ClockAfter(old(clock), acts)
      ensures SameLog(HistoryOf(model), AfterAll(old(HistoryOf(model)), made))
      ensures forall other :: Leaves(acts, other) ==> SameLog(HistoryOf(other), old(HistoryOf(other)))
      ensures NoRefresh(acts) ==> requestGap == old(requestGap) && limits == old(limits)
      ensures |made| <= |acts|
    {
      hide Tracks, WithinLimits, After, Valid, HistoryOf, Tried;
      made := [];
      ghost var h := HistoryOf(model);
      for i := 0 to |acts|
        invariant Valid() && ActsInOrder(clock, acts[i..])
        invariant ClockAfter(clock, acts[i..]) == ClockAfter(old(clock), acts)
        invariant SameLog(HistoryOf(model), AfterAll(h, made))
        invariant forall other :: Leaves(acts, other) ==> SameLog(HistoryOf(other), old(HistoryOf(other)))
        invariant NoRefresh(acts) ==> requestGap == old(requestGap) && limits == old(limits)
        invariant |made| <= i
      {
        assert acts[i..][0] == acts[i] && acts[i..][1..] == acts[i + 1..] && acts[i] in acts;
        match acts[i] {
          case Other(m, sync, limit, r) =>
            ghost var before := HistoryOf(model);
            ghost var a := Attempt(sync, limit, requestGap, r);
            HistoryClock(m);
            ClockOnly();
            var granted := MakeAttempt(m, sync, limit, r);
            if m == model {
              MadeOneMore(h, before, made, a);
              made := made + [a];
            }
          case Refreshed(newLimits, gap) =>
            Refresh(newLimits, gap);
        }
      }
    }

    lemma HistoryClock(model: string)
      ensures HistoryOf(model).clock == clock
    {
    }

    /** `acquire` and `acquire_async`, running through clock readings until a grant. While an
        async caller sleeps after turn `k`, others act (`others[k]`); a sync caller holds the
        lock. `made` are all attempts on the model meanwhile, `own` says which are the caller's:
        they are under the limit it read at first, and it is granted once, at its last turn. */
    method Acquire(model: string, sync: bool, readings: seq<Reading>, others: seq<seq<Act>>)
      returns (granted: bool, used: nat, ghost made: seq<Attempt>, ghost own: seq<nat>)
      requires Valid() && |readings| == |others| && InOrder(clock, readings, others)
      requires sync ==> forall acts <- others :: acts == []
      modifies this
      ensures Valid() && used <= |readings|
      ensures !old(Limited(model)) ==> granted && used == 0 && requestLogs == old(requestLogs)
      ensures old(Limited(model)) ==>
        && SameLog(HistoryOf(model), AfterAll(old(HistoryOf(model)), made))
        && AreOwn(old(HistoryOf(model)), made, own, sync, old(limits[model]), readings[..used], granted)
      ensures forall other :: other != model && (forall acts <- others :: Leaves(acts, other)) ==>
        SameLog(HistoryOf(other), old(HistoryOf(other)))
      ensures (forall acts <- others :: NoRefresh(acts)) ==> requestGap == old(requestGap) && limits == old(limits)
      ensures sync ==> |made| == used
    {
      hide Tracks, WithinLimits, After, Valid, HistoryOf, AreOwn, Tried, Leaves, NoRefresh, InOrder;
      used, made, own := 0, [], [];
      if !Limited(model) {
        return true, 0, [], [];
      }
      var limit := limits[model];
      granted := false;
      ghost var h := HistoryOf(model);
      NothingMade(h, sync, limit);
      assert readings[0..] == readings && others[0..] == others;
      while used < |readings| && !granted
        invariant Valid() && used <= |readings|
        invariant !granted ==> InOrder(clock, readings[used..], others[used..])
        invariant SameLog(HistoryOf(model), AfterAll(h, made))
        invariant AreOwn(h, made, own, sync, limit, readings[..used], granted)
        invariant forall other :: other != model && (forall acts <- others :: Leaves(acts, other)) ==>
          SameLog(HistoryOf(other), old(HistoryOf(other)))
        invariant (forall acts <- others :: NoRefresh(acts)) ==> requestGap == old(requestGap) && limits == old(limits)
        invariant sync ==> |made| == used
        decreases |readings| - used
      {
        ghost var before, a := HistoryOf(model), Attempt(sync, limit, requestGap, readings[used]);
        NextTurn(clock, readings, others, used);
        HistoryClock(model);
        granted := MakeAttempt(model, sync, limit, readings[used]);
        GrantedTells(before, a);
        OwnTurn(h, before, made, own, sync, limit, readings, used, a);
        made, own := made + [a], own + [|made|];
        assert others[used] in others;
        used := used + 1;
        if !granted {
          ghost var mid := HistoryOf(model);
          ghost var theirs := Meanwhile(model, others[used - 1]);
          OthersTurn(h, mid, HistoryOf(model), made, theirs, own, sync, limit, readings[..used]);
          assert theirs == [] || !sync;
          made := made + theirs;
        }
      }
    }

    /** One turn of either loop. */
    method MakeAttempt(model: string, sync: bool, limit: int, r: Reading) returns (granted: bool)
      requires Valid() && Timely(HistoryOf(model), Attempt(sync, limit, requestGap, r))
      modifies this`requestLogs, this`grants, this`clock
      ensures Valid() && HistoryOf(model) == After(old(HistoryOf(model)), Attempt(sync, limit, requestGap, r))
      ensures |HistoryOf(model).grants| == |old(HistoryOf(model)).grants| + if granted then 1 else 0
      ensures clock == r.grant
      ensures forall other :: other != model ==> HistoryOf(other) == old(HistoryOf(other)).(clock := r.grant)
    {
      hide Evict, Tracks, WithinLimits, Try, TryAsync;
      var log := if model in requestLogs then requestLogs[model] else [];
      var next, outcome;
      if sync {
        next, outcome := Turn(log, limit, r);
      } else {
        next, outcome := TurnAsync(log, limit, r.start);
      }
      granted := outcome.Granted?;
      Store(model, Attempt(sync, limit, requestGap, r), next);
    }

    /** Writes the log back and records the attempt. */
    method Store(model: string, ghost a: Attempt, log: seq<real>)
      requires Valid() && Timely(HistoryOf(model), a) && log == Tried(HistoryOf(model), a).0
      modifies this`requestLogs, this`grants, this`clock
      ensures Valid() && HistoryOf(model) == After(old(HistoryOf(model)), a)
      ensures forall other :: other != model ==> HistoryOf(other) == old(HistoryOf(other)).(clock := a.reading.grant)
    {
      hide Evict, Tracks, WithinLimits, Tried;
      ghost var h := After(HistoryOf(model), a);
      AttemptKeepsTrack(HistoryOf(model), a);
      AttemptKeepsLimits(HistoryOf(model), a);
      requestLogs := requestLogs[model := log];
      grants := grants[model := h.grants];
      clock := h.clock;
      assert HistoryOf(model) == h;
      forall other: string
        ensures Tracks(HistoryOf(other)) && WithinLimits(HistoryOf(other).grants)
      {
        if other != model {
          LaterStillTracks(old(HistoryOf(other)), clock);
        }
      }
    }

    /** `refresh_shared_rate_limiter`: new limits and gap; the logs stay. */
    method Refresh(limits: map<string, int>, requestGap: Option<real>)
      requires Valid()
      modifies this`limits, this`requestGap
      ensures Valid() && this.limits == limits
      ensures this.requestGap == if requestGap.Some? then requestGap.value else old(this.requestGap)
    {
      this.limits := limits;
      if requestGap.Some? {
        this.requestGap := requestGap.value;
      }
    }
  }

  lemma LaterStillTracks(h: History, clock: real)
    requires Tracks(h) && h.clock <= clock
    ensures Tracks(h.(clock := clock))
  {
  }
}
