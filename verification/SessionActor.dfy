/**
 The actor that owns one SDK client (server/agent_runtime/session_actor.py).

 The coroutine runs without interruption between two `await`s, so the model has one atomic
 step per piece of code between two suspension points. `Phase` says at which `await` the
 coroutine is suspended and what its local variables hold there. The environment decides
 which awaited operation finishes next and how.

 `Step` is the specification; the class `SessionActor` is the code, with the commands as
 objects whose `sent`, `done` and `error` are set in place.
 */
module SessionActors {
  import opened Wrappers

  datatype Kind = Query | Interrupt | Disconnect

  /** What a command can be completed with: the two local sentinels or an SDK exception. */
  datatype Error = ActorClosed | SessionBusy | Sdk(code: nat)

  class SessionCommand {
    const kind: Kind
    var sent: bool
    var done: bool
    var error: Option<Error>

    constructor (kind: Kind)
      ensures this.kind == kind && View() == FRESH
    {
      this.kind := kind;
      sent, done, error := false, false, None;
    }

    function View(): Status
      reads this
    {
      Status(sent, done, error)
    }

    /** Wakes both kinds of waiter; an error is recorded only when one is given. */
    method Complete(error: Option<Error>)
      modifies this
      ensures sent && done && this.error == if error.Some? then error else old(this.error)
    {
      if error.Some? {
        this.error := error;
      }
      sent := true;
      done := true;
    }
  }

  datatype Status = Status(sent: bool, done: bool, error: Option<Error>)

  const FRESH: Status := Status(false, false, None)

  function Completed(st: Status, error: Option<Error>): Status {
    Status(true, true, if error.Some? then error else st.error)
  }

  /** State of the task awaiting the next stream message. `Message(Some(e))` is a message
      whose handler raises `e`; `Ended` is `StopAsyncIteration`. */
  datatype Receive = Pending | Message(handlerError: Option<Error>) | Ended | Raised(error: Error)

  /** The suspension points. `taken` is the result of a finished `cmd_task`. */
  datatype Phase =
    | Connecting
    | Idle
    | Sending(query: SessionCommand)
    | Driving(query: SessionCommand, parked: Option<SessionCommand>, msg: Receive, taken: Option<SessionCommand>)
    | Interrupting(query: SessionCommand, parked: Option<SessionCommand>, msg: Receive, interrupt: SessionCommand)
    | Disconnecting(query: SessionCommand, parked: Option<SessionCommand>, msg: Receive, disconnect: SessionCommand)
    | Leaving(fatal: Option<Error>)
    | Closed(fatal: Option<Error>)

  datatype State = State(phase: Phase, queue: seq<SessionCommand>, status: map<SessionCommand, Status>)

  datatype Event =
    | Enqueue(cmd: SessionCommand)
    | Connected
    | ConnectFails(error: Error)
    | NextCommand
    | QueryAccepted
    | QueryFails(error: Error)
    | Receives(msg: Receive)
    | TakesCommand
    | Wakes
    | InterruptReturns
    | InterruptFails(error: Error)
    | Cancelled(error: Error)
    | ClientExits(raised: Option<Error>)

  predicate Streaming(p: Phase) {
    p.Driving? || p.Interrupting? || p.Disconnecting?
  }

  /** Which awaited operation may finish in which suspension point. `Enqueue` needs a command
      the actor has not been given before; `Cancelled` is a control-flow exception delivered
      at the current `await`. */
  predicate Enabled(s: State, e: Event) {
    match e
    case Enqueue(c) => c !in s.status
    case Connected => s.phase.Connecting?
    case ConnectFails(_) => s.phase.Connecting?
    case NextCommand => s.phase.Idle? && s.queue != []
    case QueryAccepted => s.phase.Sending?
    case QueryFails(_) => s.phase.Sending?
    case Receives(r) => Streaming(s.phase) && s.phase.msg.Pending? && !r.Pending?
    case TakesCommand => s.phase.Driving? && s.phase.taken.None? && s.queue != []
    case Wakes => s.phase.Driving? && (!s.phase.msg.Pending? || s.phase.taken.Some?)
    case InterruptReturns => s.phase.Interrupting? || s.phase.Disconnecting?
    case InterruptFails(_) => s.phase.Interrupting? || s.phase.Disconnecting?
    case Cancelled(_) => s.phase.Idle? || Streaming(s.phase)
    case ClientExits(_) => s.phase.Leaving?
  }

  function WithMsg(p: Phase, msg: Receive): Phase
    requires Streaming(p)
  {
    match p
    case Driving(q, parked, _, taken) => Driving(q, parked, msg, taken)
    case Interrupting(q, parked, _, c) => Interrupting(q, parked, msg, c)
    case Disconnecting(q, parked, _, c) => Disconnecting(q, parked, msg, c)
  }

  function Mark(status: map<SessionCommand, Status>, c: SessionCommand,
      error: Option<Error>): map<SessionCommand, Status>
    requires c in status
  {
    status[c := Completed(status[c], error)]
  }

  function MarkAll(status: map<SessionCommand, Status>, cs: seq<SessionCommand>,
      error: Error): (r: map<SessionCommand, Status>)
    requires forall c <- cs :: c in status
    ensures r.Keys == status.Keys
  {
    if cs == [] then status
    else MarkAll(if status[cs[0]].done then status else Mark(status, cs[0], Some(error)), cs[1..], error)
  }

  function OrClosed(fatal: Option<Error>): Error {
    if fatal.Some? then fatal.value else ActorClosed
  }

  /** The coroutine holds `c` in one of its local variables. */
  predicate Holds(p: Phase, c: SessionCommand) {
    match p
    case Sending(q) => c == q
    case Driving(q, parked, _, taken) => c == q || parked == Some(c) || taken == Some(c)
    case Interrupting(q, parked, _, i) => c == q || parked == Some(c) || c == i
    case Disconnecting(q, parked, _, d) => c == q || parked == Some(c) || c == d
    case _ => false
  }

  /** The commands held in two different variables are different. */
  predicate HeldApart(p: Phase) {
    match p
    case Driving(q, parked, _, taken) =>
      parked != Some(q) && taken != Some(q) && (parked.Some? ==> parked != taken)
    case Interrupting(q, parked, _, i) => parked != Some(q) && i != q && parked != Some(i)
    case Disconnecting(q, parked, _, d) => parked != Some(q) && d != q && parked != Some(d)
    case _ => true
  }

  predicate InPlace(s: State, c: SessionCommand) {
    Holds(s.phase, c) || c in s.queue
  }

  predicate Distinct<T(==)>(s: seq<T>) {
    forall i, j :: 0 <= i < j < |s| ==> s[i] != s[j]
  }

  /** Given to the actor, not completed, and nowhere to be found any more. */
  predicate Lost(s: State, c: SessionCommand)
    requires c in s.status
  {
    !s.status[c].done && !InPlace(s, c)
  }

  ghost function Orphans(s: State): set<SessionCommand> {
    set c | c in s.status && Lost(s, c)
  }

  /** One command handled by the command loop, which has just taken it (lines 97-112). */
  function Dispatch(s: State, c: SessionCommand): State
    requires c in s.status
  {
    match c.kind
    case Disconnect => s.(phase := Leaving(None), status := Mark(s.status, c, None))
    case Query => s.(phase := Sending(c))
    case Interrupt => s.(phase := Idle, status := Mark(s.status, c, None))
  }

  ghost predicate Known(s: State) {
    && HeldKnown(s.phase, s.status.Keys)
    && (forall c <- s.queue :: c in s.status)
  }

  predicate HeldKnown(p: Phase, known: set<SessionCommand>) {
    && (p.Sending? || Streaming(p) ==> p.query in known)
    && (Streaming(p) && p.parked.Some? ==> p.parked.value in known)
    && (p.Driving? && p.taken.Some? ==> p.taken.value in known)
    && (p.Interrupting? ==> p.interrupt in known)
    && (p.Disconnecting? ==> p.disconnect in known)
  }

  /** The `finally` clause: a parked query is out of the queue and must be woken (lines 184-185). */
  function ReleaseParked(status: map<SessionCommand, Status>, parked: Option<SessionCommand>)
    : map<SessionCommand, Status>
    requires parked.Some? ==> parked.value in status
  {
    if parked.Some? && !status[parked.value].done
    then Mark(status, parked.value, Some(OrClosed(status[parked.value].error)))
    else status
  }

  /** The exception path out of the stream: the parked query is released, the active query
      completed with the exception, and a command already taken is dropped. */
  function FailStream(s: State, error: Error): State
    requires Known(s) && Streaming(s.phase)
  {
    var parked := s.phase.parked;
    s.(phase := Leaving(Some(error)), status := Mark(ReleaseParked(s.status, parked), s.phase.query, Some(error)))
  }

  function SetDone(status: map<SessionCommand, Status>, c: SessionCommand): map<SessionCommand, Status>
    requires c in status
  {
    status[c := status[c].(done := true)]
  }

  /** The stream ran dry (lines 130-143). */
  function EndStream(s: State): State
    requires Known(s) && s.phase.Driving?
  {
    var t := s.(phase := Idle, status := SetDone(s.status, s.phase.query));
    match (s.phase.parked, s.phase.taken)
    case (Some(p), Some(c)) => Dispatch(t.(queue := s.queue + [c]), p)
    case (Some(p), None) => Dispatch(t, p)
    case (None, Some(c)) => Dispatch(t, c)
    case (None, None) => t
  }

  /** A finished `cmd_task` is looked at (lines 145-177), up to the next `await`. */
  function LookAtCommand(s: State): State
    requires Known(s) && s.phase.Driving?
  {
    var p := s.phase;
    match p.taken
    case None => s
    case Some(c) =>
      match c.kind
      case Interrupt => s.(phase := Interrupting(p.query, p.parked, p.msg, c))
      case Disconnect => s.(phase := Disconnecting(p.query, p.parked, p.msg, c))
      case Query =>
        if p.parked.Some?
        then s.(phase := p.(taken := None), status := Mark(s.status, c, Some(SessionBusy)))
        else s.(phase := p.(parked := Some(c), taken := None))
  }

  function Wake(s: State): State
    requires Known(s) && s.phase.Driving?
  {
    match s.phase.msg
    case Raised(e) => FailStream(s, e)
    case Message(Some(e)) => FailStream(s, e)
    case Ended => EndStream(s)
    case Message(None) => LookAtCommand(s.(phase := WithMsg(s.phase, Pending)))
    case Pending => LookAtCommand(s)
  }

  function Finish(s: State, fatal: Option<Error>): State
    requires forall c <- s.queue :: c in s.status
  {
    State(Closed(fatal), [], MarkAll(s.status, s.queue, OrClosed(fatal)))
  }

  /** One atomic step of the actor or of a caller. */
  function Step(s: State, e: Event): State
    requires Known(s) && Enabled(s, e)
  {
    match e
    case Enqueue(c) =>
      var t := s.(status := s.status[c := FRESH]);
      if s.phase.Closed? then t.(status := Mark(t.status, c, Some(OrClosed(s.phase.fatal))))
      else t.(queue := s.queue + [c])
    case Connected => s.(phase := Idle)
    case ConnectFails(x) => Finish(s, Some(x))
    case NextCommand => Dispatch(s.(queue := s.queue[1..]), s.queue[0])
    case QueryAccepted =>
      var q := s.phase.query;
      s.(phase := Driving(q, None, Pending, None), status := s.status[q := s.status[q].(sent := true)])
    case QueryFails(x) =>
      s.(phase := Leaving(Some(x)), status := Mark(s.status, s.phase.query, Some(x)))
    case Receives(r) => s.(phase := WithMsg(s.phase, r))
    case TakesCommand => s.(phase := s.phase.(taken := Some(s.queue[0])), queue := s.queue[1..])
    case Wakes => Wake(s)
    case InterruptReturns =>
      var p := s.phase;
      if p.Interrupting? then
        State(Driving(p.query, p.parked, p.msg, None), s.queue, Mark(s.status, p.interrupt, None))
      else
        var status := SetDone(s.status, p.query);
        Dispatch(s.(phase := Idle, status := ReleaseParked(status, p.parked)), p.disconnect)
    case InterruptFails(x) => FailInterrupt(s, Some(x), x)
    case Cancelled(x) =>
      if s.phase.Idle? then s.(phase := Leaving(Some(x)))
      else FailInterrupt(s, None, x)
    case ClientExits(x) => Finish(s, if x.Some? then x else s.phase.fatal)
  }

  /** An `await` inside the stream loop raises. An `interrupt` being served is completed all
      the same, with the exception only if it is an ordinary one. */
  function FailInterrupt(s: State, caught: Option<Error>, error: Error): State
    requires Known(s) && Streaming(s.phase)
  {
    if s.phase.Interrupting? then
      var t := s.(status := Mark(s.status, s.phase.interrupt, caught));
      FailStream(t, error)
    else FailStream(s, error)
  }

  // ---------------------------------------------------------------- invariant

  ghost predicate Invariant(s: State) {
    Placed(s, None) && Recorded(s) && |Orphans(s)| <= 1
  }

  /** No command is in two places. `hand` is a command between two places. */
  ghost predicate Placed(s: State, hand: Option<SessionCommand>) {
    && Known(s)
    && Distinct(s.queue)
    && HeldApart(s.phase)
    && KindsAgree(s.phase)
    && (forall c <- s.queue :: !Holds(s.phase, c))
    && (hand.Some? ==> hand.value in s.status && !InPlace(s, hand.value) && !s.status[hand.value].done)
    && (forall c <- s.status :: InPlace(s, c) ==> !s.status[c].done)
  }

  /** What the commands' flags say in every reachable state. */
  ghost predicate Recorded(s: State) {
    && (forall c <- s.status :: s.status[c].done ==> s.status[c].sent)
    && (forall c <- s.status :: !s.status[c].done ==> s.status[c].error == None)
    && (forall c <- s.status :: s.status[c].sent && !s.status[c].done <==> Streaming(s.phase) && c == s.phase.query)
    && (s.phase.Closed? ==> s.queue == [])
    && (!HasFatal(s.phase) ==> forall c <- s.status :: !Lost(s, c))
  }

  predicate HasFatal(p: Phase) {
    (p.Leaving? || p.Closed?) && p.fatal.Some?
  }

  predicate KindsAgree(p: Phase) {
    && (p.Sending? || Streaming(p) ==> p.query.kind == Query)
    && (Streaming(p) && p.parked.Some? ==> p.parked.value.kind == Query)
    && (p.Interrupting? ==> p.interrupt.kind == Interrupt)
    && (p.Disconnecting? ==> p.disconnect.kind == Disconnect)
  }

  predicate Initial(s: State) {
    s == State(Connecting, [], map[])
  }

  /** The command a failing step drops, if any: the one `cmd_task` had already taken, or the
      disconnect whose own interrupt raised. */
  function Dropped(s: State, e: Event): set<SessionCommand> {
    if s.phase.Driving? && s.phase.taken.Some? &&
       (e.Cancelled? || (e.Wakes? && (s.phase.msg.Raised? || (s.phase.msg.Message? && s.phase.msg.handlerError.Some?))))
    then {s.phase.taken.value}
    else if s.phase.Disconnecting? && (e.InterruptFails? || e.Cancelled?)
    then {s.phase.disconnect}
    else {}
  }

  // ---------------------------------------------------------------- every step

  lemma MarkAllMarks(status: map<SessionCommand, Status>, cs: seq<SessionCommand>, error: Error)
    requires forall c <- cs :: c in status
    requires Distinct(cs)
    ensures var r := MarkAll(status, cs, error);
      forall c <- status :: r[c] == if c in cs && !status[c].done then Completed(status[c], Some(error)) else status[c]
  {
    if cs != [] {
      assert forall i :: 0 < i < |cs| ==> cs[i] != cs[0];
      MarkAllMarks(if status[cs[0]].done then status else Mark(status, cs[0], Some(error)), cs[1..], error);
    }
  }

  ghost predicate Books(s: State, e: Event)
    requires Known(s) && Enabled(s, e)
  {
    var t := Step(s, e);
    forall c <- t.status :: Lost(t, c) <==> (c in s.status && Lost(s, c)) || c in Dropped(s, e)
  }

  lemma EnqueueStep(s: State, e: Event)
    requires Placed(s, None) && Recorded(s) && Enabled(s, e) && e.Enqueue?
    ensures Placed(Step(s, e), None) && Recorded(Step(s, e)) && Books(s, e)
  {
    hide Placed, Recorded, Lost;
    if s.phase.Closed? {
      EnqueuedLate(s, e.cmd);
    } else {
      Enqueued(s, e.cmd);
    }
  }

  lemma Enqueued(s: State, c: SessionCommand)
    requires Placed(s, None) && Recorded(s) && c !in s.status && !s.phase.Closed?
    ensures Known(s)
    ensures var t := State(s.phase, s.queue + [c], s.status[c := FRESH]);
      && Placed(t, None) && Recorded(t) && forall d <- t.status :: Lost(t, d) <==> d in s.status && Lost(s, d)
  {
  }

  lemma EnqueuedLate(s: State, c: SessionCommand)
    requires Placed(s, None) && Recorded(s) && c !in s.status && s.phase.Closed?
    ensures Known(s)
    ensures var t := s.(status := Mark(s.status[c := FRESH], c, Some(OrClosed(s.phase.fatal))));
      && Placed(t, None) && Recorded(t) && forall d <- t.status :: Lost(t, d) <==> d in s.status && Lost(s, d)
  {
  }

  lemma TakeStep(s: State, e: Event)
    requires Placed(s, None) && Recorded(s) && Enabled(s, e) && e.TakesCommand?
    ensures Placed(Step(s, e), None) && Recorded(Step(s, e)) && Books(s, e)
  {
    assert s.queue == [s.queue[0]] + s.queue[1..];
    assert s.queue[0] in s.queue;
    assert Distinct(s.queue[1..]) && s.queue[0] !in s.queue[1..];
  }

  lemma SimpleStep(s: State, e: Event)
    requires Placed(s, None) && Recorded(s) && Enabled(s, e)
    requires e.Connected? || e.Receives? || e.QueryAccepted? || e.QueryFails?
    ensures Placed(Step(s, e), None) && Recorded(Step(s, e)) && Books(s, e)
  {
    hide Placed, Recorded, Lost;
    PlacedIsKnown(s);
    match e
    case Connected => NowConnected(s);
    case Receives(r) => Received(s, r);
    case QueryAccepted => StreamOpens(s);
    case QueryFails(x) => QueryGoesWrong(s, x);
  }

  lemma NowConnected(s: State)
    requires Placed(s, None) && Recorded(s) && s.phase.Connecting?
    ensures var t := s.(phase := Idle);
      Placed(t, None) && Recorded(t) && forall c <- s.status :: Lost(t, c) <==> Lost(s, c)
  {
  }

  /** Moving the held commands between variables of the stream loop changes no place. */
  lemma SamePlaces(s: State, p: Phase)
    requires Placed(s, None) && Recorded(s) && Streaming(s.phase)
    requires Streaming(p) && p.query == s.phase.query
    requires HeldApart(p) && KindsAgree(p) && HeldKnown(p, s.status.Keys)
    requires forall c <- s.status :: Holds(p, c) <==> Holds(s.phase, c)
    ensures Placed(s.(phase := p), None) && Recorded(s.(phase := p))
    ensures forall c <- s.status :: !Lost(s, c) && !Lost(s.(phase := p), c)
  {
    hide HeldApart, KindsAgree, HeldKnown, Holds;
  }

  lemma Received(s: State, r: Receive)
    requires Placed(s, None) && Recorded(s) && Streaming(s.phase)
    ensures var t := s.(phase := WithMsg(s.phase, r));
      Placed(t, None) && Recorded(t) && forall c <- s.status :: !Lost(s, c) && !Lost(t, c)
  {
    PhaseIsFine(s);
    hide Placed, Recorded, Lost;
    SamePlaces(s, WithMsg(s.phase, r));
  }

  lemma PhaseIsFine(s: State)
    requires Placed(s, None)
    ensures HeldApart(s.phase) && KindsAgree(s.phase) && HeldKnown(s.phase, s.status.Keys)
  {
  }

  lemma StreamOpens(s: State)
    requires Placed(s, None) && Recorded(s) && s.phase.Sending?
    ensures s.phase.query in s.status
    ensures var q := s.phase.query;
      var t := s.(phase := Driving(q, None, Pending, None), status := s.status[q := s.status[q].(sent := true)]);
      Placed(t, None) && Recorded(t) && forall c <- s.status :: Lost(t, c) <==> Lost(s, c)
  {
  }

  lemma QueryGoesWrong(s: State, error: Error)
    requires Placed(s, None) && Recorded(s) && s.phase.Sending?
    ensures s.phase.query in s.status
    ensures var t := s.(phase := Leaving(Some(error)), status := Mark(s.status, s.phase.query, Some(error)));
      Placed(t, None) && Recorded(t) && forall c <- s.status :: Lost(t, c) <==> Lost(s, c)
  {
  }

  lemma FinishStep(s: State, e: Event)
    requires Placed(s, None) && Recorded(s) && Enabled(s, e)
    requires e.ConnectFails? || e.ClientExits?
    ensures Placed(Step(s, e), None) && Recorded(Step(s, e)) && Books(s, e)
  {
    hide Placed, Recorded, Lost, MarkAll;
    PlacedIsKnown(s);
    Finished(s, if e.ConnectFails? then Some(e.error) else if e.raised.Some? then e.raised else s.phase.fatal);
  }

  lemma Finished(s: State, fatal: Option<Error>)
    requires Placed(s, None) && Recorded(s) && (s.phase.Connecting? || s.phase.Leaving?)
    requires HasFatal(s.phase) ==> fatal.Some?
    ensures Known(s)
    ensures var t := Finish(s, fatal);
      Placed(t, None) && Recorded(t) && forall c <- s.status :: Lost(t, c) <==> Lost(s, c)
  {
    PlacedIsKnown(s);
    AllCompleted(s, OrClosed(fatal));
    hide Placed, Recorded, Lost, MarkAll, OrClosed;
    Drained(s, MarkAll(s.status, s.queue, OrClosed(fatal)), fatal);
  }

  lemma AllCompleted(s: State, error: Error)
    requires Placed(s, None)
    ensures Known(s)
    ensures var r := MarkAll(s.status, s.queue, error);
      forall c <- s.status :: if c in s.queue then r[c].done && r[c].sent else r[c] == s.status[c]
  {
    hide MarkAll;
    MarkAllMarks(s.status, s.queue, error);
    forall c <- s.queue
      ensures !s.status[c].done
    {
      assert InPlace(s, c);
    }
  }

  lemma Drained(s: State, status: map<SessionCommand, Status>, fatal: Option<Error>)
    requires Placed(s, None) && Recorded(s) && (s.phase.Connecting? || s.phase.Leaving?)
    requires HasFatal(s.phase) ==> fatal.Some?
    requires status.Keys == s.status.Keys
    requires forall c <- s.status :: if c in s.queue then status[c].done && status[c].sent else status[c] == s.status[c]
    ensures var t := State(Closed(fatal), [], status);
      Placed(t, None) && Recorded(t) && forall c <- s.status :: Lost(t, c) <==> Lost(s, c)
  {
  }

  /** Between two commands: each command is finished, or untouched and waiting. */
  ghost predicate Settled(s: State, hand: Option<SessionCommand>) {
    && s.phase.Idle?
    && Placed(s, hand)
    && forall d <- s.status ::
      if s.status[d].done then s.status[d].sent
      else s.status[d] == FRESH && (d in s.queue || hand == Some(d))
  }

  /** Nothing is lost when the command loop handles the command in hand. */
  lemma DispatchStep(s: State, c: SessionCommand)
    requires Settled(s, Some(c))
    ensures var t := Dispatch(s, c); Placed(t, None) && Recorded(t)
    ensures forall d <- s.status :: !Lost(Dispatch(s, c), d)
  {
  }

  lemma NextStep(s: State, e: Event)
    requires Placed(s, None) && Recorded(s) && Enabled(s, e) && e.NextCommand?
    ensures Placed(Step(s, e), None) && Recorded(Step(s, e)) && Books(s, e)
  {
    FirstTaken(s);
    hide Placed, Recorded, Lost, Settled;
    DispatchStep(s.(queue := s.queue[1..]), s.queue[0]);
  }

  lemma FirstTaken(s: State)
    requires Placed(s, None) && Recorded(s) && s.phase.Idle? && s.queue != []
    ensures Settled(s.(queue := s.queue[1..]), Some(s.queue[0])) && s.queue[0] in s.status
    ensures forall d <- s.status :: !Lost(s, d)
  {
    var c, rest := s.queue[0], s.queue[1..];
    assert s.queue == [c] + rest && c in s.queue;
  }

  /** Ending the active query and putting the held commands `back` settles the actor. */
  lemma Settle(s: State, status: map<SessionCommand, Status>, back: seq<SessionCommand>, hand: Option<SessionCommand>)
    requires Placed(s, None) && Recorded(s) && Streaming(s.phase)
    requires status.Keys == s.status.Keys
    requires forall d <- s.status :: status[d] == s.status[d] || (status[d].done && status[d].sent)
    requires forall d <- s.status :: status[d].done <==>
      s.status[d].done || (Holds(s.phase, d) && d !in back && hand != Some(d))
    requires forall d <- back :: Holds(s.phase, d)
    requires hand.Some? ==> Holds(s.phase, hand.value) && hand.value !in back
    requires s.phase.query !in back && hand != Some(s.phase.query)
    requires |back| <= 1
    ensures Settled(State(Idle, s.queue + back, status), hand)
  {
    assert forall c <- s.status :: !Lost(s, c);
    if back != [] {
      assert back[0] in back && back == [back[0]];
    }
    assert Distinct(s.queue + back);
  }

  lemma EndStreamStep(s: State)
    requires Placed(s, None) && Recorded(s) && s.phase.Driving?
    ensures var t := EndStream(s); Placed(t, None) && Recorded(t)
    ensures forall c <- s.status :: !Lost(EndStream(s), c)
  {
    var p := s.phase;
    var back := if p.parked.Some? && p.taken.Some? then [p.taken.value] else [];
    var hand := if p.parked.Some? then p.parked else p.taken;
    EndSettles(s);
    assert s.queue + [] == s.queue;
    if hand.Some? {
      DispatchStep(State(Idle, s.queue + back, SetDone(s.status, p.query)), hand.value);
    }
  }

  lemma EndSettles(s: State)
    requires Placed(s, None) && Recorded(s) && s.phase.Driving?
    ensures Known(s)
    ensures var p := s.phase;
      Settled(State(Idle, s.queue + if p.parked.Some? && p.taken.Some? then [p.taken.value] else [],
                    SetDone(s.status, p.query)),
              if p.parked.Some? then p.parked else p.taken)
  {
    var p := s.phase;
    var back := if p.parked.Some? && p.taken.Some? then [p.taken.value] else [];
    Settle(s, SetDone(s.status, p.query), back, if p.parked.Some? then p.parked else p.taken);
  }

  lemma LookStep(s: State)
    requires Placed(s, None) && Recorded(s) && s.phase.Driving?
    ensures var t := LookAtCommand(s);
      Placed(t, None) && Recorded(t) && forall c <- t.status :: !Lost(t, c)
  {
    PhaseIsFine(s);
    hide Placed, Recorded, Lost;
    var p := s.phase;
    match p.taken
    case None => SamePlaces(s, p);
    case Some(c) =>
      match c.kind
      case Interrupt => SamePlaces(s, Interrupting(p.query, p.parked, p.msg, c));
      case Disconnect => SamePlaces(s, Disconnecting(p.query, p.parked, p.msg, c));
      case Query => if p.parked.Some? { Refused(s, c); } else { SamePlaces(s, p.(parked := Some(c), taken := None)); }
  }

  lemma Refused(s: State, c: SessionCommand)
    requires Placed(s, None) && Recorded(s) && s.phase.Driving? && s.phase.taken == Some(c)
    ensures c in s.status
    ensures var t := s.(phase := s.phase.(taken := None), status := Mark(s.status, c, Some(SessionBusy)));
      Placed(t, None) && Recorded(t) && forall d <- t.status :: !Lost(t, d)
  {
  }

  lemma FailStreamStep(s: State, error: Error)
    requires Placed(s, None) && Recorded(s) && Streaming(s.phase)
    ensures var t := FailStream(s, error);
      Placed(t, None) && Recorded(t) &&
      forall c <- t.status :: Lost(t, c) <==>
        (s.phase.Driving? && s.phase.taken == Some(c)) ||
        (s.phase.Interrupting? && s.phase.interrupt == c) ||
        (s.phase.Disconnecting? && s.phase.disconnect == c)
  {
    PhaseIsFine(s);
    FailedStatus(s, error);
    hide FailStream, Placed, Recorded, Lost;
    LeftBehind(s, FailStream(s, error).status, error);
  }

  lemma FailedStatus(s: State, error: Error)
    requires Placed(s, None) && Recorded(s) && Streaming(s.phase)
    ensures var t := FailStream(s, error);
      && t == State(Leaving(Some(error)), s.queue, t.status) && t.status.Keys == s.status.Keys
      && forall c <- s.status ::
        if c == s.phase.query || s.phase.parked == Some(c) then t.status[c].done && t.status[c].sent
        else t.status[c] == s.status[c]
  {
  }

  /** Leaving the stream with an exception: of the commands held, those not completed are lost. */
  lemma LeftBehind(s: State, status: map<SessionCommand, Status>, error: Error)
    requires Placed(s, None) && Recorded(s) && Streaming(s.phase) && status.Keys == s.status.Keys
    requires forall c <- s.status ::
      if c == s.phase.query || s.phase.parked == Some(c) then status[c].done && status[c].sent
      else status[c] == s.status[c]
    ensures var t := State(Leaving(Some(error)), s.queue, status);
      Placed(t, None) && Recorded(t) &&
      forall c <- status :: Lost(t, c) <==> Holds(s.phase, c) && c != s.phase.query && s.phase.parked != Some(c)
  {
    assert HeldApart(Leaving(Some(error))) && KindsAgree(Leaving(Some(error)));
    hide HeldApart, KindsAgree, Mark, ReleaseParked;
    assert Holds(s.phase, s.phase.query) && (s.phase.parked.Some? ==> Holds(s.phase, s.phase.parked.value));
    assert forall c <- s.status :: !Lost(s, c);
  }

  lemma MessageHandled(s: State)
    requires Placed(s, None) && Recorded(s) && s.phase.Driving?
    ensures var t := s.(phase := WithMsg(s.phase, Pending)); Placed(t, None) && Recorded(t) && t.phase.Driving?
    ensures forall c <- s.status :: !Lost(s, c)
  {
    hide Placed, Recorded, Lost;
    Received(s, Pending);
  }

  lemma WakeStep(s: State, e: Event)
    requires Placed(s, None) && Recorded(s) && Enabled(s, e) && e.Wakes?
    ensures Placed(Step(s, e), None) && Recorded(Step(s, e)) && Books(s, e)
  {
    hide Placed, Recorded, Lost, LookAtCommand, EndStream, FailStream;
    assert Known(s) by { PlacedIsKnown(s); }
    MessageHandled(s);
    match s.phase.msg
    case Raised(x) => FailStreamStep(s, x);
    case Message(Some(x)) => FailStreamStep(s, x);
    case Ended => EndStreamStep(s); KeepsKeysAtEnd(s);
    case Message(None) => LookStep(s.(phase := WithMsg(s.phase, Pending)));
    case Pending => LookStep(s);
  }

  lemma PlacedIsKnown(s: State)
    requires Placed(s, None)
    ensures Known(s)
  {
  }

  lemma KeepsKeysAtEnd(s: State)
    requires Known(s) && s.phase.Driving?
    ensures EndStream(s).status.Keys == s.status.Keys
  {
  }

  lemma InterruptStep(s: State, e: Event)
    requires Placed(s, None) && Recorded(s) && Enabled(s, e) && e.InterruptReturns?
    ensures Placed(Step(s, e), None) && Recorded(Step(s, e)) && Books(s, e)
  {
    if s.phase.Disconnecting? {
      DisconnectStep(s, e);
    } else {
      ServedInterruptStep(s, e);
    }
  }

  lemma ServedInterruptStep(s: State, e: Event)
    requires Placed(s, None) && Recorded(s) && e.InterruptReturns? && s.phase.Interrupting?
    ensures Placed(Step(s, e), None) && Recorded(Step(s, e)) && Books(s, e)
  {
  }

  lemma DisconnectStep(s: State, e: Event)
    requires Placed(s, None) && Recorded(s) && e.InterruptReturns? && s.phase.Disconnecting?
    ensures Placed(Step(s, e), None) && Recorded(Step(s, e)) && Books(s, e)
  {
    PlacedIsKnown(s);
    MessageNotLost(s);
    LetGo(s);
    hide Placed, Recorded, Lost, Settled, ReleaseParked, SetDone;
    var p := s.phase;
    DispatchStep(State(Idle, s.queue, ReleaseParked(SetDone(s.status, p.query), p.parked)), p.disconnect);
  }

  /** With the active and the parked query done, only the disconnect is left in hand. */
  lemma LetGo(s: State)
    requires Placed(s, None) && Recorded(s) && s.phase.Disconnecting?
    ensures Known(s)
    ensures var status := ReleaseParked(SetDone(s.status, s.phase.query), s.phase.parked);
      Settled(State(Idle, s.queue, status), Some(s.phase.disconnect)) && status.Keys == s.status.Keys
  {
    PhaseIsFine(s);
    LetGoStatus(s);
    hide ReleaseParked, SetDone, Settled, Placed, Recorded;
    Settle(s, ReleaseParked(SetDone(s.status, s.phase.query), s.phase.parked), [], Some(s.phase.disconnect));
    assert s.queue + [] == s.queue;
  }

  lemma LetGoStatus(s: State)
    requires Placed(s, None) && Recorded(s) && s.phase.Disconnecting?
    ensures Known(s)
    ensures var status := ReleaseParked(SetDone(s.status, s.phase.query), s.phase.parked);
      && status.Keys == s.status.Keys
      && forall d <- s.status ::
        if d == s.phase.query || s.phase.parked == Some(d) then status[d].done && status[d].sent
        else status[d] == s.status[d]
  {
  }

  lemma FailStep(s: State, e: Event)
    requires Placed(s, None) && Recorded(s) && Enabled(s, e)
    requires e.InterruptFails? || e.Cancelled?
    ensures Placed(Step(s, e), None) && Recorded(Step(s, e)) && Books(s, e)
  {
    hide Placed, Recorded, Lost, FailStream;
    PlacedIsKnown(s);
    if s.phase.Interrupting? {
      FailedInterruptStep(s, e);
    } else if s.phase.Idle? {
      IdleCancelStep(s, e);
    } else {
      MessageNotLost(s);
      FailStreamStep(s, e.error);
    }
  }

  lemma MessageNotLost(s: State)
    requires Recorded(s) && Streaming(s.phase)
    ensures forall c <- s.status :: !Lost(s, c)
  {
  }

  lemma IdleCancelStep(s: State, e: Event)
    requires Placed(s, None) && Recorded(s) && e.Cancelled? && s.phase.Idle?
    ensures Placed(Step(s, e), None) && Recorded(Step(s, e)) && Books(s, e)
  {
  }

  /** Completing the command a failure has dropped leaves nothing lost. */
  lemma CompleteDropped(s: State, c: SessionCommand, error: Option<Error>)
    requires Placed(s, None) && Recorded(s) && s.phase.Leaving?
    requires forall d <- s.status :: Lost(s, d) <==> d == c
    requires c in s.status
    ensures var t := s.(status := Mark(s.status, c, error));
      Placed(t, None) && Recorded(t) && forall d <- t.status :: !Lost(t, d)
  {
  }

  lemma MarksCommute(s: State, caught: Option<Error>, error: Error)
    requires Known(s) && HeldApart(s.phase) && s.phase.Interrupting?
    ensures FailInterrupt(s, caught, error) ==
      var t := FailStream(s, error); t.(status := Mark(t.status, s.phase.interrupt, caught))
  {
    var p := s.phase;
    ReleaseBeside(s.status, p.parked, p.interrupt, caught);
    hide ReleaseParked, Mark, HeldApart;
    MarksSwap(ReleaseParked(s.status, p.parked), p.interrupt, caught, p.query, Some(error));
  }

  lemma ReleaseBeside(status: map<SessionCommand, Status>, parked: Option<SessionCommand>, c: SessionCommand,
      error: Option<Error>)
    requires c in status && parked != Some(c) && (parked.Some? ==> parked.value in status)
    ensures ReleaseParked(status, parked).Keys == status.Keys
    ensures ReleaseParked(Mark(status, c, error), parked) == Mark(ReleaseParked(status, parked), c, error)
  {
  }

  lemma MarksSwap(status: map<SessionCommand, Status>, c: SessionCommand, ofC: Option<Error>, d: SessionCommand,
      ofD: Option<Error>)
    requires c in status && d in status && c != d
    ensures Mark(Mark(status, c, ofC), d, ofD) == Mark(Mark(status, d, ofD), c, ofC)
  {
  }

  lemma FailedInterruptStep(s: State, e: Event)
    requires Placed(s, None) && Recorded(s) && (e.InterruptFails? || e.Cancelled?) && s.phase.Interrupting?
    ensures Placed(Step(s, e), None) && Recorded(Step(s, e)) && Books(s, e)
  {
    var caught := if e.InterruptFails? then Some(e.error) else None;
    assert Known(s) && HeldApart(s.phase) && s.phase.interrupt in s.status;
    hide Placed, Recorded, FailStream, FailInterrupt;
    FailStreamStep(s, e.error);
    MarksCommute(s, caught, e.error);
    CompleteDropped(FailStream(s, e.error), s.phase.interrupt, caught);
    MessageNotLost(s);
  }

  lemma StepKeepsBooks(s: State, e: Event)
    requires Placed(s, None) && Recorded(s) && Enabled(s, e)
    ensures Placed(Step(s, e), None) && Recorded(Step(s, e)) && Books(s, e)
  {
    match e {
      case Enqueue(_) => EnqueueStep(s, e);
      case Connected => SimpleStep(s, e);
      case Receives(_) => SimpleStep(s, e);
      case QueryAccepted => SimpleStep(s, e);
      case QueryFails(_) => SimpleStep(s, e);
      case TakesCommand => TakeStep(s, e);
      case NextCommand => NextStep(s, e);
      case InterruptReturns => InterruptStep(s, e);
      case ConnectFails(_) => FinishStep(s, e);
      case ClientExits(_) => FinishStep(s, e);
      case Wakes => WakeStep(s, e);
      case InterruptFails(_) => FailStep(s, e);
      case Cancelled(_) => FailStep(s, e);
    }
  }

  lemma AtMostOne<T>(before: set<T>, dropped: set<T>, after: set<T>)
    requires after == before + dropped && |before| <= 1 && |dropped| <= 1
    requires dropped != {} ==> before == {}
    ensures |after| <= 1
  {
    assert dropped == {} ==> after == before;
    assert before == {} ==> after == dropped;
  }

  lemma StepKeepsKeys(s: State, e: Event)
    requires Known(s) && Enabled(s, e)
    ensures Step(s, e).status.Keys == s.status.Keys + if e.Enqueue? then {e.cmd} else {}
  {
  }

  lemma DroppedIsHeld(s: State, e: Event)
    requires Placed(s, None) && Recorded(s) && Enabled(s, e)
    ensures forall c <- Dropped(s, e) :: c in s.status && Holds(s.phase, c)
    ensures |Dropped(s, e)| <= 1
    ensures Dropped(s, e) != {} ==> !HasFatal(s.phase)
  {
  }

  /** Every step keeps the books: the only commands that leave every place without being
      completed are the ones `Dropped` names. */
  lemma StepKeepsInvariant(s: State, e: Event)
    requires Invariant(s) && Enabled(s, e)
    ensures Invariant(Step(s, e))
    ensures Orphans(Step(s, e)) == Orphans(s) + Dropped(s, e)
  {
    StepKeepsBooks(s, e);
    StepKeepsKeys(s, e);
    DroppedIsHeld(s, e);
    AccountForOrphans(s, e, Step(s, e));
  }

  lemma AccountForOrphans(s: State, e: Event, t: State)
    requires Recorded(s) && |Orphans(s)| <= 1
    requires s.status.Keys <= t.status.Keys
    requires forall c <- t.status :: Lost(t, c) <==> (c in s.status && Lost(s, c)) || c in Dropped(s, e)
    requires forall c <- Dropped(s, e) :: c in s.status
    requires |Dropped(s, e)| <= 1
    requires Dropped(s, e) != {} ==> !HasFatal(s.phase)
    ensures Orphans(t) == Orphans(s) + Dropped(s, e) && |Orphans(t)| <= 1
  {
    var before, after, dropped := Orphans(s), Orphans(t), Dropped(s, e);
    assert after == before + dropped;
    AtMostOne(before, dropped, after);
  }

  // ---------------------------------------------------------------- every run

  ghost predicate IsRun(s: State, es: seq<Event>)
    decreases |es|
  {
    es == [] || (Known(s) && Enabled(s, es[0]) && IsRun(Step(s, es[0]), es[1..]))
  }

  ghost function Run(s: State, es: seq<Event>): State
    requires IsRun(s, es)
    decreases |es|
  {
    if es == [] then s else Run(Step(s, es[0]), es[1..])
  }

  /** The commands dropped somewhere along a run. */
  ghost function DroppedIn(s: State, es: seq<Event>): set<SessionCommand>
    requires IsRun(s, es)
    decreases |es|
  {
    if es == [] then {} else Dropped(s, es[0]) + DroppedIn(Step(s, es[0]), es[1..])
  }

  lemma {:induction false} RunKeepsInvariant(s: State, es: seq<Event>)
    requires Invariant(s) && IsRun(s, es)
    ensures Invariant(Run(s, es))
    ensures Orphans(Run(s, es)) == Orphans(s) + DroppedIn(s, es)
    ensures s.status.Keys <= Run(s, es).status.Keys
    decreases |es|
  {
    hide Invariant, Step, Dropped, Orphans, Enabled, Known;
    if es != [] {
      StepKeepsInvariant(s, es[0]);
      StepKeepsKeys(s, es[0]);
      RunKeepsInvariant(Step(s, es[0]), es[1..]);
    }
  }

  function Same(a: Option<SessionCommand>, c: SessionCommand): nat {
    if a == Some(c) then 1 else 0
  }

  /** In how many places `c` is: the coroutine's variables one by one, and the queue. */
  function Copies(s: State, c: SessionCommand): nat {
    multiset(s.queue)[c] +
    match s.phase
    case Sending(q) => Same(Some(q), c)
    case Driving(q, parked, _, taken) => Same(Some(q), c) + Same(parked, c) + Same(taken, c)
    case Interrupting(q, parked, _, i) => Same(Some(q), c) + Same(parked, c) + Same(Some(i), c)
    case Disconnecting(q, parked, _, d) => Same(Some(q), c) + Same(parked, c) + Same(Some(d), c)
    case _ => 0
  }

  lemma {:induction false} DistinctCountsOnce(cs: seq<SessionCommand>, c: SessionCommand)
    requires Distinct(cs)
    ensures multiset(cs)[c] == if c in cs then 1 else 0
  {
    if cs != [] {
      assert cs == [cs[0]] + cs[1..];
      DistinctCountsOnce(cs[1..], c);
    }
  }

  lemma PlacedMeansOneCopy(s: State, c: SessionCommand)
    requires Placed(s, None)
    ensures Copies(s, c) == if InPlace(s, c) then 1 else 0
  {
    DistinctCountsOnce(s.queue, c);
  }

  function Count(b: bool): nat {
    if b then 1 else 0
  }

  /** On every run, each command given to the actor is completed, or dropped by a failing
      step, or in exactly one place, and never two of these. At most one is dropped, and only
      on the way out with an exception. */
  lemma EveryCommandIsAccountedFor(s: State, es: seq<Event>)
    requires Initial(s) && IsRun(s, es)
    ensures var t := Run(s, es);
      && (forall c <- t.status :: Count(t.status[c].done) + Count(c in DroppedIn(s, es)) + Copies(t, c) == 1)
      && |DroppedIn(s, es)| <= 1
      && (DroppedIn(s, es) != {} ==> HasFatal(t.phase))
  {
    RunKeepsInvariant(s, es);
    var t := Run(s, es);
    assert Orphans(s) == {};
    forall c <- t.status
      ensures Count(t.status[c].done) + Count(c in DroppedIn(s, es)) + Copies(t, c) == 1
    {
      PlacedMeansOneCopy(t, c);
      assert c in Orphans(t) <==> Lost(t, c);
    }
    if DroppedIn(s, es) != {} {
      var c :| c in DroppedIn(s, es);
      assert c in Orphans(t) && Lost(t, c);
    }
  }

  /** Once the actor has ended, nobody waits for ever except on a dropped command: every other
      one, also one enqueued after the end, has `sent` and `done` set. An actor that ends
      without an exception drops nothing. */
  lemma EndedActorLeavesNobodyWaiting(s: State, es: seq<Event>)
    requires Initial(s) && IsRun(s, es)
    requires Run(s, es).phase.Closed?
    ensures var t := Run(s, es);
      && (forall c <- t.status :: (t.status[c].sent && t.status[c].done) <==> c !in DroppedIn(s, es))
      && (t.phase.fatal.None? ==> DroppedIn(s, es) == {})
      && (t.phase.fatal.None? ==>
            exists c <- t.status :: c.kind == Disconnect && t.status[c] == Status(true, true, None))
  {
    InitialIsInvariant();
    RunKeepsInvariant(s, es);
    NobodyWaits(Run(s, es));
    QuietEndIsADisconnect(s, es);
    hide *;
  }

  /** After the end only orphans are left undone. */
  lemma NobodyWaits(t: State)
    requires Invariant(t) && t.phase.Closed?
    ensures forall c <- t.status :: (t.status[c].sent && t.status[c].done) <==> c !in Orphans(t)
    ensures t.phase.fatal.None? ==> Orphans(t) == {}
  {
    assert forall c <- t.status :: c in Orphans(t) <==> Lost(t, c);
    assert forall c <- t.status :: !InPlace(t, c);
  }

  ghost predicate DisconnectAnswered(s: State) {
    exists c <- s.status :: c.kind == Disconnect && s.status[c] == Status(true, true, None)
  }

  lemma {:induction false} QuietEndIsADisconnect(s: State, es: seq<Event>)
    requires Invariant(s) && IsRun(s, es)
    requires (s.phase.Leaving? || s.phase.Closed?) && s.phase.fatal.None? ==> DisconnectAnswered(s)
    ensures var t := Run(s, es);
      (t.phase.Leaving? || t.phase.Closed?) && t.phase.fatal.None? ==> DisconnectAnswered(t)
    decreases |es|
  {
    if es != [] {
      var t := Step(s, es[0]);
      StepKeepsInvariant(s, es[0]);
      if (t.phase.Leaving? || t.phase.Closed?) && t.phase.fatal.None? {
        StepAnswersDisconnect(s, es[0]);
      }
      QuietEndIsADisconnect(t, es[1..]);
    }
  }

  lemma StepAnswersDisconnect(s: State, e: Event)
    requires Invariant(s) && Enabled(s, e)
    requires (s.phase.Leaving? || s.phase.Closed?) && s.phase.fatal.None? ==> DisconnectAnswered(s)
    requires var t := Step(s, e); (t.phase.Leaving? || t.phase.Closed?) && t.phase.fatal.None?
    ensures DisconnectAnswered(Step(s, e))
  {
    if DisconnectAnswered(s) {
      var c :| c in s.status && c.kind == Disconnect && s.status[c] == Status(true, true, None);
      StepKeepsKeys(s, e);
      DoneStaysPut(s, e, c);
      hide *;
    } else {
      FirstAnswer(s, e);
    }
  }

  /** The loops are left without an exception only behind a completed disconnect. */
  lemma FirstAnswer(s: State, e: Event)
    requires Placed(s, None) && Recorded(s) && Enabled(s, e)
    requires !((s.phase.Leaving? || s.phase.Closed?) && s.phase.fatal.None?)
    requires var t := Step(s, e); (t.phase.Leaving? || t.phase.Closed?) && t.phase.fatal.None?
    ensures DisconnectAnswered(Step(s, e))
  {
    hide Placed, Recorded, MarkAll;
    PlacedIsKnown(s);
    match e {
      case NextCommand =>
        FirstTaken(s);
        AnswersDispatched(s.(queue := s.queue[1..]), s.queue[0]);
      case InterruptReturns =>
        LetGo(s);
        AnswersDispatched(State(Idle, s.queue, ReleaseParked(SetDone(s.status, s.phase.query), s.phase.parked)),
                          s.phase.disconnect);
      case Wakes =>
        AnswersAtEnd(s);
      case _ =>
    }
  }

  lemma AnswersDispatched(s: State, c: SessionCommand)
    requires Settled(s, Some(c))
    ensures Dispatch(s, c).phase.Leaving? ==> DisconnectAnswered(Dispatch(s, c))
  {
    if c.kind == Disconnect {
      assert Dispatch(s, c).status[c] == Status(true, true, None);
    }
  }

  lemma AnswersAtEnd(s: State)
    requires Placed(s, None) && Recorded(s) && s.phase.Driving?
    requires EndStream(s).phase.Leaving?
    ensures DisconnectAnswered(EndStream(s))
  {
    EndSettles(s);
    PhaseIsFine(s);
    assert s.phase.parked.None? && s.phase.taken.Some?;
    hide Placed, Recorded, Settled, SetDone;
    assert s.queue + [] == s.queue;
    AnswersDispatched(State(Idle, s.queue, SetDone(s.status, s.phase.query)), s.phase.taken.value);
  }

  /** No command is completed twice and no recorded error is overwritten. */
  lemma DoneStaysPut(s: State, e: Event, c: SessionCommand)
    requires Placed(s, None) && Recorded(s) && Enabled(s, e)
    requires c in s.status && s.status[c].done
    ensures Step(s, e).status[c] == s.status[c]
  {
    PlacedIsKnown(s);
    assert !Holds(s.phase, c) && c !in s.queue by { assert !InPlace(s, c); }
    if e.ClientExits? || e.ConnectFails? {
      assert Distinct(s.queue);
      hide MarkAll, Placed, Recorded;
      MarkAllMarks(s.status, s.queue, OrClosed(Step(s, e).phase.fatal));
    } else if e.Wakes? {
      hide Placed, Recorded;
      NotHeldWhenWoken(s, c);
    } else {
      hide Placed, Recorded, MarkAll, Wake;
    }
  }

  lemma NotHeldWhenWoken(s: State, c: SessionCommand)
    requires Known(s) && s.phase.Driving? && c in s.status && !Holds(s.phase, c)
    ensures c in Wake(s).status && Wake(s).status[c] == s.status[c]
  {
  }

  lemma {:induction false} CompletionIsFinal(s: State, es: seq<Event>, c: SessionCommand)
    requires Invariant(s) && IsRun(s, es)
    requires c in s.status && s.status[c].done
    ensures c in Run(s, es).status && Run(s, es).status[c] == s.status[c]
    decreases |es|
  {
    if es != [] {
      StepKeepsInvariant(s, es[0]);
      StepKeepsKeys(s, es[0]);
      DoneStaysPut(s, es[0], c);
      CompletionIsFinal(Step(s, es[0]), es[1..], c);
    }
  }

  // ---------------------------------------------------------------- what each command is told

  /** One entry of the record of a run: an event, with what the coroutine held and what was
      queued when it happened. */
  datatype Moment = Moment(phase: Phase, queue: seq<SessionCommand>, event: Event)

  ghost function Record(s: State, es: seq<Event>): seq<Moment>
    requires IsRun(s, es)
    decreases |es|
  {
    if es == [] then [] else [Moment(s.phase, s.queue, es[0])] + Record(Step(s, es[0]), es[1..])
  }

  /** The message that has arrived and not yet been looked at. */
  function Arrived(h: seq<Moment>): Receive {
    if h == [] then Pending
    else match h[|h| - 1].event
      case Receives(msg) => msg
      case Wakes => Pending
      case QueryAccepted => Pending
      case _ => Arrived(h[..|h| - 1])
  }

  /** The exception that has ended the actor, if any. */
  function Exception(h: seq<Moment>): Option<Error> {
    if h == [] then None
    else
      var before := h[..|h| - 1];
      match h[|h| - 1].event
      case ConnectFails(x) => Some(x)
      case QueryFails(x) => Some(x)
      case InterruptFails(x) => Some(x)
      case Cancelled(x) => Some(x)
      case ClientExits(Some(x)) => Some(x)
      case Wakes =>
        (match Arrived(before)
         case Raised(x) => Some(x)
         case Message(Some(x)) => Some(x)
         case _ => Exception(before))
      case _ => Exception(before)
  }

  /** What a command is told that nobody will serve any more. */
  function Farewell(h: seq<Moment>): Error {
    match Exception(h) case Some(x) => x case None => ActorClosed
  }

  /** After the record `h` the moment `m` completes `c`, with `error`. An exception is told to the
      query whose send or stream raised it and to the interrupt whose own call raised it; a third
      query is told that the session is busy; what is parked or queued when it ends is told so. */
  predicate Completes(h: seq<Moment>, m: Moment, c: SessionCommand, error: Option<Error>) {
    var p := m.phase;
    match m.event
    case Enqueue(d) => c == d && p.Closed? && error == Some(Farewell(h))
    case ConnectFails(x) => c in m.queue && error == Some(x)
    case NextCommand => m.queue != [] && c == m.queue[0] && c.kind != Query && error == None
    case QueryFails(x) => p.Sending? && c == p.query && error == Some(x)
    case Wakes =>
      p.Driving? &&
      (match Arrived(h)
       case Raised(x) => StreamRaises(p, c, error, x)
       case Message(Some(x)) => StreamRaises(p, c, error, x)
       case Ended =>
         error == None && (c == p.query || (p.parked == None && p.taken == Some(c) && c.kind != Query))
       case _ => p.taken == Some(c) && c.kind == Query && p.parked != None && error == Some(SessionBusy))
    case InterruptReturns =>
      if p.Disconnecting? then
        ((c == p.query || c == p.disconnect) && error == None) || (p.parked == Some(c) && error == Some(ActorClosed))
      else p.Interrupting? && c == p.interrupt && error == None
    case InterruptFails(x) =>
      Streaming(p) && (StreamRaises(p, c, error, x) || (p.Interrupting? && c == p.interrupt && error == Some(x)))
    case Cancelled(x) =>
      Streaming(p) && (StreamRaises(p, c, error, x) || (p.Interrupting? && c == p.interrupt && error == None))
    case ClientExits(raised) => c in m.queue && error == Some(if raised.Some? then raised.value else Farewell(h))
    case _ => false
  }

  predicate StreamRaises(p: Phase, c: SessionCommand, error: Option<Error>, x: Error)
    requires Streaming(p)
  {
    (c == p.query && error == Some(x)) || (p.parked == Some(c) && error == Some(ActorClosed))
  }

  ghost predicate CompletedBy(h: seq<Moment>, c: SessionCommand, error: Option<Error>) {
    exists i :: 0 <= i < |h| && Completes(h[..i], h[i], c, error)
  }

  /** The record tells the message waiting and the exception the loops were left with. */
  predicate Tells(h: seq<Moment>, s: State) {
    && (Streaming(s.phase) ==> s.phase.msg == Arrived(h))
    && (if s.phase.Leaving? || s.phase.Closed? then s.phase.fatal == Exception(h) else Exception(h) == None)
  }

  predicate IsToldIn(status: map<SessionCommand, Status>, c: SessionCommand, error: Option<Error>) {
    c in status && status[c] == Status(true, true, error)
  }

  lemma RecordedMoment(h: seq<Moment>, m: Moment)
    ensures Arrived(h + [m]) ==
      match m.event
      case Receives(msg) => msg
      case Wakes => Pending
      case QueryAccepted => Pending
      case _ => Arrived(h)
    ensures Exception(h + [m]) ==
      match m.event
      case ConnectFails(x) => Some(x)
      case QueryFails(x) => Some(x)
      case InterruptFails(x) => Some(x)
      case Cancelled(x) => Some(x)
      case ClientExits(Some(x)) => Some(x)
      case Wakes =>
        (match Arrived(h)
         case Raised(x) => Some(x)
         case Message(Some(x)) => Some(x)
         case _ => Exception(h))
      case _ => Exception(h)
  {
    assert (h + [m])[..|h|] == h;
  }

  lemma StepTells(h: seq<Moment>, s: State, e: Event)
    requires Known(s) && Enabled(s, e) && Tells(h, s)
    ensures Tells(h + [Moment(s.phase, s.queue, e)], Step(s, e))
  {
    RecordedMoment(h, Moment(s.phase, s.queue, e));
    hide Arrived, Exception, Mark, MarkAll, SetDone, ReleaseParked;
  }

  /** A command in some place has not been told anything. */
  lemma NotToldYet(s: State, c: SessionCommand)
    requires Placed(s, None) && Recorded(s) && InPlace(s, c)
    ensures c in s.status && !s.status[c].done && s.status[c].error == None
  {
  }

  lemma MarkTells(status: map<SessionCommand, Status>, d: SessionCommand, told: Option<Error>, c: SessionCommand,
      error: Option<Error>)
    requires d in status && !status[d].done && status[d].error == None
    ensures IsToldIn(Mark(status, d, told), c, error) <==> IsToldIn(status, c, error) || (c == d && error == told)
  {
  }

  lemma FinishAnswers(s: State, fatal: Option<Error>, c: SessionCommand, error: Option<Error>)
    requires Placed(s, None) && Recorded(s)
    ensures Known(s)
    ensures IsToldIn(Finish(s, fatal).status, c, error) <==>
      IsToldIn(s.status, c, error) || (c in s.queue && error == Some(OrClosed(fatal)))
  {
    PlacedIsKnown(s);
    if c in s.queue {
      NotToldYet(s, c);
    }
    assert Distinct(s.queue);
    hide Placed, Recorded, MarkAll;
    MarkAllMarks(s.status, s.queue, OrClosed(fatal));
  }

  lemma DispatchAnswers(s: State, d: SessionCommand, c: SessionCommand, error: Option<Error>)
    requires d in s.status && !s.status[d].done && s.status[d].error == None
    ensures IsToldIn(Dispatch(s, d).status, c, error) <==>
      IsToldIn(s.status, c, error) || (c == d && d.kind != Query && error == None)
  {
    hide IsToldIn, Mark;
    MarkTells(s.status, d, None, c, error);
  }

  /** The stream raises: the active query gets the exception, the parked one the sentinel. */
  lemma FailAnswers(s: State, x: Error, c: SessionCommand, error: Option<Error>)
    requires Placed(s, None) && Recorded(s) && Streaming(s.phase)
    ensures Known(s)
    ensures IsToldIn(FailStream(s, x).status, c, error) <==>
      IsToldIn(s.status, c, error) || StreamRaises(s.phase, c, error, x)
  {
    PlacedIsKnown(s);
    PhaseIsFine(s);
    NotToldYet(s, s.phase.query);
    var parked := s.phase.parked;
    if parked.Some? {
      NotToldYet(s, parked.value);
      MarkTells(s.status, parked.value, Some(ActorClosed), c, error);
    }
    hide Placed, Recorded, IsToldIn;
    MarkTells(ReleaseParked(s.status, parked), s.phase.query, Some(x), c, error);
  }

  lemma StepAnswers(h: seq<Moment>, s: State, e: Event, c: SessionCommand, error: Option<Error>)
    requires Placed(s, None) && Recorded(s) && Enabled(s, e) && Tells(h, s)
    ensures IsToldIn(Step(s, e).status, c, error) <==>
      IsToldIn(s.status, c, error) || Completes(h, Moment(s.phase, s.queue, e), c, error)
  {
    PlacedIsKnown(s);
    match e
    case ConnectFails(x) => hide *; FinishTold(h, s, e, c, error);
    case ClientExits(_) => hide *; FinishTold(h, s, e, c, error);
    case Wakes => hide *; WakeTold(h, s, c, error);
    case InterruptReturns => hide *; InterruptTold(h, s, c, error);
    case InterruptFails(_) => hide *; FailTold(h, s, e, c, error);
    case Cancelled(_) => hide *; FailTold(h, s, e, c, error);
    case _ => hide *; SimplyTold(h, s, e, c, error);
  }

  lemma FinishTold(h: seq<Moment>, s: State, e: Event, c: SessionCommand, error: Option<Error>)
    requires Placed(s, None) && Recorded(s) && Enabled(s, e) && Tells(h, s) && (e.ConnectFails? || e.ClientExits?)
    ensures IsToldIn(Step(s, e).status, c, error) <==>
      IsToldIn(s.status, c, error) || Completes(h, Moment(s.phase, s.queue, e), c, error)
  {
    hide Placed, Recorded, IsToldIn, Exception, Arrived, MarkAll;
    FinishAnswers(s, if e.ConnectFails? then Some(e.error) else if e.raised.Some? then e.raised else s.phase.fatal,
                  c, error);
  }

  lemma SimplyTold(h: seq<Moment>, s: State, e: Event, c: SessionCommand, error: Option<Error>)
    requires Placed(s, None) && Recorded(s) && Enabled(s, e) && Tells(h, s)
    requires e.Enqueue? || e.Connected? || e.NextCommand? || e.QueryAccepted? || e.QueryFails? || e.Receives?
      || e.TakesCommand?
    ensures IsToldIn(Step(s, e).status, c, error) <==>
      IsToldIn(s.status, c, error) || Completes(h, Moment(s.phase, s.queue, e), c, error)
  {
    PlacedIsKnown(s);
    if e.NextCommand? {
      assert s.queue[0] in s.queue;
      NotToldYet(s, s.queue[0]);
      DispatchAnswers(s.(queue := s.queue[1..]), s.queue[0], c, error);
    } else if s.phase.Sending? {
      NotToldYet(s, s.phase.query);
    }
    hide Placed, Recorded, Exception, Arrived, Dispatch;
  }

  lemma WakeTold(h: seq<Moment>, s: State, c: SessionCommand, error: Option<Error>)
    requires Placed(s, None) && Recorded(s) && Enabled(s, Wakes) && Tells(h, s)
    ensures IsToldIn(Step(s, Wakes).status, c, error) <==>
      IsToldIn(s.status, c, error) || Completes(h, Moment(s.phase, s.queue, Wakes), c, error)
  {
    PlacedIsKnown(s);
    hide Placed, Recorded, Exception, Arrived, FailStream, EndStream, LookAtCommand, IsToldIn, StreamRaises;
    match s.phase.msg
    case Raised(x) => FailAnswers(s, x, c, error);
    case Message(Some(x)) => FailAnswers(s, x, c, error);
    case Ended => EndAnswers(s, c, error);
    case Message(None) => MessageHandled(s); LookAnswers(s.(phase := WithMsg(s.phase, Pending)), c, error);
    case Pending => LookAnswers(s, c, error);
  }

  lemma EndAnswers(s: State, c: SessionCommand, error: Option<Error>)
    requires Placed(s, None) && Recorded(s) && s.phase.Driving?
    ensures Known(s)
    ensures var p := s.phase;
      IsToldIn(EndStream(s).status, c, error) <==>
        || IsToldIn(s.status, c, error)
        || (error == None && (c == p.query || (p.parked == None && p.taken == Some(c) && c.kind != Query)))
  {
    PlacedIsKnown(s);
    PhaseIsFine(s);
    var p := s.phase;
    QueryIsSent(s);
    var status := SetDone(s.status, p.query);
    assert IsToldIn(status, c, error) <==> IsToldIn(s.status, c, error) || (c == p.query && error == None);
    var hand := if p.parked.Some? then p.parked else p.taken;
    if hand.Some? {
      NotToldYet(s, hand.value);
      var back := if p.parked.Some? && p.taken.Some? then [p.taken.value] else [];
      assert s.queue + [] == s.queue;
      hide Placed, Recorded, IsToldIn;
      DispatchAnswers(State(Idle, s.queue + back, status), hand.value, c, error);
    }
  }

  lemma QueryIsSent(s: State)
    requires Placed(s, None) && Recorded(s) && Streaming(s.phase)
    ensures s.phase.query in s.status && s.status[s.phase.query] == Status(true, false, None)
  {
    NotToldYet(s, s.phase.query);
  }

  lemma LookAnswers(s: State, c: SessionCommand, error: Option<Error>)
    requires Placed(s, None) && Recorded(s) && s.phase.Driving?
    ensures Known(s)
    ensures var p := s.phase;
      IsToldIn(LookAtCommand(s).status, c, error) <==>
        || IsToldIn(s.status, c, error)
        || (p.taken == Some(c) && c.kind == Query && p.parked != None && error == Some(SessionBusy))
  {
    PlacedIsKnown(s);
    if s.phase.taken.Some? {
      NotToldYet(s, s.phase.taken.value);
      MarkTells(s.status, s.phase.taken.value, Some(SessionBusy), c, error);
    }
    hide Placed, Recorded, IsToldIn, Mark;
  }

  lemma InterruptTold(h: seq<Moment>, s: State, c: SessionCommand, error: Option<Error>)
    requires Placed(s, None) && Recorded(s) && Enabled(s, InterruptReturns) && Tells(h, s)
    ensures IsToldIn(Step(s, InterruptReturns).status, c, error) <==>
      IsToldIn(s.status, c, error) || Completes(h, Moment(s.phase, s.queue, InterruptReturns), c, error)
  {
    PlacedIsKnown(s);
    PhaseIsFine(s);
    var p := s.phase;
    if p.Interrupting? {
      NotToldYet(s, p.interrupt);
      MarkTells(s.status, p.interrupt, None, c, error);
      hide Placed, Recorded, Exception, Arrived, IsToldIn, Mark;
    } else {
      hide Placed, Recorded, Exception, Arrived, IsToldIn, Mark, Dispatch, ReleaseParked, SetDone;
      LetGoTold(s, c, error);
    }
  }

  lemma LetGoTold(s: State, c: SessionCommand, error: Option<Error>)
    requires Placed(s, None) && Recorded(s) && s.phase.Disconnecting?
    ensures Known(s)
    ensures var p := s.phase; var status := ReleaseParked(SetDone(s.status, p.query), p.parked);
      && p.disconnect in status
      && (IsToldIn(Dispatch(State(Idle, s.queue, status), p.disconnect).status, c, error) <==>
            || IsToldIn(s.status, c, error)
            || ((c == p.query || c == p.disconnect) && error == None)
            || (p.parked == Some(c) && error == Some(ActorClosed)))
  {
    PlacedIsKnown(s);
    PhaseIsFine(s);
    var p := s.phase;
    QueryIsSent(s);
    NotToldYet(s, p.disconnect);
    var done := SetDone(s.status, p.query);
    assert IsToldIn(done, c, error) <==> IsToldIn(s.status, c, error) || (c == p.query && error == None);
    if p.parked.Some? {
      NotToldYet(s, p.parked.value);
      MarkTells(done, p.parked.value, Some(ActorClosed), c, error);
    }
    hide Placed, Recorded, IsToldIn;
    DispatchAnswers(State(Idle, s.queue, ReleaseParked(done, p.parked)), p.disconnect, c, error);
  }

  lemma FailTold(h: seq<Moment>, s: State, e: Event, c: SessionCommand, error: Option<Error>)
    requires Placed(s, None) && Recorded(s) && Enabled(s, e) && Tells(h, s) && (e.InterruptFails? || e.Cancelled?)
    ensures IsToldIn(Step(s, e).status, c, error) <==>
      IsToldIn(s.status, c, error) || Completes(h, Moment(s.phase, s.queue, e), c, error)
  {
    PlacedIsKnown(s);
    PhaseIsFine(s);
    if s.phase.Interrupting? {
      var caught := if e.InterruptFails? then Some(e.error) else None;
      var t := FailStream(s, e.error);
      FailedStatus(s, e.error);
      NotToldYet(s, s.phase.interrupt);
      hide Placed, Recorded, Exception, Arrived, IsToldIn, FailStream, Mark, FailInterrupt;
      MarksCommute(s, caught, e.error);
      FailAnswers(s, e.error, c, error);
      MarkTells(t.status, s.phase.interrupt, caught, c, error);
      assert Step(s, e) == FailInterrupt(s, caught, e.error);
    } else if Streaming(s.phase) {
      hide Placed, Recorded, Exception, Arrived, IsToldIn, FailStream, Mark;
      FailAnswers(s, e.error, c, error);
    } else {
      hide Placed, Recorded, Exception, Arrived, IsToldIn;
    }
  }

  lemma OneMoreMoment(h: seq<Moment>, m: Moment, c: SessionCommand, error: Option<Error>)
    ensures CompletedBy(h + [m], c, error) <==> CompletedBy(h, c, error) || Completes(h, m, c, error)
  {
    hide Completes;
    var longer := h + [m];
    assert longer[..|h|] == h && longer[|h|] == m;
    assert forall i :: 0 <= i < |h| ==> longer[..i] == h[..i] && longer[i] == h[i];
  }

  lemma {:induction false} AnsweredAlong(h: seq<Moment>, s: State, es: seq<Event>, c: SessionCommand,
      error: Option<Error>)
    requires Invariant(s) && IsRun(s, es) && Tells(h, s)
    requires IsToldIn(s.status, c, error) <==> CompletedBy(h, c, error)
    ensures IsToldIn(Run(s, es).status, c, error) <==> CompletedBy(h + Record(s, es), c, error)
    decreases |es|
  {
    if es == [] {
      assert h + [] == h;
    } else {
      var m := Moment(s.phase, s.queue, es[0]);
      StepKeepsInvariant(s, es[0]);
      assert Placed(s, None) && Recorded(s);
      var rest := Record(Step(s, es[0]), es[1..]);
      assert h + ([m] + rest) == h + [m] + rest;
      hide Invariant, Placed, Recorded, Step, Enabled, Known, Tells, IsToldIn, CompletedBy, Completes;
      StepTells(h, s, es[0]);
      StepAnswers(h, s, es[0], c, error);
      OneMoreMoment(h, m, c, error);
      AnsweredAlong(h + [m], Step(s, es[0]), es[1..], c, error);
    }
  }

  lemma {:induction false} TellsAlong(h: seq<Moment>, s: State, es: seq<Event>)
    requires IsRun(s, es) && Tells(h, s)
    ensures Tells(h + Record(s, es), Run(s, es))
    decreases |es|
  {
    if es == [] {
      assert h + [] == h;
    } else {
      var m := Moment(s.phase, s.queue, es[0]);
      var rest := Record(Step(s, es[0]), es[1..]);
      assert h + ([m] + rest) == h + [m] + rest;
      hide Step, Enabled, Known, Tells;
      StepTells(h, s, es[0]);
      TellsAlong(h + [m], Step(s, es[0]), es[1..]);
    }
  }

  /** On every run, a command has been completed with an error, or without one, exactly if some
      moment of the record completes it so. */
  lemma EveryCommandIsToldTheTruth(s: State, es: seq<Event>)
    requires Initial(s) && IsRun(s, es)
    ensures forall c: SessionCommand, error: Option<Error> :: c in Run(s, es).status ==>
      (Run(s, es).status[c] == Status(true, true, error) <==> CompletedBy(Record(s, es), c, error))
    ensures forall c <- Run(s, es).status :: Run(s, es).status[c].done ==> Run(s, es).status[c].sent
    ensures Run(s, es).phase.Closed? ==> Run(s, es).phase.fatal == Exception(Record(s, es))
  {
    InitialIsInvariant();
    RunKeepsInvariant(s, es);
    assert Recorded(Run(s, es));
    assert [] + Record(s, es) == Record(s, es);
    TellsAlong([], s, es);
    forall c: SessionCommand, error: Option<Error> | c in Run(s, es).status
      ensures Run(s, es).status[c] == Status(true, true, error) <==> CompletedBy(Record(s, es), c, error)
    {
      AnsweredAlong([], s, es, c, error);
    }
  }

  /** `client.query` is called only while no stream is open, and every query sent before it is done. */
  lemma QueriesNeverOverlap(s: State, e: Event)
    requires Invariant(s) && Enabled(s, e)
    requires !s.phase.Sending? && Step(s, e).phase.Sending?
    ensures s.phase.Idle? || (s.phase.Driving? && s.phase.msg.Ended?)
    ensures forall c <- Step(s, e).status :: Step(s, e).status[c].sent ==> Step(s, e).status[c].done
  {
    StepKeepsBooks(s, e);
  }

  /** When the stream ends, the parked query is the next command run. */
  lemma ParkedQueryRunsNext(s: State)
    requires Invariant(s) && s.phase.Driving? && s.phase.msg.Ended? && s.phase.parked.Some?
    ensures Step(s, Wakes).phase == Sending(s.phase.parked.value)
    ensures Step(s, Wakes).status[s.phase.query].done
  {
  }

  /** The commands waiting for their turn, the one `cmd_task` has taken first. */
  function WaitingLine(s: State): seq<SessionCommand> {
    (if s.phase.Driving? && s.phase.taken.Some? then [s.phase.taken.value] else []) + s.queue
  }

  predicate PutsBack(s: State, e: Event) {
    e.Wakes? && s.phase.Driving? && s.phase.msg.Ended? && s.phase.parked.Some? && s.phase.taken.Some?
  }

  /** Waiting commands are served in order on every step but one: when the stream ends with
      one query parked and another command taken, the taken one goes behind the whole queue. */
  lemma OrderOfService(s: State, e: Event)
    requires Invariant(s) && Enabled(s, e)
    ensures var before := WaitingLine(s); var after := WaitingLine(Step(s, e));
      if PutsBack(s, e) then after == before[1..] + [before[0]]
      else if e.Enqueue? then after == before + if s.phase.Closed? then [] else [e.cmd]
      else if e.ClientExits? || e.ConnectFails? then after == []
      else after == before || (before != [] && after == before[1..])
  {
    hide Placed, Recorded, Mark, MarkAll, SetDone, ReleaseParked, Wake;
    PlacedIsKnown(s);
    if e.Wakes? {
      OrderWhenWoken(s);
    } else if s.queue != [] {
      assert [s.queue[0]] + s.queue[1..] == s.queue;
    }
  }

  lemma OrderWhenWoken(s: State)
    requires Known(s) && Enabled(s, Wakes)
    ensures var before := WaitingLine(s); var after := WaitingLine(Step(s, Wakes));
      if PutsBack(s, Wakes) then after == before[1..] + [before[0]]
      else after == before || (before != [] && after == before[1..])
  {
    hide Mark, ReleaseParked, WaitingLine, Dispatch;
    LineOf(s);
    LineOf(Step(s, Wakes));
    match (s.phase.msg, s.phase.parked, s.phase.taken)
    case (Ended, Some(p), Some(c)) => DispatchLine(EndedWith(s, [c]), p);
    case (Ended, Some(p), None) => DispatchLine(EndedWith(s, []), p);
    case (Ended, None, Some(c)) => DispatchLine(EndedWith(s, []), c);
    case _ =>
  }

  /** The state in which the command loop goes on after the stream. */
  function EndedWith(s: State, back: seq<SessionCommand>): State
    requires Known(s) && s.phase.Driving?
  {
    s.(phase := Idle, status := SetDone(s.status, s.phase.query),
       queue := if back == [] then s.queue else s.queue + back)
  }

  lemma DispatchLine(s: State, c: SessionCommand)
    requires c in s.status
    ensures Dispatch(s, c).queue == s.queue && !Dispatch(s, c).phase.Driving?
  {
  }

  lemma LineOf(s: State)
    ensures var line := WaitingLine(s);
      if s.phase.Driving? && s.phase.taken.Some?
      then line != [] && line[0] == s.phase.taken.value && line[1..] == s.queue
      else line == s.queue
  {
  }

  lemma RunAfterOne(s: State, e: Event, es: seq<Event>)
    requires Known(s) && Enabled(s, e) && IsRun(Step(s, e), es)
    ensures IsRun(s, [e] + es) && Run(s, [e] + es) == Run(Step(s, e), es)
    ensures DroppedIn(s, [e] + es) == Dropped(s, e) + DroppedIn(Step(s, e), es)
  {
    assert ([e] + es)[1..] == es;
  }

  lemma {:induction false} RunAfterRun(s: State, es: seq<Event>, more: seq<Event>)
    requires IsRun(s, es) && IsRun(Run(s, es), more)
    ensures IsRun(s, es + more) && Run(s, es + more) == Run(Run(s, es), more)
    ensures DroppedIn(s, es + more) == DroppedIn(s, es) + DroppedIn(Run(s, es), more)
    decreases |es|
  {
    hide Step, Dropped, Enabled, Known;
    if es == [] {
      assert es + more == more;
    } else {
      assert (es + more)[1..] == es[1..] + more;
      RunAfterRun(Step(s, es[0]), es[1..], more);
    }
  }

  /** The first query of a session is on its way and its stream is open. */
  lemma FirstQuery(q: SessionCommand) returns (es: seq<Event>)
    requires q.kind == Query
    ensures var s := State(Connecting, [], map[]);
      && IsRun(s, es) && DroppedIn(s, es) == {}
      && Run(s, es) == State(Driving(q, None, Pending, None), [], map[q := Status(true, false, None)])
  {
    var s0 := State(Connecting, [], map[]);
    var s1 := Step(s0, Connected);
    var s2 := Step(s1, Event.Enqueue(q));
    assert s2 == State(Idle, [q], map[q := FRESH]);
    var s3 := Step(s2, NextCommand);
    assert s3 == State(Sending(q), [], map[q := FRESH]);
    var s4 := Step(s3, QueryAccepted);
    assert s4 == State(Driving(q, None, Pending, None), [], map[q := Status(true, false, None)]);
    assert Dropped(s0, Connected) + (Dropped(s1, Event.Enqueue(q)) + (Dropped(s2, NextCommand) +
      (Dropped(s3, QueryAccepted) + {}))) == {};
    hide Step, Known, Enabled, Dropped;
    RunAfterOne(s3, QueryAccepted, []);
    RunAfterOne(s2, NextCommand, [QueryAccepted] + []);
    RunAfterOne(s1, Event.Enqueue(q), [NextCommand] + ([QueryAccepted] + []));
    RunAfterOne(s0, Connected, [Event.Enqueue(q)] + ([NextCommand] + ([QueryAccepted] + [])));
    es := [Connected] + ([Event.Enqueue(q)] + ([NextCommand] + ([QueryAccepted] + [])));
  }

  /** With the stream of `q` open, `cmd_task` takes `c` and then the stream raises. */
  lemma TakeAndRaise(s: State, q: SessionCommand, c: SessionCommand, error: Error) returns (es: seq<Event>)
    requires s == State(Driving(q, None, Pending, None), [], map[q := Status(true, false, None)]) && c != q
    ensures IsRun(s, es) && DroppedIn(s, es) == {c} && Run(s, es).phase == Closed(Some(error))
    ensures c in Run(s, es).status && Run(s, es).status[c] == FRESH
  {
    hide Step, Enabled, Known, Dropped;
    var taken := TakeOne(s, q, c);
    var raised := RaiseAndExit(Run(s, taken), q, c, error);
    RunAfterRun(s, taken, raised);
    es := taken + raised;
  }

  lemma TakeOne(s: State, q: SessionCommand, c: SessionCommand) returns (es: seq<Event>)
    requires s == State(Driving(q, None, Pending, None), [], map[q := Status(true, false, None)]) && c != q
    ensures IsRun(s, es) && DroppedIn(s, es) == {}
    ensures Run(s, es) ==
      State(Driving(q, None, Pending, Some(c)), [], map[q := Status(true, false, None), c := FRESH])
  {
    var s1 := Step(s, Event.Enqueue(c));
    assert s1 == State(s.phase, [c], map[q := Status(true, false, None), c := FRESH]);
    RunAfterOne(s1, TakesCommand, []);
    RunAfterOne(s, Event.Enqueue(c), [TakesCommand] + []);
    es := [Event.Enqueue(c)] + ([TakesCommand] + []);
  }

  lemma RaiseAndExit(s: State, q: SessionCommand, c: SessionCommand, error: Error) returns (es: seq<Event>)
    requires s == State(Driving(q, None, Pending, Some(c)), [], map[q := Status(true, false, None), c := FRESH])
    requires c != q
    ensures IsRun(s, es) && DroppedIn(s, es) == {c} && Run(s, es).phase == Closed(Some(error))
    ensures c in Run(s, es).status && Run(s, es).status[c] == FRESH
  {
    var s1 := Step(s, Receives(Raised(error)));
    assert s1 == s.(phase := Driving(q, None, Raised(error), Some(c)));
    var s2 := Step(s1, Wakes);
    assert s2 == s1.(phase := Leaving(Some(error)), status := Mark(s1.status, q, Some(error)));
    RunAfterOne(s2, ClientExits(None), []);
    RunAfterOne(s1, Wakes, [ClientExits(None)] + []);
    RunAfterOne(s, Receives(Raised(error)), [Wakes] + ([ClientExits(None)] + []));
    es := [Receives(Raised(error))] + ([Wakes] + ([ClientExits(None)] + []));
  }

  /** A command does get dropped: `cmd_task` has taken it when the stream raises, and nobody
      completes it, not even the end of the actor. */
  lemma FailureDropsTheTakenCommand(q: SessionCommand, c: SessionCommand, error: Error) returns (es: seq<Event>)
    requires q.kind == Query && c != q
    ensures var s := State(Connecting, [], map[]);
      && Initial(s) && IsRun(s, es) && DroppedIn(s, es) == {c}
      && Run(s, es).phase == Closed(Some(error))
      && c in Run(s, es).status && Run(s, es).status[c] == FRESH
  {
    hide Step, Known, Enabled, Dropped;
    var s := State(Connecting, [], map[]);
    var first := FirstQuery(q);
    var rest := TakeAndRaise(Run(s, first), q, c, error);
    RunAfterRun(s, first, rest);
    es := first + rest;
  }

  /** While a query is parked, `first` is ahead of `second` in the queue, and behind it when
      the parked query starts. */
  lemma TakenCommandGoesBack(s: State, q: SessionCommand, p: SessionCommand, first: SessionCommand,
      second: SessionCommand)
    requires s.phase == Driving(q, Some(p), Pending, None) && s.queue == [first, second]
    requires Invariant(s)
    ensures var es := [TakesCommand] + ([Receives(Ended)] + [Wakes]);
      && IsRun(s, es)
      && Run(s, es).phase == Sending(p) && Run(s, es).queue == [second, first]
  {
    PlacedIsKnown(s);
    assert p.kind == Query;
    hide Invariant, Placed, Recorded;
    var s1 := Step(s, TakesCommand);
    assert s1 == s.(phase := Driving(q, Some(p), Pending, Some(first)), queue := [second]);
    var s2 := Step(s1, Receives(Ended));
    EndPutsBack(s2, p, first);
    RunAfterOne(s2, Wakes, []);
    assert [Wakes] + [] == [Wakes];
    RunAfterOne(s1, Receives(Ended), [Wakes]);
    RunAfterOne(s, TakesCommand, [Receives(Ended)] + [Wakes]);
  }

  lemma EndPutsBack(s: State, p: SessionCommand, first: SessionCommand)
    requires Known(s) && s.phase.Driving? && s.phase.msg.Ended?
    requires s.phase.parked == Some(p) && s.phase.taken == Some(first) && p.kind == Query
    ensures Step(s, Wakes).phase == Sending(p) && Step(s, Wakes).queue == s.queue + [first]
  {
  }

  /** With the stream of `q` open, `p` is parked and two more commands arrive. */
  lemma ParkAndWait(s: State, q: SessionCommand, p: SessionCommand, first: SessionCommand, second: SessionCommand)
    returns (es: seq<Event>)
    requires s == State(Driving(q, None, Pending, None), [], map[q := Status(true, false, None)])
    requires p.kind == Query && q != p && first !in {q, p} && second !in {q, p, first}
    ensures es == [Event.Enqueue(p)] + ([TakesCommand] + ([Wakes] +
      ([Event.Enqueue(first)] + ([Event.Enqueue(second)] + []))))
    ensures IsRun(s, es)
    ensures Run(s, es).phase == Driving(q, Some(p), Pending, None) && Run(s, es).queue == [first, second]
  {
    var s1 := Step(s, Event.Enqueue(p));
    assert s1 == State(s.phase, [p], map[q := Status(true, false, None), p := FRESH]);
    var s2 := Step(s1, TakesCommand);
    assert s2 == s1.(phase := Driving(q, None, Pending, Some(p)), queue := []);
    var s3 := Step(s2, Wakes);
    assert s3 == s2.(phase := Driving(q, Some(p), Pending, None));
    var s4 := Step(s3, Event.Enqueue(first));
    assert s4.queue == [first] && s4.phase == s3.phase && s4.status.Keys == {q, p, first};
    var s5 := Step(s4, Event.Enqueue(second));
    assert s5.queue == [first, second];
    RunAfterOne(s4, Event.Enqueue(second), []);
    var tail := [Event.Enqueue(second)] + [];
    RunAfterOne(s3, Event.Enqueue(first), tail);
    tail := [Event.Enqueue(first)] + tail;
    RunAfterOne(s2, Wakes, tail);
    tail := [Wakes] + tail;
    RunAfterOne(s1, TakesCommand, tail);
    tail := [TakesCommand] + tail;
    RunAfterOne(s, Event.Enqueue(p), tail);
    es := [Event.Enqueue(p)] + tail;
  }

  /** So a command can be overtaken by one enqueued after it, on a run from the start. */
  lemma LaterCommandOvertakes(q: SessionCommand, p: SessionCommand, first: SessionCommand, second: SessionCommand)
    returns (before: seq<Event>, after: seq<Event>)
    requires q.kind == Query && p.kind == Query && q != p && first !in {q, p} && second !in {q, p, first}
    ensures var s := State(Connecting, [], map[]);
      && Initial(s) && IsRun(s, before) && IsRun(s, before + after)
      && Run(s, before).queue == [first, second]
      && Run(s, before + after).queue == [second, first] && Run(s, before + after).phase == Sending(p)
  {
    hide Step, Known, Enabled, Dropped, Invariant;
    var s := State(Connecting, [], map[]);
    var start := FirstQuery(q);
    var parked := ParkAndWait(Run(s, start), q, p, first, second);
    RunAfterRun(s, start, parked);
    before := start + parked;
    InitialIsInvariant();
    RunKeepsInvariant(s, before);
    TakenCommandGoesBack(Run(s, before), q, p, first, second);
    after := [TakesCommand] + ([Receives(Ended)] + [Wakes]);
    RunAfterRun(s, before, after);
  }

  lemma InitialIsInvariant()
    ensures Invariant(State(Connecting, [], map[]))
  {
    assert Orphans(State(Connecting, [], map[])) == {};
  }

  // ---------------------------------------------------------------- the code

  /** The actor. `phase` stands for the suspended coroutine; each method is the code that runs
      when the operation awaited there finishes, up to the next `await`. */
  class SessionActor {
    var phase: Phase
    var queue: seq<SessionCommand>
    ghost var commands: set<SessionCommand>  // every command ever given to this actor

    constructor ()
      ensures Initial(View())
    {
      phase := Connecting;
      queue := [];
      commands := {};
    }

    ghost function View(): State
      reads this, commands
    {
      State(phase, queue, Flags())
    }

    ghost function Flags(): map<SessionCommand, Status>
      reads this`commands, commands
    {
      map c | c in commands :: c.View()
    }

    method Enqueue(cmd: SessionCommand)
      requires Known(View()) && cmd !in commands && cmd.View() == FRESH
      modifies this, cmd
      ensures View() == Step(old(View()), Event.Enqueue(cmd))
      ensures commands == old(commands) + {cmd}
    {
      commands := commands + {cmd};
      if phase.Closed? {
        cmd.Complete(Some(OrClosed(phase.fatal)));
      } else {
        queue := queue + [cmd];
      }
      assert View().status == Step(old(View()), Event.Enqueue(cmd)).status;
    }

    /** Completes whatever is left in the queue, in order. */
    method DrainPendingCommands(error: Error)
      requires forall c <- queue :: c in commands
      modifies this`queue, commands
      ensures queue == []
      ensures Flags() == MarkAll(old(Flags()), old(queue), error)
    {
      ghost var cs := queue;
      ghost var status := Flags();
      while queue != []
        invariant forall c <- cs :: c in status
        invariant forall c <- queue :: c in commands
        invariant MarkAll(Flags(), queue, error) == MarkAll(status, cs, error)
        decreases |queue|
      {
        CompleteHead(error);
      }
    }

    /** One turn of the draining loop. */
    method CompleteHead(error: Error)
      requires queue != [] && forall c <- queue :: c in commands
      modifies this`queue, commands
      ensures queue == old(queue)[1..]
      ensures Flags() == if old(queue[0].done) then old(Flags()) else Mark(old(Flags()), old(queue)[0], Some(error))
    {
      var cmd := queue[0];
      assert cmd in queue;
      queue := queue[1..];
      if !cmd.done {
        cmd.Complete(Some(error));
      }
    }

    /** `connect` has finished, well or badly. */
    method ConnectReturns(raised: Option<Error>)
      requires Known(View()) && phase.Connecting?
      modifies this`phase, this`queue, commands
      ensures View() == Step(old(View()), if raised.Some? then ConnectFails(raised.value) else Connected)
    {
      if raised.Some? {
        DrainPendingCommands(raised.value);
        phase := Closed(raised);
      } else {
        phase := Idle;
      }
    }

    /** The body of the command loop for one command. */
    method Handle(cmd: SessionCommand)
      requires cmd in commands
      modifies this`phase, commands
      ensures View() == Dispatch(old(View()), cmd)
    {
      match cmd.kind {
        case Disconnect =>
          cmd.Complete(None);
          phase := Leaving(None);
        case Query =>
          phase := Sending(cmd);
        case Interrupt =>
          cmd.Complete(None);
          phase := Idle;
      }
      assert View().status == Dispatch(old(View()), cmd).status;
    }

    method GetCommand()
      requires Known(View()) && phase.Idle? && queue != []
      modifies this`phase, this`queue, commands
      ensures View() == Step(old(View()), NextCommand)
    {
      var cmd := queue[0];
      assert cmd in queue;
      queue := queue[1..];
      Handle(cmd);
    }

    /** `client.query` has returned or raised. */
    method QueryReturns(raised: Option<Error>)
      requires Known(View()) && phase.Sending?
      modifies this`phase, commands
      ensures View() == Step(old(View()), if raised.Some? then QueryFails(raised.value) else QueryAccepted)
    {
      var query := phase.query;
      if raised.Some? {
        query.Complete(raised);
        phase := Leaving(raised);
      } else {
        query.sent := true;
        phase := Driving(query, None, Pending, None);
      }
      assert View().status ==
        Step(old(View()), if raised.Some? then QueryFails(raised.value) else QueryAccepted).status;
    }

    /** `msg_task` finishes. */
    method MessageArrives(msg: Receive)
      requires Known(View()) && Enabled(View(), Receives(msg))
      modifies this`phase
      ensures View() == Step(old(View()), Receives(msg))
    {
      phase := WithMsg(phase, msg);
    }

    /** `cmd_task` finishes. */
    method CommandArrives()
      requires Known(View()) && Enabled(View(), TakesCommand)
      modifies this`phase, this`queue
      ensures View() == Step(old(View()), TakesCommand)
    {
      phase := phase.(taken := Some(queue[0]));
      queue := queue[1..];
    }

    /** The `finally` clause of the stream loop. */
    method Release(parked: Option<SessionCommand>)
      requires parked.Some? ==> parked.value in commands
      modifies commands
      ensures View().status == ReleaseParked(old(View().status), parked)
    {
      if parked.Some? && !parked.value.done {
        parked.value.Complete(Some(OrClosed(parked.value.error)));
      }
      assert View().status == ReleaseParked(old(View().status), parked);
    }

    /** An exception leaves the stream loop and then the command loop. */
    method Fail(error: Error)
      requires Known(View()) && Streaming(phase)
      modifies this`phase, commands
      ensures View() == FailStream(old(View()), error)
    {
      Release(phase.parked);
      CompleteOne(phase.query, Some(error));
      phase := Leaving(Some(error));
    }

    method CompleteOne(cmd: SessionCommand, error: Option<Error>)
      requires cmd in commands
      modifies cmd
      ensures Flags() == Mark(old(Flags()), cmd, error)
    {
      cmd.Complete(error);
    }

    method MarkDone(query: SessionCommand)
      requires query in commands
      modifies query
      ensures Flags() == SetDone(old(Flags()), query)
    {
      query.done := true;
    }

    /** The stream is exhausted: hand over to the parked query, or to the command taken. */
    method StreamEnds()
      requires Known(View()) && phase.Driving?
      modifies this`phase, this`queue, commands
      ensures View() == EndStream(old(View()))
    {
      hide SetDone, Dispatch;
      var Driving(query, parked, _, taken) := phase;
      MarkDone(query);
      phase := Idle;
      assert View() == State(Idle, queue, SetDone(old(View()).status, query));
      if parked.Some? {
        if taken.Some? {
          queue := queue + [taken.value];
        }
        Handle(parked.value);
      } else if taken.Some? {
        Handle(taken.value);
      }
    }

    /** The loop body, for whatever is finished when `asyncio.wait` returns. */
    method WaitReturns()
      requires Known(View()) && Enabled(View(), Wakes)
      modifies this`phase, this`queue, commands
      ensures View() == Step(old(View()), Wakes)
    {
      hide FailStream, EndStream, LookAtCommand;
      match phase.msg {
        case Raised(e) => Fail(e); return;
        case Message(Some(e)) => Fail(e); return;
        case Ended => StreamEnds(); return;
        case Message(None) => phase := WithMsg(phase, Pending);
        case Pending =>
      }
      LookAtTaken();
    }

    /** The rest of the loop body: what the finished `cmd_task` has taken. */
    method LookAtTaken()
      requires Known(View()) && phase.Driving?
      modifies this`phase, commands
      ensures View() == LookAtCommand(old(View()))
    {
      if phase.taken.Some? {
        var cmd := phase.taken.value;
        match cmd.kind {
          case Interrupt =>
            phase := Interrupting(phase.query, phase.parked, phase.msg, cmd);
          case Disconnect =>
            phase := Disconnecting(phase.query, phase.parked, phase.msg, cmd);
          case Query =>
            if phase.parked.Some? {
              CompleteOne(cmd, Some(SessionBusy));
              phase := phase.(taken := None);
            } else {
              phase := phase.(parked := Some(cmd), taken := None);
            }
        }
      }
    }

    /** `client.interrupt` has returned. */
    method InterruptSucceeds()
      requires Known(View()) && Enabled(View(), InterruptReturns)
      modifies this`phase, commands
      ensures View() == Step(old(View()), InterruptReturns)
    {
      if phase.Interrupting? {
        CompleteOne(phase.interrupt, None);
        phase := Driving(phase.query, phase.parked, phase.msg, None);
      } else {
        LetGoAndDisconnect();
      }
    }

    /** A disconnect inside the stream loop, once its interrupt has returned. */
    method LetGoAndDisconnect()
      requires Known(View()) && phase.Disconnecting?
      modifies this`phase, commands
      ensures View() == Dispatch(
        State(Idle, queue, ReleaseParked(SetDone(old(View().status), old(phase.query)), old(phase.parked))),
        old(phase.disconnect))
    {
      var Disconnecting(query, parked, _, disconnect) := phase;
      MarkDone(query);
      Release(parked);
      phase := Idle;
      Handle(disconnect);
    }

    /** An exception is raised at an `await`; an ordinary one by `client.interrupt` is also
        reported to the interrupting caller. */
    method AwaitRaises(error: Error, ordinary: bool)
      requires Known(View())
      requires Enabled(View(), if ordinary then InterruptFails(error) else Cancelled(error))
      modifies this`phase, commands
      ensures View() == Step(old(View()), if ordinary then InterruptFails(error) else Cancelled(error))
    {
      if phase.Idle? {
        phase := Leaving(Some(error));
      } else {
        if phase.Interrupting? {
          var caught := if ordinary then Some(error) else None;
          CompleteOne(phase.interrupt, caught);
        }
        Fail(error);
      }
    }

    /** The client's context is closed; what is still queued is drained. */
    method ContextExits(raised: Option<Error>)
      requires Known(View()) && phase.Leaving?
      modifies this`phase, this`queue, commands
      ensures View() == Step(old(View()), ClientExits(raised))
    {
      var fatal := if raised.Some? then raised else phase.fatal;
      DrainPendingCommands(OrClosed(fatal));
      phase := Closed(fatal);
    }
  }
}
