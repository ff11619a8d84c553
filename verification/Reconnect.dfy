/**
 The view a client gets when it reconnects: stored history merged with the replayed buffer of
 the running session (server/agent_runtime/service.py, server/agent_runtime/stream_projector.py).

 A message is reduced to what the merge looks at. Its plain text and its content fingerprint
 are data; grouping into turns is a function of the message list, passed to the projector.
 */
module Reconnect {
  import opened Wrappers

  datatype Kind = User | Assistant | Result | System | Other

  datatype Message = Message(
    kind: Kind,
    uuid: Option<string>,
    echo: bool,             // `local_echo`
    injected: bool,         // system or subagent payload
    text: Option<string>,   // plain text of a user message
    mark: Option<string>,   // content fingerprint of an assistant or result message
    time: Option<int>,
    body: string)

  predicate IsTurnMessage(m: Message) {
    m.kind == User || m.kind == Assistant || m.kind == Result
  }

  predicate IsGroupable(m: Message) {
    IsTurnMessage(m) || m.kind == System
  }

  predicate IsRealUser(m: Message) {
    m.kind == User && !m.echo && !m.injected
  }

  function UuidOf(m: Message): Option<string> {
    if m.uuid == Some("") then None else m.uuid
  }

  function TextOf(m: Message): Option<string> {
    if m.kind == User && m.text != Some("") then m.text else None
  }

  function Fingerprint(m: Message): Option<string> {
    if m.kind == Assistant || m.kind == Result then m.mark else None
  }

  function Groupable(ms: seq<Message>): seq<Message> {
    if ms == [] then [] else Groupable(ms[..|ms| - 1]) + if IsGroupable(ms[|ms| - 1]) then [ms[|ms| - 1]] else []
  }

  function LastResult(ms: seq<Message>): Option<Message> {
    if ms == [] then None
    else if ms[|ms| - 1].kind == Result then Some(ms[|ms| - 1])
    else LastResult(ms[..|ms| - 1])
  }

  /** The last result is the one with no result behind it. */
  lemma {:induction false} LastResultIsLast(ms: seq<Message>, i: nat)
    requires i < |ms| && ms[i].kind == Result && forall k :: i < k < |ms| ==> ms[k].kind != Result
    ensures LastResult(ms) == Some(ms[i])
  {
    if i < |ms| - 1 {
      assert ms[..|ms| - 1][i] == ms[i];
      LastResultIsLast(ms[..|ms| - 1], i);
    }
  }

  lemma {:induction false} NoResultYet(ms: seq<Message>)
    requires forall m <- ms :: m.kind != Result
    ensures LastResult(ms) == None
  {
    if ms != [] {
      NoResultYet(ms[..|ms| - 1]);
    }
  }

  function LastRealUser(ms: seq<Message>): (i: Option<nat>)
    ensures i.Some? ==>
      i.value < |ms| && IsRealUser(ms[i.value]) && forall k :: i.value < k < |ms| ==> !IsRealUser(ms[k])
    ensures i.None? ==> forall m <- ms :: !IsRealUser(m)
  {
    if ms == [] then None
    else if IsRealUser(ms[|ms| - 1]) then Some(|ms| - 1)
    else LastRealUser(ms[..|ms| - 1])
  }

  /** Fingerprints of the current round of the history. */
  function FingerprintTail(history: seq<Message>): set<string> {
    var start := match LastRealUser(history) case Some(i) => i case None => 0;
    set m <- history[start..] | Fingerprint(m).Some? :: Fingerprint(m).value
  }

  function TranscriptUuids(history: seq<Message>): set<string> {
    set m <- history | UuidOf(m).Some? :: UuidOf(m).value
  }

  function RealUserTexts(buffer: seq<Message>): set<string> {
    set m <- buffer | IsRealUser(m) && TextOf(m).Some? :: TextOf(m).value
  }

  /** The last real user message of the history is what this echo announces, and its round has
      not ended. */
  predicate EchoInTranscript(echo: Message, history: seq<Message>) {
    && TextOf(echo).Some?
    && LastRealUser(history).Some?
    && var last := LastRealUser(history).value;
       && TextOf(history[last]) == TextOf(echo)
       && !(echo.time.Some? && history[last].time.Some? && history[last].time.value < echo.time.value)
       && forall k :: last < k < |history| ==> history[k].kind != Result
  }

  predicate IsDuplicate(m: Message, uuids: set<string>, tail: set<string>, history: seq<Message>, texts: set<string>) {
    || (UuidOf(m).Some? && UuidOf(m).value in uuids)
    || (m.echo && (EchoInTranscript(m, history) || (TextOf(m).Some? && TextOf(m).value in texts)))
    || (UuidOf(m).None? && Fingerprint(m).Some? && Fingerprint(m).value in tail)
  }

  /** What the scan of the buffer carries: the messages applied so far and the fingerprints
      that still count. */
  datatype Scan = Scan(kept: seq<Message>, tail: set<string>)

  function ScanOne(s: Scan, m: Message, history: seq<Message>, texts: set<string>): Scan {
    if !IsTurnMessage(m) then s.(kept := if m.kind == System then s.kept + [m] else s.kept)
    else
      var tail := if IsRealUser(m) then {} else s.tail;
      if IsDuplicate(m, TranscriptUuids(history), tail, history, texts) then Scan(s.kept, tail)
      else Scan(s.kept + [m], if m.kind == User && m.echo then {} else tail)
  }

  function ScanAll(history: seq<Message>, buffer: seq<Message>, texts: set<string>): Scan {
    if buffer == [] then Scan([], FingerprintTail(history))
    else ScanOne(ScanAll(history, buffer[..|buffer| - 1], texts), buffer[|buffer| - 1], history, texts)
  }

  /** The groupable messages of the merged view. */
  function Merged(history: seq<Message>, buffer: seq<Message>): seq<Message> {
    Groupable(history) + ScanAll(history, buffer, RealUserTexts(buffer)).kept
  }

  // ---------------------------------------------------------------- what survives the merge

  /** The user, assistant and result messages. */
  function Turns(ms: seq<Message>): seq<Message> {
    if ms == [] then [] else Turns(ms[..|ms| - 1]) + if IsTurnMessage(ms[|ms| - 1]) then [ms[|ms| - 1]] else []
  }

  /** The messages that are not local echoes. */
  function NotEchoes(ms: seq<Message>): seq<Message> {
    if ms == [] then [] else NotEchoes(ms[..|ms| - 1]) + if ms[|ms| - 1].echo then [] else [ms[|ms| - 1]]
  }

  /** The messages whose uuid is not among `uuids`. */
  function Unknown(ms: seq<Message>, uuids: set<string>): seq<Message>
    requires forall m <- ms :: UuidOf(m).Some?
  {
    if ms == [] then []
    else
      Unknown(ms[..|ms| - 1], uuids) + if UuidOf(ms[|ms| - 1]).value in uuids then [] else [ms[|ms| - 1]]
  }

  predicate DistinctUuids(ms: seq<Message>) {
    && (forall m <- ms :: UuidOf(m).Some?)
    && forall i, k :: 0 <= i < k < |ms| ==> UuidOf(ms[i]) != UuidOf(ms[k])
  }

  /** The messages of a session as the SDK delivers them: user, assistant and result messages,
      no echoes, each with its own uuid. */
  predicate IsStream(ms: seq<Message>) {
    DistinctUuids(ms) && forall m <- ms :: IsTurnMessage(m) && !m.echo
  }

  lemma {:induction false} NotEchoesHaveUuids(ms: seq<Message>)
    requires forall m <- ms :: !m.echo ==> UuidOf(m).Some?
    ensures forall m <- NotEchoes(ms) :: UuidOf(m).Some?
  {
    if ms != [] {
      NotEchoesHaveUuids(ms[..|ms| - 1]);
    }
  }

  lemma NotEchoesSnoc(ms: seq<Message>, m: Message)
    ensures NotEchoes(ms + [m]) == NotEchoes(ms) + if m.echo then [] else [m]
  {
    assert (ms + [m])[..|ms|] == ms;
  }

  lemma TurnsSnoc(ms: seq<Message>, m: Message)
    ensures Turns(ms + [m]) == Turns(ms) + if IsTurnMessage(m) then [m] else []
  {
    assert (ms + [m])[..|ms|] == ms;
  }

  lemma ScanSnoc(history: seq<Message>, ms: seq<Message>, m: Message, texts: set<string>)
    ensures ScanAll(history, ms + [m], texts) == ScanOne(ScanAll(history, ms, texts), m, history, texts)
  {
    hide ScanOne;
    assert (ms + [m])[..|ms|] == ms;
  }

  lemma ScanOneOfTurns(s: Scan, m: Message, history: seq<Message>, texts: set<string>)
    ensures var next, t := ScanOne(s, m, history, texts), Scan(Turns(s.kept), s.tail);
      if IsTurnMessage(m)
      then Turns(next.kept) == ScanOne(t, m, history, texts).kept && next.tail == ScanOne(t, m, history, texts).tail
      else Turns(next.kept) == t.kept && next.tail == t.tail
  {
    hide Turns, IsDuplicate, TranscriptUuids;
    TurnsSnoc(s.kept, m);
  }

  /** Stream events and system messages do not take part in the scan. */
  lemma {:induction false} ScanOfTurns(history: seq<Message>, buffer: seq<Message>, texts: set<string>)
    ensures var s, t := ScanAll(history, buffer, texts), ScanAll(history, Turns(buffer), texts);
      Turns(s.kept) == t.kept && s.tail == t.tail
  {
    if buffer != [] {
      hide ScanOne, ScanAll, Turns;
      var front, last := buffer[..|buffer| - 1], buffer[|buffer| - 1];
      assert buffer == front + [last];
      ScanOfTurns(history, front, texts);
      ScanSnoc(history, front, last, texts);
      ScanSnoc(history, Turns(front), last, texts);
      TurnsSnoc(front, last);
      ScanOneOfTurns(ScanAll(history, front, texts), last, history, texts);
      assert Turns(front) + [] == Turns(front);
    }
  }

  /** Whatever echoes lie between them, the turn messages that are not echoes survive exactly if
      the history does not have their uuid, and in order. */
  lemma ScanKeepsWhatIsNew(history: seq<Message>, buffer: seq<Message>, texts: set<string>)
    requires forall m <- Turns(buffer) :: !m.echo ==> UuidOf(m).Some?
    ensures forall m <- NotEchoes(Turns(buffer)) :: UuidOf(m).Some?
    ensures NotEchoes(Turns(ScanAll(history, buffer, texts).kept)) ==
            Unknown(NotEchoes(Turns(buffer)), TranscriptUuids(history))
  {
    hide ScanAll, Unknown, NotEchoes;
    ScanOfTurns(history, buffer, texts);
    TurnsAreTurns(buffer);
    TurnsKeepWhatIsNew(history, Turns(buffer), texts);
  }

  lemma {:induction false} TurnsAreTurns(ms: seq<Message>)
    ensures forall m <- Turns(ms) :: m in ms && IsTurnMessage(m)
  {
    if ms != [] {
      TurnsAreTurns(ms[..|ms| - 1]);
    }
  }

  /** One message that is not an echo is kept exactly if its uuid is not known. */
  lemma KeepsOneIfNew(s: Scan, m: Message, history: seq<Message>, texts: set<string>)
    requires IsTurnMessage(m) && (!m.echo ==> UuidOf(m).Some?)
    ensures NotEchoes(ScanOne(s, m, history, texts).kept) == NotEchoes(s.kept) +
            if m.echo || UuidOf(m).value in TranscriptUuids(history) then [] else [m]
  {
    hide NotEchoes, TranscriptUuids, EchoInTranscript;
    NotEchoesSnoc(s.kept, m);
  }

  lemma {:induction false} TurnsKeepWhatIsNew(history: seq<Message>, buffer: seq<Message>, texts: set<string>)
    requires forall m <- buffer :: IsTurnMessage(m) && (!m.echo ==> UuidOf(m).Some?)
    ensures forall m <- NotEchoes(buffer) :: UuidOf(m).Some?
    ensures NotEchoes(ScanAll(history, buffer, texts).kept) == Unknown(NotEchoes(buffer), TranscriptUuids(history))
  {
    NotEchoesHaveUuids(buffer);
    if buffer != [] {
      hide ScanOne, ScanAll, NotEchoes, TranscriptUuids, IsTurnMessage;
      var front, last := buffer[..|buffer| - 1], buffer[|buffer| - 1];
      assert buffer == front + [last];
      TurnsKeepWhatIsNew(history, front, texts);
      ScanSnoc(history, front, last, texts);
      KeepsOneIfNew(ScanAll(history, front, texts), last, history, texts);
      NotEchoesSnoc(front, last);
      UnknownConcat(NotEchoes(front), if last.echo then [] else [last], TranscriptUuids(history));
    }
  }

  lemma {:induction false} StreamIsAllGroupable(ms: seq<Message>)
    requires forall m <- ms :: IsTurnMessage(m) && !m.echo
    ensures Groupable(ms) == ms && NotEchoes(ms) == ms
  {
    if ms != [] {
      assert ms == ms[..|ms| - 1] + [ms[|ms| - 1]];
      StreamIsAllGroupable(ms[..|ms| - 1]);
    }
  }

  lemma {:induction false} UnknownConcat(a: seq<Message>, b: seq<Message>, uuids: set<string>)
    requires (forall m <- a :: UuidOf(m).Some?) && forall m <- b :: UuidOf(m).Some?
    ensures Unknown(a + b, uuids) == Unknown(a, uuids) + Unknown(b, uuids)
  {
    if b == [] {
      assert a + b == a;
    } else {
      assert (a + b)[..|a + b| - 1] == a + b[..|b| - 1];
      UnknownConcat(a, b[..|b| - 1], uuids);
    }
  }

  lemma {:induction false} AllOrNothingUnknown(ms: seq<Message>, uuids: set<string>, known: bool)
    requires forall m <- ms :: UuidOf(m).Some? && (UuidOf(m).value in uuids) == known
    ensures Unknown(ms, uuids) == if known then [] else ms
  {
    if ms != [] {
      assert ms == ms[..|ms| - 1] + [ms[|ms| - 1]];
      AllOrNothingUnknown(ms[..|ms| - 1], uuids, known);
    }
  }

  lemma OnlyTheRestIsUnknown(stream: seq<Message>, begin: nat, h: nat, end: nat)
    requires IsStream(stream) && begin <= h <= end <= |stream|
    ensures forall m <- stream[begin..end] :: UuidOf(m).Some?
    ensures Unknown(stream[begin..end], TranscriptUuids(stream[..h])) == stream[h..end]
  {
    var uuids := TranscriptUuids(stream[..h]);
    var old_, new_ := stream[begin..h], stream[h..end];
    assert stream[begin..end] == old_ + new_;
    StoredAreKnown(stream, begin, h);
    LaterAreUnknown(stream, h, end);
    hide *;
    AllOrNothingUnknown(old_, uuids, true);
    AllOrNothingUnknown(new_, uuids, false);
    UnknownConcat(old_, new_, uuids);
  }

  lemma StoredAreKnown(stream: seq<Message>, begin: nat, h: nat)
    requires IsStream(stream) && begin <= h <= |stream|
    ensures forall m <- stream[begin..h] :: UuidOf(m).Some? && UuidOf(m).value in TranscriptUuids(stream[..h])
  {
    forall m <- stream[begin..h]
      ensures UuidOf(m).Some? && UuidOf(m).value in TranscriptUuids(stream[..h])
    {
      assert m in stream[..h];
    }
  }

  lemma LaterAreUnknown(stream: seq<Message>, h: nat, end: nat)
    requires IsStream(stream) && h <= end <= |stream|
    ensures forall m <- stream[h..end] :: UuidOf(m).Some? && UuidOf(m).value !in TranscriptUuids(stream[..h])
  {
    forall m <- stream[h..end]
      ensures UuidOf(m).Some? && UuidOf(m).value !in TranscriptUuids(stream[..h])
    {
      var i :| h <= i < end && stream[i] == m;
      assert stream[i] in stream;
    }
  }

  /** The merge is exact: the history has the first `h` messages of the session's stream, the
      buffer a later part that overlaps it, with any local echoes, stream events and system
      messages in between; the view then has every message of the stream once, in order, plus
      the echoes and system messages that survive. */
  lemma MergeIsExact(stream: seq<Message>, begin: nat, h: nat, end: nat, buffer: seq<Message>)
    requires IsStream(stream) && begin <= h <= end <= |stream|
    requires NotEchoes(Turns(buffer)) == stream[begin..end]
    ensures NotEchoes(Turns(Merged(stream[..h], buffer))) == stream[..end]
    ensures (forall m <- buffer :: !m.echo && m.kind != System) ==> Merged(stream[..h], buffer) == stream[..end]
  {
    hide IsStream, Groupable, NotEchoes, Turns, ScanAll, TranscriptUuids;
    var history, texts := stream[..h], RealUserTexts(buffer);
    var kept := ScanAll(history, buffer, texts).kept;
    OnlyTheRestIsUnknown(stream, begin, h, end);
    forall m <- Turns(buffer) | !m.echo
      ensures UuidOf(m).Some?
    {
      NotEchoesKeep(Turns(buffer), m);
    }
    ScanKeepsWhatIsNew(history, buffer, texts);
    StreamParts(stream, h);
    StreamIsAllGroupable(history);
    AllAreTurns(history);
    TurnsConcat(history, kept);
    NotEchoesConcat(history, Turns(kept));
    assert stream[..h] + stream[h..end] == stream[..end];
    if forall m <- buffer :: !m.echo && m.kind != System {
      ScanAddsNothing(history, buffer, texts);
      AllAreTurns(kept);
      NoEchoesToDrop(kept);
    }
  }

  lemma {:induction false} AllAreTurns(ms: seq<Message>)
    requires forall m <- ms :: IsTurnMessage(m)
    ensures Turns(ms) == ms
  {
    if ms != [] {
      assert ms == ms[..|ms| - 1] + [ms[|ms| - 1]];
      AllAreTurns(ms[..|ms| - 1]);
    }
  }

  lemma {:induction false} TurnsConcat(a: seq<Message>, b: seq<Message>)
    ensures Turns(a + b) == Turns(a) + Turns(b)
  {
    if b == [] {
      assert a + b == a;
    } else {
      assert (a + b)[..|a + b| - 1] == a + b[..|b| - 1];
      TurnsConcat(a, b[..|b| - 1]);
    }
  }

  lemma StreamParts(stream: seq<Message>, h: nat)
    requires IsStream(stream) && h <= |stream|
    ensures forall m <- stream[..h] :: IsTurnMessage(m) && !m.echo
  {
  }

  lemma {:induction false} NoEchoesToDrop(ms: seq<Message>)
    requires forall m <- ms :: !m.echo
    ensures NotEchoes(ms) == ms
  {
    if ms != [] {
      assert ms == ms[..|ms| - 1] + [ms[|ms| - 1]];
      NoEchoesToDrop(ms[..|ms| - 1]);
    }
  }

  lemma {:induction false} NotEchoesKeep(ms: seq<Message>, m: Message)
    requires m in ms && !m.echo
    ensures m in NotEchoes(ms)
  {
    if ms[|ms| - 1] != m {
      NotEchoesKeep(ms[..|ms| - 1], m);
    }
  }

  lemma {:induction false} NotEchoesConcat(a: seq<Message>, b: seq<Message>)
    ensures NotEchoes(a + b) == NotEchoes(a) + NotEchoes(b)
  {
    if b == [] {
      assert a + b == a;
    } else {
      assert (a + b)[..|a + b| - 1] == a + b[..|b| - 1];
      NotEchoesConcat(a, b[..|b| - 1]);
    }
  }

  lemma {:induction false} ScanAddsNothing(history: seq<Message>, buffer: seq<Message>, texts: set<string>)
    ensures forall m <- ScanAll(history, buffer, texts).kept :: m in buffer && IsGroupable(m)
  {
    if buffer != [] {
      ScanAddsNothing(history, buffer[..|buffer| - 1], texts);
    }
  }

  /** A local echo never survives beside a real user message of the buffer with the same text. */
  lemma {:induction false} NoEchoBesideItsMessage(history: seq<Message>, buffer: seq<Message>, texts: set<string>)
    ensures forall m <- ScanAll(history, buffer, texts).kept :: m.echo && TextOf(m).Some? ==> TextOf(m).value !in texts
  {
    if buffer != [] {
      NoEchoBesideItsMessage(history, buffer[..|buffer| - 1], texts);
    }
  }

  lemma EchoOrMessage(history: seq<Message>, buffer: seq<Message>, echo: Message, real_: Message)
    requires echo.echo && TextOf(echo).Some? && TextOf(real_) == TextOf(echo)
    requires IsRealUser(real_) && real_ in buffer
    ensures echo !in ScanAll(history, buffer, RealUserTexts(buffer)).kept
  {
    NoEchoBesideItsMessage(history, buffer, RealUserTexts(buffer));
    assert TextOf(real_).value in RealUserTexts(buffer);
  }

  /** The last genuine user message of the history has the echo's text, is not older than the echo
      and has no result behind it. */
  predicate IsAnnounced(echo: Message, history: seq<Message>) {
    exists i :: 0 <= i < |history|
      && history[i].kind == User && !history[i].echo && !history[i].injected
      && history[i].text == echo.text
      && (history[i].time.Some? && echo.time.Some? ==> history[i].time.value >= echo.time.value)
      && forall k :: i < k < |history| ==>
           history[k].kind != Result && !(history[k].kind == User && !history[k].echo && !history[k].injected)
  }

  lemma EchoIsAnnounced(echo: Message, history: seq<Message>)
    requires echo.kind == User
    ensures EchoInTranscript(echo, history) <==> echo.text.Some? && echo.text != Some("") && IsAnnounced(echo, history)
  {
    match LastRealUser(history)
    case None => assert forall i :: 0 <= i < |history| ==> history[i] in history;
    case Some(last) =>
      hide LastRealUser;
      if IsAnnounced(echo, history) {
        var i :| 0 <= i < |history| && IsRealUser(history[i]) && history[i].text == echo.text
          && (history[i].time.Some? && echo.time.Some? ==> history[i].time.value >= echo.time.value)
          && forall k :: i < k < |history| ==> history[k].kind != Result && !IsRealUser(history[k]);
        assert i == last;
      }
  }

  /** A local echo is dropped exactly if its uuid is stored, or its text is that of a genuine user
      message of the buffer, or it is announced by the history. */
  lemma EchoSurvivesExactly(history: seq<Message>, buffer: seq<Message>, before: seq<Message>, echo: Message)
    requires echo.kind == User && echo.echo
    ensures var texts := RealUserTexts(buffer);
      var old_, new_ := ScanAll(history, before, texts).kept, ScanAll(history, before + [echo], texts).kept;
      var stored := echo.uuid.Some? && echo.uuid != Some("") && exists m <- history :: m.uuid == echo.uuid;
      var hasText := echo.text.Some? && echo.text != Some("");
      var repeated := exists m <- buffer :: m.kind == User && !m.echo && !m.injected && m.text == echo.text;
      new_ == old_ + if stored || (hasText && (repeated || IsAnnounced(echo, history))) then [] else [echo]
  {
    hide EchoInTranscript, RealUserTexts, TranscriptUuids, ScanAll, IsAnnounced;
    ScanSnoc(history, before, echo, RealUserTexts(buffer));
    EchoIsAnnounced(echo, history);
    UuidIsStored(history, echo);
    TextIsRepeated(buffer, echo);
  }

  lemma UuidIsStored(history: seq<Message>, m: Message)
    ensures UuidOf(m).Some? && UuidOf(m).value in TranscriptUuids(history) <==>
      m.uuid.Some? && m.uuid != Some("") && exists h <- history :: h.uuid == m.uuid
  {
  }

  lemma TextIsRepeated(buffer: seq<Message>, echo: Message)
    requires echo.kind == User
    ensures TextOf(echo).Some? && TextOf(echo).value in RealUserTexts(buffer) <==>
      echo.text.Some? && echo.text != Some("") &&
      exists m <- buffer :: m.kind == User && !m.echo && !m.injected && m.text == echo.text
  {
  }

  /** The system messages. */
  function Systems(ms: seq<Message>): seq<Message> {
    if ms == [] then []
    else Systems(ms[..|ms| - 1]) + if ms[|ms| - 1].kind == System then [ms[|ms| - 1]] else []
  }

  lemma SystemsSnoc(ms: seq<Message>, m: Message)
    ensures Systems(ms + [m]) == Systems(ms) + if m.kind == System then [m] else []
  {
    assert (ms + [m])[..|ms|] == ms;
  }

  lemma {:induction false} SystemsConcat(a: seq<Message>, b: seq<Message>)
    ensures Systems(a + b) == Systems(a) + Systems(b)
  {
    if b == [] {
      assert a + b == a;
    } else {
      assert (a + b)[..|a + b| - 1] == a + b[..|b| - 1];
      SystemsConcat(a, b[..|b| - 1]);
    }
  }

  lemma {:induction false} SystemsOfGroupable(ms: seq<Message>)
    ensures Systems(Groupable(ms)) == Systems(ms)
  {
    if ms != [] {
      var front, last := ms[..|ms| - 1], ms[|ms| - 1];
      SystemsOfGroupable(front);
      SystemsSnoc(Groupable(front), last);
      assert Groupable(front) + [] == Groupable(front) && Systems(front) + [] == Systems(front);
      hide Systems;
    }
  }

  lemma {:induction false} SystemsOfScan(history: seq<Message>, buffer: seq<Message>, texts: set<string>)
    ensures Systems(ScanAll(history, buffer, texts).kept) == Systems(buffer)
  {
    if buffer != [] {
      var front, last := buffer[..|buffer| - 1], buffer[|buffer| - 1];
      SystemsOfScan(history, front, texts);
      var kept := ScanAll(history, front, texts).kept;
      SystemsSnoc(kept, last);
      assert kept + [] == kept && Systems(front) + [] == Systems(front);
      hide IsDuplicate, TranscriptUuids;
    }
  }

  /** Every system message of history and buffer is in the view, in order; stream events are not. */
  lemma SystemMessagesStay(history: seq<Message>, buffer: seq<Message>)
    ensures Systems(Merged(history, buffer)) == Systems(history) + Systems(buffer)
    ensures forall m <- Merged(history, buffer) :: m.kind in [User, Assistant, Result, System]
  {
    var texts := RealUserTexts(buffer);
    hide Systems, ScanAll, Groupable, RealUserTexts;
    SystemsOfGroupable(history);
    SystemsOfScan(history, buffer, texts);
    SystemsConcat(Groupable(history), ScanAll(history, buffer, texts).kept);
    GroupableKinds(history);
    ScanAddsNothing(history, buffer, texts);
  }

  lemma {:induction false} GroupableKinds(ms: seq<Message>)
    ensures forall m <- Groupable(ms) :: m in ms && IsGroupable(m)
  {
    if ms != [] {
      GroupableKinds(ms[..|ms| - 1]);
    }
  }

  /** A round starts at a real user message, or at an echo that was kept. */
  predicate RoundStarted(history: seq<Message>, buffer: seq<Message>, texts: set<string>)
  {
    buffer != [] &&
    var front, last := buffer[..|buffer| - 1], buffer[|buffer| - 1];
    || RoundStarted(history, front, texts)
    || IsRealUser(last)
    || (last.kind == User && last.echo
        && !IsDuplicate(last, TranscriptUuids(history), ScanAll(history, front, texts).tail, history, texts))
  }

  lemma {:induction false} TailUntilRoundStarts(history: seq<Message>, buffer: seq<Message>, texts: set<string>)
    ensures ScanAll(history, buffer, texts).tail ==
      if RoundStarted(history, buffer, texts) then {} else FingerprintTail(history)
  {
    if buffer != [] {
      TailUntilRoundStarts(history, buffer[..|buffer| - 1], texts);
    }
  }

  /** A reply behind the last genuine user message of the history has this fingerprint. */
  predicate InCurrentRound(history: seq<Message>, mark: string) {
    exists i :: 0 <= i < |history|
      && history[i].kind in [Assistant, Result] && history[i].mark == Some(mark)
      && forall k :: i < k < |history| ==> !(history[k].kind == User && !history[k].echo && !history[k].injected)
  }

  lemma TailIsTheRound(history: seq<Message>, mark: Option<string>)
    ensures mark.Some? ==> (mark.value in FingerprintTail(history) <==> InCurrentRound(history, mark.value))
  {
    if mark.Some? {
      hide FingerprintTail, InCurrentRound;
      if mark.value in FingerprintTail(history) {
        MarkInTail(history, mark.value);
      }
      if InCurrentRound(history, mark.value) {
        MarkInRound(history, mark.value);
      }
    }
  }

  lemma MarkInTail(history: seq<Message>, mark: string)
    requires mark in FingerprintTail(history)
    ensures InCurrentRound(history, mark)
  {
    var start := match LastRealUser(history) case Some(i) => i case None => 0;
    hide LastRealUser;
    var m :| m in history[start..] && Fingerprint(m) == Some(mark);
    var i :| start <= i < |history| && history[i] == m;
    assert forall k :: 0 <= k < |history| ==> history[k] in history;
    assert history[i].mark == Some(mark);
  }

  lemma MarkInRound(history: seq<Message>, mark: string)
    requires InCurrentRound(history, mark)
    ensures mark in FingerprintTail(history)
  {
    var i :| 0 <= i < |history| && history[i].kind in [Assistant, Result] && history[i].mark == Some(mark)
      && forall k :: i < k < |history| ==> !IsRealUser(history[k]);
    var start := match LastRealUser(history) case Some(i) => i case None => 0;
    hide LastRealUser;
    assert i >= start && history[i] == history[start..][i - start];
    assert Fingerprint(history[i]) == Some(mark);
  }

  /** A reply without uuid is dropped exactly when it looks like one of the history's current
      round and no new round has started in the buffer before it. */
  lemma ReplyWithoutUuid(history: seq<Message>, before: seq<Message>, m: Message, texts: set<string>)
    requires (m.kind == Assistant || m.kind == Result) && UuidOf(m).None? && !m.echo
    ensures var old_ := ScanAll(history, before, texts).kept; var new_ := ScanAll(history, before + [m], texts).kept;
      if !RoundStarted(history, before, texts) && m.mark.Some? && InCurrentRound(history, m.mark.value)
      then new_ == old_ else new_ == old_ + [m]
  {
    TailUntilRoundStarts(history, before, texts);
    TailIsTheRound(history, m.mark);
    assert (before + [m])[..|before|] == before;
  }

  // ---------------------------------------------------------------- the projector

  lemma {:induction false} GroupableConcat(a: seq<Message>, b: seq<Message>)
    ensures Groupable(a + b) == Groupable(a) + Groupable(b)
  {
    if b == [] {
      assert a + b == a;
    } else {
      assert (a + b)[..|a + b| - 1] == a + b[..|b| - 1];
      GroupableConcat(a, b[..|b| - 1]);
    }
  }

  /** Keeps the groupable messages and shows them as turns. */
  class AssistantStreamProjector<View> {
    const group: seq<Message> -> View
    var groupable: seq<Message>
    var turns: View
    var lastResult: Option<Message>

    /** However the messages came in, the view is that of the whole list at once. */
    ghost predicate Shows(messages: seq<Message>)
      reads this
    {
      && groupable == Groupable(messages)
      && turns == group(Groupable(messages))
      && lastResult == LastResult(messages)
    }

    /** The batch initialisation. */
    constructor (group: seq<Message> -> View, messages: seq<Message>)
      ensures Shows(messages) && this.group == group
    {
      this.group := group;
      var list: seq<Message> := [];
      var last: Option<Message> := None;
      for i := 0 to |messages|
        invariant list == Groupable(messages[..i]) && last == LastResult(messages[..i])
      {
        assert messages[..i + 1][..i] == messages[..i];
        if IsGroupable(messages[i]) {
          list := list + [messages[i]];
          if messages[i].kind == Result {
            last := Some(messages[i]);
          }
        }
      }
      assert messages[..|messages|] == messages;
      groupable := list;
      turns := group(list);
      lastResult := last;
    }

    method ApplyMessage(m: Message, ghost before: seq<Message>)
      requires Shows(before)
      modifies this
      ensures Shows(before + [m])
    {
      assert (before + [m])[..|before|] == before;
      if IsGroupable(m) {
        groupable := groupable + [m];
        turns := group(groupable);
        if m.kind == Result {
          lastResult := Some(m);
        }
      }
    }
  }

  /** `_build_projector`. */
  method BuildProjector<View>(group: seq<Message> -> View, history: seq<Message>, buffer: seq<Message>)
    returns (p: AssistantStreamProjector<View>)
    ensures fresh(p) && p.group == group
    ensures p.groupable == Merged(history, buffer) && p.turns == group(Merged(history, buffer))
  {
    p := new AssistantStreamProjector(group, history);
    var uuids := TranscriptUuids(history);
    var tail := FingerprintTail(history);
    var texts := RealUserTexts(buffer);
    ghost var shown := history;
    for i := 0 to |buffer|
      invariant fresh(p) && p.group == group && p.Shows(shown)
      invariant Groupable(shown) == Groupable(history) + ScanAll(history, buffer[..i], texts).kept
      invariant tail == ScanAll(history, buffer[..i], texts).tail
    {
      var m := buffer[i];
      assert buffer[..i + 1][..i] == buffer[..i];
      assert (shown + [m])[..|shown|] == shown;
      if !IsTurnMessage(m) {
        p.ApplyMessage(m, shown);
        shown := shown + [m];
        continue;
      }
      if IsRealUser(m) {
        tail := {};
      }
      if !IsDuplicate(m, uuids, tail, history, texts) {
        if m.kind == User && m.echo {
          tail := {};
        }
        p.ApplyMessage(m, shown);
        shown := shown + [m];
      }
    }
    assert buffer[..|buffer|] == buffer;
  }
}
