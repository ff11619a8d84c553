/**
 The transcript store (lib/agent_session_store/store.py): rows keyed by session and sequence
 number, written by optimistic appends that read the next number first and insert later, with
 de-duplication by uuid, a summary per session, and deletes.

 The SDK folds a summary from left to right over the appended entries, so what a summary holds
 is determined by the sequence of entries folded into it; the model keeps that sequence.
 */
module TranscriptStore {
  import opened Wrappers

  datatype Entry = Entry(uuid: Option<string>, body: string)
  datatype Row = Row(entry: Entry, mtime: int)
  type Table = map<nat, Row>

  datatype Key = Key(project: string, session: string, subpath: string)

  /** The `subpath` item of a key passed by a caller. */
  datatype Subpath = Absent | Null | Given(name: string)

  datatype Summary = Summary(mtime: int, folded: seq<Entry>)
  datatype Db = Db(rows: map<Key, Table>, summaries: map<(string, string), Summary>)

  const MAX_APPEND_RETRY: nat := 16

  function Normalize(project: string, session: string, subpath: Subpath): Key {
    Key(project, session, if subpath.Given? then subpath.name else "")
  }

  /** An empty uuid counts as none. */
  function UuidOf(e: Entry): Option<string> {
    if e.uuid == Some("") then None else e.uuid
  }

  function Rows(db: Db, key: Key): Table {
    if key in db.rows then db.rows[key] else map[]
  }

  // ---------------------------------------------------------------- one table

  predicate Present(t: Table, e: Entry) {
    UuidOf(e).Some? && exists s <- t :: UuidOf(t[s].entry) == UuidOf(e)
  }

  predicate Above(t: Table, n: nat) {
    forall s <- t :: s < n
  }

  ghost function NextOf(seqs: set<nat>): (n: nat)
    ensures forall s <- seqs :: s < n
    ensures n > 0 ==> n - 1 in seqs
  {
    if seqs == {} then 0
    else
      var s :| s in seqs;
      var m := NextOf(seqs - {s});
      assert seqs == seqs - {s} + {s};
      if m > s then m else s + 1
  }

  /** `coalesce(max(seq), -1) + 1`. */
  ghost function NextSeq(t: Table): (n: nat)
    ensures Above(t, n) && (n > 0 ==> n - 1 in t)
  {
    NextOf(t.Keys)
  }

  /** `INSERT ... ON CONFLICT (uuid) DO NOTHING` of all entries: a known uuid skips the row,
      a taken sequence number aborts the whole statement. */
  function InsertAll(t: Table, start: nat, entries: seq<Entry>, now: int): Option<Table>
    decreases |entries|
  {
    if entries == [] then Some(t)
    else if Present(t, entries[0]) then InsertAll(t, start + 1, entries[1..], now)
    else if start in t then None
    else InsertAll(t[start := Row(entries[0], now)], start + 1, entries[1..], now)
  }

  /** The entries of the rows below `n`, by sequence number. */
  function LoadBelow(t: Table, n: nat): seq<Entry> {
    if n == 0 then [] else LoadBelow(t, n - 1) + if n - 1 in t then [t[n - 1].entry] else []
  }

  /** `load`: all entries by sequence number. */
  ghost function Load(t: Table): seq<Entry> {
    LoadBelow(t, NextSeq(t))
  }

  predicate UuidsUnique(t: Table) {
    forall a, b | a in t && b in t && a != b :: UuidOf(t[a].entry).Some? ==> UuidOf(t[a].entry) != UuidOf(t[b].entry)
  }

  /** The entries an insert stores: those whose uuid is new, also within the batch. */
  function Fresh(t: Table, start: nat, entries: seq<Entry>, now: int): seq<Entry>
    decreases |entries|
  {
    if entries == [] then []
    else if Present(t, entries[0]) then Fresh(t, start + 1, entries[1..], now)
    else [entries[0]] + Fresh(t[start := Row(entries[0], now)], start + 1, entries[1..], now)
  }

  /** A successful insert keeps every old row; a new one holds the entry whose position in the
      batch its number says, so stored rows keep the order of their append. */
  lemma {:induction false} InsertKeepsRows(t: Table, start: nat, entries: seq<Entry>, now: int)
    requires InsertAll(t, start, entries, now).Some?
    ensures var r := InsertAll(t, start, entries, now).value;
      && (forall s <- t :: s in r && r[s] == t[s])
      && (forall s <- r :: s in t || (start <= s < start + |entries| && r[s] == Row(entries[s - start], now)))
      && (entries != [] ==> r != map[])
    decreases |entries|
  {
    if entries != [] {
      var t' := if Present(t, entries[0]) then t else t[start := Row(entries[0], now)];
      InsertKeepsRows(t', start + 1, entries[1..], now);
      assert t' != map[] by {
        if Present(t, entries[0]) {
          var s :| s in t;
        } else {
          assert start in t';
        }
      }
      var r := InsertAll(t, start, entries, now).value;
      assert exists s :: s in t' && s in r;
    }
  }

  lemma {:induction false} InsertKeepsUuidsUnique(t: Table, start: nat, entries: seq<Entry>, now: int)
    requires InsertAll(t, start, entries, now).Some? && UuidsUnique(t)
    ensures UuidsUnique(InsertAll(t, start, entries, now).value)
    decreases |entries|
  {
    if entries != [] {
      InsertKeepsUuidsUnique(if Present(t, entries[0]) then t else t[start := Row(entries[0], now)],
                             start + 1, entries[1..], now);
    }
  }

  lemma {:induction false} InsertMakesPresent(t: Table, start: nat, entries: seq<Entry>, now: int)
    requires InsertAll(t, start, entries, now).Some?
    ensures forall e <- entries :: UuidOf(e).Some? ==> Present(InsertAll(t, start, entries, now).value, e)
    decreases |entries|
  {
    if entries != [] {
      var t' := if Present(t, entries[0]) then t else t[start := Row(entries[0], now)];
      InsertMakesPresent(t', start + 1, entries[1..], now);
      InsertKeepsRows(t', start + 1, entries[1..], now);
      var r := InsertAll(t, start, entries, now).value;
      if UuidOf(entries[0]).Some? {
        assert !Present(t, entries[0]) ==> start in t' && t'[start].entry == entries[0];
        var s :| s in t' && UuidOf(t'[s].entry) == UuidOf(entries[0]);
        assert UuidOf(r[s].entry) == UuidOf(entries[0]);
      }
    }
  }

  lemma {:induction false} LoadBelowAgrees(t: Table, r: Table, n: nat)
    requires forall s | 0 <= s < n :: (s in t <==> s in r) && (s in t ==> t[s].entry == r[s].entry)
    ensures LoadBelow(t, n) == LoadBelow(r, n)
  {
    if n > 0 {
      LoadBelowAgrees(t, r, n - 1);
    }
  }

  lemma {:induction false} NothingAbove(t: Table, n: nat, m: nat)
    requires Above(t, n) && n <= m
    ensures LoadBelow(t, m) == LoadBelow(t, n)
  {
    if n < m {
      NothingAbove(t, n, m - 1);
    }
  }

  lemma LoadIsBelow(t: Table, n: nat)
    requires Above(t, n)
    ensures Load(t) == LoadBelow(t, n)
  {
    if NextSeq(t) <= n { NothingAbove(t, NextSeq(t), n); } else { NothingAbove(t, n, NextSeq(t)); }
  }

  /** An insert behind all rows appends the new entries, in order, to what is loaded. */
  lemma {:induction false} InsertBehindAppends(t: Table, start: nat, entries: seq<Entry>, now: int)
    requires Above(t, start)
    ensures InsertAll(t, start, entries, now).Some?
    ensures Load(InsertAll(t, start, entries, now).value) == Load(t) + Fresh(t, start, entries, now)
    ensures Above(InsertAll(t, start, entries, now).value, start + |entries|)
    decreases |entries|
  {
    if entries != [] {
      if Present(t, entries[0]) {
        InsertBehindAppends(t, start + 1, entries[1..], now);
      } else {
        var t' := t[start := Row(entries[0], now)];
        InsertBehindAppends(t', start + 1, entries[1..], now);
        LoadOneMore(t, start, Row(entries[0], now));
        hide Load;
        var rest := Fresh(t', start + 1, entries[1..], now);
        assert Load(t) + [entries[0]] + rest == Load(t) + ([entries[0]] + rest);
      }
    }
  }

  lemma LoadOneMore(t: Table, start: nat, row: Row)
    requires Above(t, start)
    ensures Load(t[start := row]) == Load(t) + [row.entry]
  {
    var r := t[start := row];
    LoadIsBelow(r, start + 1);
    LoadIsBelow(t, start);
    LoadBelowAgrees(t, r, start);
  }

  /** So an append that no other commit came between leaves the old transcript a prefix. */
  lemma UndisturbedAppendExtends(t: Table, entries: seq<Entry>, now: int)
    ensures InsertAll(t, NextSeq(t), entries, now).Some?
    ensures Load(t) <= Load(InsertAll(t, NextSeq(t), entries, now).value)
  {
    InsertBehindAppends(t, NextSeq(t), entries, now);
  }

  /** Appending again what was stored changes no row, wherever the second attempt starts. */
  lemma {:induction false} KnownEntriesAreSkipped(t: Table, start: nat, entries: seq<Entry>, now: int)
    requires forall e <- entries :: Present(t, e)
    ensures InsertAll(t, start, entries, now) == Some(t)
    decreases |entries|
  {
    if entries != [] {
      KnownEntriesAreSkipped(t, start + 1, entries[1..], now);
    }
  }

  lemma ReappendChangesNothing(t: Table, start: nat, entries: seq<Entry>, now: int, start': nat, now': int)
    requires InsertAll(t, start, entries, now).Some?
    requires forall e <- entries :: UuidOf(e).Some?
    ensures var r := InsertAll(t, start, entries, now).value;
      InsertAll(r, start', entries, now') == Some(r)
  {
    InsertMakesPresent(t, start, entries, now);
    KnownEntriesAreSkipped(InsertAll(t, start, entries, now).value, start', entries, now');
  }

  // ---------------------------------------------------------------- the database

  /** What another client can do to the database at one instant. A commit may carry any
      sequence number it read earlier. */
  datatype Event =
    | Append(key: Key, start: nat, entries: seq<Entry>, now: int)
    | Delete(project: string, session: string, subpath: Subpath)

  /** Insert, summary and commit of one append attempt; None if it aborts. */
  function Commit(db: Db, key: Key, start: nat, entries: seq<Entry>, now: int): Option<Db> {
    match InsertAll(Rows(db, key), start, entries, now)
    case None => None
    case Some(t) =>
      var owner := (key.project, key.session);
      var folded := if owner in db.summaries then db.summaries[owner].folded else [];
      Some(Db(db.rows[key := t],
              if key.subpath == "" then db.summaries[owner := Summary(now, folded + entries)] else db.summaries))
  }

  /** The rows a delete removes. An absent or an empty subpath means all of the session; only
      an absent one also removes the summary. */
  predicate Deletes(project: string, session: string, subpath: Subpath, key: Key) {
    && key.project == project && key.session == session
    && match subpath
       case Absent => true
       case Null => key.subpath == ""
       case Given(name) => name == "" || key.subpath == name
  }

  function DeleteRows(db: Db, project: string, session: string, subpath: Subpath): Db {
    Db(map key | key in db.rows && !Deletes(project, session, subpath, key) :: db.rows[key],
       if subpath.Absent? then db.summaries - {(project, session)} else db.summaries)
  }

  function Apply(db: Db, e: Event): Db {
    match e
    case Append(key, start, entries, now) =>
      (match Commit(db, key, start, entries, now)
       case Some(r) => r
       case None => db)
    case Delete(project, session, subpath) => DeleteRows(db, project, session, subpath)
  }

  function ApplyAll(db: Db, es: seq<Event>): Db
    decreases |es|
  {
    if es == [] then db else ApplyAll(Apply(db, es[0]), es[1..])
  }

  const EMPTY: Db := Db(map[], map[])

  predicate NonEmptyAppends(es: seq<Event>) {
    forall e <- es :: e.Append? ==> e.entries != []
  }

  ghost predicate Consistent(db: Db) {
    && (forall key <- db.rows :: UuidsUnique(db.rows[key]) && db.rows[key] != map[])
    && (forall key <- db.rows :: key.subpath == "" ==> (key.project, key.session) in db.summaries)
  }

  /** In every reachable state uuids are unique per key (sequence numbers are by the row map),
      and a session with main entries has a summary. */
  lemma {:induction false} EveryStateIsConsistent(db: Db, es: seq<Event>)
    requires Consistent(db) && NonEmptyAppends(es)
    ensures Consistent(ApplyAll(db, es))
    decreases |es|
  {
    if es != [] {
      var e := es[0];
      if e.Append? && Commit(db, e.key, e.start, e.entries, e.now).Some? {
        assert e in es;
        InsertKeepsRows(Rows(db, e.key), e.start, e.entries, e.now);
        InsertKeepsUuidsUnique(Rows(db, e.key), e.start, e.entries, e.now);
      }
      EveryStateIsConsistent(Apply(db, e), es[1..]);
    }
  }

  ghost predicate SummariesHaveEntries(db: Db) {
    forall owner <- db.summaries :: Key(owner.0, owner.1, "") in db.rows
  }

  predicate DeletesWholeOrPart(es: seq<Event>) {
    forall e <- es :: e.Delete? ==> e.subpath.Absent? || (e.subpath.Given? && e.subpath.name != "")
  }

  /** Conversely a summary has main entries, as long as no delete gives an empty subpath. */
  lemma {:induction false} SummaryMeansEntries(db: Db, es: seq<Event>)
    requires SummariesHaveEntries(db) && DeletesWholeOrPart(es)
    ensures SummariesHaveEntries(ApplyAll(db, es))
    decreases |es|
  {
    if es != [] {
      assert es[0] in es;
      SummaryMeansEntries(Apply(db, es[0]), es[1..]);
    }
  }

  /** `list_sessions`: the sessions of a project with main entries. */
  function ListSessions(db: Db, project: string): set<string> {
    set key <- db.rows | key.project == project && key.subpath == "" && db.rows[key] != map[] :: key.session
  }

  /** `list_session_summaries`, by session. */
  function ListSummaries(db: Db, project: string): set<string> {
    set owner <- db.summaries | owner.0 == project :: owner.1
  }

  /** So on every such run the fast listing names exactly the sessions of the slow one. */
  lemma ListingsAgree(es: seq<Event>, project: string)
    requires NonEmptyAppends(es) && DeletesWholeOrPart(es)
    ensures ListSummaries(ApplyAll(EMPTY, es), project) == ListSessions(ApplyAll(EMPTY, es), project)
  {
    var db := ApplyAll(EMPTY, es);
    EveryStateIsConsistent(EMPTY, es);
    SummaryMeansEntries(EMPTY, es);
    forall session: string
      ensures session in ListSummaries(db, project) <==> session in ListSessions(db, project)
    {
      var key := Key(project, session, "");
      assert key in db.rows <==> (project, session) in db.summaries;
    }
  }

  /** One delete keeps that up exactly if it gives no subpath or a part's name, or the session
      has no summary to leave behind. */
  lemma DeleteKeepsSummariesWithEntries(db: Db, project: string, session: string, subpath: Subpath)
    requires SummariesHaveEntries(db)
    ensures SummariesHaveEntries(Apply(db, Delete(project, session, subpath))) <==>
      subpath.Absent? || (subpath.Given? && subpath.name != "") || (project, session) !in db.summaries
  {
    var r := Apply(db, Delete(project, session, subpath));
    if !subpath.Absent? && !(subpath.Given? && subpath.name != "") && (project, session) in db.summaries {
      assert (project, session) in r.summaries && Key(project, session, "") !in r.rows;
    }
  }

  /** A null subpath, or an empty one, leaves the summary behind; the empty one also takes the
      rows of every part. */
  lemma SummaryLeftBehind(db: Db, project: string, session: string, subpath: Subpath)
    requires (project, session) in db.summaries && (subpath == Null || subpath == Given(""))
    ensures var r := Apply(db, Delete(project, session, subpath));
      && (project, session) in r.summaries && session in ListSummaries(r, project)
      && session !in ListSessions(r, project)
      && (subpath == Given("") ==> forall key <- r.rows :: !(key.project == project && key.session == session))
  {
    var r := Apply(db, Delete(project, session, subpath));
    assert Key(project, session, "") !in r.rows;
  }

  // ---------------------------------------------------------------- rows over runs

  /** No event of `es` deletes the rows of `key`. */
  predicate Spares(es: seq<Event>, key: Key) {
    forall e <- es :: e.Delete? ==> !Deletes(e.project, e.session, e.subpath, key)
  }

  /** Whatever else happens, stored rows stay what and where they are until their key is deleted. */
  lemma {:induction false} RowsSurvive(db: Db, es: seq<Event>, key: Key)
    requires Spares(es, key)
    ensures forall s <- Rows(db, key) ::
      s in Rows(ApplyAll(db, es), key) && Rows(ApplyAll(db, es), key)[s] == Rows(db, key)[s]
    decreases |es|
  {
    if es != [] {
      hide InsertAll;
      var e := es[0];
      assert e in es;
      if e.Append? && e.key == key && InsertAll(Rows(db, key), e.start, e.entries, e.now).Some? {
        InsertKeepsRows(Rows(db, key), e.start, e.entries, e.now);
      }
      RowsSurvive(Apply(db, e), es[1..], key);
    }
  }

  /** So the rows of a committed append keep the order of the batch on every later run: a row
      still has the entry whose place in the batch its number says. */
  lemma AppendedRowsKeepTheirOrder(db: Db, key: Key, start: nat, entries: seq<Entry>, now: int, es: seq<Event>)
    requires InsertAll(Rows(db, key), start, entries, now).Some? && Spares(es, key)
    ensures var r := InsertAll(Rows(db, key), start, entries, now).value;
      var t := Rows(ApplyAll(Apply(db, Append(key, start, entries, now)), es), key);
      forall s <- r | s !in Rows(db, key) ::
        start <= s < start + |entries| && s in t && t[s] == Row(entries[s - start], now)
  {
    hide InsertAll, ApplyAll;
    InsertKeepsRows(Rows(db, key), start, entries, now);
    RowsSurvive(Apply(db, Append(key, start, entries, now)), es, key);
  }

  /** And appending the batch again after any such run changes no row, if its entries have uuids. */
  lemma ReappendLaterChangesNothing(db: Db, key: Key, start: nat, entries: seq<Entry>, now: int,
      es: seq<Event>, start': nat, now': int)
    requires InsertAll(Rows(db, key), start, entries, now).Some? && Spares(es, key)
    requires forall e <- entries :: UuidOf(e).Some?
    ensures var later := ApplyAll(Apply(db, Append(key, start, entries, now)), es);
      Rows(Apply(later, Append(key, start', entries, now')), key) == Rows(later, key)
  {
    hide InsertAll, ApplyAll;
    var next := Apply(db, Append(key, start, entries, now));
    var later := ApplyAll(next, es);
    InsertMakesPresent(Rows(db, key), start, entries, now);
    RowsSurvive(next, es, key);
    forall e <- entries
      ensures Present(Rows(later, key), e)
    {
      var s :| s in Rows(next, key) && UuidOf(Rows(next, key)[s].entry) == UuidOf(e);
      assert s in Rows(later, key) && UuidOf(Rows(later, key)[s].entry) == UuidOf(e);
    }
    KnownEntriesAreSkipped(Rows(later, key), start', entries, now');
  }

  // ---------------------------------------------------------------- retrying

  predicate AddsRow(db: Db, e: Event, key: Key) {
    && e.Append? && e.key == key
    && InsertAll(Rows(db, key), e.start, e.entries, e.now).Some?
    && InsertAll(Rows(db, key), e.start, e.entries, e.now).value != Rows(db, key)
  }

  /** Some event of `es` commits a row under `key`. */
  predicate RowCommitted(db: Db, es: seq<Event>, key: Key)
    decreases |es|
  {
    es != [] && (AddsRow(db, es[0], key) || RowCommitted(Apply(db, es[0]), es[1..], key))
  }

  lemma {:induction false} NoCommitKeepsAbove(db: Db, es: seq<Event>, key: Key, n: nat)
    requires Above(Rows(db, key), n) && !RowCommitted(db, es, key)
    ensures Above(Rows(ApplyAll(db, es), key), n)
    decreases |es|
  {
    if es != [] {
      NoCommitKeepsAbove(Apply(db, es[0]), es[1..], key, n);
    }
  }

  /** An attempt aborts only if another append to the same key committed a row between its read
      and its insert; an aborted attempt leaves the database as it is. */
  lemma AbortMeansAnotherCommit(db: Db, es: seq<Event>, key: Key, entries: seq<Entry>, now: int)
    requires var start := NextSeq(Rows(db, key));
      Commit(ApplyAll(db, es), key, start, entries, now).None?
    ensures RowCommitted(db, es, key)
    ensures Apply(ApplyAll(db, es), Append(key, NextSeq(Rows(db, key)), entries, now)) == ApplyAll(db, es)
  {
    var start := NextSeq(Rows(db, key));
    if !RowCommitted(db, es, key) {
      NoCommitKeepsAbove(db, es, key, start);
      InsertBehindAppends(Rows(ApplyAll(db, es), key), start, entries, now);
    }
  }

  /** What happens while attempt `k` sleeps after its abort; the last one does not sleep. */
  function Pause(pauses: seq<seq<Event>>, k: nat): seq<Event> {
    if k < |pauses| then pauses[k] else []
  }

  /** `append` from attempt `attempt` on: `others[k]` happens between the read and the insert of
      attempt `k`, `pauses[k]` between its abort and the next read. The flag tells whether the
      batch was stored. */
  ghost function Attempts(db: Db, key: Key, entries: seq<Entry>, now: int,
      others: seq<seq<Event>>, pauses: seq<seq<Event>>, attempt: nat): (Db, bool)
    requires |others| == MAX_APPEND_RETRY && attempt <= MAX_APPEND_RETRY
    decreases MAX_APPEND_RETRY - attempt
  {
    if attempt == MAX_APPEND_RETRY then (db, false)
    else
      var between := ApplyAll(db, others[attempt]);
      match Commit(between, key, NextSeq(Rows(db, key)), entries, now)
      case Some(r) => (r, true)
      case None => Attempts(ApplyAll(between, Pause(pauses, attempt)), key, entries, now, others, pauses, attempt + 1)
  }

  /** The database when attempt `k` reads, had all attempts before it failed. */
  function Before(db: Db, others: seq<seq<Event>>, pauses: seq<seq<Event>>, from: nat, k: nat): Db
    requires from <= k <= |others|
    decreases k
  {
    if k == from then db
    else ApplyAll(ApplyAll(Before(db, others, pauses, from, k - 1), others[k - 1]), Pause(pauses, k - 1))
  }

  lemma {:induction false} BeforeShifts(db: Db, others: seq<seq<Event>>, pauses: seq<seq<Event>>, from: nat, k: nat)
    requires from < k <= |others|
    ensures Before(db, others, pauses, from, k) ==
            Before(ApplyAll(ApplyAll(db, others[from]), Pause(pauses, from)), others, pauses, from + 1, k)
    decreases k
  {
    hide ApplyAll, Pause;
    if k > from + 1 {
      BeforeShifts(db, others, pauses, from, k - 1);
    }
  }

  /** Giving up takes sixteen row commits by others, one between the read and the insert of each
      attempt; and the given-up append leaves nothing of its own. */
  lemma {:induction false} GivesUpOnlyUnderContention(db: Db, key: Key, entries: seq<Entry>, now: int,
      others: seq<seq<Event>>, pauses: seq<seq<Event>>, attempt: nat)
    requires |others| == MAX_APPEND_RETRY && attempt <= MAX_APPEND_RETRY
    requires !Attempts(db, key, entries, now, others, pauses, attempt).1
    ensures forall k :: attempt <= k < 16 ==>
      RowCommitted(Before(db, others, pauses, attempt, k), others[k], key)
    ensures Attempts(db, key, entries, now, others, pauses, attempt).0 ==
            Before(db, others, pauses, attempt, MAX_APPEND_RETRY)
    decreases MAX_APPEND_RETRY - attempt
  {
    if attempt < MAX_APPEND_RETRY {
      hide ApplyAll, Pause, RowCommitted, Commit;
      AbortMeansAnotherCommit(db, others[attempt], key, entries, now);
      var next := ApplyAll(ApplyAll(db, others[attempt]), Pause(pauses, attempt));
      GivesUpOnlyUnderContention(next, key, entries, now, others, pauses, attempt + 1);
      forall k | attempt < k <= MAX_APPEND_RETRY
        ensures Before(db, others, pauses, attempt, k) == Before(next, others, pauses, attempt + 1, k)
      {
        BeforeShifts(db, others, pauses, attempt, k);
      }
    }
  }

  /** The non-empty uuids of some rows. */
  function KnownUuids(t: Table): set<string> {
    set s <- t | t[s].entry.uuid.Some? && t[s].entry.uuid != Some("") :: t[s].entry.uuid.value
  }

  /** The entries of a batch that are new when the uuids in `known` are stored: those without a
      uuid, and of those with one the first with each uuid not yet known. */
  function NewEntries(known: set<string>, entries: seq<Entry>): seq<Entry>
    decreases |entries|
  {
    if entries == [] then []
    else if entries[0].uuid == None || entries[0].uuid == Some("") then
      [entries[0]] + NewEntries(known, entries[1..])
    else if entries[0].uuid.value in known then NewEntries(known, entries[1..])
    else [entries[0]] + NewEntries(known + {entries[0].uuid.value}, entries[1..])
  }

  lemma OneMoreUuid(t: Table, start: nat, row: Row)
    requires start !in t
    ensures KnownUuids(t[start := row]) == KnownUuids(t) +
      if row.entry.uuid == None || row.entry.uuid == Some("") then {} else {row.entry.uuid.value}
  {
    var r := t[start := row];
    forall u
      ensures u in KnownUuids(r) <==> u in KnownUuids(t) || (UuidOf(row.entry) == Some(u))
    {
      if u in KnownUuids(t) {
        var s :| s in t && t[s].entry.uuid == Some(u) && u != "";
        assert r[s] == t[s];
      }
      if UuidOf(row.entry) == Some(u) {
        assert r[start] == row;
      }
    }
  }

  lemma PresentMeansKnown(t: Table, e: Entry)
    ensures Present(t, e) <==> e.uuid.Some? && e.uuid != Some("") && e.uuid.value in KnownUuids(t)
  {
  }

  /** What an insert stores is what is new. */
  lemma {:induction false} FreshIsNew(t: Table, start: nat, entries: seq<Entry>, now: int)
    requires Above(t, start)
    ensures Fresh(t, start, entries, now) == NewEntries(KnownUuids(t), entries)
    decreases |entries|
  {
    if entries != [] {
      PresentMeansKnown(t, entries[0]);
      if Present(t, entries[0]) {
        FreshIsNew(t, start + 1, entries[1..], now);
      } else {
        var row := Row(entries[0], now);
        OneMoreUuid(t, start, row);
        FreshIsNew(t[start := row], start + 1, entries[1..], now);
        hide Present, KnownUuids;
        assert KnownUuids(t) + {} == KnownUuids(t);
      }
    }
  }

  /** The entry is among the rows, or one with its uuid is. */
  predicate IsStored(t: Table, e: Entry) {
    exists s <- t :: t[s].entry == e || (e.uuid.Some? && e.uuid != Some("") && t[s].entry.uuid == e.uuid)
  }

  lemma {:induction false} InsertStoresAll(t: Table, start: nat, entries: seq<Entry>, now: int)
    requires InsertAll(t, start, entries, now).Some?
    ensures forall e <- entries :: IsStored(InsertAll(t, start, entries, now).value, e)
    decreases |entries|
  {
    if entries != [] {
      var more := if Present(t, entries[0]) then t else t[start := Row(entries[0], now)];
      assert IsStored(more, entries[0]) by {
        assert !Present(t, entries[0]) ==> start in more && more[start].entry == entries[0];
      }
      InsertKeepsRows(more, start + 1, entries[1..], now);
      InsertStoresAll(more, start + 1, entries[1..], now);
      var r := InsertAll(t, start, entries, now).value;
      var s :| s in more && (more[s].entry == entries[0] ||
        (entries[0].uuid.Some? && entries[0].uuid != Some("") && more[s].entry.uuid == entries[0].uuid));
      assert s in r && r[s] == more[s];
    }
  }

  /** An append that reports success has stored its batch, whatever others did meanwhile. */
  lemma {:induction false} SuccessStoresAll(db: Db, key: Key, entries: seq<Entry>, now: int,
      others: seq<seq<Event>>, pauses: seq<seq<Event>>, attempt: nat)
    requires |others| == MAX_APPEND_RETRY && attempt <= MAX_APPEND_RETRY
    requires Attempts(db, key, entries, now, others, pauses, attempt).1
    ensures forall e <- entries :: IsStored(Rows(Attempts(db, key, entries, now, others, pauses, attempt).0, key), e)
    decreases MAX_APPEND_RETRY - attempt
  {
    hide ApplyAll, Pause, IsStored, InsertAll, NextSeq;
    var between := ApplyAll(db, others[attempt]);
    match Commit(between, key, NextSeq(Rows(db, key)), entries, now)
    case Some(_) => InsertStoresAll(Rows(between, key), NextSeq(Rows(db, key)), entries, now);
    case None =>
      SuccessStoresAll(ApplyAll(between, Pause(pauses, attempt)), key, entries, now, others, pauses, attempt + 1);
  }

  /** An append that nobody comes between succeeds at once and touches one transcript: the new
      entries go behind the old ones, and a main transcript's summary is folded on. */
  lemma UndisturbedAppend(db: Db, key: Key, entries: seq<Entry>, now: int, others: seq<seq<Event>>,
      pauses: seq<seq<Event>>)
    requires |others| == MAX_APPEND_RETRY && others[0] == []
    ensures var (r, ok) := Attempts(db, key, entries, now, others, pauses, 0);
      && ok
      && (forall other: Key :: other != key ==> Rows(r, other) == Rows(db, other))
      && Load(Rows(r, key)) == Load(Rows(db, key)) + NewEntries(KnownUuids(Rows(db, key)), entries)
      && r.summaries ==
           if key.subpath != "" then db.summaries
           else db.summaries[(key.project, key.session) :=
                  Summary(now, Folded(db, key.project, key.session) + entries)]
  {
    hide Load, NextSeq, InsertAll, Fresh, NewEntries, KnownUuids;
    var t := Rows(db, key);
    InsertBehindAppends(t, NextSeq(t), entries, now);
    FreshIsNew(t, NextSeq(t), entries, now);
    assert ApplyAll(db, others[0]) == db;
  }

  // ---------------------------------------------------------------- summary and transcript

  /** No entry of the batch is known, and no two share a uuid. */
  predicate NoDuplicates(t: Table, entries: seq<Entry>) {
    && (forall e <- entries :: !Present(t, e))
    && (forall i, k :: 0 <= i < k < |entries| ==> UuidOf(entries[i]).Some? ==> UuidOf(entries[i]) != UuidOf(entries[k]))
  }

  lemma {:induction false} NoDuplicatesMeansAllFresh(t: Table, start: nat, entries: seq<Entry>, now: int)
    requires NoDuplicates(t, entries) && Above(t, start)
    ensures Fresh(t, start, entries, now) == entries
    decreases |entries|
  {
    if entries != [] {
      FewerDuplicates(t, start, entries, now);
      NoDuplicatesMeansAllFresh(t[start := Row(entries[0], now)], start + 1, entries[1..], now);
    }
  }

  /** An append in flight: it has read `start` and not yet inserted. */
  datatype InFlight = InFlight(key: Key, start: nat, entries: seq<Entry>, now: int)

  datatype System = System(db: Db, pending: map<nat, InFlight>)

  datatype Action =
    | Read(client: nat, key: Key, entries: seq<Entry>, now: int)
    | Finish(client: nat)
    | Remove(project: string, session: string, subpath: Subpath)

  predicate Possible(s: System, a: Action) {
    match a
    case Read(c, _, entries, _) => c !in s.pending && entries != []
    case Finish(c) => c in s.pending
    case Remove(_, _, _) => true
  }

  ghost function Act(s: System, a: Action): System
    requires Possible(s, a)
  {
    match a
    case Read(c, key, entries, now) =>
      s.(pending := s.pending[c := InFlight(key, NextSeq(Rows(s.db, key)), entries, now)])
    case Finish(c) =>
      var p := s.pending[c];
      System(Apply(s.db, Append(p.key, p.start, p.entries, p.now)), s.pending - {c})
    case Remove(project, session, subpath) => s.(db := DeleteRows(s.db, project, session, subpath))
  }

  /** No duplicate uuids; and a delete gives no subpath or a part's name, and does not delete a
      session while an append to its main transcript is in flight. */
  predicate Orderly(s: System, a: Action)
    requires Possible(s, a)
  {
    match a
    case Read(_, _, _, _) => true
    case Finish(c) => NoDuplicates(Rows(s.db, s.pending[c].key), s.pending[c].entries)
    case Remove(project, session, subpath) =>
      || (subpath.Given? && subpath.name != "")
      || (subpath.Absent? &&
          forall c <- s.pending :: s.pending[c].key != Key(project, session, ""))
  }

  ghost predicate OrderlyRun(s: System, acts: seq<Action>)
    decreases |acts|
  {
    acts == [] || (Possible(s, acts[0]) && Orderly(s, acts[0]) && OrderlyRun(Act(s, acts[0]), acts[1..]))
  }

  ghost predicate IsRun(s: System, acts: seq<Action>)
    decreases |acts|
  {
    acts == [] || (Possible(s, acts[0]) && IsRun(Act(s, acts[0]), acts[1..]))
  }

  ghost function ActAll(s: System, acts: seq<Action>): System
    requires IsRun(s, acts)
    decreases |acts|
  {
    if acts == [] then s else ActAll(Act(s, acts[0]), acts[1..])
  }

  lemma {:induction false} OrderlyRunsAreRuns(s: System, acts: seq<Action>)
    requires OrderlyRun(s, acts)
    ensures IsRun(s, acts)
    decreases |acts|
  {
    if acts != [] { OrderlyRunsAreRuns(Act(s, acts[0]), acts[1..]); }
  }

  ghost predicate Gapless(t: Table, n: nat) {
    forall i: nat :: i < n <==> i in t
  }

  function Folded(db: Db, project: string, session: string): seq<Entry> {
    if (project, session) in db.summaries then db.summaries[(project, session)].folded else []
  }

  /** Each summary holds the fold over the loaded main transcript. */
  ghost predicate SummariesAgree(db: Db) {
    forall project: string, session: string ::
      Folded(db, project, session) == Load(Rows(db, Key(project, session, "")))
  }

  ghost predicate InStep(s: System) {
    && SummariesAgree(s.db)
    && (forall key: Key :: key.subpath == "" ==> Gapless(Rows(s.db, key), NextSeq(Rows(s.db, key))))
    && (forall c <- s.pending :: s.pending[c].key.subpath == "" ==>
          s.pending[c].start <= NextSeq(Rows(s.db, s.pending[c].key)) && s.pending[c].entries != [])
  }

  lemma EmptyTable()
    ensures NextSeq(map[]) == 0 && Load(map[]) == []
  {
    var t: Table := map[];
    assert NextSeq(t) == 0;
  }

  lemma NextSeqIs(t: Table, n: nat)
    requires Gapless(t, n)
    ensures NextSeq(t) == n
  {
    assert n > 0 ==> n - 1 in t;
    assert NextSeq(t) > 0 ==> NextSeq(t) - 1 in t;
  }

  lemma {:induction false} GaplessInsert(t: Table, start: nat, entries: seq<Entry>, now: int)
    requires Gapless(t, start) && NoDuplicates(t, entries)
    ensures InsertAll(t, start, entries, now).Some?
    ensures Gapless(InsertAll(t, start, entries, now).value, start + |entries|)
    decreases |entries|
  {
    if entries != [] {
      var t' := t[start := Row(entries[0], now)];
      assert Gapless(t', start + 1);
      FewerDuplicates(t, start, entries, now);
      GaplessInsert(t', start + 1, entries[1..], now);
    }
  }

  lemma FewerDuplicates(t: Table, start: nat, entries: seq<Entry>, now: int)
    requires entries != [] && NoDuplicates(t, entries)
    ensures NoDuplicates(t[start := Row(entries[0], now)], entries[1..])
  {
    var t' := t[start := Row(entries[0], now)];
    var rest := entries[1..];
    forall k | 0 <= k < |rest|
      ensures !Present(t', rest[k])
    {
      assert rest[k] == entries[k + 1] && entries[k + 1] in entries;
      assert UuidOf(entries[0]).Some? ==> UuidOf(entries[0]) != UuidOf(entries[k + 1]);
      assert forall s <- t' :: s == start || (s in t && t'[s] == t[s]);
    }
  }

  /** Without gaps and duplicates an attempt that succeeds had read the current next number:
      a smaller one is taken. */
  lemma OrderlyInsert(t: Table, start: nat, entries: seq<Entry>, now: int)
    requires Gapless(t, NextSeq(t)) && start <= NextSeq(t) && entries != [] && NoDuplicates(t, entries)
    requires InsertAll(t, start, entries, now).Some?
    ensures var r := InsertAll(t, start, entries, now).value;
      Load(r) == Load(t) + entries && Gapless(r, NextSeq(r)) && NextSeq(r) >= NextSeq(t)
  {
    assert entries[0] in entries;
    assert start == NextSeq(t);
    InsertBehindAppends(t, start, entries, now);
    NoDuplicatesMeansAllFresh(t, start, entries, now);
    GaplessInsert(t, start, entries, now);
    NextSeqIs(InsertAll(t, start, entries, now).value, start + |entries|);
  }

  /** What an append does to each transcript and each summary. */
  lemma AppendChanges(db: Db, p: InFlight)
    ensures var r := Apply(db, Append(p.key, p.start, p.entries, p.now));
      match InsertAll(Rows(db, p.key), p.start, p.entries, p.now)
      case None => r == db
      case Some(t) =>
        && (forall key: Key :: Rows(r, key) == if key == p.key then t else Rows(db, key))
        && (forall project: string, session: string :: Folded(r, project, session) ==
              Folded(db, project, session) + if p.key == Key(project, session, "") then p.entries else [])
  {
    hide InsertAll;
  }

  lemma FinishKeepsInStep(s: System, c: nat)
    requires InStep(s) && Possible(s, Finish(c)) && Orderly(s, Finish(c))
    ensures InStep(Act(s, Finish(c)))
  {
    hide InsertAll, Load, NextSeq, NoDuplicates, Gapless, Rows, Folded, Apply;
    var p := s.pending[c];
    AppendChanges(s.db, p);
    if p.key.subpath == "" && InsertAll(Rows(s.db, p.key), p.start, p.entries, p.now).Some? {
      OrderlyInsert(Rows(s.db, p.key), p.start, p.entries, p.now);
    }
  }

  lemma RemoveKeepsInStep(s: System, project: string, session: string, subpath: Subpath)
    requires InStep(s) && Orderly(s, Remove(project, session, subpath))
    ensures InStep(Act(s, Remove(project, session, subpath)))
  {
    var r := Act(s, Remove(project, session, subpath));
    EmptyTable();
    forall p: string, q: string
      ensures Folded(r.db, p, q) == Load(Rows(r.db, Key(p, q, "")))
    {
      assert Folded(s.db, p, q) == Load(Rows(s.db, Key(p, q, "")));
      assert Rows(r.db, Key(p, q, "")) ==
        if subpath.Absent? && p == project && q == session then map[] else Rows(s.db, Key(p, q, ""));
    }
    forall key: Key | key.subpath == ""
      ensures Gapless(Rows(r.db, key), NextSeq(Rows(r.db, key)))
    {
      assert Rows(r.db, key) == map[] || Rows(r.db, key) == Rows(s.db, key);
    }
    forall c <- r.pending | r.pending[c].key.subpath == ""
      ensures r.pending[c].start <= NextSeq(Rows(r.db, r.pending[c].key)) && r.pending[c].entries != []
    {
      assert Rows(r.db, r.pending[c].key) == Rows(s.db, r.pending[c].key);
    }
  }

  /** On an orderly run each summary is the left fold over the entries its transcript loads. */
  lemma {:induction false} SummaryIsTheFold(s: System, acts: seq<Action>)
    requires InStep(s) && OrderlyRun(s, acts)
    ensures IsRun(s, acts) && InStep(ActAll(s, acts))
    decreases |acts|
  {
    if acts != [] {
      match acts[0] {
        case Read(_, _, _, _) =>
        case Finish(c) => FinishKeepsInStep(s, c);
        case Remove(project, session, subpath) => RemoveKeepsInStep(s, project, session, subpath);
      }
      SummaryIsTheFold(Act(s, acts[0]), acts[1..]);
    }
  }

  lemma StartsInStep()
    ensures InStep(System(EMPTY, map[]))
  {
    EmptyTable();
  }

  /** So on every orderly run from the empty store. */
  lemma EverySummaryIsTheFold(acts: seq<Action>, project: string, session: string)
    requires OrderlyRun(System(EMPTY, map[]), acts)
    ensures IsRun(System(EMPTY, map[]), acts)
    ensures var db := ActAll(System(EMPTY, map[]), acts).db;
      Folded(db, project, session) == Load(Rows(db, Key(project, session, "")))
  {
    hide OrderlyRun, Act, Load;
    StartsInStep();
    SummaryIsTheFold(System(EMPTY, map[]), acts);
  }

  lemma {:induction false} LoadedEntriesAreRows(t: Table, n: nat, e: Entry)
    requires e in LoadBelow(t, n)
    ensures exists s <- t :: t[s].entry == e
  {
    if n - 1 in t && t[n - 1].entry == e {
    } else {
      LoadedEntriesAreRows(t, n - 1, e);
    }
  }

  lemma {:induction false} LoadBelowStarts(t: Table, n: nat, m: nat)
    requires n <= m
    ensures LoadBelow(t, n) <= LoadBelow(t, m)
    decreases m
  {
    if n < m {
      LoadBelowStarts(t, n, m - 1);
    }
  }

  /** The entries of the rows from `n` up to `m`. */
  function LoadFrom(t: Table, n: nat, m: nat): seq<Entry>
    requires n <= m
  {
    if n == m then [] else LoadFrom(t, n, m - 1) + if m - 1 in t then [t[m - 1].entry] else []
  }

  lemma {:induction false} LoadSplits(t: Table, n: nat, m: nat)
    requires n <= m
    ensures LoadBelow(t, m) == LoadBelow(t, n) + LoadFrom(t, n, m)
    decreases m
  {
    if n < m {
      LoadSplits(t, n, m - 1);
    }
  }

  lemma {:induction false} LoadFromAgrees(t: Table, r: Table, n: nat, m: nat)
    requires n <= m
    requires forall s | n <= s < m :: (s in t <==> s in r) && (s in t ==> t[s].entry == r[s].entry)
    ensures LoadFrom(t, n, m) == LoadFrom(r, n, m)
    decreases m
  {
    if n < m {
      LoadFromAgrees(t, r, n, m - 1);
    }
  }

  lemma {:induction false} FirstOfLoadFrom(t: Table, n: nat, m: nat)
    requires n < m
    ensures LoadFrom(t, n, m) == (if n in t then [t[n].entry] else []) + LoadFrom(t, n + 1, m)
    decreases m
  {
    if n + 1 < m {
      FirstOfLoadFrom(t, n, m - 1);
    }
  }

  lemma LoadBelowWith(t: Table, s: nat, row: Row, n: nat)
    requires s !in t && s < n
    ensures |LoadBelow(t[s := row], n)| == |LoadBelow(t, n)| + 1
  {
    var r := t[s := row];
    LoadSplits(t, s, n);
    LoadSplits(r, s, n);
    LoadBelowAgrees(t, r, s);
    FirstOfLoadFrom(t, s, n);
    FirstOfLoadFrom(r, s, n);
    LoadFromAgrees(t, r, s + 1, n);
  }

  /** Fresh entries land together at `start`, before whatever is stored further up. */
  lemma {:induction false} InsertInTheMiddle(t: Table, start: nat, entries: seq<Entry>, now: int, n: nat)
    requires InsertAll(t, start, entries, now).Some? && NoDuplicates(t, entries) && start + |entries| <= n
    ensures LoadBelow(InsertAll(t, start, entries, now).value, n) ==
            LoadBelow(t, start) + entries + LoadFrom(t, start, n)
    decreases |entries|
  {
    if entries == [] {
      LoadSplits(t, start, n);
    } else {
      FewerDuplicates(t, start, entries, now);
      FirstIsInserted(t, start, entries, now);
      hide InsertAll, NoDuplicates;
      var t' := t[start := Row(entries[0], now)];
      InsertInTheMiddle(t', start + 1, entries[1..], now, n);
      WithOneMore(t, start, Row(entries[0], now), n);
      hide LoadBelow, LoadFrom;
      var low, high := LoadBelow(t, start), LoadFrom(t, start, n);
      assert low + [entries[0]] + entries[1..] + high == low + entries + high;
    }
  }

  lemma FirstIsInserted(t: Table, start: nat, entries: seq<Entry>, now: int)
    requires entries != [] && InsertAll(t, start, entries, now).Some? && NoDuplicates(t, entries)
    ensures start !in t
    ensures InsertAll(t, start, entries, now) ==
      InsertAll(t[start := Row(entries[0], now)], start + 1, entries[1..], now)
  {
    assert entries[0] in entries;
  }

  lemma WithOneMore(t: Table, start: nat, row: Row, n: nat)
    requires start !in t && start < n
    ensures LoadBelow(t[start := row], start + 1) == LoadBelow(t, start) + [row.entry]
    ensures LoadFrom(t[start := row], start + 1, n) == LoadFrom(t, start, n)
  {
    var r := t[start := row];
    LoadBelowAgrees(t, r, start);
    FirstOfLoadFrom(t, start, n);
    LoadFromAgrees(t, r, start + 1, n);
  }

  lemma {:induction false} InsertCounts(t: Table, start: nat, entries: seq<Entry>, now: int, n: nat)
    requires InsertAll(t, start, entries, now).Some? && start + |entries| <= n
    ensures |LoadBelow(InsertAll(t, start, entries, now).value, n)| ==
      |LoadBelow(t, n)| + |Fresh(t, start, entries, now)|
    decreases |entries|
  {
    if entries != [] {
      if Present(t, entries[0]) {
        InsertCounts(t, start + 1, entries[1..], now, n);
      } else {
        LoadBelowWith(t, start, Row(entries[0], now), n);
        InsertCounts(t[start := Row(entries[0], now)], start + 1, entries[1..], now, n);
      }
    }
  }

  lemma {:induction false} FreshIsNoLonger(t: Table, start: nat, entries: seq<Entry>, now: int)
    ensures |Fresh(t, start, entries, now)| <= |entries|
    decreases |entries|
  {
    if entries != [] {
      FreshIsNoLonger(if Present(t, entries[0]) then t else t[start := Row(entries[0], now)], start + 1,
                      entries[1..], now);
    }
  }

  lemma {:induction false} AllFreshMeansNoDuplicates(t: Table, start: nat, entries: seq<Entry>, now: int)
    requires InsertAll(t, start, entries, now).Some?
    requires |Fresh(t, start, entries, now)| == |entries|
    ensures NoDuplicates(t, entries)
    decreases |entries|
  {
    if entries != [] {
      var t' := t[start := Row(entries[0], now)];
      FreshIsNoLonger(t, start + 1, entries[1..], now);
      AllFreshMeansNoDuplicates(t', start + 1, entries[1..], now);
      forall k | 0 <= k < |entries|
        ensures !Present(t, entries[k])
        ensures k > 0 && UuidOf(entries[0]).Some? ==> UuidOf(entries[0]) != UuidOf(entries[k])
      {
        if k > 0 {
          assert entries[k] == entries[1..][k - 1] && !Present(t', entries[k]);
          assert t'[start].entry == entries[0];
          assert forall s <- t :: s in t' && t'[s] == t[s];
        }
      }
      assert forall i, k :: 0 < i < k < |entries| ==>
        entries[i] == entries[1..][i - 1] && entries[k] == entries[1..][k - 1];
    }
  }

  /** One commit keeps summary and transcript together exactly when nothing in the batch is a
      duplicate and the batch may stand on either side of the rows stored at or above the number
      it read. */
  lemma CommitKeepsTheFold(t: Table, start: nat, entries: seq<Entry>, now: int, n: nat)
    requires InsertAll(t, start, entries, now).Some? && Above(t, n) && start + |entries| <= n
    ensures Load(InsertAll(t, start, entries, now).value) == Load(t) + entries <==>
      NoDuplicates(t, entries) && entries + LoadFrom(t, start, n) == LoadFrom(t, start, n) + entries
  {
    hide InsertAll, NoDuplicates, LoadBelow, LoadFrom;
    var r := InsertAll(t, start, entries, now).value;
    InsertKeepsRows(t, start, entries, now);
    LoadIsBelow(t, n);
    LoadIsBelow(r, n);
    LoadSplits(t, start, n);
    var low, high := LoadBelow(t, start), LoadFrom(t, start, n);
    if NoDuplicates(t, entries) {
      InsertInTheMiddle(t, start, entries, now, n);
      assert low + entries + high == low + (entries + high);
      assert low + high + entries == low + (high + entries);
      if low + (entries + high) == low + (high + entries) {
        SameBehind(low, entries + high, high + entries);
      }
    } else if Load(r) == Load(t) + entries {
      InsertCounts(t, start, entries, now, n);
      AllFreshMeansNoDuplicates(t, start, entries, now);
      assert false;
    }
  }

  lemma SameBehind(low: seq<Entry>, a: seq<Entry>, b: seq<Entry>)
    requires low + a == low + b
    ensures a == b
  {
    assert (low + a)[|low|..] == a && (low + b)[|low|..] == b;
  }

  /** If the first entry has a uuid, that means that the number read is above every stored row. */
  lemma CommitWithUuidKeepsTheFold(t: Table, start: nat, entries: seq<Entry>, now: int)
    requires InsertAll(t, start, entries, now).Some? && entries != [] && UuidOf(entries[0]).Some?
    ensures Load(InsertAll(t, start, entries, now).value) == Load(t) + entries <==>
      NoDuplicates(t, entries) && Above(t, start)
  {
    hide InsertAll, LoadBelow;
    var n := NextSeq(t) + start + |entries|;
    var high := LoadFrom(t, start, n);
    CommitKeepsTheFold(t, start, entries, now, n);
    LoadSplits(t, start, n);
    if Above(t, start) {
      NothingLoadedAbove(t, start, n);
      assert entries + [] == entries == [] + entries;
    } else if NoDuplicates(t, entries) {
      SomethingLoadedAbove(t, start, n);
      NewAboveOld(t, start, entries, n);
      assert (entries + high)[0] == entries[0] && (high + entries)[0] == high[0];
    }
  }

  /** A new first entry differs from the first one stored above it. */
  lemma NewAboveOld(t: Table, start: nat, entries: seq<Entry>, n: nat)
    requires NoDuplicates(t, entries) && entries != [] && UuidOf(entries[0]).Some?
    requires start <= n && LoadFrom(t, start, n) != []
    ensures entries[0] != LoadFrom(t, start, n)[0]
  {
    var high := LoadFrom(t, start, n);
    LoadSplits(t, start, n);
    assert high[0] in LoadBelow(t, n) by { assert (LoadBelow(t, start) + high)[|LoadBelow(t, start)|] == high[0]; }
    LoadedEntriesAreRows(t, n, high[0]);
    assert !Present(t, entries[0]) by { assert entries[0] in entries; }
  }

  lemma {:induction false} NothingLoadedAbove(t: Table, start: nat, n: nat)
    requires Above(t, start) && start <= n
    ensures LoadFrom(t, start, n) == []
    decreases n
  {
    if start < n {
      NothingLoadedAbove(t, start, n - 1);
    }
  }

  lemma {:induction false} SomethingLoadedAbove(t: Table, start: nat, n: nat)
    requires !Above(t, start) && Above(t, n) && start <= n
    ensures LoadFrom(t, start, n) != []
    decreases n
  {
    if n - 1 !in t {
      SomethingLoadedAbove(t, start, n - 1);
    }
  }

  lemma FinishMain(s: System, c: nat, t: Table)
    requires c in s.pending && s.pending[c].key.subpath == ""
    requires var p := s.pending[c]; InsertAll(Rows(s.db, p.key), p.start, p.entries, p.now) == Some(t)
    ensures var p := s.pending[c]; var r := Act(s, Finish(c));
      && Rows(r.db, p.key) == t && r.pending == s.pending - {c}
      && Folded(r.db, p.key.project, p.key.session) == Folded(s.db, p.key.project, p.key.session) + p.entries
      && r.db.rows.Keys == s.db.rows.Keys + {p.key}
      && r.db.summaries.Keys == s.db.summaries.Keys + {(p.key.project, p.key.session)}
  {
    hide InsertAll;
  }

  lemma ActAfterOne(s: System, a: Action, acts: seq<Action>)
    requires Possible(s, a) && IsRun(Act(s, a), acts)
    ensures IsRun(s, [a] + acts) && ActAll(s, [a] + acts) == ActAll(Act(s, a), acts)
  {
    assert ([a] + acts)[1..] == acts;
  }

  /** A first append, and then an append that has read and not yet inserted when the session is deleted. */
  lemma DeletedInFlight(project: string, session: string, x: Entry, a: Entry, b: Entry)
    ensures var key := Key(project, session, "");
      var s0 := System(EMPTY, map[]);
      var s1 := Act(s0, Read(0, key, [x], 0));
      var s2 := Act(s1, Finish(0));
      var s3 := Act(s2, Read(1, key, [a], 0));
      var s4 := Act(s3, Remove(project, session, Absent));
      Act(s4, Read(2, key, [b], 0)) == System(EMPTY, map[1 := InFlight(key, 1, [a], 0), 2 := InFlight(key, 0, [b], 0)])
  {
    var key := Key(project, session, "");
    EmptyTable();
    var t1: Table := map[0 := Row(x, 0)];
    var none: Table := map[];
    assert InsertAll(none, 0, [x], 0) == InsertAll(none[0 := Row(x, 0)], 1, [], 0);
    NextSeqIs(t1, 1);
    var s1 := Act(System(EMPTY, map[]), Read(0, key, [x], 0));
    assert s1 == System(EMPTY, map[0 := InFlight(key, 0, [x], 0)]);
    FinishMain(s1, 0, t1);
    var s2 := Act(s1, Finish(0));
    var s3 := Act(s2, Read(1, key, [a], 0));
    assert s3.pending == map[1 := InFlight(key, 1, [a], 0)];
    var s4 := Act(s3, Remove(project, session, Absent));
    assert s4.db.rows == map[] && s4.db.summaries == map[];
    assert s4 == System(EMPTY, map[1 := InFlight(key, 1, [a], 0)]);
  }

  /** The two appends in flight commit, the higher number first. */
  lemma CommitsOutOfOrder(project: string, session: string, a: Entry, b: Entry)
    requires UuidOf(a).Some? && UuidOf(b).Some? && UuidOf(a) != UuidOf(b)
    ensures var key := Key(project, session, "");
      var s := System(EMPTY, map[1 := InFlight(key, 1, [a], 0), 2 := InFlight(key, 0, [b], 0)]);
      var db := Act(Act(s, Finish(1)), Finish(2)).db;
      Folded(db, project, session) == [a, b] && Load(Rows(db, key)) == [b, a]
  {
    var key := Key(project, session, "");
    var none: Table := map[];
    var t3: Table := map[1 := Row(a, 0)];
    var t4: Table := map[0 := Row(b, 0), 1 := Row(a, 0)];
    assert InsertAll(none, 1, [a], 0) == InsertAll(none[1 := Row(a, 0)], 2, [], 0);
    assert InsertAll(t3, 0, [b], 0) == InsertAll(t3[0 := Row(b, 0)], 1, [], 0);
    assert t3[0 := Row(b, 0)] == t4;
    LoadIsBelow(t4, 2);
    assert LoadBelow(t4, 1) == [b];
    assert LoadBelow(t4, 2) == [b, a];
    var s := System(EMPTY, map[1 := InFlight(key, 1, [a], 0), 2 := InFlight(key, 0, [b], 0)]);
    FinishMain(s, 1, t3);
    FinishMain(Act(s, Finish(1)), 2, t4);
    assert [] + [a] == [a];
  }

  /** From the empty store, with entries that all have their own uuids: a delete between the
      read and the insert of an append turns the order around. The summary holds `a, b`, the
      transcript loads `b, a`. */
  lemma InFlightDeleteBreaksTheFold(project: string, session: string, x: Entry, a: Entry, b: Entry)
    returns (acts: seq<Action>)
    requires UuidOf(x).Some? && UuidOf(a).Some? && UuidOf(b).Some?
    requires UuidOf(x) != UuidOf(a) && UuidOf(x) != UuidOf(b) && UuidOf(a) != UuidOf(b)
    ensures var key := Key(project, session, ""); var start := System(EMPTY, map[]);
      && IsRun(start, acts)
      && Folded(ActAll(start, acts).db, project, session) == [a, b]
      && Load(Rows(ActAll(start, acts).db, key)) == [b, a]
  {
    hide Load, Rows, Folded;
    var key := Key(project, session, "");
    DeletedInFlight(project, session, x, a, b);
    CommitsOutOfOrder(project, session, a, b);
    hide Act;
    var s0 := System(EMPTY, map[]);
    var s1 := Act(s0, Read(0, key, [x], 0));
    var s2 := Act(s1, Finish(0));
    var s3 := Act(s2, Read(1, key, [a], 0));
    var s4 := Act(s3, Remove(project, session, Absent));
    var s5 := Act(s4, Read(2, key, [b], 0));
    var s6 := Act(s5, Finish(1));
    ActAfterOne(s6, Finish(2), []);
    acts := [Finish(2)] + [];
    ActAfterOne(s5, Finish(1), acts);
    acts := [Finish(1)] + acts;
    ActAfterOne(s4, Read(2, key, [b], 0), acts);
    acts := [Read(2, key, [b], 0)] + acts;
    ActAfterOne(s3, Remove(project, session, Absent), acts);
    acts := [Remove(project, session, Absent)] + acts;
    ActAfterOne(s2, Read(1, key, [a], 0), acts);
    acts := [Read(1, key, [a], 0)] + acts;
    ActAfterOne(s1, Finish(0), acts);
    acts := [Finish(0)] + acts;
    ActAfterOne(s0, Read(0, key, [x], 0), acts);
    acts := [Read(0, key, [x], 0)] + acts;
  }

  // ---------------------------------------------------------------- the code

  class DbSessionStore {
    var rows: map<Key, Table>
    var summaries: map<(string, string), Summary>

    constructor ()
      ensures View() == EMPTY
    {
      rows, summaries := map[], map[];
    }

    function View(): Db
      reads this
    {
      Db(rows, summaries)
    }

    method ReadSeqStart(key: Key) returns (start: nat)
      ensures start == NextSeq(Rows(View(), key))
    {
      var t := Rows(View(), key);
      start := 0;
      var todo := t.Keys;
      while todo != {}
        invariant todo <= t.Keys
        invariant forall s <- t :: s in todo || s < start
        invariant start > 0 ==> start - 1 in t
        decreases todo
      {
        var s :| s in todo;
        todo := todo - {s};
        if s >= start {
          start := s + 1;
        }
      }
      assert NextSeq(t) > 0 ==> NextSeq(t) - 1 in t;
    }

    /** Inserts the batch and folds the summary in one transaction; a collision on a sequence
        number rolls everything back. */
    method InsertAndCommit(key: Key, start: nat, entries: seq<Entry>, now: int) returns (ok: bool)
      modifies this
      ensures ok == Commit(old(View()), key, start, entries, now).Some?
      ensures View() == if ok then Commit(old(View()), key, start, entries, now).value else old(View())
    {
      var t: Table := Rows(View(), key);
      ghost var goal := InsertAll(t, start, entries, now);
      for i := 0 to |entries|
        invariant InsertAll(t, start + i, entries[i..], now) == goal
      {
        assert entries[i..][0] == entries[i] && entries[i..][1..] == entries[i + 1..];
        if !Present(t, entries[i]) {
          if start + i in t {
            return false;
          }
          t := t[start + i := Row(entries[i], now)];
        }
      }
      assert goal == Some(t);
      rows := rows[key := t];
      if key.subpath == "" {
        var owner := (key.project, key.session);
        var folded := if owner in summaries then summaries[owner].folded else [];
        summaries := summaries[owner := Summary(now, folded + entries)];
      }
      ok := true;
    }

    /** What other clients do meanwhile. */
    method Meanwhile(es: seq<Event>)
      modifies this
      ensures View() == ApplyAll(old(View()), es)
    {
      for i := 0 to |es|
        invariant ApplyAll(View(), es[i..]) == ApplyAll(old(View()), es)
      {
        assert es[i..][0] == es[i] && es[i..][1..] == es[i + 1..];
        var db := Apply(View(), es[i]);
        rows, summaries := db.rows, db.summaries;
      }
    }

    /** `append`; other clients act between the read and the insert of attempt `k` (`others[k]`)
        and while it sleeps after an abort (`pauses[k]`). */
    method Append(project: string, session: string, subpath: Subpath, entries: seq<Entry>, now: int,
        others: seq<seq<Event>>, pauses: seq<seq<Event>>)
      returns (ok: bool)
      requires |others| == 16 && |pauses| == 15
      modifies this
      ensures entries == [] ==> ok && View() == old(View())
      ensures entries != [] ==>
        (View(), ok) == Attempts(old(View()), Normalize(project, session, subpath), entries, now, others, pauses, 0)
      ensures ok ==> forall e <- entries ::
        IsStored(Rows(View(), Key(project, session, match subpath case Given(name) => name case _ => "")), e)
      ensures entries != [] && others[0] == [] ==>
        var key := Key(project, session, match subpath case Given(name) => name case _ => "");
        && ok
        && (forall other: Key :: other != key ==> Rows(View(), other) == Rows(old(View()), other))
        && Load(Rows(View(), key)) ==
             Load(Rows(old(View()), key)) + NewEntries(KnownUuids(Rows(old(View()), key)), entries)
        && summaries ==
             if key.subpath != "" then old(summaries)
             else old(summaries)[(project, session) :=
                    Summary(now, Folded(old(View()), project, session) + entries)]
      ensures !ok ==> forall k :: 0 <= k < 16 ==>
        RowCommitted(Before(old(View()), others, pauses, 0, k), others[k], Normalize(project, session, subpath))
    {
      hide Folded, NewEntries, KnownUuids, Load, Rows, RowCommitted, Before, Pause, NextSeq, ApplyAll, Commit, IsStored;
      if entries == [] {
        return true;
      }
      var key := Normalize(project, session, subpath);
      if others[0] == [] {
        UndisturbedAppend(View(), key, entries, now, others, pauses);
      }
      ok := false;
      for attempt := 0 to MAX_APPEND_RETRY
        invariant !ok
        invariant Attempts(View(), key, entries, now, others, pauses, attempt) ==
                  Attempts(old(View()), key, entries, now, others, pauses, 0)
      {
        var start := ReadSeqStart(key);
        Meanwhile(others[attempt]);
        ok := InsertAndCommit(key, start, entries, now);
        if ok {
          SuccessStoresAll(old(View()), key, entries, now, others, pauses, 0);
          return;
        }
        Meanwhile(Pause(pauses, attempt));
      }
      GivesUpOnlyUnderContention(old(View()), key, entries, now, others, pauses, 0);
    }

    method LoadEntries(project: string, session: string, subpath: Subpath) returns (r: Option<seq<Entry>>)
      ensures var entries :=
        Load(Rows(View(), Key(project, session, match subpath case Given(name) => name case _ => "")));
        r == if entries == [] then None else Some(entries)
    {
      var t := Rows(View(), Normalize(project, session, subpath));
      var next := ReadSeqStart(Normalize(project, session, subpath));
      var entries := LoadBelow(t, next);
      r := if entries == [] then None else Some(entries);
    }

    method DeleteEntries(project: string, session: string, subpath: Subpath)
      modifies this
      ensures View() == DeleteRows(old(View()), project, session, subpath)
      ensures forall key: Key ::
        if key.project == project && key.session == session
           && (subpath in [Absent, Given("")] || subpath == (if key.subpath == "" then Null else Given(key.subpath)))
        then Rows(View(), key) == map[]
        else Rows(View(), key) == Rows(old(View()), key)
      ensures summaries == if subpath == Absent then old(summaries) - {(project, session)} else old(summaries)
    {
      rows := map key | key in rows && !Deletes(project, session, subpath, key) :: rows[key];
      if subpath.Absent? {
        summaries := summaries - {(project, session)};
      }
    }
  }
}
