/**
 The version history of generated files (lib/version_manager.py).

 `versions.json` is a table of resources; the project directory is a map from paths to
 contents. Clocks are inputs: every operation that names a file is given its time stamp.
 */
module VersionManagers {
  import opened PythonText
  import opened Wrappers

  type Bytes = string

  datatype Record = Record(version: nat, file: string, prompt: string)
  datatype Resource = Resource(current: nat, versions: seq<Record>)

  /** A resource is known by its type and id. */
  datatype Id = Id(kind: string, name: string)

  /** `SameFile`: `shutil.copy2` refuses to copy a file onto itself. */
  datatype Error = UnsupportedType | NoResource | NoVersion | NoFile | SameFile

  const RESOURCE_TYPES: seq<string> :=
    ["storyboards", "videos", "characters", "scenes", "props", "grids", "reference_videos"]

  function Extension(kind: string): string {
    if kind == "videos" || kind == "reference_videos" then ".mp4" else ".png"
  }

  // ---------------------------------------------------------------- file names

  /** `%Y%m%dT%H%M%S` has 15 characters. */
  predicate IsTimestamp(s: string) {
    |s| == 15
  }

  function FileName(name: string, version: nat, stamp: string): string {
    name + "_v" + Decimal(version) + "_" + stamp
  }

  function VersionPath(id: Id, version: nat, stamp: string): string {
    "versions/" + id.kind + "/" + FileName(id.name, version, stamp) + Extension(id.kind)
  }

  lemma SuffixAgrees(a: string, x: string, b: string, y: string)
    requires a + x == b + y && |x| == |y|
    ensures a == b && x == y
  {
    assert (a + x)[..|a|] == a && (b + y)[..|b|] == b;
    assert (a + x)[|a|..] == x && (b + y)[|b|..] == y;
  }

  /** A string ending in a run of digits, with a non-digit before them, splits one way. */
  lemma DigitsAgree(x: string, d: string, y: string, e: string)
    requires x + d == y + e
    requires x != "" && y != "" && x[|x| - 1] == 'v' && y[|y| - 1] == 'v'
    requires (forall c <- d :: IsDigit(c)) && (forall c <- e :: IsDigit(c))
    ensures x == y && d == e
  {
    var s := x + d;
    assert s[|x| - 1] == 'v' && s[|y| - 1] == 'v';
    assert forall i :: |x| <= i < |s| ==> s[i] in d;
    assert forall i :: |y| <= i < |s| ==> s[i] in e;
    assert |x| == |y|;
    SuffixAgrees(x, d, y, e);
  }

  /** File names are injective in id, version and time stamp. */
  lemma FileNamesAreInjective(a: string, m: nat, s: string, b: string, n: nat, t: string)
    requires IsTimestamp(s) && IsTimestamp(t)
    requires FileName(a, m, s) == FileName(b, n, t)
    ensures a == b && m == n && s == t
  {
    hide Decimal, Value;
    var x, y := a + "_v" + Decimal(m), b + "_v" + Decimal(n);
    assert x + ("_" + s) == FileName(a, m, s) && y + ("_" + t) == FileName(b, n, t);
    SuffixAgrees(x, "_" + s, y, "_" + t);
    SuffixAgrees("_", s, "_", t);
    DigitsAgree(a + "_v", Decimal(m), b + "_v", Decimal(n));
    SuffixAgrees(a, "_v", b, "_v");
    DecimalIsInjective(m, n);
  }

  lemma KindsHaveNoSlash(kind: string)
    requires kind in RESOURCE_TYPES
    ensures '/' !in kind
  {
  }

  /** A path splits one way at the first slash after a given point. */
  lemma SlashesAgree(a: string, x: string, b: string, y: string)
    requires a + "/" + x == b + "/" + y && '/' !in a && '/' !in b
    ensures a == b && x == y
  {
    var p := a + "/" + x;
    assert p[|a|] == '/' && p[|b|] == '/';
    assert forall i :: 0 <= i < |a| ==> p[i] in a;
    assert forall i :: 0 <= i < |b| ==> p[i] in b;
    assert |a| == |b|;
    assert a + ("/" + x) == p && p == b + "/" + y;
    assert b + ("/" + y) == b + "/" + y;
    SuffixAgrees(a, "/" + x, b, "/" + y);
    SuffixAgrees("/", x, "/", y);
  }

  lemma PathsAreInjective(a: Id, m: nat, s: string, b: Id, n: nat, t: string)
    requires a.kind in RESOURCE_TYPES && b.kind in RESOURCE_TYPES && IsTimestamp(s) && IsTimestamp(t)
    requires VersionPath(a, m, s) == VersionPath(b, n, t)
    ensures a == b && m == n && s == t
  {
    hide FileName, Extension;
    var x, y := FileName(a.name, m, s), FileName(b.name, n, t);
    var ex, ey := Extension(a.kind), Extension(b.kind);
    assert VersionPath(a, m, s) == "versions/" + (a.kind + "/" + (x + ex));
    assert VersionPath(b, n, t) == "versions/" + (b.kind + "/" + (y + ey));
    SuffixAgrees("versions/", a.kind + "/" + (x + ex), "versions/", b.kind + "/" + (y + ey));
    KindsHaveNoSlash(a.kind);
    KindsHaveNoSlash(b.kind);
    SlashesAgree(a.kind, x + ex, b.kind, y + ey);
    SuffixAgrees(x, ex, y, ey);
    FileNamesAreInjective(a.name, m, s, b.name, n, t);
  }

  // ---------------------------------------------------------------- the store and its operations

  datatype Store = Store(table: map<Id, Resource>, files: map<string, Bytes>)

  /** The highest version number on record, 0 if there is none. */
  function MaxVersion(versions: seq<Record>): (m: nat)
    ensures forall r <- versions :: r.version <= m
    ensures versions == [] || exists r <- versions :: r.version == m
  {
    if versions == [] then 0 else
      var last := versions[|versions| - 1];
      var rest := MaxVersion(versions[..|versions| - 1]);
      assert versions == versions[..|versions| - 1] + [last];
      if last.version > rest || |versions| == 1 then
        (assert last in versions; last.version)
      else rest
  }

  function Existing(s: Store, id: Id): Resource {
    if id in s.table then s.table[id] else Resource(0, [])
  }

  function Copied(files: map<string, Bytes>, source: Option<string>, to: string): map<string, Bytes> {
    if source.Some? && source.value in files then files[to := files[source.value]] else files
  }

  function Added(s: Store, id: Id, prompt: string, source: Option<string>, stamp: string): (Store, Result<nat, Error>) {
    if id.kind !in RESOURCE_TYPES then (s, Err(UnsupportedType)) else
    var before := Existing(s, id);
    var n := MaxVersion(before.versions) + 1;
    var path := VersionPath(id, n, stamp);
    if source == Some(path) && path in s.files then (s, Err(SameFile)) else
    var resource := Resource(n, before.versions + [Record(n, path, prompt)]);
    (Store(s.table[id := resource], Copied(s.files, source, path)), Ok(n))
  }

  function Tracked(s: Store, id: Id, file: string, prompt: string, stamp: string)
    : (Store, Result<Option<nat>, Error>)
  {
    if file !in s.files then (s, Ok(None)) else
    if id.kind !in RESOURCE_TYPES then (s, Err(UnsupportedType)) else
    if Existing(s, id).current > 0 then (s, Ok(None)) else
    var (t, r) := Added(s, id, prompt, Some(file), stamp);
    (t, match r case Ok(n) => Ok(Some(n)) case Err(e) => Err(e))
  }

  /** The first record with a given number. */
  function Find(versions: seq<Record>, n: nat): (r: Option<Record>)
    ensures r.Some? ==> r.value in versions && r.value.version == n
    ensures r.None? ==> forall v <- versions :: v.version != n
  {
    if versions == [] then None
    else if versions[0].version == n then Some(versions[0])
    else Find(versions[1..], n)
  }

  function Restored(s: Store, id: Id, n: nat, file: string): (Store, Result<string, Error>) {
    if id.kind !in RESOURCE_TYPES then (s, Err(UnsupportedType)) else
    if id !in s.table then (s, Err(NoResource)) else
    var found := Find(s.table[id].versions, n);
    if found.None? then (s, Err(NoVersion)) else
    var path := found.value.file;
    if path !in s.files then (s, Err(NoFile)) else
    if path == file then (s, Err(SameFile)) else
    (Store(s.table[id := s.table[id].(current := n)], s.files[file := s.files[path]]), Ok(found.value.prompt))
  }

  // ---------------------------------------------------------------- runs

  /** What happens to a project: the manager's calls, and files written or removed by others. */
  datatype Event =
    | Add(id: Id, prompt: string, source: Option<string>, stamp: string)
    | Track(id: Id, file: string, prompt: string, stamp: string)
    | Restore(id: Id, version: nat, file: string)
    | Write(file: string, content: Bytes)
    | Remove(file: string)

  predicate Outside(path: string) {
    !("versions/" <= path)
  }

  /** Nobody but the manager touches `versions/`, and the clock writes 15 characters. */
  predicate Proper(e: Event) {
    match e
    case Add(_, _, _, stamp) => IsTimestamp(stamp)
    case Track(_, _, _, stamp) => IsTimestamp(stamp)
    case Restore(_, _, file) => Outside(file)
    case Write(file, _) => Outside(file)
    case Remove(file) => Outside(file)
  }

  function Step(s: Store, e: Event): Store {
    match e
    case Add(id, prompt, source, stamp) => Added(s, id, prompt, source, stamp).0
    case Track(id, file, prompt, stamp) => Tracked(s, id, file, prompt, stamp).0
    case Restore(id, version, file) => Restored(s, id, version, file).0
    case Write(file, content) => s.(files := s.files[file := content])
    case Remove(file) => s.(files := s.files - {file})
  }

  function Run(s: Store, es: seq<Event>): Store
    decreases es
  {
    if es == [] then s else Run(Step(s, es[0]), es[1..])
  }

  /** The record's file is the version path of this id and number, for some time stamp. */
  ghost predicate NamedFor(file: string, id: Id, n: nat) {
    exists stamp :: IsTimestamp(stamp) && file == VersionPath(id, n, stamp)
  }

  /** Numbers are exactly 1..n, the current one is among them, files carry their own id and number. */
  ghost predicate Whole(id: Id, r: Resource) {
    && id.kind in RESOURCE_TYPES
    && 1 <= r.current <= |r.versions|
    && forall i :: 0 <= i < |r.versions| ==>
         r.versions[i].version == i + 1 && NamedFor(r.versions[i].file, id, i + 1)
  }

  ghost predicate Invariant(s: Store) {
    forall id <- s.table :: Whole(id, s.table[id])
  }

  /** What a later store keeps of an earlier one. */
  ghost predicate Keeps(s: Store, t: Store) {
    forall id <- s.table ::
      && id in t.table
      && s.table[id].versions <= t.table[id].versions
      && forall r <- s.table[id].versions :: SameAt(s.files, t.files, r.file)
  }

  predicate SameAt(f: map<string, Bytes>, g: map<string, Bytes>, path: string) {
    (path in f <==> path in g) && (path in f ==> f[path] == g[path])
  }

  lemma KeepsIsTransitive(s: Store, t: Store, u: Store)
    requires Keeps(s, t) && Keeps(t, u)
    ensures Keeps(s, u)
  {
    forall id | id in s.table
      ensures id in u.table && s.table[id].versions <= u.table[id].versions
      ensures forall r <- s.table[id].versions :: SameAt(s.files, u.files, r.file)
    {
      var a, b, c := s.table[id].versions, t.table[id].versions, u.table[id].versions;
      assert a == b[..|a|] && b == c[..|b|];
      assert a == c[..|a|];
      assert forall r <- a :: r in b;
    }
  }

  /** A recorded version's file is never a file outside `versions/`. */
  lemma RecordsLieInside(s: Store, id: Id, r: Record)
    requires Invariant(s) && id in s.table && r in s.table[id].versions
    ensures !Outside(r.file) && 1 <= r.version <= |s.table[id].versions| && NamedFor(r.file, id, r.version)
  {
    hide FileName, Extension;
    assert Whole(id, s.table[id]);
    var stamp :| IsTimestamp(stamp) && r.file == VersionPath(id, r.version, stamp);
    assert r.file == "versions/" + (id.kind + "/" + FileName(id.name, r.version, stamp) + Extension(id.kind));
  }

  lemma MaxIsLength(id: Id, r: Resource)
    requires Whole(id, r)
    ensures MaxVersion(r.versions) == |r.versions|
  {
    assert r.versions[|r.versions| - 1] in r.versions;
  }

  /** The path of a new version is no recorded version's path. */
  lemma NewPathIsFree(s: Store, id: Id, n: nat, stamp: string, other: Id, r: Record)
    requires Invariant(s) && id.kind in RESOURCE_TYPES && IsTimestamp(stamp)
    requires n > |Existing(s, id).versions|
    requires other in s.table && r in s.table[other].versions
    ensures r.file != VersionPath(id, n, stamp)
  {
    hide VersionPath;
    RecordsLieInside(s, other, r);
    assert Whole(other, s.table[other]);
    var stamp' :| IsTimestamp(stamp') && r.file == VersionPath(other, r.version, stamp');
    if r.file == VersionPath(id, n, stamp) {
      PathsAreInjective(other, r.version, stamp', id, n, stamp);
    }
  }

  lemma AddKeeps(s: Store, id: Id, prompt: string, source: Option<string>, stamp: string)
    requires Invariant(s) && IsTimestamp(stamp)
    ensures var t := Added(s, id, prompt, source, stamp).0; Invariant(t) && Keeps(s, t)
  {
    NextNumber(s, id);
    hide Whole, VersionPath, MaxVersion, IsTimestamp, Existing, Keeps, Copied;
    if Added(s, id, prompt, source, stamp).1.Ok? {
      OneMoreIsWhole(s, id, prompt, stamp);
      AddKeepsFiles(s, id, prompt, source, stamp);
    } else {
      KeepsItself(s);
    }
  }

  lemma KeepsItself(s: Store)
    ensures Keeps(s, s)
  {
  }

  lemma OneMoreIsWhole(s: Store, id: Id, prompt: string, stamp: string)
    requires Invariant(s) && IsTimestamp(stamp) && id.kind in RESOURCE_TYPES
    ensures var before := Existing(s, id).versions; var n := |before| + 1;
      Whole(id, Resource(n, before + [Record(n, VersionPath(id, n, stamp), prompt)]))
  {
    hide VersionPath, IsTimestamp;
    var before := Existing(s, id).versions;
    var n := |before| + 1;
    assert id in s.table ==> Whole(id, s.table[id]);
    assert NamedFor(VersionPath(id, n, stamp), id, n);
    hide NamedFor;
  }

  lemma AddKeepsFiles(s: Store, id: Id, prompt: string, source: Option<string>, stamp: string)
    requires Invariant(s) && IsTimestamp(stamp) && Added(s, id, prompt, source, stamp).1.Ok?
    ensures Keeps(s, Added(s, id, prompt, source, stamp).0)
  {
    NextNumber(s, id);
    hide VersionPath, MaxVersion, IsTimestamp, Invariant;
    var t := Added(s, id, prompt, source, stamp).0;
    var n := |Existing(s, id).versions| + 1;
    assert forall other <- s.table :: other in t.table && s.table[other].versions <= t.table[other].versions;
    forall other, v | other in s.table && v in s.table[other].versions
      ensures SameAt(s.files, t.files, v.file)
    {
      NewPathIsFree(s, id, n, stamp, other, v);
    }
  }

  /** The next number is one more than there are versions. */
  lemma NextNumber(s: Store, id: Id)
    requires Invariant(s)
    ensures MaxVersion(Existing(s, id).versions) == |Existing(s, id).versions|
  {
    hide MaxVersion;
    if id in s.table {
      assert Whole(id, s.table[id]);
      MaxIsLength(id, s.table[id]);
    } else {
      EmptyMax();
    }
  }

  lemma MaxOfMore(versions: seq<Record>, k: nat)
    requires k < |versions|
    ensures MaxVersion(versions[..k + 1]) ==
      if versions[k].version > MaxVersion(versions[..k]) then versions[k].version else MaxVersion(versions[..k])
  {
    assert versions[..k + 1][..k] == versions[..k];
    if k == 0 { EmptyMax(); }
  }

  lemma EmptyMax()
    ensures MaxVersion([]) == 0
  {
  }

  lemma RestoreKeeps(s: Store, id: Id, n: nat, file: string)
    requires Invariant(s) && Outside(file)
    ensures var t := Restored(s, id, n, file).0; Invariant(t) && Keeps(s, t)
  {
    hide NamedFor;
    var (t, r) := Restored(s, id, n, file);
    if r.Ok? {
      RecordsLieInside(s, id, Find(s.table[id].versions, n).value);
      assert Whole(id, s.table[id]) && Whole(id, t.table[id]);
      forall other, v | other in s.table && v in s.table[other].versions
        ensures SameAt(s.files, t.files, v.file)
      {
        RecordsLieInside(s, other, v);
      }
    }
  }

  /** One event keeps every resource whole, every record, and every recorded version's file. */
  lemma StepKeeps(s: Store, e: Event)
    requires Invariant(s) && Proper(e)
    ensures Invariant(Step(s, e)) && Keeps(s, Step(s, e))
  {
    hide Whole, Added, Restored;
    match e
    case Add(id, prompt, source, stamp) => AddKeeps(s, id, prompt, source, stamp);
    case Track(id, file, prompt, stamp) => AddKeeps(s, id, prompt, Some(file), stamp);
    case Restore(id, version, file) => RestoreKeeps(s, id, version, file);
    case Write(file, _) =>
      forall id, v | id in s.table && v in s.table[id].versions
        ensures v.file != file
      {
        RecordsLieInside(s, id, v);
      }
    case Remove(file) =>
      forall id, v | id in s.table && v in s.table[id].versions
        ensures v.file != file
      {
        RecordsLieInside(s, id, v);
      }
  }

  /** History is append-only over every run, and no version's file is ever overwritten. */
  lemma {:induction false} HistoryIsAppendOnly(s: Store, es: seq<Event>)
    requires Invariant(s) && forall e <- es :: Proper(e)
    ensures Invariant(Run(s, es)) && Keeps(s, Run(s, es))
    decreases es
  {
    hide Invariant, Keeps, Step, Proper;
    if es == [] {
      assert Keeps(s, s) by { KeepsIsReflexive(s); }
    } else {
      StepKeeps(s, es[0]);
      HistoryIsAppendOnly(Step(s, es[0]), es[1..]);
      KeepsIsTransitive(s, Step(s, es[0]), Run(s, es));
    }
  }

  lemma KeepsIsReflexive(s: Store)
    ensures Keeps(s, s)
  {
  }

  /** In a whole resource a number finds its own record. */
  lemma FindAt(id: Id, r: Resource, n: nat)
    requires Whole(id, r) && 1 <= n <= |r.versions|
    ensures Find(r.versions, n) == Some(r.versions[n - 1])
  {
    assert r.versions[n - 1] in r.versions;
    var found := Find(r.versions, n);
    var i :| 0 <= i < |r.versions| && r.versions[i] == found.value;
  }

  /**
   Restoring a version after any later run brings back the bytes its source had when the
   version was added.
   */
  lemma RestoreBringsBack(s: Store, add: Event, es: seq<Event>, file: string)
    requires Invariant(s) && add.Add? && Proper(add) && (forall e <- es :: Proper(e)) && Outside(file)
    requires add.source.Some? && add.source.value in s.files
    requires Added(s, add.id, add.prompt, add.source, add.stamp).1.Ok?
    ensures var n := Added(s, add.id, add.prompt, add.source, add.stamp).1.value;
            var (t, r) := Restored(Run(Step(s, add), es), add.id, n, file);
            && r == Ok(add.prompt) && t.table[add.id].current == n
            && file in t.files && t.files[file] == s.files[add.source.value]
  {
    hide VersionPath, MaxVersion, IsTimestamp, Run, Invariant, Find;
    var id := add.id;
    var s1 := Step(s, add);
    var n := Added(s, id, add.prompt, add.source, add.stamp).1.value;
    var s2 := Run(s1, es);
    StepKeeps(s, add);
    HistoryIsAppendOnly(s1, es);
    TakesNextNumber(s, id);
    AtInvariant(s1, id);
    AtInvariant(s2, id);
    var record := Record(n, VersionPath(id, n, add.stamp), add.prompt);
    assert s1.table[id].versions[n - 1] == record;
    assert record in s1.table[id].versions && SameAt(s1.files, s2.files, record.file);
    assert s2.table[id].versions[n - 1] == record;
    FindAt(id, s2.table[id], n);
    RecordsLieInside(s2, id, record);
  }

  lemma AtInvariant(s: Store, id: Id)
    requires Invariant(s) && id in s.table
    ensures Whole(id, s.table[id])
  {
  }

  lemma TakesNextNumber(s: Store, id: Id)
    requires Invariant(s)
    ensures MaxVersion(Existing(s, id).versions) == |Existing(s, id).versions|
  {
    if id in s.table {
      AtInvariant(s, id);
      MaxIsLength(id, s.table[id]);
    }
  }

  /** A version added is the resource's current one, behind all earlier versions, with the bytes of
      the source under its own path; nothing else changes. It fails for an unknown type, and when
      the source is the very file to be written. */
  lemma AddedIsCurrent(s: Store, id: Id, prompt: string, source: Option<string>, stamp: string)
    requires Invariant(s)
    ensures var (t, r) := Added(s, id, prompt, source, stamp);
            var old_ := if id in s.table then s.table[id].versions else [];
            var path := "versions/" + id.kind + "/" + (id.name + "_v" + Decimal(|old_| + 1) + "_" + stamp) +
                        (if id.kind in ["videos", "reference_videos"] then ".mp4" else ".png");
      && (r.Err? <==>
            || id.kind !in ["storyboards", "videos", "characters", "scenes", "props", "grids", "reference_videos"]
            || (source == Some(path) && path in s.files))
      && (r.Err? ==> t == s)
      && (r.Ok? ==>
            && r.value == |old_| + 1
            && t.table == s.table[id := Resource(r.value, old_ + [Record(r.value, path, prompt)])]
            && t.files ==
                 if source.Some? && source.value in s.files then s.files[path := s.files[source.value]] else s.files)
  {
    hide MaxVersion, Whole, VersionPath, Invariant;
    NextNumber(s, id);
    PathSpelling(id, |Existing(s, id).versions| + 1, stamp);
  }

  lemma PathSpelling(id: Id, n: nat, stamp: string)
    ensures VersionPath(id, n, stamp) ==
      "versions/" + id.kind + "/" + (id.name + "_v" + Decimal(n) + "_" + stamp) +
      (if id.kind in ["videos", "reference_videos"] then ".mp4" else ".png")
  {
    hide Decimal;
  }

  /** Tracking adds version 1 exactly for an existing file of a known type without versions, and
      the version holds the bytes of the file. */
  lemma TrackedExactly(s: Store, id: Id, file: string, prompt: string, stamp: string)
    requires Invariant(s) && Outside(file)
    ensures var (t, r) := Tracked(s, id, file, prompt, stamp);
      && (r.Ok? && r.value.Some? <==>
            file in s.files && id !in s.table &&
            id.kind in ["storyboards", "videos", "characters", "scenes", "props", "grids", "reference_videos"])
      && (if r.Ok? && r.value.Some? then
            && r.value == Some(1) && id in t.table && t.table[id].current == 1 && |t.table[id].versions| == 1
            && t.table[id].versions[0].prompt == prompt
            && t.files == s.files[t.table[id].versions[0].file := s.files[file]]
          else t == s)
  {
    AddedIsCurrent(s, id, prompt, Some(file), stamp);
    assert id in s.table ==> Whole(id, s.table[id]);
    hide Added, VersionPath;
  }

  /** Tracking is done once: whatever happens in between, a second call adds nothing. */
  lemma TrackedOnce(s: Store, first: Event, es: seq<Event>, file: string, prompt: string, stamp: string)
    requires Invariant(s) && first.Track? && Proper(first) && (forall e <- es :: Proper(e))
    requires Tracked(s, first.id, first.file, first.prompt, first.stamp).1.Ok? && first.file in s.files
    ensures var t := Run(Step(s, first), es);
            Tracked(t, first.id, file, prompt, stamp) == (t, Ok(None))
  {
    hide VersionPath, MaxVersion, IsTimestamp, Run;
    StepKeeps(s, first);
    HistoryIsAppendOnly(Step(s, first), es);
    var t := Run(Step(s, first), es);
    assert first.id in t.table;
    AtInvariant(t, first.id);
  }

  /** Restoring fails exactly in these cases, and then nothing has changed. */
  lemma RestoreFailsExactly(s: Store, id: Id, n: nat, file: string)
    requires Invariant(s) && Outside(file)
    ensures var (t, r) := Restored(s, id, n, file);
            && (r.Err? ==> t == s)
            && (r.Ok? <==> id in s.table && 1 <= n <= |s.table[id].versions| &&
                           s.table[id].versions[n - 1].file in s.files)
            && (r.Err? ==>
                  var known := ["storyboards", "videos", "characters", "scenes", "props", "grids", "reference_videos"];
                  r.error == if id.kind !in known then UnsupportedType
                             else if id !in s.table then NoResource
                             else if n == 0 || n > |s.table[id].versions| then NoVersion
                             else NoFile)
            && (r.Ok? ==>
                  var versions := s.table[id].versions;
                  && r.value == versions[n - 1].prompt
                  && t.table == s.table[id := Resource(n, versions)]
                  && t.files == s.files[file := s.files[versions[n - 1].file]])
  {
    hide NamedFor;
    if id in s.table {
      AtInvariant(s, id);
      if 1 <= n <= |s.table[id].versions| {
        FindAt(id, s.table[id], n);
        RecordsLieInside(s, id, s.table[id].versions[n - 1]);
      }
    }
  }

  // ---------------------------------------------------------------- the manager

  method HighestVersion(versions: seq<Record>) returns (max: nat)
    ensures max == MaxVersion(versions)
    ensures forall v <- versions :: v.version <= max
  {
    max := 0;
    for k := 0 to |versions|
      invariant max == MaxVersion(versions[..k])
    {
      MaxOfMore(versions, k);
      if versions[k].version > max {
        max := versions[k].version;
      }
    }
    assert versions[..|versions|] == versions;
  }

  /** One entry of `get_versions`. */
  datatype Info = Info(record: Record, isCurrent: bool, url: string)

  class VersionManager {
    const projectName: string
    var table: map<Id, Resource>
    var files: map<string, Bytes>

    constructor (projectName: string, files: map<string, Bytes>)
      ensures table == map[] && this.files == files && this.projectName == projectName
    {
      this.projectName := projectName;
      this.table := map[];
      this.files := files;
    }

    ghost function State(): Store
      reads this
    {
      Store(table, files)
    }

    /** Exactly the records, in order, and in a whole store exactly one of them is current. */
    method GetVersions(id: Id) returns (r: Result<(nat, seq<Info>), Error>)
      ensures r.Err? <==> id.kind !in RESOURCE_TYPES
      ensures r.Ok? ==>
        && r.value.0 == Existing(State(), id).current
        && |r.value.1| == |Existing(State(), id).versions|
        && forall i :: 0 <= i < |r.value.1| ==>
             var info := r.value.1[i];
             && info.record == Existing(State(), id).versions[i]
             && info.isCurrent == (info.record.version == r.value.0)
             && info.url == "/api/v1/files/" + projectName + "/" + info.record.file
      ensures r.Ok? && Invariant(State()) && id in table ==>
        forall i :: 0 <= i < |r.value.1| ==> (r.value.1[i].isCurrent <==> i + 1 == r.value.0)
    {
      if id.kind !in RESOURCE_TYPES {
        return Err(UnsupportedType);
      }
      if id !in table {
        return Ok((0, []));
      }
      var resource := table[id];
      var infos: seq<Info> := [];
      for k := 0 to |resource.versions|
        invariant |infos| == k
        invariant forall i :: 0 <= i < k ==>
          infos[i] == Info(resource.versions[i], resource.versions[i].version == resource.current,
                           "/api/v1/files/" + projectName + "/" + resource.versions[i].file)
      {
        var v := resource.versions[k];
        infos := infos + [Info(v, v.version == resource.current, "/api/v1/files/" + projectName + "/" + v.file)];
      }
      assert Invariant(State()) ==> Whole(id, resource);
      return Ok((resource.current, infos));
    }

    method AddVersion(id: Id, prompt: string, source: Option<string>, stamp: string) returns (r: Result<nat, Error>)
      modifies this
      ensures (State(), r) == Added(old(State()), id, prompt, source, stamp)
    {
      hide VersionPath, MaxVersion;
      if id.kind !in RESOURCE_TYPES {
        return Err(UnsupportedType);
      }
      var resource := if id in table then table[id] else Resource(0, []);
      var max := HighestVersion(resource.versions);
      var n := max + 1;
      var path := VersionPath(id, n, stamp);
      if source.Some? && source.value in files {
        if source.value == path {
          return Err(SameFile);
        }
        files := files[path := files[source.value]];
      }
      assert files == Copied(old(files), source, path);
      table := table[id := Resource(n, resource.versions + [Record(n, path, prompt)])];
      return Ok(n);
    }

    method EnsureCurrentTracked(id: Id, file: string, prompt: string, stamp: string)
      returns (r: Result<Option<nat>, Error>)
      modifies this
      ensures (State(), r) == Tracked(old(State()), id, file, prompt, stamp)
    {
      if file !in files {
        return Ok(None);
      }
      if id.kind !in RESOURCE_TYPES {
        return Err(UnsupportedType);
      }
      if id in table && table[id].current > 0 {
        return Ok(None);
      }
      var added := AddVersion(id, prompt, Some(file), stamp);
      match added
      case Ok(n) => return Ok(Some(n));
      case Err(e) => return Err(e);
    }

    method RestoreVersion(id: Id, n: nat, file: string) returns (r: Result<string, Error>)
      modifies this
      ensures (State(), r) == Restored(old(State()), id, n, file)
    {
      if id.kind !in RESOURCE_TYPES {
        return Err(UnsupportedType);
      }
      if id !in table {
        return Err(NoResource);
      }
      var versions := table[id].versions;
      var k := 0;
      while k < |versions| && versions[k].version != n
        invariant 0 <= k <= |versions|
        invariant Find(versions, n) == Find(versions[k..], n)
      {
        k := k + 1;
      }
      if k == |versions| {
        return Err(NoVersion);
      }
      var record := versions[k];
      if record.file !in files {
        return Err(NoFile);
      }
      if record.file == file {
        return Err(SameFile);
      }
      files := files[file := files[record.file]];
      table := table[id := table[id].(current := n)];
      return Ok(record.prompt);
    }
  }
}
