/**
 The project migration v0 to v1 (lib/project_migrations/v0_to_v1_clues_to_scenes_props.py):
 clues become scenes and props, their image files move, scripts are rewritten, and the new
 `project.json` is written last.

 A disk is changed by atomic operations only: making or removing a directory, renaming a file,
 replacing a JSON file. The class `Migrator` is the code and records every disk state it
 passes through, so "a crash at any moment" is "some recorded state".
 */
module Migration {
  import opened FirstOccurrence
  import opened Wrappers

  type Bytes = string
  type Files = map<string, Bytes>

  datatype Clue = Clue(clueType: Option<string>, description: string, sheet: Option<string>)
  datatype Asset = Asset(description: string, sheet: Option<string>)

  /** `project.json`; the fields the migration does not touch are in `rest`. */
  datatype Project = Project(
    version: int,
    clues: Option<map<string, Clue>>,
    scenes: Option<map<string, Asset>>,
    props: Option<map<string, Asset>>,
    rest: string)

  /** One scene or segment of a script. A field that is present and null counts as `Some([])`. */
  datatype Item = Item(
    clues: Option<seq<string>>,
    cluesInSegment: Option<seq<string>>,
    cluesInScene: Option<seq<string>>,
    scenes: Option<seq<string>>,
    props: Option<seq<string>>,
    rest: string)

  datatype Script =
    | Unreadable(text: string)
    | Script(version: int, scenes: seq<Item>, segments: seq<Item>, rest: string)

  /** A project directory; a directory that does not exist is None. */
  datatype Disk = Disk(
    project: Option<Project>,
    clues: Option<Files>,
    scenes: Option<Files>,
    props: Option<Files>,
    scripts: map<string, Script>)

  const EXTENSIONS: seq<string> := ["png", "jpg", "jpeg", "webp"]

  // ---------------------------------------------------------------- clues and their files

  function LowerChar(c: char): char {
    if 'A' <= c <= 'Z' then c - 'A' + 'a' else c
  }

  /** `str.lower`, as far as the comparison with "location" can tell. */
  function Lower(s: string): string {
    seq(|s|, i requires 0 <= i < |s| => LowerChar(s[i]))
  }

  predicate IsLocation(c: Clue) {
    c.clueType.Some? && c.clueType.value != "" && Lower(c.clueType.value) == "location"
  }

  /** The names whose clue becomes a scene; every other name counts as a prop. */
  function Locations(clues: map<string, Clue>): set<string> {
    set name <- clues | IsLocation(clues[name])
  }

  function FileName(name: string, ext: string): string {
    name + "." + ext
  }

  /** `file` is an image of a clue that becomes a scene (`location`) or a prop. */
  ghost predicate Belongs(clues: map<string, Clue>, file: string, location: bool) {
    exists name <- clues, ext <- EXTENSIONS :: file == FileName(name, ext) && IsLocation(clues[name]) == location
  }

  lemma ImageBelongs(clues: map<string, Clue>, name: string, ext: string)
    requires name in clues && ext in EXTENSIONS
    ensures Belongs(clues, FileName(name, ext), IsLocation(clues[name]))
  {
  }

  lemma FileNameIsInjective(a: string, x: string, b: string, y: string)
    requires x in EXTENSIONS && y in EXTENSIONS
    requires FileName(a, x) == FileName(b, y)
    ensures a == b && x == y
  {
    var f := FileName(a, x);
    assert '.' !in x && '.' !in y;
    assert f[|a|] == '.' && f[|b|] == '.';
    assert forall i :: |a| < i < |f| ==> f[i] == x[i - |a| - 1];
    assert forall i :: |b| < i < |f| ==> f[i] == y[i - |b| - 1];
    assert |a| == |b|;
    assert f[..|a|] == a && f[..|b|] == b;
    assert f[|a| + 1..] == x && f[|b| + 1..] == y;
  }

  lemma BelongsOneWay(clues: map<string, Clue>, file: string)
    ensures !(Belongs(clues, file, true) && Belongs(clues, file, false))
  {
    if Belongs(clues, file, true) && Belongs(clues, file, false) {
      var a, x :| a in clues && x in EXTENSIONS && file == FileName(a, x) && IsLocation(clues[a]);
      var b, y :| b in clues && y in EXTENSIONS && file == FileName(b, y) && !IsLocation(clues[b]);
      FileNameIsInjective(a, x, b, y);
      assert false;
    }
  }

  function FilesIn(dir: Option<Files>): Files {
    if dir.Some? then dir.value else map[]
  }

  /** The files of `files` that move to `scenes/` (`location`) or to `props/`. */
  ghost function Moving(files: Files, clues: map<string, Clue>, location: bool): set<string> {
    set f <- files | Belongs(clues, f, location)
  }

  function Restrict(files: Files, names: set<string>): Files {
    map f | f in files && f in names :: files[f]
  }

  /** Where all files are once the clue images are in their new directories. */
  ghost function Relocated(d: Disk, clues: map<string, Clue>): Disk {
    if d.clues.None? then d
    else
      var files := d.clues.value;
      var toScenes, toProps := Moving(files, clues, true), Moving(files, clues, false);
      var left := files - (toScenes + toProps);
      d.(clues := if left == map[] then None else Some(left),
         scenes := Some(FilesIn(d.scenes) + Restrict(files, toScenes)),
         props := Some(FilesIn(d.props) + Restrict(files, toProps)))
  }

  // ---------------------------------------------------------------- script items

  function NamesIn(field: Option<seq<string>>): seq<string> {
    if field.Some? then field.value else []
  }

  predicate HasLegacy(item: Item) {
    item.clues.Some? || item.cluesInSegment.Some? || item.cluesInScene.Some?
  }

  function LegacyNames(item: Item): seq<string> {
    NamesIn(item.clues) + NamesIn(item.cluesInSegment) + NamesIn(item.cluesInScene)
  }

  function MigratedItem(item: Item, locations: set<string>): Item {
    if !HasLegacy(item) then item
    else
      var merged := Dedup(LegacyNames(item));
      Item(None, None, None, Some(Select(merged, locations, true)), Some(Select(merged, locations, false)), item.rest)
  }

  function MigratedItems(items: seq<Item>, locations: set<string>): seq<Item> {
    seq(|items|, i requires 0 <= i < |items| => MigratedItem(items[i], locations))
  }

  function MigratedScript(s: Script, locations: set<string>): Script {
    if s.Unreadable? || s.version >= 1 then s
    else Script(1, MigratedItems(s.scenes, locations), MigratedItems(s.segments, locations), s.rest)
  }

  function MigratedScripts(scripts: map<string, Script>, locations: set<string>): map<string, Script> {
    map name | name in scripts :: MigratedScript(scripts[name], locations)
  }

  // ---------------------------------------------------------------- project.json

  /** `s.replace(old, new, 1)`. */
  function ReplaceFirst(s: string, old_: string, new_: string): string {
    if |s| < |old_| || s == "" then s
    else if s[..|old_|] == old_ then new_ + s[|old_|..]
    else [s[0]] + ReplaceFirst(s[1..], old_, new_)
  }

  function SheetIn(sheet: Option<string>, dir: string): Option<string> {
    if sheet.Some? && sheet.value != "" then Some(ReplaceFirst(sheet.value, "clues/", dir)) else None
  }

  function AssetOf(c: Clue): Asset {
    Asset(c.description, SheetIn(c.sheet, if IsLocation(c) then "scenes/" else "props/"))
  }

  function ScenesOf(clues: map<string, Clue>): map<string, Asset> {
    map name | name in clues && IsLocation(clues[name]) :: AssetOf(clues[name])
  }

  function PropsOf(clues: map<string, Clue>): map<string, Asset> {
    map name | name in clues && !IsLocation(clues[name]) :: AssetOf(clues[name])
  }

  function OldClues(p: Project): map<string, Clue> {
    if p.clues.Some? then p.clues.value else map[]
  }

  function Assets(assets: Option<map<string, Asset>>): map<string, Asset> {
    if assets.Some? then assets.value else map[]
  }

  function MigratedProject(p: Project): Project {
    if OldClues(p) != map[] then
      Project(1, None, Some(ScenesOf(OldClues(p))), Some(PropsOf(OldClues(p))), p.rest)
    else
      Project(1, None, Some(Assets(p.scenes)), Some(Assets(p.props)), p.rest)
  }

  /** The clue table a v1 project stands for; a name in both tables counts as a prop. */
  function Reconstructed(p: Project): map<string, Clue> {
    (map name | name in Assets(p.scenes) :: Clue(Some("location"), "", None)) +
    (map name | name in Assets(p.props) :: Clue(Some("prop"), "", None))
  }

  // ---------------------------------------------------------------- the whole migration

  /** A v1 project is touched again only while `clues/` holds something. */
  predicate NeedsHealing(d: Disk) {
    d.clues.Some? && d.clues.value != map[]
  }

  /** The disk after one run that is not interrupted. */
  ghost function Migrated(d: Disk): Disk {
    if d.project.None? then d
    else
      var p := d.project.value;
      if p.version >= 1 then
        if NeedsHealing(d) then
          Relocated(d, Reconstructed(p)).(scripts := MigratedScripts(d.scripts, Locations(Reconstructed(p))))
        else d
      else
        Relocated(d, OldClues(p)).(
          scripts := MigratedScripts(d.scripts, Locations(OldClues(p))),
          project := Some(MigratedProject(p)))
  }

  // ---------------------------------------------------------------- atomic steps and crashes

  /** The clue table a run on this disk works with. */
  function TableOf(p: Project): map<string, Clue> {
    if p.version >= 1 then Reconstructed(p) else OldClues(p)
  }

  predicate ScriptsDone(d: Disk) {
    forall name <- d.scripts :: d.scripts[name].Unreadable? || d.scripts[name].version >= 1
  }

  ghost predicate FilesDone(d: Disk, clues: map<string, Clue>) {
    d.clues.Some? ==>
      && d.clues.value != map[]
      && d.scenes.Some? && d.props.Some?
      && forall f <- d.clues.value :: !Belongs(clues, f, true) && !Belongs(clues, f, false)
  }

  ghost predicate MakesDirectory(a: Disk, b: Disk) {
    && a.clues.Some?
    && (b == a.(scenes := Some(FilesIn(a.scenes))) || b == a.(props := Some(FilesIn(a.props))))
  }

  function Renamed(d: Disk, file: string, location: bool): Disk
    requires d.clues.Some? && file in d.clues.value
  {
    var taken := d.(clues := Some(d.clues.value - {file}));
    if location then taken.(scenes := Some(FilesIn(d.scenes)[file := d.clues.value[file]]))
    else taken.(props := Some(FilesIn(d.props)[file := d.clues.value[file]]))
  }

  ghost predicate MovesFile(a: Disk, b: Disk, clues: map<string, Clue>) {
    && a.clues.Some? && a.scenes.Some? && a.props.Some?
    && exists f, location :: f in a.clues.value && Belongs(clues, f, location) && b == Renamed(a, f, location)
  }

  predicate RemovesDirectory(a: Disk, b: Disk) {
    a.clues == Some(map[]) && a.scenes.Some? && a.props.Some? && b == a.(clues := None)
  }

  ghost predicate WritesScript(a: Disk, b: Disk, clues: map<string, Clue>) {
    exists name <- a.scripts ::
      b == a.(scripts := a.scripts[name := MigratedScript(a.scripts[name], Locations(clues))])
  }

  ghost predicate Commits(a: Disk, b: Disk) {
    && a.project.Some? && a.project.value.version < 1
    && FilesDone(a, OldClues(a.project.value)) && ScriptsDone(a)
    && b == a.(project := Some(MigratedProject(a.project.value)))
  }

  /** One atomic operation of the migration. */
  ghost predicate Atomic(a: Disk, b: Disk) {
    a.project.Some? &&
    var clues := TableOf(a.project.value);
    || MakesDirectory(a, b)
    || MovesFile(a, b, clues)
    || RemovesDirectory(a, b)
    || WritesScript(a, b, clues)
    || Commits(a, b)
  }

  predicate IsV0(d: Disk) {
    d.project.Some? && d.project.value.version < 1
  }

  lemma DirectoryKeepsGoal(a: Disk, b: Disk, clues: map<string, Clue>)
    requires MakesDirectory(a, b)
    ensures Relocated(b, clues) == Relocated(a, clues)
  {
  }

  lemma MoveOne(base: Files, files: Files, f: string, moving: set<string>)
    requires f in files && f in moving
    ensures base[f := files[f]] + Restrict(files - {f}, moving - {f}) == base + Restrict(files, moving)
  {
  }

  lemma RenameKeepsGoal(a: Disk, clues: map<string, Clue>, f: string, location: bool)
    requires a.clues.Some? && a.scenes.Some? && a.props.Some?
    requires f in a.clues.value && Belongs(clues, f, location)
    ensures Relocated(Renamed(a, f, location), clues) == Relocated(a, clues)
  {
    hide Belongs;
    BelongsOneWay(clues, f);
    var files := a.clues.value;
    var fewer := files - {f};
    var toScenes, toProps := Moving(files, clues, true), Moving(files, clues, false);
    if location {
      assert Moving(fewer, clues, true) == toScenes - {f} && Moving(fewer, clues, false) == toProps;
      MoveOne(a.scenes.value, files, f, toScenes);
      assert Restrict(fewer, toProps) == Restrict(files, toProps);
      assert fewer - (toScenes - {f} + toProps) == files - (toScenes + toProps);
    } else {
      assert Moving(fewer, clues, true) == toScenes && Moving(fewer, clues, false) == toProps - {f};
      MoveOne(a.props.value, files, f, toProps);
      assert Restrict(fewer, toScenes) == Restrict(files, toScenes);
      assert fewer - (toScenes + (toProps - {f})) == files - (toScenes + toProps);
    }
  }

  lemma MoveKeepsGoal(a: Disk, b: Disk, clues: map<string, Clue>)
    requires MovesFile(a, b, clues)
    ensures Relocated(b, clues) == Relocated(a, clues)
  {
    var f, location :| f in a.clues.value && Belongs(clues, f, location) && b == Renamed(a, f, location);
    RenameKeepsGoal(a, clues, f, location);
  }

  lemma RemovalKeepsGoal(a: Disk, b: Disk, clues: map<string, Clue>)
    requires RemovesDirectory(a, b)
    ensures Relocated(b, clues) == Relocated(a, clues)
  {
    var x := Relocated(a, clues);
    assert FilesIn(x.scenes) == FilesIn(a.scenes);
    assert FilesIn(x.props) == FilesIn(a.props);
  }

  lemma ScriptKeepsGoal(scripts: map<string, Script>, name: string, locations: set<string>)
    requires name in scripts
    ensures MigratedScripts(scripts[name := MigratedScript(scripts[name], locations)], locations)
         == MigratedScripts(scripts, locations)
  {
  }

  lemma DoneIsTheGoal(d: Disk, clues: map<string, Clue>)
    requires FilesDone(d, clues) && ScriptsDone(d)
    ensures Relocated(d, clues) == d && MigratedScripts(d.scripts, Locations(clues)) == d.scripts
  {
    if d.clues.Some? {
      NothingMoves(d.clues.value, clues);
      assert FilesIn(d.scenes) + Restrict(d.clues.value, {}) == FilesIn(d.scenes);
      assert FilesIn(d.props) + Restrict(d.clues.value, {}) == FilesIn(d.props);
      assert d.clues.value - ({} + {}) == d.clues.value;
    }
    assert MigratedScripts(d.scripts, Locations(clues)) == d.scripts by {
      assert forall name <- d.scripts :: MigratedScript(d.scripts[name], Locations(clues)) == d.scripts[name];
    }
  }

  lemma NothingMoves(files: map<string, Bytes>, clues: map<string, Clue>)
    requires forall f <- files :: !Belongs(clues, f, true) && !Belongs(clues, f, false)
    ensures Moving(files, clues, true) == {} && Moving(files, clues, false) == {}
  {
  }

  /** An atomic step of a v0 run leads no astray: either the goal of a run from here is still
      the same, or it has just been reached. */
  lemma AtomicStepKeepsGoal(a: Disk, b: Disk)
    requires IsV0(a) && Atomic(a, b)
    ensures if IsV0(b) then Migrated(b) == Migrated(a) else b == Migrated(a)
  {
    var clues := OldClues(a.project.value);
    if MakesDirectory(a, b) {
      DirectoryKeepsGoal(a, b, clues);
    } else if MovesFile(a, b, clues) {
      MoveKeepsGoal(a, b, clues);
    } else if RemovesDirectory(a, b) {
      RemovalKeepsGoal(a, b, clues);
    } else if WritesScript(a, b, clues) {
      var name :| name in a.scripts &&
        b == a.(scripts := a.scripts[name := MigratedScript(a.scripts[name], Locations(clues))]);
      ScriptKeepsGoal(a.scripts, name, Locations(clues));
    } else {
      DoneIsTheGoal(a, clues);
    }
  }

  /** A history of disk states of one or more runs, cut off anywhere and started again. */
  ghost predicate IsHistory(h: seq<Disk>) {
    h != [] && forall i :: 0 < i < |h| ==> Atomic(h[i - 1], h[i])
  }

  /** Crash a v0 run anywhere, any number of times: what an uninterrupted run then makes of the
      disk is what it would have made of the first disk, and the write of `project.json` ends
      exactly there. */
  lemma {:induction false} CrashesDoNotMatter(h: seq<Disk>)
    requires IsHistory(h) && forall i :: 0 <= i < |h| - 1 ==> IsV0(h[i])
    ensures IsV0(h[0]) ==>
      var last := h[|h| - 1];
      if IsV0(last) then Migrated(last) == Migrated(h[0]) else last == Migrated(h[0])
    decreases |h|
  {
    if |h| > 1 && IsV0(h[0]) {
      CrashesDoNotMatter(h[..|h| - 1]);
      AtomicStepKeepsGoal(h[|h| - 2], h[|h| - 1]);
    }
  }

  lemma RelocatedIsDone(d: Disk, clues: map<string, Clue>)
    ensures FilesDone(Relocated(d, clues), clues)
  {
  }

  lemma MigratedScriptsAreDone(d: Disk, locations: set<string>)
    ensures ScriptsDone(d.(scripts := MigratedScripts(d.scripts, locations)))
  {
  }

  lemma KindsReconstructed(p: Project)
    requires p.clues.Some? && p.clues.value != map[]
    ensures var q := Reconstructed(MigratedProject(p));
      q.Keys == OldClues(p).Keys && forall name <- q :: IsLocation(q[name]) <==> IsLocation(OldClues(p)[name])
  {
    assert Lower("location") == "location" && Lower("prop") == "prop";
  }

  lemma ReconstructedBelongs(p: Project, file: string, location: bool)
    requires p.clues.Some? && p.clues.value != map[]
    ensures Belongs(Reconstructed(MigratedProject(p)), file, location) <==> Belongs(OldClues(p), file, location)
  {
    hide Reconstructed, MigratedProject, OldClues, IsLocation;
    KindsReconstructed(p);
  }

  /** A second run changes nothing unless the project was v0 without clues and an image in
      `clues/` bears the name of one of the scenes or props it already had. */
  lemma RerunChangesNothing(d: Disk)
    requires d.project.Some?
    ensures Migrated(Migrated(d)) == Migrated(d) <==>
      !(IsV0(d) && OldClues(d.project.value) == map[] &&
        exists f, location :: f in FilesIn(d.clues) &&
          Belongs(Reconstructed(MigratedProject(d.project.value)), f, location))
  {
    var p := d.project.value;
    var m := Migrated(d);
    if IsV0(d) {
      var q := Reconstructed(MigratedProject(p));
      RelocatedIsDone(d, OldClues(p));
      MigratedScriptsAreDone(d, Locations(OldClues(p)));
      assert ScriptsDone(m);
      if OldClues(p) == map[] {
        assert forall f, l :: !Belongs(OldClues(p), f, l);
        assert FilesIn(m.clues) == FilesIn(d.clues);
        if f, l :| f in FilesIn(d.clues) && Belongs(q, f, l) {
          assert f !in FilesIn(Migrated(m).clues);
        } else {
          assert FilesDone(m, q);
          DoneIsTheGoal(m, q);
        }
      } else {
        forall f, l
          ensures Belongs(q, f, l) <==> Belongs(OldClues(p), f, l)
        {
          ReconstructedBelongs(p, f, l);
        }
        assert FilesDone(m, q);
        DoneIsTheGoal(m, q);
      }
    } else if NeedsHealing(d) {
      RelocatedIsDone(d, Reconstructed(p));
      MigratedScriptsAreDone(d, Locations(Reconstructed(p)));
      DoneIsTheGoal(m, Reconstructed(p));
    }
  }

  // ---------------------------------------------------------------- healing a v1 project

  /** What a healing run works towards, whether or not it would be started. */
  ghost function Healed(d: Disk): Disk
    requires d.project.Some?
  {
    var clues := Reconstructed(d.project.value);
    Relocated(d, clues).(scripts := MigratedScripts(d.scripts, Locations(clues)))
  }

  lemma HealingStepKeepsTheGoal(a: Disk, b: Disk)
    requires Atomic(a, b) && a.project.Some? && a.project.value.version >= 1
    ensures b.project == a.project && Healed(b) == Healed(a)
  {
    hide Relocated, Reconstructed, MigratedScripts, MigratedScript, Belongs;
    var clues := Reconstructed(a.project.value);
    if MakesDirectory(a, b) {
      DirectoryKeepsGoal(a, b, clues);
    } else if MovesFile(a, b, clues) {
      MoveKeepsGoal(a, b, clues);
    } else if RemovesDirectory(a, b) {
      RemovalKeepsGoal(a, b, clues);
    } else {
      var name :| name in a.scripts &&
        b == a.(scripts := a.scripts[name := MigratedScript(a.scripts[name], Locations(clues))]);
      ScriptKeepsGoal(a.scripts, name, Locations(clues));
      ScriptsApart(a, b.scripts, clues);
    }
  }

  lemma ScriptsApart(d: Disk, scripts: map<string, Script>, clues: map<string, Clue>)
    ensures Relocated(d.(scripts := scripts), clues) == Relocated(d, clues).(scripts := scripts)
  {
  }

  lemma {:induction false} HealingStepsKeepTheGoal(h: seq<Disk>)
    requires IsHistory(h) && h[0].project.Some? && h[0].project.value.version >= 1
    ensures var last := h[|h| - 1];
      last.project == h[0].project && Healed(last) == Healed(h[0])
    decreases |h|
  {
    if |h| > 1 {
      var before := h[..|h| - 1];
      assert IsHistory(before) && Atomic(h[|h| - 2], h[|h| - 1]);
      hide *;
      HealingStepsKeepTheGoal(before);
      HealingStepKeepsTheGoal(h[|h| - 2], h[|h| - 1]);
    }
  }

  /** A healing run that crashes is finished by the next run exactly when the crash left
      something in `clues/`, or came after all the work was done: `clues/` gone and no script
      below version 1. Unlike the v0 run it has no commit mark after the scripts. */
  lemma HealingCrash(h: seq<Disk>)
    requires IsHistory(h) && h[0].project.Some? && h[0].project.value.version >= 1 && NeedsHealing(h[0])
    ensures var last := h[|h| - 1];
      Migrated(last) == Migrated(h[0]) <==> NeedsHealing(last) || (last.clues.None? && ScriptsDone(last))
  {
    HealingStepsKeepTheGoal(h);
    var last := h[|h| - 1];
    var clues := Reconstructed(last.project.value);
    HealedIsDone(last);
    if last.clues.None? && ScriptsDone(last) {
      DoneIsTheGoal(last, clues);
    }
  }

  /** Where a healing run is heading, `clues/` is gone or holds other files, and the scripts are done. */
  lemma HealedIsDone(d: Disk)
    requires d.project.Some?
    ensures ScriptsDone(Healed(d)) && (Healed(d).clues.Some? ==> Healed(d).clues.value != map[])
  {
    MigratedScriptsAreDone(Relocated(d, Reconstructed(d.project.value)), Locations(Reconstructed(d.project.value)));
  }

  /** Such a crash does occur: here the scripts of a v1 project are never rewritten. */
  lemma HealingCanStall(asset: Asset, old_: Script, bytes: Bytes)
    requires old_.Script? && old_.version < 1
    ensures
      var d := Disk(Some(Project(1, None, Some(map["A" := asset]), Some(map[]), "")),
                    Some(map[FileName("A", "png") := bytes]), Some(map[]), Some(map[]), map["E1" := old_]);
      var moved := Renamed(d, FileName("A", "png"), true);
      IsHistory([d, moved]) && Migrated(moved) != Migrated(d)
  {
    var p := Project(1, None, Some(map["A" := asset]), Some(map[]), "");
    var f := FileName("A", "png");
    var d := Disk(Some(p), Some(map[f := bytes]), Some(map[]), Some(map[]), map["E1" := old_]);
    SceneImageBelongs(asset);
    hide FileName, Reconstructed, Belongs, Relocated, MigratedScripts;
    assert MovesFile(d, Renamed(d, f, true), TableOf(p));
    assert Migrated(d).scripts == MigratedScripts(d.scripts, Locations(Reconstructed(p)));
    RewrittenAtOnce(d.scripts, "E1", Locations(Reconstructed(p)));
    assert !NeedsHealing(Renamed(d, f, true));
  }

  lemma SceneImageBelongs(asset: Asset)
    ensures var clues := Reconstructed(Project(1, None, Some(map["A" := asset]), Some(map[]), ""));
      Belongs(clues, FileName("A", "png"), true)
  {
    var clues := Reconstructed(Project(1, None, Some(map["A" := asset]), Some(map[]), ""));
    assert clues["A"] == Clue(Some("location"), "", None) && "A" in clues;
    assert Lower("location") == "location" && IsLocation(clues["A"]);
    assert "png" == EXTENSIONS[0];
    hide FileName, Reconstructed, IsLocation;
    ImageBelongs(clues, "A", "png");
  }

  lemma RewrittenAtOnce(scripts: map<string, Script>, name: string, locations: set<string>)
    requires name in scripts && scripts[name].Script? && scripts[name].version < 1
    ensures MigratedScripts(scripts, locations) != scripts
  {
    assert MigratedScripts(scripts, locations)[name].version == 1;
  }

  // ---------------------------------------------------------------- references stay whole

  lemma ReplacedPrefix(rest: string, dir: string)
    ensures ReplaceFirst("clues/" + rest, "clues/", dir) == dir + rest
  {
    var s := "clues/" + rest;
    assert s[..6] == "clues/" && s[6..] == rest;
  }

  /** After the migration scenes and props partition the clues, and a clue whose sheet was its
      own image has the same image at the rewritten path. */
  lemma SheetsFollowTheirImages(d: Disk, name: string, ext: string)
    requires IsV0(d) && name in OldClues(d.project.value) && ext in ["png", "jpg", "jpeg", "webp"]
    requires d.clues.Some? && FileName(name, ext) in d.clues.value
    requires OldClues(d.project.value)[name].sheet == Some("clues/" + FileName(name, ext))
    ensures var m := Migrated(d); var p := m.project.value; var file := FileName(name, ext);
      && m.scenes.Some? && m.props.Some? && p.scenes.Some? && p.props.Some?
      && p.scenes.value.Keys + p.props.value.Keys == OldClues(d.project.value).Keys
      && p.scenes.value.Keys !! p.props.value.Keys
      && if IsLocation(OldClues(d.project.value)[name])
         then name in p.scenes.value && p.scenes.value[name].sheet == Some("scenes/" + file)
              && file in m.scenes.value && m.scenes.value[file] == d.clues.value[file]
         else name in p.props.value && p.props.value[name].sheet == Some("props/" + file)
              && file in m.props.value && m.props.value[file] == d.clues.value[file]
  {
    var clues := OldClues(d.project.value);
    assert Belongs(clues, FileName(name, ext), IsLocation(clues[name]));
    ReplacedPrefix(FileName(name, ext), "scenes/");
    ReplacedPrefix(FileName(name, ext), "props/");
  }

  /** The clue names of a script item are split without loss, duplicate or reordering, and a
      registered name lands in the list of the table that now holds it. */
  lemma ItemsAreSplitWhole(item: Item, clues: map<string, Clue>)
    requires HasLegacy(item)
    ensures var r := MigratedItem(item, Locations(clues)); var names := LegacyNames(item);
      && r.scenes.Some? && r.props.Some? && !HasLegacy(r) && r.rest == item.rest
      && InFirstOrder(r.scenes.value, names) && InFirstOrder(r.props.value, names)
      && (forall n <- names :: n in r.scenes.value <==> n !in r.props.value)
      && (forall n <- names | n in clues :: n in r.scenes.value <==> n in ScenesOf(clues))
      && (forall n <- names | n in clues :: n in r.props.value <==> n in PropsOf(clues))
  {
    var names := LegacyNames(item);
    DedupKeepsFirsts(names);
    SelectKeepsOrder(Dedup(names), names, Locations(clues), true);
    SelectKeepsOrder(Dedup(names), names, Locations(clues), false);
  }

  /** `r` is `item` with its legacy clue fields, if it has any, split: every name they hold goes
      once, in order of first occurrence, to the scenes if it is in `scenes`, else to the props. */
  ghost predicate IsSplit(item: Item, r: Item, scenes: set<string>) {
    if item.clues == None && item.cluesInSegment == None && item.cluesInScene == None then r == item
    else
      var names := (if item.clues == None then [] else item.clues.value)
                 + (if item.cluesInSegment == None then [] else item.cluesInSegment.value)
                 + (if item.cluesInScene == None then [] else item.cluesInScene.value);
      && r.clues == None && r.cluesInSegment == None && r.cluesInScene == None && r.rest == item.rest
      && r.scenes.Some? && InFirstOrder(r.scenes.value, names)
      && r.props.Some? && InFirstOrder(r.props.value, names)
      && (forall n :: n in r.scenes.value <==> n in names && n in scenes)
      && (forall n :: n in r.props.value <==> n in names && n !in scenes)
  }

  ghost predicate AreSplit(items: seq<Item>, r: seq<Item>, scenes: set<string>) {
    |r| == |items| && forall i :: 0 <= i < |items| ==> IsSplit(items[i], r[i], scenes)
  }

  lemma LegacyNamesAre(item: Item)
    ensures LegacyNames(item) ==
        (if item.clues == None then [] else item.clues.value)
      + (if item.cluesInSegment == None then [] else item.cluesInSegment.value)
      + (if item.cluesInScene == None then [] else item.cluesInScene.value)
  {
  }

  lemma ItemIsSplit(item: Item, locations: set<string>)
    ensures IsSplit(item, MigratedItem(item, locations), locations)
  {
    hide InFirstOrder, Dedup, Select, LegacyNames, NamesIn;
    LegacyNamesAre(item);
    if HasLegacy(item) {
      var names := LegacyNames(item);
      DedupKeepsFirsts(names);
      InOrderMeansIn(Dedup(names), names);
      SelectKeepsOrder(Dedup(names), names, locations, true);
      SelectKeepsOrder(Dedup(names), names, locations, false);
    }
  }

  lemma ItemsAreSplit(items: seq<Item>, locations: set<string>)
    ensures AreSplit(items, MigratedItems(items, locations), locations)
  {
    hide IsSplit, MigratedItem;
    forall i | 0 <= i < |items|
      ensures IsSplit(items[i], MigratedItem(items[i], locations), locations)
    {
      ItemIsSplit(items[i], locations);
    }
  }

  /** The names of scenes in the clue table of a v0 project, or in the tables of a v1 project. */
  function SceneNames(p: Project): set<string> {
    if p.version < 1 then
      set n | p.clues.Some? && n in p.clues.value && IsLocation(p.clues.value[n])
    else
      (if p.scenes.Some? then p.scenes.value.Keys else {}) - (if p.props.Some? then p.props.value.Keys else {})
  }

  lemma SceneNamesAreLocations(p: Project)
    ensures SceneNames(p) == Locations(TableOf(p))
  {
    var location, prop := Clue(Some("location"), "", None), Clue(Some("prop"), "", None);
    assert Lower("location") == "location" && IsLocation(location);
    assert Lower("prop")[0] == 'p' && !IsLocation(prop);
    hide IsLocation;
    if p.version >= 1 {
      forall n
        ensures n in SceneNames(p) <==> n in Locations(Reconstructed(p))
      {
      }
    }
  }

  /** A run rewrites every readable script below version 1, both its lists item by item at their
      places, and no other script. */
  lemma ScriptsAreSplitWhole(d: Disk, name: string)
    requires d.project.Some? && (IsV0(d) || NeedsHealing(d)) && name in d.scripts
    ensures Migrated(d).scripts.Keys == d.scripts.Keys
    ensures var old_ := d.scripts[name]; var r := Migrated(d).scripts[name];
      if old_.Unreadable? || old_.version >= 1 then r == old_
      else
        && r.Script? && r.version == 1 && r.rest == old_.rest
        && AreSplit(old_.scenes, r.scenes, SceneNames(d.project.value))
        && AreSplit(old_.segments, r.segments, SceneNames(d.project.value))
  {
    hide AreSplit, MigratedItems, SceneNames, Relocated, Reconstructed, Locations;
    var locations := Locations(TableOf(d.project.value));
    SceneNamesAreLocations(d.project.value);
    if d.scripts[name].Script? {
      ItemsAreSplit(d.scripts[name].scenes, locations);
      ItemsAreSplit(d.scripts[name].segments, locations);
    }
  }

  predicate OccursAt(s: string, part: string, i: int) {
    0 <= i <= |s| - |part| && s[i..i + |part|] == part
  }

  lemma OccursInRest(s: string, part: string, i: int)
    requires s != "" && i >= 0
    ensures OccursAt(s[1..], part, i) <==> OccursAt(s, part, i + 1)
  {
    if i + 1 + |part| <= |s| {
      assert s[1..][i..i + |part|] == s[i + 1..i + 1 + |part|];
    }
  }

  /** The first occurrence is replaced, and without one nothing changes. */
  lemma {:induction false} ReplacedAtFirst(s: string, part: string, by_: string, at: nat)
    requires part != "" && forall i :: 0 <= i < at ==> !OccursAt(s, part, i)
    ensures OccursAt(s, part, at) ==> ReplaceFirst(s, part, by_) == s[..at] + by_ + s[at + |part|..]
    ensures at >= |s| ==> ReplaceFirst(s, part, by_) == s
    decreases |s|
  {
    if s == "" || |s| < |part| {
    } else if at == 0 {
      assert s[..|part|] == s[0..|part|];
      if OccursAt(s, part, 0) {
        assert s[..0] + by_ + s[|part|..] == by_ + s[|part|..];
      }
    } else {
      assert !OccursAt(s, part, 0) && s[..|part|] == s[0..|part|];
      var rest := s[1..];
      forall i | 0 <= i < at - 1
        ensures !OccursAt(rest, part, i)
      {
        OccursInRest(s, part, i);
      }
      OccursInRest(s, part, at - 1);
      ReplacedAtFirst(rest, part, by_, at - 1);
      RestPutBack(s, part, by_, at);
    }
  }

  lemma RestPutBack(s: string, part: string, by_: string, at: nat)
    requires 0 < at && s != ""
    ensures [s[0]] + s[1..] == s
    ensures at + |part| <= |s| ==>
      [s[0]] + (s[1..][..at - 1] + by_ + s[1..][at - 1 + |part|..]) == s[..at] + by_ + s[at + |part|..]
  {
  }

  /** `q` has everything of the clue, its sheet under the new directory. */
  ghost predicate CarriesOver(c: Clue, q: Asset, dir: string) {
    && q.description == c.description
    && q.sheet == if c.sheet == None || c.sheet == Some("") then None
                  else Some(ReplaceFirst(c.sheet.value, "clues/", dir))
  }

  /** The new `project.json`: every clue is a scene or a prop with all it had; a project without
      clues keeps the scenes and props it has; the other fields stay. */
  lemma ProjectIsMigratedWhole(d: Disk)
    requires IsV0(d)
    ensures Migrated(d).project.Some?
    ensures var p, q := d.project.value, Migrated(d).project.value;
      && q.version == 1 && q.clues == None && q.rest == p.rest && q.scenes.Some? && q.props.Some?
      && if p.clues == None || p.clues == Some(map[]) then
           && q.scenes.value == (if p.scenes == None then map[] else p.scenes.value)
           && q.props.value == (if p.props == None then map[] else p.props.value)
         else
           && q.scenes.value.Keys == SceneNames(p) && q.props.value.Keys == p.clues.value.Keys - SceneNames(p)
           && (forall name <- q.scenes.value :: CarriesOver(p.clues.value[name], q.scenes.value[name], "scenes/"))
           && (forall name <- q.props.value :: CarriesOver(p.clues.value[name], q.props.value[name], "props/"))
  {
    hide IsLocation, ReplaceFirst, Relocated, MigratedScripts;
  }

  /** A clue is a location if its type is `location` in any mixture of cases. */
  lemma LocationSpelling(c: Clue)
    ensures IsLocation(c) <==>
      && c.clueType.Some? && |c.clueType.value| == 8
      && forall i :: 0 <= i < 8 ==> c.clueType.value[i] in ["lL", "oO", "cC", "aA", "tT", "iI", "oO", "nN"][i]
  {
    if c.clueType.Some? {
      var t, spellings := c.clueType.value, ["lL", "oO", "cC", "aA", "tT", "iI", "oO", "nN"];
      if |t| == 8 {
        forall i | 0 <= i < 8
          ensures t[i] in spellings[i] <==> LowerChar(t[i]) == "location"[i]
        {
          assert spellings[i][0] == "location"[i] && |spellings[i]| == 2;
        }
      }
    }
  }

  // ---------------------------------------------------------------- the code

  /** `_split_clues`. */
  method SplitClues(clues: map<string, Clue>) returns (scenes: map<string, Asset>, props: map<string, Asset>)
    ensures scenes == ScenesOf(clues) && props == PropsOf(clues)
  {
    scenes, props := map[], map[];
    var todo := clues.Keys;
    while todo != {}
      invariant todo <= clues.Keys
      invariant scenes == map n | n in clues && n !in todo && IsLocation(clues[n]) :: AssetOf(clues[n])
      invariant props == map n | n in clues && n !in todo && !IsLocation(clues[n]) :: AssetOf(clues[n])
      decreases todo
    {
      var name :| name in todo;
      todo := todo - {name};
      if IsLocation(clues[name]) {
        scenes := scenes[name := AssetOf(clues[name])];
      } else {
        props := props[name := AssetOf(clues[name])];
      }
    }
  }

  /** The rewriting of one script item. */
  method SplitItem(item: Item, locations: set<string>) returns (r: Item)
    ensures r == MigratedItem(item, locations)
  {
    if !HasLegacy(item) {
      return item;
    }
    var names := LegacyNames(item);
    var merged: seq<string> := [];
    var seen: set<string> := {};
    for i := 0 to |names|
      invariant merged == Dedup(names[..i])
      invariant seen == set n <- merged
    {
      assert names[..i + 1][..i] == names[..i];
      if names[i] !in seen {
        seen := seen + {names[i]};
        merged := merged + [names[i]];
      }
    }
    assert names[..|names|] == names;
    var scenes: seq<string>, props: seq<string> := [], [];
    for i := 0 to |merged|
      invariant scenes == Select(merged[..i], locations, true)
      invariant props == Select(merged[..i], locations, false)
    {
      assert merged[..i + 1][..i] == merged[..i];
      if merged[i] in locations {
        scenes := scenes + [merged[i]];
      } else {
        props := props + [merged[i]];
      }
    }
    assert merged[..|merged|] == merged;
    r := Item(None, None, None, Some(scenes), Some(props), item.rest);
  }

  method SplitItems(items: seq<Item>, locations: set<string>) returns (r: seq<Item>)
    ensures r == MigratedItems(items, locations)
  {
    r := [];
    for i := 0 to |items|
      invariant r == MigratedItems(items[..i], locations)
    {
      var item := SplitItem(items[i], locations);
      r := r + [item];
    }
    assert items[..|items|] == items;
  }

  class Migrator {
    var disk: Disk
    ghost var history: seq<Disk>  // every disk state so far, the current one last

    ghost predicate Valid()
      reads this
    {
      IsHistory(history) && history[|history| - 1] == disk
    }

    /** The states recorded from `start` on belong to a run that has not committed yet. */
    ghost predicate Unchanged(start: nat, project: Option<Project>)
      reads this
    {
      disk.project == project && forall k :: start <= k < |history| ==> history[k].project == project
    }

    constructor (disk: Disk)
      ensures Valid() && this.disk == disk && history == [disk]
    {
      this.disk := disk;
      history := [disk];
    }

    /** One atomic operation on the disk. */
    method Apply(next: Disk)
      requires Valid() && Atomic(disk, next)
      modifies this
      ensures Valid() && disk == next && history == old(history) + [next]
    {
      disk := next;
      history := history + [next];
    }

    /** `_relocate_clue_files`, the clue images. */
    method RelocateClueFiles(clues: map<string, Clue>)
      requires Valid() && disk.project.Some? && TableOf(disk.project.value) == clues
      modifies this
      ensures Valid() && old(history) <= history
      ensures disk == Relocated(old(disk), clues)
      ensures Unchanged(|old(history)|, old(disk).project)
    {
      if disk.clues.None? {
        return;
      }
      MakeDirectories();
      assert Relocated(disk, clues) == Relocated(old(disk), clues);
      hide Relocated, FileName;
      var todo := clues.Keys;
      while todo != {}
        invariant todo <= clues.Keys
        invariant Valid() && old(history) <= history && Unchanged(|old(history)|, old(disk).project)
        invariant disk.clues.Some? && disk.scenes.Some? && disk.props.Some?
        invariant Relocated(disk, clues) == Relocated(old(disk), clues)
        invariant forall name <- clues.Keys - todo, ext <- EXTENSIONS :: FileName(name, ext) !in disk.clues.value
        decreases todo
      {
        var name :| name in todo;
        MoveImages(clues, name);
        todo := todo - {name};
      }
      if disk.clues.value == map[] {
        RemovalKeepsGoal(disk, disk.(clues := None), clues);
        Apply(disk.(clues := None));
      } else {
        AllMoved(disk, clues);
      }
    }

    method MakeDirectories()
      requires Valid() && disk.project.Some? && disk.clues.Some?
      modifies this
      ensures Valid() && old(history) <= history
      ensures disk == old(disk).(scenes := Some(FilesIn(old(disk).scenes)), props := Some(FilesIn(old(disk).props)))
      ensures Unchanged(|old(history)|, old(disk).project)
    {
      if disk.scenes.None? {
        Apply(disk.(scenes := Some(map[])));
      }
      if disk.props.None? {
        Apply(disk.(props := Some(map[])));
      }
    }

    /** The up to four images of one clue. */
    method MoveImages(clues: map<string, Clue>, name: string)
      requires Valid() && disk.project.Some? && TableOf(disk.project.value) == clues && name in clues
      requires disk.clues.Some? && disk.scenes.Some? && disk.props.Some?
      modifies this
      ensures Valid() && old(history) <= history && Unchanged(|old(history)|, old(disk).project)
      ensures disk.clues.Some? && disk.scenes.Some? && disk.props.Some?
      ensures Relocated(disk, clues) == Relocated(old(disk), clues)
      ensures disk.clues.value.Keys <= old(disk).clues.value.Keys
      ensures forall ext <- EXTENSIONS :: FileName(name, ext) !in disk.clues.value
    {
      hide Relocated, Belongs, IsHistory, Renamed, TableOf, FileName, IsLocation;
      var location := IsLocation(clues[name]);
      for i := 0 to |EXTENSIONS|
        invariant Valid() && old(history) <= history && Unchanged(|old(history)|, old(disk).project)
        invariant disk.clues.Some? && disk.scenes.Some? && disk.props.Some?
        invariant Relocated(disk, clues) == Relocated(old(disk), clues)
        invariant disk.clues.value.Keys <= old(disk).clues.value.Keys
        invariant forall k :: 0 <= k < i ==> FileName(name, EXTENSIONS[k]) !in disk.clues.value
      {
        var file := FileName(name, EXTENSIONS[i]);
        if file in disk.clues.value {
          assert EXTENSIONS[i] in EXTENSIONS;
          ImageBelongs(clues, name, EXTENSIONS[i]);
          MoveImage(clues, file, location);
        }
      }
    }

    /** One rename. */
    method MoveImage(clues: map<string, Clue>, file: string, location: bool)
      requires Valid() && disk.project.Some? && TableOf(disk.project.value) == clues
      requires disk.clues.Some? && disk.scenes.Some? && disk.props.Some?
      requires file in disk.clues.value && Belongs(clues, file, location)
      modifies this
      ensures Valid() && history == old(history) + [disk] && disk == Renamed(old(disk), file, location)
      ensures disk.clues.Some? && disk.scenes.Some? && disk.props.Some? && disk.project == old(disk).project
      ensures disk.clues.value == old(disk).clues.value - {file}
      ensures Relocated(disk, clues) == Relocated(old(disk), clues)
    {
      RenameKeepsGoal(disk, clues, file, location);
      hide Relocated, Belongs;
      assert MovesFile(disk, Renamed(disk, file, location), clues);
      Apply(Renamed(disk, file, location));
    }

    /** `_migrate_scripts`, with the kinds of the names given by the clue table. */
    method MigrateScripts(clues: map<string, Clue>)
      requires Valid() && disk.project.Some? && TableOf(disk.project.value) == clues
      modifies this
      ensures Valid() && old(history) <= history
      ensures disk == old(disk).(scripts := MigratedScripts(old(disk).scripts, Locations(clues)))
      ensures Unchanged(|old(history)|, old(disk).project)
    {
      var locations := Locations(clues);
      var todo := disk.scripts.Keys;
      ghost var scripts := disk.scripts;
      while todo != {}
        invariant todo <= scripts.Keys == disk.scripts.Keys
        invariant Valid() && old(history) <= history && Unchanged(|old(history)|, old(disk).project)
        invariant disk == old(disk).(scripts := disk.scripts)
        invariant forall n <- scripts ::
          disk.scripts[n] == if n in todo then scripts[n] else MigratedScript(scripts[n], locations)
        decreases todo
      {
        var name :| name in todo;
        todo := todo - {name};
        var s := disk.scripts[name];
        if s.Script? && s.version < 1 {
          var scenes := SplitItems(s.scenes, locations);
          var segments := SplitItems(s.segments, locations);
          var t := Script(1, scenes, segments, s.rest);
          assert t == MigratedScript(s, locations);
          assert WritesScript(disk, disk.(scripts := disk.scripts[name := t]), clues);
          Apply(disk.(scripts := disk.scripts[name := t]));
        }
      }
      assert disk.scripts == MigratedScripts(scripts, locations);
    }

    /** `migrate_v0_to_v1`. Every state it passes through is in `history`. */
    method Migrate()
      requires Valid()
      modifies this
      ensures Valid() && old(history) <= history
      ensures disk == Migrated(old(disk))
      ensures IsV0(old(disk)) ==> forall k :: |old(history)| <= k < |history| - 1 ==> IsV0(history[k])
    {
      if disk.project.None? {
        return;
      }
      var p := disk.project.value;
      if p.version >= 1 {
        if NeedsHealing(disk) {
          RelocateClueFiles(Reconstructed(p));
          MigrateScripts(Reconstructed(p));
        }
        return;
      }
      var clues := OldClues(p);
      RelocateClueFiles(clues);
      MigrateScripts(clues);
      var q: Project;
      if clues != map[] {
        var scenes, props := SplitClues(clues);
        q := Project(1, None, Some(scenes), Some(props), p.rest);
      } else {
        q := Project(1, None, Some(Assets(p.scenes)), Some(Assets(p.props)), p.rest);
      }
      RelocatedIsDone(old(disk), clues);
      MigratedScriptsAreDone(old(disk), Locations(clues));
      assert Commits(disk, disk.(project := Some(q)));
      Apply(disk.(project := Some(q)));
    }
  }

  lemma AllMoved(d: Disk, clues: map<string, Clue>)
    requires d.clues.Some? && d.clues.value != map[] && d.scenes.Some? && d.props.Some?
    requires forall name <- clues, ext <- EXTENSIONS :: FileName(name, ext) !in d.clues.value
    ensures Relocated(d, clues) == d
  {
    assert FilesDone(d, clues);
    DoneIsTheGoal(d.(scripts := map[]), clues);
    assert Relocated(d, clues) == Relocated(d.(scripts := map[]), clues).(scripts := d.scripts);
  }
}
