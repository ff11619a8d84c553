/**
 `resolve_schema` (lib/text_backends/base.py): a JSON Schema with `$ref`s into its own
 `$defs` is rewritten into one without.

 `Inline` is the code: it carries the set of definition names on the current path and fails
 when one comes back. Three independent readings of a schema are given beside it: the chains
 of references one can follow (`Chain`), the unfolding to a given depth, which knows nothing
 of visited names (`Unfold`), and reading a value at a path while following references only
 where the path goes (`LazyObserve`, the meaning of `$ref` in JSON Schema Core 2020-12,
 section 8.2.3.1).
 */
module SchemaInliner {
  import opened Wrappers

  datatype Json =
    | Null
    | Bool(b: bool)
    | Num(n: real)
    | Str(text: string)
    | Arr(items: seq<Json>)
    | Obj(fields: seq<Field>)  // a dict, in insertion order

  datatype Field = Field(key: string, value: Json)

  datatype Error =
    | Cycle(name: string)       // ValueError
    | UnknownName(name: string) // KeyError
    | NotAString                // AttributeError: the value of `$ref` has no `split`
    | NotADict                  // TypeError

  const REF := "$ref"
  const DEFS := "$defs"

  function Lookup(fields: seq<Field>, key: string): (r: Option<Json>)
    ensures r.Some? ==> Field(key, r.value) in fields
    ensures r.None? <==> forall f <- fields :: f.key != key
  {
    if fields == [] then None
    else if fields[0].key == key then assert fields[0] == Field(key, fields[0].value); Some(fields[0].value)
    else Lookup(fields[1..], key)
  }

  function Without(fields: seq<Field>, key: string): (r: seq<Field>)
    ensures forall f :: f in r <==> f in fields && f.key != key
  {
    if fields == [] then []
    else (if fields[0].key == key then [] else [fields[0]]) + Without(fields[1..], key)
  }

  /** `dict[key] = value`: an existing key keeps its position, a new one goes last. */
  function Put(fields: seq<Field>, key: string, value: Json): (r: seq<Field>)
    ensures forall k :: Lookup(r, k) == if k == key then Some(value) else Lookup(fields, k)
    ensures forall f <- r :: f == Field(key, value) || (f in fields && f.key != key) || f in fields
  {
    if fields == [] then [Field(key, value)]
    else if fields[0].key == key then [Field(key, value)] + fields[1..]
    else [fields[0]] + Put(fields[1..], key, value)
  }

  /** `{**base, **extra}`. */
  function Merge(base: seq<Field>, extra: seq<Field>): seq<Field>
    decreases |extra|
  {
    if extra == [] then base else Merge(Put(base, extra[0].key, extra[0].value), extra[1..])
  }

  /** The text after the last slash. */
  function RefName(ref: string): (name: string)
    ensures '/' !in name
    ensures ref == name || (|name| < |ref| && ref[|ref| - |name| - 1] == '/' && ref[|ref| - |name|..] == name)
  {
    if ref == "" then ""
    else if '/' in ref[1..] then RefName(ref[1..])
    else if ref[0] == '/' then ref[1..]
    else ref
  }

  function Find(defs: Json, name: string): Result<Json, Error> {
    if !defs.Obj? then Err(NotADict)
    else match Lookup(defs.fields, name)
      case Some(d) => Ok(d)
      case None => Err(UnknownName(name))
  }

  function Names(defs: Json): set<string> {
    if defs.Obj? then set f <- defs.fields :: f.key else {}
  }

  /** The merge of a resolved definition with the siblings of the `$ref`, which are taken over
      as they are. */
  function WithSiblings(resolved: Json, siblings: seq<Field>): Result<Json, Error> {
    if siblings == [] then Ok(resolved)
    else if resolved.Obj? then Ok(Obj(Merge(resolved.fields, siblings)))
    else Err(NotADict)
  }

  function Inline(defs: Json, j: Json, visited: set<string>): Result<Json, Error>
    decreases Names(defs) - visited, j, 1
  {
    match j
    case Obj(fields) =>
      (match Lookup(fields, REF)
       case None =>
         (match InlineFields(defs, fields, visited)
          case Ok(fs) => Ok(Obj(fs))
          case Err(e) => Err(e))
       case Some(target) =>
         if !target.Str? then Err(NotAString)
         else
           var name := RefName(target.text);
           if name in visited then Err(Cycle(name))
           else match Find(defs, name)
             case Err(e) => Err(e)
             case Ok(d) =>
               match Inline(defs, d, visited + {name})
               case Err(e) => Err(e)
               case Ok(resolved) => WithSiblings(resolved, Without(fields, REF)))
    case Arr(items) =>
      (match InlineItems(defs, items, visited)
       case Ok(xs) => Ok(Arr(xs))
       case Err(e) => Err(e))
    case _ => Ok(j)
  }

  function InlineFields(defs: Json, fields: seq<Field>, visited: set<string>): Result<seq<Field>, Error>
    decreases Names(defs) - visited, fields, 0
  {
    if fields == [] then Ok([])
    else match Inline(defs, fields[0].value, visited)
      case Err(e) => Err(e)
      case Ok(v) =>
        match InlineFields(defs, fields[1..], visited)
        case Err(e) => Err(e)
        case Ok(rest) => Ok([Field(fields[0].key, v)] + rest)
  }

  function InlineItems(defs: Json, items: seq<Json>, visited: set<string>): Result<seq<Json>, Error>
    decreases Names(defs) - visited, items, 0
  {
    if items == [] then Ok([])
    else match Inline(defs, items[0], visited)
      case Err(e) => Err(e)
      case Ok(v) =>
        match InlineItems(defs, items[1..], visited)
        case Err(e) => Err(e)
        case Ok(rest) => Ok([v] + rest)
  }

  /** `not defs` of the source. */
  predicate Falsy(j: Json) {
    j == Null || j == Bool(false) || j == Num(0.0) || j == Str("") || j == Arr([]) || j == Obj([])
  }

  function ResolveSchema(schema: seq<Field>): Result<seq<Field>, Error> {
    match Lookup(schema, DEFS)
    case None => Ok(schema)
    case Some(defs) =>
      if Falsy(defs) then Ok(schema)
      else match Inline(defs, Obj(schema), {})
        case Err(e) => Err(e)
        case Ok(j) => assert j.Obj? by { InlinedIsObject(schema, DEFS, defs); } Ok(Without(j.fields, DEFS))
  }

  // ---------------------------------------------------------------- chains of references

  /** The names the inliner follows inside `j` itself, without entering a definition: it does
      not look at the siblings of a `$ref`. */
  function Followed(j: Json): set<string>
    decreases j, 1
  {
    match j
    case Obj(fields) =>
      (match Lookup(fields, REF)
       case Some(target) => if target.Str? then {RefName(target.text)} else {}
       case None => FollowedInFields(fields))
    case Arr(items) => FollowedInItems(items)
    case _ => {}
  }

  function FollowedInFields(fields: seq<Field>): set<string>
    decreases fields, 0
  {
    if fields == [] then {} else Followed(fields[0].value) + FollowedInFields(fields[1..])
  }

  function FollowedInItems(items: seq<Json>): set<string>
    decreases items, 0
  {
    if items == [] then {} else Followed(items[0]) + FollowedInItems(items[1..])
  }

  /** The names followed inside the definition called `name`. */
  function Next(defs: Json, name: string): set<string> {
    match Find(defs, name)
    case Ok(d) => Followed(d)
    case Err(_) => {}
  }

  /** A chain of references: each name is followed inside the definition of the one before. */
  predicate ChainFrom(defs: Json, start: set<string>, names: seq<string>)
    decreases |names|
  {
    names == [] || (names[0] in start && ChainFrom(defs, Next(defs, names[0]), names[1..]))
  }

  predicate Chain(defs: Json, j: Json, names: seq<string>) {
    ChainFrom(defs, Followed(j), names)
  }

  predicate Repeats(names: seq<string>) {
    exists i, k :: 0 <= i < k < |names| && names[i] == names[k]
  }

  /** What success says about the next reference of any chain. */
  lemma {:induction false} OkFollows(defs: Json, j: Json, visited: set<string>, name: string)
    requires Inline(defs, j, visited).Ok? && name in Followed(j)
    ensures name !in visited && Find(defs, name).Ok?
    ensures Inline(defs, Find(defs, name).value, visited + {name}).Ok?
    decreases j, 1
  {
    match j
    case Obj(fields) =>
      if Lookup(fields, REF).None? {
        OkFollowsInFields(defs, fields, visited, name);
      }
    case Arr(items) => OkFollowsInItems(defs, items, visited, name);
    case _ =>
  }

  lemma {:induction false} OkFollowsInFields(defs: Json, fields: seq<Field>, visited: set<string>, name: string)
    requires InlineFields(defs, fields, visited).Ok? && name in FollowedInFields(fields)
    ensures name !in visited && Find(defs, name).Ok?
    ensures Inline(defs, Find(defs, name).value, visited + {name}).Ok?
    decreases fields, 0
  {
    if name in Followed(fields[0].value) {
      OkFollows(defs, fields[0].value, visited, name);
    } else {
      OkFollowsInFields(defs, fields[1..], visited, name);
    }
  }

  lemma {:induction false} OkFollowsInItems(defs: Json, items: seq<Json>, visited: set<string>, name: string)
    requires InlineItems(defs, items, visited).Ok? && name in FollowedInItems(items)
    ensures name !in visited && Find(defs, name).Ok?
    ensures Inline(defs, Find(defs, name).value, visited + {name}).Ok?
    decreases items, 0
  {
    if name in Followed(items[0]) {
      OkFollows(defs, items[0], visited, name);
    } else {
      OkFollowsInItems(defs, items[1..], visited, name);
    }
  }

  lemma {:induction false} OkMeansNoRepetition(defs: Json, j: Json, visited: set<string>, names: seq<string>)
    requires Inline(defs, j, visited).Ok? && Chain(defs, j, names)
    ensures !Repeats(names) && forall n <- names :: n !in visited
    decreases |names|
  {
    if names != [] {
      OkFollows(defs, j, visited, names[0]);
      OkMeansNoRepetition(defs, Find(defs, names[0]).value, visited + {names[0]}, names[1..]);
      var rest := names[1..];
      assert forall n <- names :: n == names[0] || n in rest;
      assert forall k :: 0 < k < |names| ==> names[k] == rest[k - 1];
    }
  }

  /** A cycle error comes with its evidence: a chain that returns to a name on the path. */
  lemma {:induction false} CycleWitness(defs: Json, j: Json, visited: set<string>,
      name: string) returns (names: seq<string>)
    requires Inline(defs, j, visited) == Err(Cycle(name))
    ensures names != [] && names[|names| - 1] == name && Chain(defs, j, names)
    ensures name in visited || name in names[..|names| - 1]
    decreases Names(defs) - visited, j, 1
  {
    match j
    case Obj(fields) =>
      if Lookup(fields, REF).None? {
        names := CycleWitnessInFields(defs, fields, visited, name);
      } else {
        var head := RefName(Lookup(fields, REF).value.text);
        if head in visited {
          names := [head];
        } else {
          var rest := CycleWitness(defs, Find(defs, head).value, visited + {head}, name);
          names := [head] + rest;
          assert names[1..] == rest;
          assert names[..|names| - 1] == [head] + rest[..|rest| - 1];
        }
      }
    case Arr(items) => names := CycleWitnessInItems(defs, items, visited, name);
  }

  lemma {:induction false} CycleWitnessInFields(defs: Json, fields: seq<Field>, visited: set<string>, name: string)
    returns (names: seq<string>)
    requires InlineFields(defs, fields, visited) == Err(Cycle(name))
    ensures names != [] && names[|names| - 1] == name && ChainFrom(defs, FollowedInFields(fields), names)
    ensures name in visited || name in names[..|names| - 1]
    decreases Names(defs) - visited, fields, 0
  {
    if Inline(defs, fields[0].value, visited).Err? {
      names := CycleWitness(defs, fields[0].value, visited, name);
    } else {
      names := CycleWitnessInFields(defs, fields[1..], visited, name);
    }
  }

  lemma {:induction false} CycleWitnessInItems(defs: Json, items: seq<Json>, visited: set<string>, name: string)
    returns (names: seq<string>)
    requires InlineItems(defs, items, visited) == Err(Cycle(name))
    ensures names != [] && names[|names| - 1] == name && ChainFrom(defs, FollowedInItems(items), names)
    ensures name in visited || name in names[..|names| - 1]
    decreases Names(defs) - visited, items, 0
  {
    if Inline(defs, items[0], visited).Err? {
      names := CycleWitness(defs, items[0], visited, name);
    } else {
      names := CycleWitnessInItems(defs, items[1..], visited, name);
    }
  }

  // ---------------------------------------------------------------- well-formed schemas

  /** `j` can only inline to a dict: the definitions it stands for, one after the other, end in one. */
  predicate IsDictlike(defs: Json, j: Json, seen: set<string>)
    decreases Names(defs) - seen
  {
    j.Obj? &&
    match Lookup(j.fields, REF)
    case None => true
    case Some(target) =>
      && target.Str?
      && var name := RefName(target.text);
         name in seen || (Find(defs, name).Ok? && IsDictlike(defs, Find(defs, name).value, seen + {name}))
  }

  /** Every `$ref` followed inside `j` is a string that names a definition, one that stands for
      a dict if the `$ref` has siblings. */
  predicate RefsResolve(defs: Json, j: Json)
    decreases j, 1
  {
    match j
    case Obj(fields) =>
      (match Lookup(fields, REF)
       case Some(target) =>
         && target.Str?
         && var name := RefName(target.text);
            Find(defs, name).Ok? && (Without(fields, REF) == [] || IsDictlike(defs, Find(defs, name).value, {name}))
       case None => forall i :: 0 <= i < |fields| ==> RefsResolve(defs, fields[i].value))
    case Arr(items) => forall i :: 0 <= i < |items| ==> RefsResolve(defs, items[i])
    case _ => true
  }

  /** The definitions' own references resolve. */
  predicate DefsResolve(defs: Json) {
    defs.Obj? && forall f <- defs.fields :: RefsResolve(defs, f.value)
  }

  lemma {:induction false} DictlikeMeansDict(defs: Json, j: Json, visited: set<string>, seen: set<string>)
    requires Inline(defs, j, visited).Ok? && IsDictlike(defs, j, seen) && seen <= visited
    ensures Inline(defs, j, visited).value.Obj?
    decreases Names(defs) - visited
  {
    if Lookup(j.fields, REF).Some? {
      var name := RefName(Lookup(j.fields, REF).value.text);
      OneNameLess(defs, visited, name);
      DictlikeMeansDict(defs, Find(defs, name).value, visited + {name}, seen + {name});
    }
  }

  /** Of a well-formed schema only a cycle can be reported. */
  lemma {:induction false} OnlyCyclesFail(defs: Json, j: Json, visited: set<string>)
    requires DefsResolve(defs) && RefsResolve(defs, j)
    ensures Inline(defs, j, visited).Err? ==> Inline(defs, j, visited).error.Cycle?
    decreases Names(defs) - visited, j, 1
  {
    match j
    case Obj(fields) =>
      if Lookup(fields, REF).None? {
        OnlyCyclesFailInFields(defs, fields, visited);
      } else {
        OnlyCyclesFailAtReference(defs, fields, visited);
      }
    case Arr(items) => OnlyCyclesFailInItems(defs, items, visited);
    case _ =>
  }

  lemma {:induction false} OnlyCyclesFailAtReference(defs: Json, fields: seq<Field>, visited: set<string>)
    requires DefsResolve(defs) && RefsResolve(defs, Obj(fields)) && Lookup(fields, REF).Some?
    ensures Inline(defs, Obj(fields), visited).Err? ==> Inline(defs, Obj(fields), visited).error.Cycle?
    decreases Names(defs) - visited, Obj(fields), 0
  {
    var name := RefName(Lookup(fields, REF).value.text);
    if name !in visited {
      var d := Find(defs, name).value;
      assert Field(name, d) in defs.fields;
      OneNameLess(defs, visited, name);
      OnlyCyclesFail(defs, d, visited + {name});
      if Inline(defs, d, visited + {name}).Ok? && Without(fields, REF) != [] {
        DictlikeMeansDict(defs, d, visited + {name}, {name});
      }
    }
  }

  lemma {:induction false} OnlyCyclesFailInFields(defs: Json, fields: seq<Field>, visited: set<string>)
    requires DefsResolve(defs) && forall i :: 0 <= i < |fields| ==> RefsResolve(defs, fields[i].value)
    ensures InlineFields(defs, fields, visited).Err? ==> InlineFields(defs, fields, visited).error.Cycle?
    decreases Names(defs) - visited, fields, 0
  {
    if fields != [] {
      OnlyCyclesFail(defs, fields[0].value, visited);
      OnlyCyclesFailInFields(defs, fields[1..], visited);
    }
  }

  lemma {:induction false} OnlyCyclesFailInItems(defs: Json, items: seq<Json>, visited: set<string>)
    requires DefsResolve(defs) && forall i :: 0 <= i < |items| ==> RefsResolve(defs, items[i])
    ensures InlineItems(defs, items, visited).Err? ==> InlineItems(defs, items, visited).error.Cycle?
    decreases Names(defs) - visited, items, 0
  {
    if items != [] {
      OnlyCyclesFail(defs, items[0], visited);
      OnlyCyclesFailInItems(defs, items[1..], visited);
    }
  }

  /** A well-formed schema fails exactly when some chain of followed references comes back to
      a name already on it. */
  lemma FailsExactlyOnCycles(defs: Json, j: Json)
    requires DefsResolve(defs) && RefsResolve(defs, j)
    ensures Inline(defs, j, {}).Err? <==> exists names :: Chain(defs, j, names) && Repeats(names)
  {
    if Inline(defs, j, {}).Err? {
      OnlyCyclesFail(defs, j, {});
      var name := Inline(defs, j, {}).error.name;
      var names := CycleWitness(defs, j, {}, name);
      var i :| 0 <= i < |names| - 1 && names[i] == name;
      assert names[i] == names[|names| - 1];
      assert Repeats(names);
    } else {
      forall names | Chain(defs, j, names)
        ensures !Repeats(names)
      {
        OkMeansNoRepetition(defs, j, {}, names);
      }
    }
  }

  // ---------------------------------------------------------------- unfolding

  /** `j` with every reference replaced by its definition, `depth` definitions deep; None if
      that does not reach the bottom, or if a reference cannot be replaced. */
  function Unfold(defs: Json, j: Json, depth: nat): Option<Json>
    decreases depth, j, 1
  {
    match j
    case Obj(fields) =>
      (match Lookup(fields, REF)
       case None =>
         (match UnfoldFields(defs, fields, depth)
          case Some(fs) => Some(Obj(fs))
          case None => None)
       case Some(target) =>
         if !target.Str? || depth == 0 || Find(defs, RefName(target.text)).Err? then None
         else match Unfold(defs, Find(defs, RefName(target.text)).value, depth - 1)
           case None => None
           case Some(d) =>
             match WithSiblings(d, Without(fields, REF))
             case Ok(t) => Some(t)
             case Err(_) => None)
    case Arr(items) =>
      (match UnfoldItems(defs, items, depth)
       case Some(xs) => Some(Arr(xs))
       case None => None)
    case _ => Some(j)
  }

  function UnfoldFields(defs: Json, fields: seq<Field>, depth: nat): Option<seq<Field>>
    decreases depth, fields, 0
  {
    if fields == [] then Some([])
    else match (Unfold(defs, fields[0].value, depth), UnfoldFields(defs, fields[1..], depth))
      case (Some(v), Some(rest)) => Some([Field(fields[0].key, v)] + rest)
      case _ => None
  }

  function UnfoldItems(defs: Json, items: seq<Json>, depth: nat): Option<seq<Json>>
    decreases depth, items, 0
  {
    if items == [] then Some([])
    else match (Unfold(defs, items[0], depth), UnfoldItems(defs, items[1..], depth))
      case (Some(v), Some(rest)) => Some([v] + rest)
      case _ => None
  }

  lemma UnfoldAtReference(defs: Json, fields: seq<Field>, depth: nat)
    requires Lookup(fields, REF).Some? && Unfold(defs, Obj(fields), depth).Some?
    ensures depth > 0 && Lookup(fields, REF).value.Str?
    ensures var name := RefName(Lookup(fields, REF).value.text);
      && Find(defs, name).Ok? && Unfold(defs, Find(defs, name).value, depth - 1).Some?
  {
  }

  lemma SameUnfoldingAtReference(defs: Json, fields: seq<Field>, depth: nat, more: nat)
    requires Lookup(fields, REF).Some? && Lookup(fields, REF).value.Str? && 0 < depth <= more
    requires var name := RefName(Lookup(fields, REF).value.text);
      && Find(defs, name).Ok?
      && Unfold(defs, Find(defs, name).value, more - 1) == Unfold(defs, Find(defs, name).value, depth - 1)
    ensures Unfold(defs, Obj(fields), more) == Unfold(defs, Obj(fields), depth)
  {
    hide WithSiblings, Without, Find, RefName;
  }

  /** An unfolding that reaches the bottom does not change with more depth. */
  lemma {:induction false} UnfoldIsStable(defs: Json, j: Json, depth: nat, more: nat)
    requires depth <= more && Unfold(defs, j, depth).Some?
    ensures Unfold(defs, j, more) == Unfold(defs, j, depth)
    decreases depth, j, 1
  {
    match j
    case Obj(fields) =>
      if Lookup(fields, REF).None? {
        UnfoldIsStableInFields(defs, fields, depth, more);
      } else {
        UnfoldIsStableAtReference(defs, fields, depth, more);
      }
    case Arr(items) => UnfoldIsStableInItems(defs, items, depth, more);
    case _ =>
  }

  lemma {:induction false} UnfoldIsStableAtReference(defs: Json, fields: seq<Field>, depth: nat, more: nat)
    requires Lookup(fields, REF).Some? && depth <= more && Unfold(defs, Obj(fields), depth).Some?
    ensures Unfold(defs, Obj(fields), more) == Unfold(defs, Obj(fields), depth)
    decreases depth, Obj(fields), 0
  {
    hide *;
    UnfoldAtReference(defs, fields, depth);
    UnfoldIsStable(defs, Find(defs, RefName(Lookup(fields, REF).value.text)).value, depth - 1, more - 1);
    SameUnfoldingAtReference(defs, fields, depth, more);
  }

  lemma {:induction false} UnfoldIsStableInFields(defs: Json, fields: seq<Field>, depth: nat, more: nat)
    requires depth <= more && UnfoldFields(defs, fields, depth).Some?
    ensures UnfoldFields(defs, fields, more) == UnfoldFields(defs, fields, depth)
    decreases depth, fields, 0
  {
    if fields != [] {
      UnfoldIsStable(defs, fields[0].value, depth, more);
      UnfoldIsStableInFields(defs, fields[1..], depth, more);
    }
  }

  lemma {:induction false} UnfoldIsStableInItems(defs: Json, items: seq<Json>, depth: nat, more: nat)
    requires depth <= more && UnfoldItems(defs, items, depth).Some?
    ensures UnfoldItems(defs, items, more) == UnfoldItems(defs, items, depth)
    decreases depth, items, 0
  {
    if items != [] {
      UnfoldIsStable(defs, items[0], depth, more);
      UnfoldIsStableInItems(defs, items[1..], depth, more);
    }
  }

  lemma OneNameLess(defs: Json, visited: set<string>, name: string)
    requires Find(defs, name).Ok? && name !in visited
    ensures |Names(defs) - (visited + {name})| == |Names(defs) - visited| - 1
    ensures Names(defs) - (visited + {name}) < Names(defs) - visited
  {
    assert Names(defs) - (visited + {name}) == (Names(defs) - visited) - {name};
  }

  /** What the inliner returns is the unfolding, whatever set of names it was given. */
  lemma {:induction false} InlineUnfolds(defs: Json, j: Json, visited: set<string>)
    requires Inline(defs, j, visited).Ok?
    ensures Unfold(defs, j, |Names(defs) - visited|) == Some(Inline(defs, j, visited).value)
    decreases Names(defs) - visited, j, 1
  {
    match j
    case Obj(fields) =>
      if Lookup(fields, REF).None? {
        InlineUnfoldsInFields(defs, fields, visited);
      } else {
        var name := RefName(Lookup(fields, REF).value.text);
        OneNameLess(defs, visited, name);
        InlineUnfolds(defs, Find(defs, name).value, visited + {name});
      }
    case Arr(items) => InlineUnfoldsInItems(defs, items, visited);
    case _ =>
  }

  lemma {:induction false} InlineUnfoldsInFields(defs: Json, fields: seq<Field>, visited: set<string>)
    requires InlineFields(defs, fields, visited).Ok?
    ensures UnfoldFields(defs, fields, |Names(defs) - visited|) == Some(InlineFields(defs, fields, visited).value)
    decreases Names(defs) - visited, fields, 0
  {
    if fields != [] {
      InlineUnfolds(defs, fields[0].value, visited);
      InlineUnfoldsInFields(defs, fields[1..], visited);
    }
  }

  lemma {:induction false} InlineUnfoldsInItems(defs: Json, items: seq<Json>, visited: set<string>)
    requires InlineItems(defs, items, visited).Ok?
    ensures UnfoldItems(defs, items, |Names(defs) - visited|) == Some(InlineItems(defs, items, visited).value)
    decreases Names(defs) - visited, items, 0
  {
    if items != [] {
      InlineUnfolds(defs, items[0], visited);
      InlineUnfoldsInItems(defs, items[1..], visited);
    }
  }

  /** No definition in `visited` can be unfolded with less depth than `depth`. */
  predicate Deeper(defs: Json, visited: set<string>, depth: nat) {
    depth > 0 ==> forall v <- visited :: Find(defs, v).Ok? ==> Unfold(defs, Find(defs, v).value, depth - 1).None?
  }

  /** The least depth at which `j` unfolds. */
  function Depth(defs: Json, j: Json, enough: nat): (d: nat)
    requires Unfold(defs, j, enough).Some?
    ensures d <= enough && Unfold(defs, j, d).Some?
    ensures d > 0 ==> Unfold(defs, j, d - 1).None?
    decreases enough
  {
    if enough > 0 && Unfold(defs, j, enough - 1).Some? then Depth(defs, j, enough - 1) else enough
  }

  /** The definitions on the path stay deeper when one is followed. */
  lemma StillDeeper(defs: Json, visited: set<string>, name: string, depth: nat) returns (least: nat)
    requires depth > 0 && Deeper(defs, visited, depth) && Find(defs, name).Ok?
    requires Unfold(defs, Find(defs, name).value, depth - 1).Some?
    ensures name !in visited && least < depth && Unfold(defs, Find(defs, name).value, least).Some?
    ensures Deeper(defs, visited + {name}, least)
  {
    hide Unfold, Find;
    assert name !in visited;
    least := Depth(defs, Find(defs, name).value, depth - 1);
    forall v <- visited | least > 0 && Find(defs, v).Ok?
      ensures Unfold(defs, Find(defs, v).value, least - 1).None?
    {
      if Unfold(defs, Find(defs, v).value, least - 1).Some? {
        UnfoldIsStable(defs, Find(defs, v).value, least - 1, depth - 1);
      }
    }
  }

  /** An object whose definition inlines and whose unfolding exists inlines too. */
  lemma InlinesAtReference(defs: Json, fields: seq<Field>, visited: set<string>, depth: nat)
    requires Lookup(fields, REF).Some? && Unfold(defs, Obj(fields), depth).Some?
    requires Lookup(fields, REF).value.Str? && depth > 0
    requires var name := RefName(Lookup(fields, REF).value.text);
      && name !in visited && Find(defs, name).Ok?
      && Inline(defs, Find(defs, name).value, visited + {name}).Ok?
      && Unfold(defs, Find(defs, name).value, depth - 1)
         == Some(Inline(defs, Find(defs, name).value, visited + {name}).value)
    ensures Inline(defs, Obj(fields), visited).Ok?
  {
    hide WithSiblings, Without, Find, RefName;
  }

  /** The cycle check never fires on something that has a finite unfolding: the definitions on
      the path are all deeper than what is left to unfold. */
  lemma {:induction false} UnfoldingIsFound(defs: Json, j: Json, visited: set<string>, depth: nat)
    requires Unfold(defs, j, depth).Some? && Deeper(defs, visited, depth)
    ensures Inline(defs, j, visited).Ok?
    decreases depth, j, 1
  {
    match j
    case Obj(fields) =>
      if Lookup(fields, REF).None? {
        UnfoldingIsFoundInFields(defs, fields, visited, depth);
      } else {
        UnfoldingIsFoundAtReference(defs, fields, visited, depth);
      }
    case Arr(items) => UnfoldingIsFoundInItems(defs, items, visited, depth);
    case _ =>
  }

  lemma {:induction false} UnfoldingIsFoundAtReference(defs: Json, fields: seq<Field>, visited: set<string>, depth: nat)
    requires Lookup(fields, REF).Some? && Unfold(defs, Obj(fields), depth).Some? && Deeper(defs, visited, depth)
    ensures Inline(defs, Obj(fields), visited).Ok?
    decreases depth, Obj(fields), 0
  {
    hide *;
    UnfoldAtReference(defs, fields, depth);
    var name := RefName(Lookup(fields, REF).value.text);
    var d := Find(defs, name).value;
    var least := StillDeeper(defs, visited, name, depth);
    UnfoldingIsFound(defs, d, visited + {name}, least);
    InlineUnfolds(defs, d, visited + {name});
    UnfoldsOneWay(defs, d, depth - 1, |Names(defs) - (visited + {name})|);
    InlinesAtReference(defs, fields, visited, depth);
  }

  lemma UnfoldsOneWay(defs: Json, j: Json, a: nat, b: nat)
    requires Unfold(defs, j, a).Some? && Unfold(defs, j, b).Some?
    ensures Unfold(defs, j, a) == Unfold(defs, j, b)
  {
    if a <= b { UnfoldIsStable(defs, j, a, b); } else { UnfoldIsStable(defs, j, b, a); }
  }

  lemma {:induction false} UnfoldingIsFoundInFields(defs: Json, fields: seq<Field>, visited: set<string>, depth: nat)
    requires UnfoldFields(defs, fields, depth).Some? && Deeper(defs, visited, depth)
    ensures InlineFields(defs, fields, visited).Ok?
    decreases depth, fields, 0
  {
    if fields != [] {
      UnfoldingIsFound(defs, fields[0].value, visited, depth);
      UnfoldingIsFoundInFields(defs, fields[1..], visited, depth);
    }
  }

  lemma {:induction false} UnfoldingIsFoundInItems(defs: Json, items: seq<Json>, visited: set<string>, depth: nat)
    requires UnfoldItems(defs, items, depth).Some? && Deeper(defs, visited, depth)
    ensures InlineItems(defs, items, visited).Ok?
    decreases depth, items, 0
  {
    if items != [] {
      UnfoldingIsFound(defs, items[0], visited, depth);
      UnfoldingIsFoundInItems(defs, items[1..], visited, depth);
    }
  }

  /** The inliner computes the full unfolding whenever there is one, and nothing else: the
      visited set only ever stops unfoldings that would not end. */
  lemma InlineIsTheUnfolding(defs: Json, j: Json, t: Json)
    ensures Inline(defs, j, {}) == Ok(t) <==> exists depth: nat :: Unfold(defs, j, depth) == Some(t)
  {
    if Inline(defs, j, {}).Ok? {
      InlineUnfolds(defs, j, {});
    }
    forall depth: nat | Unfold(defs, j, depth) == Some(t)
      ensures Inline(defs, j, {}) == Ok(t)
    {
      UnfoldingIsFound(defs, j, {}, depth);
      InlineUnfolds(defs, j, {});
      UnfoldsOneWay(defs, j, depth, |Names(defs) - {}|);
    }
  }

  /** Two runs that both succeed agree, whatever names each had on its path. */
  lemma InlineIgnoresVisited(defs: Json, j: Json, visited: set<string>, other: set<string>)
    requires Inline(defs, j, visited).Ok? && Inline(defs, j, other).Ok?
    ensures Inline(defs, j, visited) == Inline(defs, j, other)
  {
    InlineUnfolds(defs, j, visited);
    InlineUnfolds(defs, j, other);
    UnfoldsOneWay(defs, j, |Names(defs) - visited|, |Names(defs) - other|);
  }

  // ---------------------------------------------------------------- no reference left

  /** No object inside `j` has a `$ref`. */
  predicate RefFree(j: Json)
    decreases j
  {
    match j
    case Obj(fields) => Lookup(fields, "$ref").None? && FieldsRefFree(fields)
    case Arr(items) => forall i :: 0 <= i < |items| ==> RefFree(items[i])
    case _ => true
  }

  predicate FieldsRefFree(fields: seq<Field>)
    decreases fields
  {
    forall i :: 0 <= i < |fields| ==> RefFree(fields[i].value)
  }

  /** The siblings of every `$ref` followed inside `j` hold no reference themselves. */
  predicate PlainSiblings(j: Json)
    decreases j
  {
    match j
    case Obj(fields) =>
      if Lookup(fields, REF).Some? then FieldsRefFree(Without(fields, REF))
      else forall i :: 0 <= i < |fields| ==> PlainSiblings(fields[i].value)
    case Arr(items) => forall i :: 0 <= i < |items| ==> PlainSiblings(items[i])
    case _ => true
  }

  predicate PlainDefs(defs: Json) {
    defs.Obj? && forall i :: 0 <= i < |defs.fields| ==> PlainSiblings(defs.fields[i].value)
  }

  predicate UniqueKeys(fields: seq<Field>) {
    forall i, k :: 0 <= i < k < |fields| ==> fields[i].key != fields[k].key
  }

  lemma {:induction false} MergeIsRefFree(base: seq<Field>, extra: seq<Field>)
    requires RefFree(Obj(base)) && FieldsRefFree(extra) && forall f <- extra :: f.key != REF
    ensures RefFree(Obj(Merge(base, extra)))
    decreases |extra|
  {
    if extra != [] {
      var b := Put(base, extra[0].key, extra[0].value);
      forall i | 0 <= i < |b|
        ensures RefFree(b[i].value)
      {
        assert b[i] in b;
        assert b[i] in base ==> exists k :: 0 <= k < |base| && base[k] == b[i];
      }
      MergeIsRefFree(b, extra[1..]);
    }
  }

  lemma {:induction false} NoReferenceLeft(defs: Json, j: Json, visited: set<string>)
    requires Inline(defs, j, visited).Ok? && PlainDefs(defs) && PlainSiblings(j)
    ensures RefFree(Inline(defs, j, visited).value)
    decreases Names(defs) - visited, j, 1
  {
    match j
    case Obj(fields) =>
      if Lookup(fields, REF).None? {
        NoReferenceLeftInFields(defs, fields, visited);
      } else {
        var name := RefName(Lookup(fields, REF).value.text);
        var d := Find(defs, name).value;
        assert Field(name, d) in defs.fields;
        NoReferenceLeft(defs, d, visited + {name});
        var resolved := Inline(defs, d, visited + {name}).value;
        if Without(fields, REF) != [] {
          MergeIsRefFree(resolved.fields, Without(fields, REF));
        }
      }
    case Arr(items) => NoReferenceLeftInItems(defs, items, visited);
    case _ =>
  }

  lemma {:induction false} NoReferenceLeftInFields(defs: Json, fields: seq<Field>, visited: set<string>)
    requires InlineFields(defs, fields, visited).Ok? && PlainDefs(defs) && Lookup(fields, REF).None?
    requires forall i :: 0 <= i < |fields| ==> PlainSiblings(fields[i].value)
    ensures RefFree(Obj(InlineFields(defs, fields, visited).value))
    decreases Names(defs) - visited, fields, 0
  {
    if fields != [] {
      NoReferenceLeft(defs, fields[0].value, visited);
      NoReferenceLeftInFields(defs, fields[1..], visited);
    }
  }

  lemma {:induction false} NoReferenceLeftInItems(defs: Json, items: seq<Json>, visited: set<string>)
    requires InlineItems(defs, items, visited).Ok? && PlainDefs(defs)
    requires forall i :: 0 <= i < |items| ==> PlainSiblings(items[i])
    ensures RefFree(Arr(InlineItems(defs, items, visited).value))
    decreases Names(defs) - visited, items, 0
  {
    if items != [] {
      NoReferenceLeft(defs, items[0], visited);
      NoReferenceLeftInItems(defs, items[1..], visited);
    }
  }

  /** Without plain siblings references do survive: those in the siblings, and only those. */
  lemma SiblingReferencesSurvive(defs: Json, fields: seq<Field>, visited: set<string>, resolved: seq<Field>)
    requires UniqueKeys(fields) && Lookup(fields, REF).Some? && Lookup(fields, REF).value.Str?
    requires var name := RefName(Lookup(fields, REF).value.text);
      name !in visited && Find(defs, name).Ok? &&
      Inline(defs, Find(defs, name).value, visited + {name}) == Ok(Obj(resolved))
    requires RefFree(Obj(resolved))
    ensures Inline(defs, Obj(fields), visited).Ok?
    ensures RefFree(Inline(defs, Obj(fields), visited).value) <==> FieldsRefFree(Without(fields, REF))
  {
    var siblings := Without(fields, REF);
    WithoutKeepsUnique(fields, REF);
    if FieldsRefFree(siblings) {
      MergeIsRefFree(resolved, siblings);
    } else {
      var i :| 0 <= i < |siblings| && !RefFree(siblings[i].value);
      SiblingStays(resolved, siblings, i);
      hide Inline, Merge;
    }
  }

  lemma SiblingStays(base: seq<Field>, extra: seq<Field>, i: nat)
    requires UniqueKeys(extra) && i < |extra| && !RefFree(extra[i].value)
    ensures !RefFree(Obj(Merge(base, extra)))
  {
    var t := Merge(base, extra);
    LookupOfMerge(base, extra, extra[i].key);
    LookupFinds(extra, i);
    assert Field(extra[i].key, extra[i].value) in t;
  }

  lemma {:induction false} WithoutKeepsUnique(fields: seq<Field>, key: string)
    requires UniqueKeys(fields)
    ensures UniqueKeys(Without(fields, key))
  {
    if fields != [] {
      var rest := fields[1..];
      assert UniqueKeys(rest) by {
        assert forall i :: 0 <= i < |rest| ==> rest[i] == fields[i + 1];
      }
      WithoutKeepsUnique(rest, key);
      assert forall f <- rest :: f.key != fields[0].key;
    }
  }

  lemma {:induction false} LookupFinds(fields: seq<Field>, i: nat)
    requires UniqueKeys(fields) && i < |fields|
    ensures Lookup(fields, fields[i].key) == Some(fields[i].value)
  {
    if i > 0 {
      var rest := fields[1..];
      assert forall k :: 0 <= k < |rest| ==> rest[k] == fields[k + 1];
      LookupFinds(rest, i - 1);
    }
  }

  /** In a merge the siblings win. */
  lemma {:induction false} LookupOfMerge(base: seq<Field>, extra: seq<Field>, key: string)
    requires UniqueKeys(extra)
    ensures Lookup(Merge(base, extra), key) ==
      if Lookup(extra, key).Some? then Lookup(extra, key) else Lookup(base, key)
    decreases |extra|
  {
    if extra != [] {
      var rest := extra[1..];
      assert forall k :: 0 <= k < |rest| ==> rest[k] == extra[k + 1];
      LookupOfMerge(Put(base, extra[0].key, extra[0].value), rest, key);
      assert forall f <- rest :: f.key != extra[0].key;
    }
  }

  // ---------------------------------------------------------------- the meaning of a reference

  datatype Move = Key(name: string) | Index(i: nat)

  /** What a reader sees of a value without going into it. */
  datatype Head = Scalar(value: Json) | Array(length: nat) | Object(keys: set<string>)

  function KeysOf(fields: seq<Field>): set<string> {
    set f <- fields :: f.key
  }

  function HeadOf(j: Json): Head {
    match j
    case Obj(fields) => Object(KeysOf(fields))
    case Arr(items) => Array(|items|)
    case _ => Scalar(j)
  }

  /** What is at `path`, `$ref` being a key like any other. */
  function Observe(j: Json, path: seq<Move>): Option<Head>
    decreases |path|
  {
    if path == [] then Some(HeadOf(j))
    else match (j, path[0])
      case (Obj(fields), Key(k)) =>
        (match Lookup(fields, k)
         case Some(child) => Observe(child, path[1..])
         case None => None)
      case (Arr(items), Index(i)) => if i < |items| then Observe(items[i], path[1..]) else None
      case _ => None
  }

  /** What is at `path` when each `$ref` met on the way stands for its definition, overridden
      key by key by its siblings. `hops` bounds the references followed at one spot. */
  function LazyObserve(defs: Json, j: Json, path: seq<Move>, hops: nat): Option<Head>
    decreases |path|, hops
  {
    match j
    case Obj(fields) =>
      (match Lookup(fields, "$ref")
       case Some(target) =>
         if !target.Str? || hops == 0 || Find(defs, RefName(target.text)).Err? then None
         else
           var d := Find(defs, RefName(target.text)).value;
           var siblings := Without(fields, "$ref");
           if path == [] then
             (match LazyObserve(defs, d, [], hops - 1)
              case Some(Object(keys)) => Some(Object(keys + KeysOf(siblings)))
              case h => if siblings == [] then h else None)
           else if path[0].Key? && Lookup(siblings, path[0].name).Some? then
             LazyObserve(defs, Lookup(siblings, path[0].name).value, path[1..], |Names(defs)|)
           else LazyObserve(defs, d, path, hops - 1)
       case None =>
         if path == [] then Some(HeadOf(j))
         else if path[0].Key? && Lookup(fields, path[0].name).Some? then
           LazyObserve(defs, Lookup(fields, path[0].name).value, path[1..], |Names(defs)|)
         else None)
    case Arr(items) =>
      if path == [] then Some(HeadOf(j))
      else if path[0].Index? && path[0].i < |items| then LazyObserve(defs, items[path[0].i], path[1..], |Names(defs)|)
      else None
    case _ => if path == [] then Some(HeadOf(j)) else None
  }

  /** Keys are unique in every dict of `j`. */
  predicate WellKeyed(j: Json)
    decreases j
  {
    match j
    case Obj(fields) => UniqueKeys(fields) && forall i :: 0 <= i < |fields| ==> WellKeyed(fields[i].value)
    case Arr(items) => forall i :: 0 <= i < |items| ==> WellKeyed(items[i])
    case _ => true
  }

  predicate WellKeyedDefs(defs: Json) {
    defs.Obj? ==> forall i :: 0 <= i < |defs.fields| ==> WellKeyed(defs.fields[i].value)
  }

  lemma DefinitionIsWellKeyed(defs: Json, name: string)
    requires WellKeyedDefs(defs) && Find(defs, name).Ok?
    ensures WellKeyed(Find(defs, name).value)
  {
    hide WellKeyed;
    assert Field(name, Find(defs, name).value) in defs.fields;
  }

  // ---------------------------------------------------------------- exactly the references left

  /** Walks the schema as the inliner does and finds no reference that stays: none in the
      siblings of a followed `$ref`, which are taken over as they are. Nothing counts under the
      keys in `hidden`, which siblings further out override at the top. */
  predicate Clean(defs: Json, j: Json, hidden: set<string>, visited: set<string>)
    decreases Names(defs) - visited, j, 1
  {
    match j
    case Obj(fields) =>
      (match Lookup(fields, REF)
       case None =>
         forall i :: 0 <= i < |fields| && fields[i].key !in hidden ==> Clean(defs, fields[i].value, {}, visited)
       case Some(target) =>
         target.Str? ==>
           var name := RefName(target.text);
           var siblings := Without(fields, REF);
           && (forall f <- siblings :: f.key !in hidden ==> RefFree(f.value))
           && (name !in visited && Find(defs, name).Ok? ==>
                 Clean(defs, Find(defs, name).value, hidden + KeysOf(siblings), visited + {name})))
    case Arr(items) => forall i :: 0 <= i < |items| ==> Clean(defs, items[i], {}, visited)
    case _ => true
  }

  /** No reference in `j`, leaving out the keys in `hidden` at its top. */
  predicate RefFreeBut(j: Json, hidden: set<string>) {
    match j
    case Obj(fields) => Lookup(fields, REF).None? && forall f <- fields :: f.key !in hidden ==> RefFree(f.value)
    case _ => RefFree(j)
  }

  lemma NothingHidden(j: Json)
    ensures RefFreeBut(j, {}) <==> RefFree(j)
  {
    if j.Obj? {
      hide RefFree;
      assert forall i :: 0 <= i < |j.fields| ==> j.fields[i] in j.fields;
      assert RefFree(j) <==> Lookup(j.fields, REF).None? && FieldsRefFree(j.fields) by { RefFreeObject(j.fields); }
    }
  }

  lemma RefFreeObject(fields: seq<Field>)
    ensures RefFree(Obj(fields)) <==> Lookup(fields, REF).None? && FieldsRefFree(fields)
  {
  }

  lemma {:induction false} PutKeepsUnique(fields: seq<Field>, key: string, value: Json)
    requires UniqueKeys(fields)
    ensures UniqueKeys(Put(fields, key, value))
    ensures forall f :: f in Put(fields, key, value) <==> f == Field(key, value) || (f in fields && f.key != key)
  {
    if fields != [] {
      var rest := fields[1..];
      assert fields == [fields[0]] + rest;
      assert UniqueKeys(rest) by { assert forall i :: 0 <= i < |rest| ==> rest[i] == fields[i + 1]; }
      assert forall f <- rest :: f.key != fields[0].key;
      PutKeepsUnique(rest, key, value);
      if fields[0].key != key {
        UniqueWithFirst(fields[0], Put(rest, key, value));
      } else {
        UniqueWithFirst(Field(key, value), rest);
      }
    }
  }

  lemma UniqueWithFirst(first: Field, rest: seq<Field>)
    requires UniqueKeys(rest) && forall f <- rest :: f.key != first.key
    ensures UniqueKeys([first] + rest)
  {
  }

  /** A merge of dicts has the siblings, and of the rest what no sibling overrides. */
  lemma {:induction false} MergeIsOverriding(base: seq<Field>, extra: seq<Field>)
    requires UniqueKeys(base) && UniqueKeys(extra)
    ensures UniqueKeys(Merge(base, extra))
    ensures forall f :: f in Merge(base, extra) <==> f in extra || (f in base && f.key !in KeysOf(extra))
    decreases |extra|
  {
    if extra != [] {
      var rest := extra[1..];
      assert extra == [extra[0]] + rest;
      assert UniqueKeys(rest) by { assert forall i :: 0 <= i < |rest| ==> rest[i] == extra[i + 1]; }
      assert forall f <- rest :: f.key != extra[0].key;
      PutKeepsUnique(base, extra[0].key, extra[0].value);
      MergeIsOverriding(Put(base, extra[0].key, extra[0].value), rest);
      assert KeysOf(extra) == {extra[0].key} + KeysOf(rest);
    }
  }

  lemma MergedBut(base: seq<Field>, extra: seq<Field>, hidden: set<string>)
    requires UniqueKeys(base) && UniqueKeys(extra) && Lookup(base, REF).None? && Lookup(extra, REF).None?
    ensures RefFreeBut(Obj(Merge(base, extra)), hidden) <==>
      RefFreeBut(Obj(base), hidden + KeysOf(extra)) && forall f <- extra :: f.key !in hidden ==> RefFree(f.value)
    ensures Lookup(Merge(base, extra), REF).None? && UniqueKeys(Merge(base, extra))
  {
    hide RefFree, Merge, Lookup;
    MergeIsOverriding(base, extra);
    assert forall f <- extra :: f.key in KeysOf(extra);
    forall f <- base | f.key !in hidden + KeysOf(extra)
      ensures f in Merge(base, extra) && f.key !in hidden
    {
    }
  }

  /** An inlined dict has unique keys and no `$ref` of its own. */
  ghost predicate IsTidy(j: Json) {
    j.Obj? ==> UniqueKeys(j.fields) && Lookup(j.fields, REF).None?
  }

  /** The walk decides: after a successful call no reference is left exactly if it finds none. */
  lemma {:induction false} CleanDecides(defs: Json, j: Json, hidden: set<string>, visited: set<string>)
    requires Inline(defs, j, visited).Ok? && WellKeyed(j) && WellKeyedDefs(defs)
    ensures IsTidy(Inline(defs, j, visited).value)
    ensures RefFreeBut(Inline(defs, j, visited).value, hidden) <==> Clean(defs, j, hidden, visited)
    decreases Names(defs) - visited, j, 1
  {
    match j
    case Obj(fields) =>
      if Lookup(fields, REF).None? {
        CleanDecidesInFields(defs, fields, hidden, visited);
        CleanInFields(defs, fields, hidden, visited);
      } else {
        CleanDecidesAtReference(defs, fields, hidden, visited);
      }
    case Arr(items) => CleanDecidesInItems(defs, items, visited);
    case _ =>
  }

  /** `Clean` for the fields of a dict without `$ref`. */
  predicate CleanFields(defs: Json, fields: seq<Field>, hidden: set<string>, visited: set<string>) {
    forall f <- fields :: f.key !in hidden ==> Clean(defs, f.value, {}, visited)
  }

  lemma CleanInFields(defs: Json, fields: seq<Field>, hidden: set<string>, visited: set<string>)
    requires Lookup(fields, REF).None?
    ensures Clean(defs, Obj(fields), hidden, visited) <==> CleanFields(defs, fields, hidden, visited)
  {
    assert forall i :: 0 <= i < |fields| ==> fields[i] in fields;
  }

  lemma {:induction false} CleanDecidesInFields(defs: Json, fields: seq<Field>, hidden: set<string>,
      visited: set<string>)
    requires InlineFields(defs, fields, visited).Ok? && WellKeyedDefs(defs) && Lookup(fields, REF).None?
    requires UniqueKeys(fields) && forall i :: 0 <= i < |fields| ==> WellKeyed(fields[i].value)
    ensures IsTidy(Obj(InlineFields(defs, fields, visited).value))
    ensures KeysOf(InlineFields(defs, fields, visited).value) == KeysOf(fields)
    ensures RefFreeBut(Obj(InlineFields(defs, fields, visited).value), hidden) <==>
      CleanFields(defs, fields, hidden, visited)
    decreases Names(defs) - visited, fields, 0
  {
    hide *;
    if fields == [] {
      CleanWithoutFields(defs, hidden, visited);
    } else {
      var first, rest := fields[0], fields[1..];
      RestIsUnique(fields);
      NoRefInRest(fields);
      InlinedFields(defs, fields, visited);
      CleanDecides(defs, first.value, {}, visited);
      CleanDecidesInFields(defs, rest, hidden, visited);
      var v, r := Inline(defs, first.value, visited).value, InlineFields(defs, rest, visited).value;
      NothingHidden(v);
      assert fields == [first] + rest;
      CleanFirst(defs, first, rest, hidden, visited);
      RefFreeFirst(Field(first.key, v), r, hidden);
    }
  }

  lemma CleanWithoutFields(defs: Json, hidden: set<string>, visited: set<string>)
    ensures var r := InlineFields(defs, [], visited);
      && r == Ok([]) && IsTidy(Obj([])) && RefFreeBut(Obj([]), hidden) && CleanFields(defs, [], hidden, visited)
  {
  }

  lemma NoRefInRest(fields: seq<Field>)
    requires fields != [] && Lookup(fields, REF).None?
    ensures fields[0].key != REF && Lookup(fields[1..], REF).None?
  {
    assert fields == [fields[0]] + fields[1..];
  }

  lemma CleanFirst(defs: Json, first: Field, rest: seq<Field>, hidden: set<string>, visited: set<string>)
    ensures CleanFields(defs, [first] + rest, hidden, visited) <==>
      (first.key !in hidden ==> Clean(defs, first.value, {}, visited)) && CleanFields(defs, rest, hidden, visited)
    ensures KeysOf([first] + rest) == {first.key} + KeysOf(rest)
  {
    hide Clean;
    assert forall f :: f in [first] + rest <==> f == first || f in rest;
  }

  lemma RefFreeFirst(first: Field, rest: seq<Field>, hidden: set<string>)
    requires IsTidy(Obj(rest)) && first.key !in KeysOf(rest) && first.key != REF
    ensures IsTidy(Obj([first] + rest)) && KeysOf([first] + rest) == {first.key} + KeysOf(rest)
    ensures RefFreeBut(Obj([first] + rest), hidden) <==>
      (first.key !in hidden ==> RefFree(first.value)) && RefFreeBut(Obj(rest), hidden)
  {
    TidyFirst(first, rest);
    hide RefFree, IsTidy, KeysOf;
    assert forall f :: f in [first] + rest <==> f == first || f in rest;
  }

  lemma TidyFirst(first: Field, rest: seq<Field>)
    requires IsTidy(Obj(rest)) && first.key !in KeysOf(rest) && first.key != REF
    ensures IsTidy(Obj([first] + rest)) && Lookup([first] + rest, REF).None?
    ensures KeysOf([first] + rest) == {first.key} + KeysOf(rest)
  {
    assert forall f :: f in [first] + rest <==> f == first || f in rest;
    assert forall f <- rest :: f.key in KeysOf(rest);
    UniqueWithFirst(first, rest);
    hide UniqueKeys;
  }

  lemma InlinedFields(defs: Json, fields: seq<Field>, visited: set<string>)
    requires fields != [] && InlineFields(defs, fields, visited).Ok?
    ensures Inline(defs, fields[0].value, visited).Ok? && InlineFields(defs, fields[1..], visited).Ok?
    ensures InlineFields(defs, fields, visited).value ==
      [Field(fields[0].key, Inline(defs, fields[0].value, visited).value)] +
      InlineFields(defs, fields[1..], visited).value
  {
  }

  lemma RestIsUnique(fields: seq<Field>)
    requires fields != [] && UniqueKeys(fields)
    ensures UniqueKeys(fields[1..]) && fields[0].key !in KeysOf(fields[1..])
  {
    var rest := fields[1..];
    assert forall i :: 0 <= i < |rest| ==> rest[i] == fields[i + 1];
  }

  lemma {:induction false} CleanDecidesInItems(defs: Json, items: seq<Json>, visited: set<string>)
    requires InlineItems(defs, items, visited).Ok? && WellKeyedDefs(defs)
    requires forall i :: 0 <= i < |items| ==> WellKeyed(items[i])
    ensures RefFree(Arr(InlineItems(defs, items, visited).value)) <==>
            forall i :: 0 <= i < |items| ==> Clean(defs, items[i], {}, visited)
    decreases Names(defs) - visited, items, 0
  {
    if items != [] {
      var rest := items[1..];
      CleanDecides(defs, items[0], {}, visited);
      CleanDecidesInItems(defs, rest, visited);
      var v, r := Inline(defs, items[0], visited).value, InlineItems(defs, rest, visited).value;
      NothingHidden(v);
      assert InlineItems(defs, items, visited).value == [v] + r;
      RefFreeFirstItem(v, r);
      hide Inline, InlineItems, Clean, WellKeyed, RefFree;
      assert forall i :: 0 <= i < |items| ==> items[i] == if i == 0 then items[0] else rest[i - 1];
      assert forall i :: 0 <= i < |rest| ==> rest[i] == items[i + 1];
    }
  }

  lemma RefFreeFirstItem(first: Json, rest: seq<Json>)
    ensures RefFree(Arr([first] + rest)) <==> RefFree(first) && RefFree(Arr(rest))
  {
    var items := [first] + rest;
    assert items[0] == first && forall i :: 0 <= i < |rest| ==> items[i + 1] == rest[i];
  }

  lemma {:induction false} CleanDecidesAtReference(defs: Json, fields: seq<Field>, hidden: set<string>,
      visited: set<string>)
    requires Inline(defs, Obj(fields), visited).Ok? && UniqueKeys(fields) && WellKeyedDefs(defs)
    requires Lookup(fields, REF).Some?
    ensures IsTidy(Inline(defs, Obj(fields), visited).value)
    ensures RefFreeBut(Inline(defs, Obj(fields), visited).value, hidden) <==> Clean(defs, Obj(fields), hidden, visited)
    decreases Names(defs) - visited, Obj(fields), 0
  {
    InlineAtReference(defs, fields, visited);
    CleanAtReference(defs, fields, hidden, visited);
    hide *;
    var name := RefName(Lookup(fields, REF).value.text);
    var d := Find(defs, name).value;
    var siblings := Without(fields, REF);
    WithoutKeepsUnique(fields, REF);
    DefinitionIsWellKeyed(defs, name);
    OneNameLess(defs, visited, name);
    CleanDecides(defs, d, hidden + KeysOf(siblings), visited + {name});
    SiblingsBut(Inline(defs, d, visited + {name}).value, fields, hidden);
  }

  lemma CleanAtReference(defs: Json, fields: seq<Field>, hidden: set<string>, visited: set<string>)
    requires Lookup(fields, REF).Some? && Inline(defs, Obj(fields), visited).Ok?
    ensures Clean(defs, Obj(fields), hidden, visited) <==>
      var name := RefName(Lookup(fields, REF).value.text);
      var siblings := Without(fields, REF);
      && Find(defs, name).Ok?
      && (forall f <- siblings :: f.key !in hidden ==> RefFree(f.value))
      && Clean(defs, Find(defs, name).value, hidden + KeysOf(siblings), visited + {name})
  {
    InlineAtReference(defs, fields, visited);
    hide Inline, RefFree, Without, KeysOf, Find, RefName;
  }

  lemma SiblingsBut(resolved: Json, fields: seq<Field>, hidden: set<string>)
    requires IsTidy(resolved) && UniqueKeys(Without(fields, REF)) && WithSiblings(resolved, Without(fields, REF)).Ok?
    ensures var siblings := Without(fields, REF); var t := WithSiblings(resolved, siblings).value;
      && IsTidy(t)
      && (RefFreeBut(t, hidden) <==>
            && RefFreeBut(resolved, hidden + KeysOf(siblings))
            && forall f <- siblings :: f.key !in hidden ==> RefFree(f.value))
  {
    var siblings := Without(fields, REF);
    if siblings == [] {
      assert hidden + KeysOf([]) == hidden;
    } else {
      MergedBut(resolved.fields, siblings, hidden);
    }
  }

  lemma {:induction false} RefFreeReadsItself(defs: Json, j: Json, path: seq<Move>, hops: nat)
    requires RefFree(j)
    ensures LazyObserve(defs, j, path, hops) == Observe(j, path)
    decreases |path|
  {
    match j
    case Obj(fields) =>
      if path != [] && path[0].Key? && Lookup(fields, path[0].name).Some? {
        assert Field(path[0].name, Lookup(fields, path[0].name).value) in fields;
        RefFreeReadsItself(defs, Lookup(fields, path[0].name).value, path[1..], |Names(defs)|);
      }
    case Arr(items) =>
      if path != [] && path[0].Index? && path[0].i < |items| {
        RefFreeReadsItself(defs, items[path[0].i], path[1..], |Names(defs)|);
      }
    case _ =>
  }

  lemma {:induction false} LookupInlined(defs: Json, fields: seq<Field>, visited: set<string>, key: string)
    requires InlineFields(defs, fields, visited).Ok?
    ensures var r := InlineFields(defs, fields, visited).value;
      && KeysOf(r) == KeysOf(fields)
      && match Lookup(fields, key)
         case None => Lookup(r, key) == None
         case Some(v) => Inline(defs, v, visited).Ok? && Lookup(r, key) == Some(Inline(defs, v, visited).value)
    decreases |fields|
  {
    if fields != [] {
      LookupInlined(defs, fields[1..], visited, key);
      var r := InlineFields(defs, fields, visited).value;
      assert KeysOf(fields) == {fields[0].key} + KeysOf(fields[1..]);
      assert r[1..] == InlineFields(defs, fields[1..], visited).value;
      assert KeysOf(r) == {fields[0].key} + KeysOf(r[1..]);
    }
  }

  lemma {:induction false} ItemInlined(defs: Json, items: seq<Json>, visited: set<string>, i: nat)
    requires InlineItems(defs, items, visited).Ok?
    ensures var r := InlineItems(defs, items, visited).value;
      && |r| == |items|
      && (i < |items| ==> Inline(defs, items[i], visited) == Ok(r[i]))
    decreases |items|
  {
    if items != [] {
      ItemInlined(defs, items[1..], visited, if i > 0 then i - 1 else 0);
    }
  }

  lemma MergedKeys(base: seq<Field>, extra: seq<Field>)
    requires UniqueKeys(extra)
    ensures KeysOf(Merge(base, extra)) == KeysOf(base) + KeysOf(extra)
  {
    forall k
      ensures k in KeysOf(Merge(base, extra)) <==> k in KeysOf(base) || k in KeysOf(extra)
    {
      LookupOfMerge(base, extra, k);
      KeyIsFound(Merge(base, extra), k);
      KeyIsFound(base, k);
      KeyIsFound(extra, k);
    }
  }

  lemma KeyIsFound(fields: seq<Field>, k: string)
    ensures k in KeysOf(fields) <==> Lookup(fields, k).Some?
  {
    if Lookup(fields, k).Some? {
      assert Field(k, Lookup(fields, k).value) in fields;
    }
  }

  /** Inlining preserves meaning: at every path, the inlined value shows what a reader of the
      original sees who follows each reference on the way. */
  lemma {:induction false} InliningKeepsTheReading(defs: Json, j: Json, visited: set<string>, path: seq<Move>,
      hops: nat, hidden: set<string>)
    requires Inline(defs, j, visited).Ok? && hops >= |Names(defs) - visited|
    requires WellKeyedDefs(defs) && WellKeyed(j) && Clean(defs, j, hidden, visited)
    requires path != [] && path[0].Key? ==> path[0].name !in hidden
    ensures LazyObserve(defs, j, path, hops) == Observe(Inline(defs, j, visited).value, path)
    decreases Names(defs) - visited, j, 1
  {
    hide InlineFields, InlineItems, Lookup, KeysOf;
    match j
    case Obj(fields) =>
      if Lookup(fields, REF).Some? {
        ReferenceKeepsTheReading(defs, fields, visited, path, hops, hidden);
      } else {
        FieldsReading(defs, fields, visited, path, hops);
        if TakesSibling(fields, path) {
          ChildIsFine(defs, fields, visited, path[0].name, hidden);
          FewerNames(defs, visited);
          InliningKeepsTheReading(defs, Lookup(fields, path[0].name).value, visited, path[1..], |Names(defs)|, {});
        }
      }
    case Arr(items) =>
      ItemsReading(defs, items, visited, path, hops);
      if path != [] && path[0].Index? && path[0].i < |items| {
        FewerNames(defs, visited);
        InliningKeepsTheReading(defs, items[path[0].i], visited, path[1..], |Names(defs)|, {});
      }
    case _ =>
  }

  lemma FieldsReading(defs: Json, fields: seq<Field>, visited: set<string>, path: seq<Move>, hops: nat)
    requires Inline(defs, Obj(fields), visited).Ok? && Lookup(fields, REF).None?
    ensures var r := Inline(defs, Obj(fields), visited).value;
      if TakesSibling(fields, path) then
        var child := Lookup(fields, path[0].name).value;
        && Inline(defs, child, visited).Ok?
        && LazyObserve(defs, Obj(fields), path, hops) == LazyObserve(defs, child, path[1..], |Names(defs)|)
        && Observe(r, path) == Observe(Inline(defs, child, visited).value, path[1..])
      else
        LazyObserve(defs, Obj(fields), path, hops) == Observe(r, path)
  {
    LookupInlined(defs, fields, visited, if path != [] && path[0].Key? then path[0].name else "");
    hide InlineFields, Lookup, KeysOf;
  }

  lemma ItemsReading(defs: Json, items: seq<Json>, visited: set<string>, path: seq<Move>, hops: nat)
    requires Inline(defs, Arr(items), visited).Ok?
    ensures var r := Inline(defs, Arr(items), visited).value;
      if path != [] && path[0].Index? && path[0].i < |items| then
        var item := items[path[0].i];
        && Inline(defs, item, visited).Ok?
        && LazyObserve(defs, Arr(items), path, hops) == LazyObserve(defs, item, path[1..], |Names(defs)|)
        && Observe(r, path) == Observe(Inline(defs, item, visited).value, path[1..])
      else
        LazyObserve(defs, Arr(items), path, hops) == Observe(r, path)
  {
    ItemInlined(defs, items, visited, if path != [] && path[0].Index? then path[0].i else 0);
    hide InlineItems;
  }

  lemma ChildIsFine(defs: Json, fields: seq<Field>, visited: set<string>, key: string, hidden: set<string>)
    requires Lookup(fields, REF).None? && Lookup(fields, key).Some? && key !in hidden
    requires WellKeyed(Obj(fields)) && Clean(defs, Obj(fields), hidden, visited)
    ensures var child := Lookup(fields, key).value;
      child < Obj(fields) && WellKeyed(child) && Clean(defs, child, {}, visited)
  {
    CleanInFields(defs, fields, hidden, visited);
    assert Field(key, Lookup(fields, key).value) in fields;
  }

  lemma FewerNames(defs: Json, visited: set<string>)
    ensures |Names(defs)| >= |Names(defs) - visited|
  {
    assert Names(defs) == (Names(defs) - visited) + (Names(defs) * visited);
  }

  lemma InlineAtReference(defs: Json, fields: seq<Field>, visited: set<string>)
    requires Lookup(fields, REF).Some? && Inline(defs, Obj(fields), visited).Ok?
    ensures Lookup(fields, REF).value.Str?
    ensures var name := RefName(Lookup(fields, REF).value.text);
      && name !in visited && Find(defs, name).Ok? && Field(name, Find(defs, name).value) in defs.fields
      && Inline(defs, Find(defs, name).value, visited + {name}).Ok?
      && WithSiblings(Inline(defs, Find(defs, name).value, visited + {name}).value, Without(fields, REF))
         == Inline(defs, Obj(fields), visited)
  {
  }

  /** The first step of the path leads into a sibling. */
  predicate TakesSibling(siblings: seq<Field>, path: seq<Move>) {
    path != [] && path[0].Key? && Lookup(siblings, path[0].name).Some?
  }

  lemma {:induction false} ReferenceKeepsTheReading(defs: Json, fields: seq<Field>, visited: set<string>,
      path: seq<Move>,
      hops: nat, hidden: set<string>)
    requires Lookup(fields, REF).Some? && UniqueKeys(fields) && WellKeyedDefs(defs)
    requires Inline(defs, Obj(fields), visited).Ok? && hops >= |Names(defs) - visited|
    requires Clean(defs, Obj(fields), hidden, visited)
    requires path != [] && path[0].Key? ==> path[0].name !in hidden
    ensures LazyObserve(defs, Obj(fields), path, hops) == Observe(Inline(defs, Obj(fields), visited).value, path)
    decreases Names(defs) - visited, Obj(fields), 0
  {
    hide *;
    InlineAtReference(defs, fields, visited);
    CleanAtReference(defs, fields, hidden, visited);
    var name := RefName(Lookup(fields, REF).value.text);
    var d := Find(defs, name).value;
    var siblings := Without(fields, REF);
    WithoutKeepsUnique(fields, REF);
    OneNameLess(defs, visited, name);
    DefinitionIsWellKeyed(defs, name);
    if !TakesSibling(siblings, path) {
      NoSiblingTaken(siblings, path, hidden);
      InliningKeepsTheReading(defs, d, visited + {name}, path, hops - 1, hidden + KeysOf(siblings));
    } else {
      SiblingTaken(siblings, path, hidden);
    }
    SiblingsKeepTheReading(defs, fields, d, Inline(defs, d, visited + {name}).value, path, hops);
  }

  lemma NoSiblingTaken(siblings: seq<Field>, path: seq<Move>, hidden: set<string>)
    requires !TakesSibling(siblings, path) && (path != [] && path[0].Key? ==> path[0].name !in hidden)
    ensures path != [] && path[0].Key? ==> path[0].name !in hidden + KeysOf(siblings)
  {
    if path != [] && path[0].Key? {
      KeyIsFound(siblings, path[0].name);
    }
  }

  lemma SiblingTaken(siblings: seq<Field>, path: seq<Move>, hidden: set<string>)
    requires TakesSibling(siblings, path) && (path != [] && path[0].Key? ==> path[0].name !in hidden)
    requires forall f <- siblings :: f.key !in hidden ==> RefFree(f.value)
    ensures RefFree(Lookup(siblings, path[0].name).value)
  {
    hide RefFree;
    assert Field(path[0].name, Lookup(siblings, path[0].name).value) in siblings;
  }

  lemma LazyAtReference(defs: Json, fields: seq<Field>, d: Json, path: seq<Move>, hops: nat)
    requires Lookup(fields, REF).Some? && Lookup(fields, REF).value.Str? && hops > 0
    requires Find(defs, RefName(Lookup(fields, REF).value.text)) == Ok(d)
    ensures var siblings := Without(fields, REF);
      LazyObserve(defs, Obj(fields), path, hops) ==
      if path == [] then
        (match LazyObserve(defs, d, [], hops - 1)
         case Some(Object(keys)) => Some(Object(keys + KeysOf(siblings)))
         case h => if siblings == [] then h else None)
      else if path[0].Key? && Lookup(siblings, path[0].name).Some? then
        LazyObserve(defs, Lookup(siblings, path[0].name).value, path[1..], |Names(defs)|)
      else LazyObserve(defs, d, path, hops - 1)
  {
    hide Without, KeysOf, Find, RefName;
  }

  lemma SiblingsKeepTheReading(defs: Json, fields: seq<Field>, d: Json, resolved: Json, path: seq<Move>, hops: nat)
    requires Lookup(fields, REF).Some? && Lookup(fields, REF).value.Str? && hops > 0
    requires Find(defs, RefName(Lookup(fields, REF).value.text)) == Ok(d)
    requires var siblings := Without(fields, REF);
      && UniqueKeys(siblings) && WithSiblings(resolved, siblings).Ok?
      && if TakesSibling(siblings, path) then RefFree(Lookup(siblings, path[0].name).value)
         else LazyObserve(defs, d, path, hops - 1) == Observe(resolved, path)
    ensures LazyObserve(defs, Obj(fields), path, hops) ==
      Observe(WithSiblings(resolved, Without(fields, REF)).value, path)
  {
    hide LazyObserve, Observe, RefFree, Merge, Find, RefName, KeysOf, Lookup, Without, UniqueKeys;
    var siblings := Without(fields, REF);
    LazyAtReference(defs, fields, d, path, hops);
    ObserveHead(resolved);
    if siblings == [] {
      NoExtraKeys();
    } else {
      MergedReading(resolved.fields, siblings, path);
      if TakesSibling(siblings, path) {
        RefFreeReadsItself(defs, Lookup(siblings, path[0].name).value, path[1..], |Names(defs)|);
      }
    }
  }

  lemma ObserveHead(j: Json)
    ensures Observe(j, []) == Some(HeadOf(j))
  {
  }

  lemma NoExtraKeys()
    ensures KeysOf([]) == {}
    ensures forall keys: set<string> {:trigger keys + KeysOf([])} :: keys + KeysOf([]) == keys
    ensures forall path: seq<Move> :: !TakesSibling([], path)
  {
  }

  lemma MergedReading(base: seq<Field>, extra: seq<Field>, path: seq<Move>)
    requires UniqueKeys(extra)
    ensures Observe(Obj(Merge(base, extra)), path) ==
      if path == [] then Some(Object(KeysOf(base) + KeysOf(extra)))
      else if path[0].Key? && Lookup(extra, path[0].name).Some?
      then Observe(Lookup(extra, path[0].name).value, path[1..])
      else Observe(Obj(base), path)
  {
    MergedKeys(base, extra);
    if path != [] && path[0].Key? {
      LookupOfMerge(base, extra, path[0].name);
    }
  }

  /** What `resolve_schema` does to a schema with definitions: inline it, then drop them. */
  lemma ResolvedBut(schema: seq<Field>, defs: Json)
    requires Lookup(schema, DEFS) == Some(defs) && !Falsy(defs) && WellKeyed(Obj(schema))
    ensures WellKeyedDefs(defs)
    ensures ResolveSchema(schema).Ok? <==> Inline(defs, Obj(schema), {}).Ok?
    ensures ResolveSchema(schema).Ok? ==>
      var t := Inline(defs, Obj(schema), {}).value;
      && t.Obj? && ResolveSchema(schema).value == Without(t.fields, DEFS)
      && (RefFree(Obj(ResolveSchema(schema).value)) <==> RefFreeBut(t, {DEFS}))
  {
    WellKeyedField(schema, DEFS);
    ResolvedFields(schema, defs);
    hide *;
    if ResolveSchema(schema).Ok? {
      WithoutBut(Inline(defs, Obj(schema), {}).value.fields);
    }
  }

  lemma WellKeyedField(fields: seq<Field>, key: string)
    requires Lookup(fields, key).Some? && WellKeyed(Obj(fields))
    ensures WellKeyed(Lookup(fields, key).value) && WellKeyedDefs(Lookup(fields, key).value)
  {
    assert Field(key, Lookup(fields, key).value) in fields;
  }

  /** A dict with definitions is never replaced by something that is not a dict. */
  lemma InlinedIsObject(fields: seq<Field>, key: string, defs: Json)
    requires Lookup(fields, key).Some? && key != REF && Inline(defs, Obj(fields), {}).Ok?
    ensures Inline(defs, Obj(fields), {}).value.Obj?
  {
    hide InlineFields, Lookup, Without, Find, RefName, Merge;
    assert Field(key, Lookup(fields, key).value) in Without(fields, REF);
  }

  lemma ResolvedFields(schema: seq<Field>, defs: Json)
    requires Lookup(schema, DEFS) == Some(defs) && !Falsy(defs)
    ensures ResolveSchema(schema).Ok? <==> Inline(defs, Obj(schema), {}).Ok?
    ensures ResolveSchema(schema).Ok? ==>
      var t := Inline(defs, Obj(schema), {}).value;
      t.Obj? && ResolveSchema(schema).value == Without(t.fields, DEFS)
  {
    hide Inline, Lookup, Without, Falsy;
    if Inline(defs, Obj(schema), {}).Ok? {
      InlinedIsObject(schema, DEFS, defs);
    }
  }

  lemma WithoutBut(fields: seq<Field>)
    ensures RefFree(Obj(Without(fields, DEFS))) <==> RefFreeBut(Obj(fields), {DEFS})
  {
    var r := Without(fields, DEFS);
    hide RefFree;
    NothingHidden(Obj(r));
    WithoutLooksTheSame(fields, DEFS, REF);
  }

  /** `resolve_schema` leaves no reference exactly if the walk finds none; `$defs` itself does not
      count, it goes. */
  lemma ReferencesLeftExactly(schema: seq<Field>, defs: Json)
    requires Lookup(schema, "$defs") == Some(defs) && WellKeyed(Obj(schema))
    requires defs != Null && defs != Bool(false) && defs != Num(0.0) && defs != Str("")
    requires defs != Arr([]) && defs != Obj([])
    requires ResolveSchema(schema).Ok?
    ensures forall f <- ResolveSchema(schema).value :: f.key != "$defs"
    ensures RefFree(Obj(ResolveSchema(schema).value)) <==> Clean(defs, Obj(schema), {"$defs"}, {})
  {
    assert !Falsy(defs);
    hide *;
    ResolvedBut(schema, defs);
    CleanDecides(defs, Obj(schema), {DEFS}, {});
  }

  /** `resolve_schema` on a schema with definitions: it fails exactly on a cycle; otherwise, if no
      reference is left, everything outside `$defs` reads as before. */
  lemma ResolvedSchemaMeansTheSame(schema: seq<Field>, defs: Json)
    requires Lookup(schema, "$defs") == Some(defs) && WellKeyed(Obj(schema))
    requires defs != Null && defs != Bool(false) && defs != Num(0.0) && defs != Str("")
    requires defs != Arr([]) && defs != Obj([])
    requires DefsResolve(defs) && RefsResolve(defs, Obj(schema))
    ensures ResolveSchema(schema).Err? <==> exists names :: Chain(defs, Obj(schema), names) && Repeats(names)
    ensures ResolveSchema(schema).Ok? && Clean(defs, Obj(schema), {"$defs"}, {}) ==>
      var r := Obj(ResolveSchema(schema).value);
      RefFree(r) && forall path :: path != [] && path[0] != Key("$defs") ==>
        Observe(r, path) == LazyObserve(defs, Obj(schema), path, |Names(defs)|)
  {
    assert !Falsy(defs);
    hide *;
    ResolvedBut(schema, defs);
    FailsExactlyOnCycles(defs, Obj(schema));
    if ResolveSchema(schema).Ok? && Clean(defs, Obj(schema), {DEFS}, {}) {
      ReferencesLeftExactly(schema, defs);
      forall path: seq<Move> | path != [] && path[0] != Key(DEFS)
        ensures Observe(Obj(ResolveSchema(schema).value), path) == LazyObserve(defs, Obj(schema), path, |Names(defs)|)
      {
        ResolvedReading(schema, defs, Inline(defs, Obj(schema), {}).value.fields, path);
      }
    }
  }

  lemma ResolvedReading(schema: seq<Field>, defs: Json, fields: seq<Field>, path: seq<Move>)
    requires Inline(defs, Obj(schema), {}) == Ok(Obj(fields))
    requires WellKeyedDefs(defs) && WellKeyed(Obj(schema)) && Clean(defs, Obj(schema), {DEFS}, {})
    requires path != [] && path[0] != Key(DEFS)
    ensures Observe(Obj(Without(fields, DEFS)), path) == LazyObserve(defs, Obj(schema), path, |Names(defs)|)
  {
    assert Names(defs) - {} == Names(defs);
    InliningKeepsTheReading(defs, Obj(schema), {}, path, |Names(defs)|, {DEFS});
    hide Inline, LazyObserve, Clean, WellKeyed, WellKeyedDefs;
    if path[0].Key? {
      WithoutLooksTheSame(fields, DEFS, path[0].name);
    }
  }

  lemma {:induction false} WithoutLooksTheSame(fields: seq<Field>, key: string, other: string)
    requires key != other
    ensures Lookup(Without(fields, key), other) == Lookup(fields, other)
  {
    if fields != [] {
      WithoutLooksTheSame(fields[1..], key, other);
      var rest := Without(fields[1..], key);
      assert [] + rest == rest;
      assert ([fields[0]] + rest)[1..] == rest;
    }
  }

  /** A schema without definitions is returned as it is, references included. */
  lemma NoDefinitionsNoChange(schema: seq<Field>)
    requires Lookup(schema, DEFS).None? ||
      Lookup(schema, DEFS).value in [Null, Bool(false), Num(0.0), Str(""), Arr([]), Obj([])]
    ensures ResolveSchema(schema) == Ok(schema)
  {
  }

  /** A resolved schema is final: resolving it again changes nothing, so a reference that was
      left stays. */
  lemma ResolvingTwiceChangesNothing(schema: seq<Field>)
    requires ResolveSchema(schema).Ok?
    ensures ResolveSchema(ResolveSchema(schema).value) == ResolveSchema(schema)
  {
    var r := ResolveSchema(schema).value;
    if Lookup(schema, DEFS).Some? && !Falsy(Lookup(schema, DEFS).value) {
      assert Lookup(r, DEFS).None?;
    }
    hide Inline;
    NoDefinitionsNoChange(r);
  }

  /** A pointer to a definition is read as its name. */
  lemma {:induction false} RefNameOfPointer(prefix: string, name: string)
    requires '/' !in name
    ensures RefName(prefix + "/" + name) == name
  {
    var ref := prefix + "/" + name;
    if prefix == "" {
      assert ref[1..] == name;
    } else {
      assert ref[1..] == prefix[1..] + "/" + name;
      assert ref[1..][|prefix| - 1] == '/';
      RefNameOfPointer(prefix[1..], name);
    }
  }

  /** A reference to an empty definition, with `key` beside it holding a reference too. */
  function SiblingSchema(name: string, key: string): seq<Field> {
    var ref := Str("#/$defs" + "/" + name);
    [Field(REF, ref), Field(key, Obj([Field(REF, ref)])), Field(DEFS, Obj([Field(name, Obj([]))]))]
  }

  lemma InlinesOverDict(defs: Json, fields: seq<Field>, visited: set<string>, pointer: string)
    requires Lookup(fields, REF) == Some(Str(pointer))
    requires var name := RefName(pointer);
      && name !in visited && Find(defs, name).Ok?
      && Inline(defs, Find(defs, name).value, visited + {name}).Ok?
      && Inline(defs, Find(defs, name).value, visited + {name}).value.Obj?
    ensures Inline(defs, Obj(fields), visited).Ok?
  {
    hide Without, Lookup, RefName, Find;
  }

  lemma EmptyDictInlines(defs: Json, visited: set<string>)
    ensures Inline(defs, Obj([]), visited) == Ok(Obj([]))
  {
  }

  lemma SiblingSchemaFields(name: string, key: string)
    requires key != REF && key != DEFS
    ensures var schema := SiblingSchema(name, key); var defs := Obj([Field(name, Obj([]))]);
      && Lookup(schema, REF) == Some(Str("#/$defs" + "/" + name)) && Lookup(schema, DEFS) == Some(defs)
      && (exists f <- Without(schema, REF) :: f.key != DEFS && !RefFree(f.value))
      && Find(defs, name) == Ok(Obj([])) && !Falsy(defs)
  {
    hide WellKeyed, Inline;
    var schema := SiblingSchema(name, key);
    var ref := Obj([Field(REF, Str("#/$defs" + "/" + name))]);
    assert schema[1] == Field(key, ref) && schema[1] in schema;
    assert Lookup(ref.fields, REF).Some? && !RefFree(ref);
  }

  lemma SiblingSchemaIsWellKeyed(name: string, key: string)
    requires key != REF && key != DEFS
    ensures WellKeyed(Obj(SiblingSchema(name, key))) && UniqueKeys(SiblingSchema(name, key))
  {
    var ref := Obj([Field(REF, Str("#/$defs" + "/" + name))]);
    assert WellKeyed(ref) && WellKeyed(Obj([])) && WellKeyed(Obj([Field(name, Obj([]))]));
  }

  /** Such a schema resolves, and the result keeps the `$ref` in the sibling. */
  lemma AReferenceCanBeLeft(name: string, key: string)
    requires '/' !in name && key != REF && key != DEFS
    ensures var schema := SiblingSchema(name, key);
      ResolveSchema(schema).Ok? && !RefFree(Obj(ResolveSchema(schema).value))
  {
    assert DEFS == "$defs";
    hide *;
    var schema := SiblingSchema(name, key);
    var defs := Obj([Field(name, Obj([]))]);
    SiblingSchemaFields(name, key);
    SiblingSchemaIsWellKeyed(name, key);
    RefNameOfPointer("#/$defs", name);
    EmptyDictInlines(defs, {} + {name});
    InlinesOverDict(defs, schema, {}, "#/$defs" + "/" + name);
    CleanAtReference(defs, schema, {DEFS}, {});
    ResolvedBut(schema, defs);
    ReferencesLeftExactly(schema, defs);
  }
}
