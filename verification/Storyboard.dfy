/**
 Storyboard planning (lib/storyboard_sequence.py) and the batch that enqueues a plan
 (lib/generation_queue_client.py).
 */
module Storyboard {
  import opened PythonText
  import opened Wrappers

  /** `id` is the text of the item's id field, empty when it has none. */
  datatype Item = Item(id: string, segmentBreak: bool)

  datatype Plan = Plan(resource: string, dependency: Option<string>, group: string, index: nat)

  function Resource(item: Item): string {
    Strip(item.id)
  }

  // ---------------------------------------------------------------- groups

  function Flatten(groups: seq<seq<Item>>): seq<Item> {
    if groups == [] then [] else Flatten(groups[..|groups| - 1]) + groups[|groups| - 1]
  }

  /** The groups are the items cut before every break: non-empty, in order, nothing lost. */
  ghost predicate IsGrouping(groups: seq<seq<Item>>, items: seq<Item>) {
    && Flatten(groups) == items
    && (forall g :: 0 <= g < |groups| ==> groups[g] != [])
    && (forall g :: 0 < g < |groups| ==> groups[g][0].segmentBreak)
    && (forall g, j :: 0 <= g < |groups| && 0 < j < |groups[g]| ==> !groups[g][j].segmentBreak)
  }

  function Joined(groups: seq<seq<Item>>, current: seq<Item>): seq<seq<Item>> {
    if current == [] then groups else groups + [current]
  }

  method GroupScenesBySegmentBreak(items: seq<Item>) returns (groups: seq<seq<Item>>)
    ensures IsGrouping(groups, items)
  {
    groups := [];
    var current: seq<Item> := [];
    NoGroups();
    hide *;
    for k := 0 to |items|
      invariant IsGrouping(Joined(groups, current), items[..k])
      invariant current == [] ==> k == 0 && groups == []
    {
      var item := items[k];
      AddItem(groups, current, items[..k], item);
      if item.segmentBreak && current != [] {
        groups := groups + [current];
        current := [];
      }
      current := current + [item];
      assert items[..k + 1] == items[..k] + [item];
    }
    JoinedIs(groups, current);
    if current != [] {
      groups := groups + [current];
    }
    assert items[..|items|] == items;
  }

  lemma NoGroups()
    ensures IsGrouping(Joined([], []), [])
  {
  }

  lemma JoinedIs(groups: seq<seq<Item>>, current: seq<Item>)
    ensures Joined(groups, current) == if current == [] then groups else groups + [current]
  {
  }

  lemma FlattenLast(groups: seq<seq<Item>>, last: seq<Item>)
    ensures Flatten(groups + [last]) == Flatten(groups) + last
  {
    assert (groups + [last])[..|groups|] == groups;
  }

  /** One turn of the loop: a break closes the current group, and the item goes last. */
  lemma AddItem(groups: seq<seq<Item>>, current: seq<Item>, items: seq<Item>, item: Item)
    requires IsGrouping(Joined(groups, current), items)
    requires current == [] ==> groups == []
    ensures var closes := item.segmentBreak && current != [];
      IsGrouping(Joined(if closes then groups + [current] else groups, (if closes then [] else current) + [item]),
                 items + [item])
  {
    if current == [] {
      assert [] + [item] == [item];
      AddGroup([], items, item);
    } else if item.segmentBreak {
      assert [] + [item] == [item];
      AddGroup(groups + [current], items, item);
    } else {
      ExtendLast(groups, current, items, item);
    }
  }

  lemma AddGroup(groups: seq<seq<Item>>, items: seq<Item>, item: Item)
    requires IsGrouping(groups, items) && (groups == [] || item.segmentBreak)
    ensures IsGrouping(groups + [[item]], items + [item])
  {
    FlattenLast(groups, [item]);
    hide Flatten;
  }

  lemma ExtendLast(groups: seq<seq<Item>>, current: seq<Item>, items: seq<Item>, item: Item)
    requires IsGrouping(groups + [current], items) && !item.segmentBreak
    ensures IsGrouping(groups + [current + [item]], items + [item])
  {
    var before := groups + [current];
    FlattenLast(groups, current);
    FlattenLast(groups, current + [item]);
    hide Flatten;
    assert Flatten(groups) + (current + [item]) == Flatten(groups) + current + [item];
    assert before[|groups|] == current && forall g :: 0 <= g < |groups| ==> before[g] == groups[g];
  }

  /** A grouping without its last item. */
  function Shrunk(groups: seq<seq<Item>>): seq<seq<Item>>
    requires groups != []
  {
    var n := |groups| - 1;
    if |groups[n]| <= 1 then groups[..n] else groups[..n] + [groups[n][..|groups[n]| - 1]]
  }

  lemma ShrinkGroups(groups: seq<seq<Item>>, items: seq<Item>)
    requires IsGrouping(groups, items) && items != []
    ensures groups != []
    ensures var last := groups[|groups| - 1];
      && last != [] && last[|last| - 1] == items[|items| - 1]
      && (|last| == 1 <==> |items| == 1 || items[|items| - 1].segmentBreak)
      && IsGrouping(Shrunk(groups), items[..|items| - 1])
  {
    assert groups != [];
    var n := |groups| - 1;
    var front, last := groups[..n], groups[n];
    assert groups == front + [last];
    FlattenLast(front, last);
    FlattenLast(front, last[..|last| - 1]);
    GroupingOfFront(front, last, items);
    if n > 0 {
      FlattenNotEmpty(front);
    }
    hide Flatten, IsGrouping;
    assert items[..|items| - 1] == Flatten(front) + last[..|last| - 1];
  }

  /** Without its last group, or with that one cut short, a grouping still groups the items it has. */
  lemma GroupingOfFront(front: seq<seq<Item>>, last: seq<Item>, items: seq<Item>)
    requires IsGrouping(front + [last], items)
    ensures IsGrouping(front, Flatten(front))
    ensures last != [] && (front != [] ==> last[0].segmentBreak)
    ensures forall j :: 0 < j < |last| ==> !last[j].segmentBreak
    ensures forall cut :: 0 < cut <= |last| ==> IsGrouping(front + [last[..cut]], Flatten(front) + last[..cut])
  {
    var groups := front + [last];
    assert groups[|front|] == last && forall g :: 0 <= g < |front| ==> groups[g] == front[g];
    forall cut | 0 < cut <= |last|
      ensures IsGrouping(front + [last[..cut]], Flatten(front) + last[..cut])
    {
      FlattenLast(front, last[..cut]);
    }
  }

  lemma FlattenNotEmpty(groups: seq<seq<Item>>)
    requires groups != [] && forall g :: 0 <= g < |groups| ==> groups[g] != []
    ensures Flatten(groups) != []
  {
  }

  /** There is only one way to cut the items. */
  lemma {:induction false} GroupingIsUnique(a: seq<seq<Item>>, b: seq<seq<Item>>, items: seq<Item>)
    requires IsGrouping(a, items) && IsGrouping(b, items)
    ensures a == b
    decreases |items|
  {
    hide Shrunk;
    if items == [] {
      if a != [] { FlattenNotEmpty(a); }
      if b != [] { FlattenNotEmpty(b); }
    } else {
      ShrinkGroups(a, items);
      ShrinkGroups(b, items);
      GroupingIsUnique(Shrunk(a), Shrunk(b), items[..|items| - 1]);
      SameShrunk(a, b);
    }
  }

  lemma SameShrunk(a: seq<seq<Item>>, b: seq<seq<Item>>)
    requires a != [] && b != [] && Shrunk(a) == Shrunk(b)
    requires var x, y := a[|a| - 1], b[|b| - 1];
             x != [] && y != [] && x[|x| - 1] == y[|y| - 1] && (|x| == 1 <==> |y| == 1)
    ensures a == b
  {
    var x, y, p, q := a[|a| - 1], b[|b| - 1], Shrunk(a), Shrunk(b);
    if |x| == 1 {
      assert x == y;
      assert a == p + [x] && b == q + [y];
    } else {
      assert |a| == |p| && |b| == |q|;
      assert x[..|x| - 1] == p[|p| - 1] && y[..|y| - 1] == q[|q| - 1];
      assert x == x[..|x| - 1] + [x[|x| - 1]] && y == y[..|y| - 1] + [y[|y| - 1]];
      assert a == p[..|p| - 1] + [x] && b == q[..|q| - 1] + [y];
    }
  }

  // ---------------------------------------------------------------- the plan

  /** `script_file or 'storyboard'`, the colon and the group's number. */
  function GroupName(script: Option<string>, n: nat): string {
    (if script.Some? && script.value != "" then script.value else "storyboard") + ":group:" + Decimal(n)
  }

  lemma GroupNamesDiffer(script: Option<string>, m: nat, n: nat)
    requires GroupName(script, m) == GroupName(script, n)
    ensures m == n
  {
    hide Decimal;
    var x := (if script.Some? && script.value != "" then script.value else "storyboard") + ":group:";
    assert (x + Decimal(m))[|x|..] == Decimal(m) && (x + Decimal(n))[|x|..] == Decimal(n);
    DecimalIsInjective(m, n);
  }

  predicate IsSelected(items: seq<Item>, i: nat, selected: set<string>)
    requires i < |items|
  {
    Resource(items[i]) != "" && Resource(items[i]) in selected
  }

  /** A break, or no selected item right before. */
  predicate StartsGroup(items: seq<Item>, i: nat, selected: set<string>)
    requires i < |items|
  {
    items[i].segmentBreak || i == 0 || !IsSelected(items, i - 1, selected)
  }

  /** What the loop has built after some items. */
  datatype Cursor = Cursor(plans: seq<Plan>, groups: nat, group: string, index: nat)

  function Advance(c: Cursor, items: seq<Item>, i: nat, selected: set<string>, script: Option<string>): Cursor
    requires i < |items|
  {
    if !IsSelected(items, i, selected) then c
    else if StartsGroup(items, i, selected) then
      var name := GroupName(script, c.groups + 1);
      Cursor(c.plans + [Plan(Resource(items[i]), None, name, 0)], c.groups + 1, name, 0)
    else
      c.(plans := c.plans + [Plan(Resource(items[i]), Some(Resource(items[i - 1])), c.group, c.index + 1)],
         index := c.index + 1)
  }

  function Scan(items: seq<Item>, k: nat, selected: set<string>, script: Option<string>): Cursor
    requires k <= |items|
  {
    if k == 0 then Cursor([], 0, "", 0)
    else Advance(Scan(items, k - 1, selected, script), items, k - 1, selected, script)
  }

  function Plans(items: seq<Item>, selected: set<string>, script: Option<string>): seq<Plan> {
    Scan(items, |items|, selected, script).plans
  }

  lemma NothingSelected(items: seq<Item>, k: nat, selected: set<string>, script: Option<string>)
    requires k <= |items| && selected == {}
    ensures Scan(items, k, selected, script).plans == []
  {
  }

  function IdSet(ids: seq<string>): set<string> {
    set id | id in ids
  }

  method BuildDependencyPlan(items: seq<Item>, selectedIds: seq<string>, script: Option<string>)
    returns (plans: seq<Plan>)
    ensures plans == Plans(items, IdSet(selectedIds), script)
  {
    hide Resource, GroupName;
    var selected := IdSet(selectedIds);
    plans := [];
    if selected == {} {
      NothingSelected(items, |items|, selected, script);
      return;
    }
    var groups: nat, group, index: nat := 0, "", 0;
    for i := 0 to |items|
      invariant Cursor(plans, groups, group, index) == Scan(items, i, selected, script)
    {
      var resource := Resource(items[i]);
      if resource == "" || resource !in selected {
        continue;
      }
      var previous := None;
      if i > 0 && Resource(items[i - 1]) != "" {
        previous := Some(Resource(items[i - 1]));
      }
      var dependency := None;
      if items[i].segmentBreak || previous.None? || previous.value !in selected {
        groups := groups + 1;
        group := GroupName(script, groups);
        index := 0;
      } else {
        index := index + 1;
        dependency := previous;
      }
      plans := plans + [Plan(resource, dependency, group, index)];
    }
  }

  /** Indices of the selected items among the first `k`. */
  function Selected(items: seq<Item>, k: nat, selected: set<string>): (at: seq<nat>)
    requires k <= |items|
    ensures forall j :: 0 <= j < |at| ==> at[j] < k && IsSelected(items, at[j], selected)
  {
    if k == 0 then [] else
      Selected(items, k - 1, selected) + (if IsSelected(items, k - 1, selected) then [k - 1] else [])
  }

  /** The plan of item `i`: its resource, and the item before unless it starts a group. */
  predicate IsPlanOf(plan: Plan, items: seq<Item>, i: nat, selected: set<string>) {
    && i < |items|
    && plan.resource == Resource(items[i])
    && plan.dependency == if StartsGroup(items, i, selected) then None else Some(Resource(items[i - 1]))
  }

  /** One plan for each selected item, in order. */
  lemma {:induction false} OnePlanPerSelectedItem(items: seq<Item>, k: nat, selected: set<string>,
      script: Option<string>)
    requires k <= |items|
    ensures var plans, at := Scan(items, k, selected, script).plans, Selected(items, k, selected);
            |plans| == |at| && forall j :: 0 <= j < |at| ==> IsPlanOf(plans[j], items, at[j], selected)
  {
    hide GroupName, Resource;
    if k > 0 {
      OnePlanPerSelectedItem(items, k - 1, selected, script);
    }
  }

  /** What a plan's dependency means for its neighbours. */
  ghost predicate Linked(plans: seq<Plan>) {
    forall j :: 0 <= j < |plans| ==>
      && (plans[j].dependency.Some? ==>
            && j > 0 && plans[j - 1].resource == plans[j].dependency.value
            && plans[j - 1].group == plans[j].group && plans[j].index == plans[j - 1].index + 1)
      && (plans[j].dependency.None? ==>
            plans[j].index == 0 && forall i :: 0 <= i < j ==> plans[i].group != plans[j].group)
  }

  /** The cursor after `k` items: its groups are numbered, and its last plan is the last selected item's. */
  ghost predicate IsConsistent(c: Cursor, items: seq<Item>, k: nat, selected: set<string>, script: Option<string>)
    requires k <= |items|
  {
    && Linked(c.plans)
    && (forall j :: 0 <= j < |c.plans| ==> IsNumbered(c.plans[j].group, c.groups, script))
    && (k > 0 && IsSelected(items, k - 1, selected) ==>
          && c.plans != []
          && var last := c.plans[|c.plans| - 1];
             last.resource == Resource(items[k - 1]) && last.group == c.group && last.index == c.index)
  }

  ghost predicate IsNumbered(group: string, groups: nat, script: Option<string>) {
    exists g :: 1 <= g <= groups && group == GroupName(script, g)
  }

  lemma LinkedMore(plans: seq<Plan>, p: Plan)
    requires Linked(plans)
    requires p.dependency.Some? ==>
      && plans != [] && plans[|plans| - 1].resource == p.dependency.value
      && plans[|plans| - 1].group == p.group && p.index == plans[|plans| - 1].index + 1
    requires p.dependency.None? ==> p.index == 0 && forall i :: 0 <= i < |plans| ==> plans[i].group != p.group
    ensures Linked(plans + [p])
  {
  }

  lemma AdvanceIsConsistent(c: Cursor, items: seq<Item>, i: nat, selected: set<string>, script: Option<string>)
    requires i < |items| && IsConsistent(c, items, i, selected, script)
    ensures IsConsistent(Advance(c, items, i, selected, script), items, i + 1, selected, script)
  {
    hide GroupName, Resource, IsNumbered, Linked;
    if IsSelected(items, i, selected) {
      var d := Advance(c, items, i, selected, script);
      var plan := d.plans[|d.plans| - 1];
      forall j | 0 <= j < |c.plans|
        ensures IsNumbered(c.plans[j].group, c.groups + 1, script)
        ensures c.plans[j].group != GroupName(script, c.groups + 1)
      {
        Numbered(c.plans[j].group, c.groups, script);
      }
      NumberedNew(c.groups + 1, script);
      LinkedMore(c.plans, plan);
      assert d.plans == c.plans + [plan];
    }
  }

  lemma Numbered(group: string, groups: nat, script: Option<string>)
    requires IsNumbered(group, groups, script)
    ensures IsNumbered(group, groups + 1, script) && group != GroupName(script, groups + 1)
  {
    hide GroupName;
    var g :| 1 <= g <= groups && group == GroupName(script, g);
    if group == GroupName(script, groups + 1) {
      GroupNamesDiffer(script, g, groups + 1);
    }
  }

  lemma NumberedNew(n: nat, script: Option<string>)
    requires n > 0
    ensures IsNumbered(GroupName(script, n), n, script)
  {
  }

  lemma {:induction false} ScanIsConsistent(items: seq<Item>, k: nat, selected: set<string>, script: Option<string>)
    requires k <= |items|
    ensures IsConsistent(Scan(items, k, selected, script), items, k, selected, script)
  {
    hide GroupName, Resource, IsConsistent, Advance;
    if k == 0 {
      EmptyIsConsistent(items, selected, script);
    } else {
      ScanIsConsistent(items, k - 1, selected, script);
      AdvanceIsConsistent(Scan(items, k - 1, selected, script), items, k - 1, selected, script);
    }
  }

  lemma EmptyIsConsistent(items: seq<Item>, selected: set<string>, script: Option<string>)
    ensures IsConsistent(Cursor([], 0, "", 0), items, 0, selected, script)
  {
  }

  /**
   Every dependency is the resource of the plan right before, in the same group with index
   one higher; a plan without one opens a group that no earlier plan is in.
   */
  lemma EveryDependencyIsThePlanBefore(items: seq<Item>, selected: set<string>, script: Option<string>)
    ensures Linked(Plans(items, selected, script))
  {
    ScanIsConsistent(items, |items|, selected, script);
  }

  // ---------------------------------------------------------------- the plan of a whole storyboard

  /** The plans of the first `len` items of group number `n`. */
  function PlansOfGroup(group: seq<Item>, len: nat, n: nat, script: Option<string>): seq<Plan>
    requires len <= |group|
  {
    if len == 0 then [] else
      var dependency := if len == 1 then None else Some(Resource(group[len - 2]));
      PlansOfGroup(group, len - 1, n, script) +
      [Plan(Resource(group[len - 1]), dependency, GroupName(script, n), len - 1)]
  }

  function PlansOfGroups(groups: seq<seq<Item>>, script: Option<string>): seq<Plan> {
    if groups == [] then [] else
      var n := |groups|;
      PlansOfGroups(groups[..n - 1], script) + PlansOfGroup(groups[n - 1], |groups[n - 1]|, n, script)
  }

  lemma {:induction len} PlansOfPrefix(group: seq<Item>, len: nat, prefix: seq<Item>, n: nat, script: Option<string>)
    requires len <= |prefix| && prefix <= group
    ensures PlansOfGroup(group, len, n, script) == PlansOfGroup(prefix, len, n, script)
  {
  }

  function LastPlan(group: seq<Item>, n: nat, script: Option<string>): Plan
    requires group != []
  {
    Plan(Resource(group[|group| - 1]), if |group| == 1 then None else Some(Resource(group[|group| - 2])),
         GroupName(script, n), |group| - 1)
  }

  lemma PlansOfShrunk(groups: seq<seq<Item>>, script: Option<string>)
    requires groups != [] && groups[|groups| - 1] != []
    ensures PlansOfGroups(groups, script) ==
            PlansOfGroups(Shrunk(groups), script) + [LastPlan(groups[|groups| - 1], |groups|, script)]
  {
    hide GroupName, Resource;
    var n, sh := |groups|, Shrunk(groups);
    var last := groups[n - 1];
    if |last| == 1 {
      assert PlansOfGroup(last, 0, n, script) == [];
      assert PlansOfGroup(last, 1, n, script) == [LastPlan(last, n, script)];
    } else {
      var prefix := last[..|last| - 1];
      var before := PlansOfGroups(groups[..n - 1], script);
      assert sh[..n - 1] == groups[..n - 1] && sh[n - 1] == prefix;
      assert PlansOfGroups(sh, script) == before + PlansOfGroup(prefix, |prefix|, n, script);
      PlansOfPrefix(last, |prefix|, prefix, n, script);
      var some := PlansOfGroup(prefix, |prefix|, n, script);
      assert PlansOfGroup(last, |last|, n, script) == some + [LastPlan(last, n, script)];
      assert before + (some + [LastPlan(last, n, script)]) == before + some + [LastPlan(last, n, script)];
    }
  }

  /** The cursor is where the groups so far put it. */
  ghost predicate IsAtEnd(c: Cursor, groups: seq<seq<Item>>, script: Option<string>) {
    && c.plans == PlansOfGroups(groups, script) && c.groups == |groups|
    && (groups != [] ==> c.group == GroupName(script, |groups|) && c.index == |groups[|groups| - 1]| - 1)
  }

  lemma AdvanceToEnd(c: Cursor, items: seq<Item>, k: nat, groups: seq<seq<Item>>,
                     selected: set<string>, script: Option<string>)
    requires k < |items| && IsGrouping(groups, items[..k + 1])
    requires forall i :: 0 <= i <= k ==> IsSelected(items, i, selected)
    requires groups != [] && IsAtEnd(c, Shrunk(groups), script)
    ensures IsAtEnd(Advance(c, items, k, selected, script), groups, script)
  {
    LastGroup(items, k, groups, selected);
    hide GroupName, Resource, IsGrouping, PlansOfGroups, Shrunk, IsSelected, StartsGroup;
    PlansOfShrunk(groups, script);
  }

  /** The item `k` starts the last group exactly if it is alone in it. */
  lemma LastGroup(items: seq<Item>, k: nat, groups: seq<seq<Item>>, selected: set<string>)
    requires k < |items| && IsGrouping(groups, items[..k + 1])
    requires forall i :: 0 <= i <= k ==> IsSelected(items, i, selected)
    ensures groups != [] && IsSelected(items, k, selected)
    ensures var last := groups[|groups| - 1]; var before := Shrunk(groups);
      && last != [] && last[|last| - 1] == items[k]
      && (|last| == 1 <==> StartsGroup(items, k, selected))
      && (|last| == 1 ==> |before| == |groups| - 1)
      && (|last| > 1 ==> k > 0 && last[|last| - 2] == items[k - 1])
      && (|last| > 1 ==> |before| == |groups| && |before[|groups| - 1]| == |last| - 1)
  {
    hide IsGrouping, IsSelected;
    var before := items[..k + 1];
    ShrinkGroups(groups, before);
    assert before[..k] == items[..k];
    var last := groups[|groups| - 1];
    if |last| > 1 {
      assert IsSelected(items, k - 1, selected);
      ShrinkGroups(Shrunk(groups), items[..k]);
      assert Shrunk(groups)[|groups| - 1] == last[..|last| - 1];
    }
  }

  lemma {:induction false} ScanOfWholeStoryboard(items: seq<Item>, k: nat, groups: seq<seq<Item>>,
                                                 selected: set<string>, script: Option<string>)
    requires k <= |items| && IsGrouping(groups, items[..k])
    requires forall i :: 0 <= i < k ==> IsSelected(items, i, selected)
    ensures IsAtEnd(Scan(items, k, selected, script), groups, script)
  {
    hide GroupName, Resource, Advance, IsSelected, Shrunk;
    if k == 0 {
      if groups != [] { FlattenNotEmpty(groups); }
    } else {
      ShrinkGroups(groups, items[..k]);
      assert items[..k][..k - 1] == items[..k - 1];
      ScanOfWholeStoryboard(items, k - 1, Shrunk(groups), selected, script);
      AdvanceToEnd(Scan(items, k - 1, selected, script), items, k - 1, groups, selected, script);
    }
  }

  /** When every item is selected, the plan's groups are the groups cut at the segment breaks. */
  lemma WholeStoryboardFollowsTheGroups(items: seq<Item>, groups: seq<seq<Item>>, selected: set<string>,
      script: Option<string>)
    requires IsGrouping(groups, items)
    requires forall i :: 0 <= i < |items| ==> IsSelected(items, i, selected)
    ensures Plans(items, selected, script) == PlansOfGroups(groups, script)
  {
    assert items[..|items|] == items;
    ScanOfWholeStoryboard(items, |items|, groups, selected, script);
  }

  // ---------------------------------------------------------------- the batch

  datatype Spec = Spec(
    taskType: string,
    resource: string,
    script: Option<string>,
    dependency: Option<string>,
    group: Option<string>,
    index: Option<nat>)

  /** One call of `enqueue_task_only`, with the task id it answered. */
  datatype Enqueued = Enqueued(spec: Spec, dependencyTask: Option<string>, taskId: string)

  /** How waiting for a task ends. */
  datatype Outcome = Finished(status: string, message: string) | Raised(message: string)

  datatype BatchResult = BatchResult(resource: string, taskId: string, status: string, error: Option<string>)

  /** The last of the first `j` specs with a given resource. */
  function LastBefore(specs: seq<Spec>, j: nat, resource: string): (r: Option<nat>)
    requires j <= |specs|
    ensures r.Some? ==> r.value < j && specs[r.value].resource == resource
    ensures r.Some? ==> forall k :: r.value < k < j ==> specs[k].resource != resource
    ensures r.None? ==> forall k :: 0 <= k < j ==> specs[k].resource != resource
  {
    if j == 0 then None
    else if specs[j - 1].resource == resource then Some(j - 1)
    else LastBefore(specs, j - 1, resource)
  }

  /** The task a spec has to wait for: that of the last earlier spec with the named resource. */
  function DependencyTask(specs: seq<Spec>, ids: seq<string>, j: nat): Option<string>
    requires j < |specs| == |ids|
  {
    if specs[j].dependency.None? || specs[j].dependency.value == "" then None else
    match LastBefore(specs, j, specs[j].dependency.value)
    case Some(k) => Some(ids[k])
    case None => None
  }

  /** The result of waiting, as `_task_result_from_finished` and the exception handler build it. */
  function ResultOf(resource: string, taskId: string, outcome: Outcome): BatchResult {
    match outcome
    case Raised(message) => BatchResult(resource, taskId, "failed", Some(message))
    case Finished(status, message) =>
      if status == "failed" then
        BatchResult(resource, taskId, "failed", Some(if message != "" then message else "task failed"))
      else if status == "cancelled" then
        BatchResult(resource, taskId, "cancelled", Some("task cancelled"))
      else
        BatchResult(resource, taskId, "succeeded", None)
  }

  function Where(results: seq<BatchResult>, succeeded: bool): seq<BatchResult> {
    if results == [] then [] else
      var last := results[|results| - 1];
      Where(results[..|results| - 1], succeeded) + (if (last.status == "succeeded") == succeeded then [last] else [])
  }

  /** Spec `j`'s result. A resource named twice is waited for by the task of its last spec. */
  ghost predicate IsResult(result: BatchResult, specs: seq<Spec>, ids: seq<string>, wait: string -> Outcome, j: nat)
    requires j < |specs| == |ids|
  {
    var last := LastBefore(specs, |specs|, specs[j].resource);
    last.Some? && result == ResultOf(specs[j].resource, ids[last.value], wait(ids[last.value]))
  }

  ghost predicate AreResults(results: seq<BatchResult>, specs: seq<Spec>, ids: seq<string>, wait: string -> Outcome)
    requires |specs| == |ids|
  {
    |results| == |specs| && forall j :: 0 <= j < |specs| ==> IsResult(results[j], specs, ids, wait, j)
  }

  /** The task id table after `j` calls. */
  ghost predicate IdsAfter(taskIds: map<string, string>, specs: seq<Spec>, ids: seq<string>, j: nat)
    requires j <= |specs| == |ids|
  {
    forall r :: (r in taskIds <==> LastBefore(specs, j, r).Some?)
             && (r in taskIds ==> taskIds[r] == ids[LastBefore(specs, j, r).value])
  }

  lemma OneMoreId(taskIds: map<string, string>, specs: seq<Spec>, ids: seq<string>, j: nat)
    requires j < |specs| == |ids| && IdsAfter(taskIds, specs, ids, j)
    ensures IdsAfter(taskIds[specs[j].resource := ids[j]], specs, ids, j + 1)
  {
  }

  /** The enqueue loop. `ids` are the answers of the queue. */
  method EnqueueAll(specs: seq<Spec>, ids: seq<string>)
    returns (calls: seq<Enqueued>, taskIds: map<string, string>)
    requires |ids| == |specs|
    ensures |calls| == |specs|
    ensures forall j :: 0 <= j < |specs| ==> calls[j] == Enqueued(specs[j], DependencyTask(specs, ids, j), ids[j])
    ensures IdsAfter(taskIds, specs, ids, |specs|)
  {
    taskIds := map[];
    calls := [];
    for j := 0 to |specs|
      invariant |calls| == j
      invariant forall i :: 0 <= i < j ==> calls[i] == Enqueued(specs[i], DependencyTask(specs, ids, i), ids[i])
      invariant IdsAfter(taskIds, specs, ids, j)
    {
      hide IdsAfter, LastBefore;
      var spec := specs[j];
      var dependencyTask := None;
      if spec.dependency.Some? && spec.dependency.value != "" {
        LookUp(taskIds, specs, ids, j, spec.dependency.value);
        if spec.dependency.value in taskIds {
          dependencyTask := Some(taskIds[spec.dependency.value]);
        }
      }
      calls := calls + [Enqueued(spec, dependencyTask, ids[j])];
      OneMoreId(taskIds, specs, ids, j);
      taskIds := taskIds[spec.resource := ids[j]];
    }
  }

  lemma LookUp(taskIds: map<string, string>, specs: seq<Spec>, ids: seq<string>, j: nat, r: string)
    requires j <= |specs| == |ids| && IdsAfter(taskIds, specs, ids, j)
    ensures r in taskIds <==> LastBefore(specs, j, r).Some?
    ensures r in taskIds ==> taskIds[r] == ids[LastBefore(specs, j, r).value]
  {
  }

  lemma AwaitedId(taskIds: map<string, string>, specs: seq<Spec>, ids: seq<string>, wait: string -> Outcome, j: nat)
    requires j < |specs| == |ids| && IdsAfter(taskIds, specs, ids, |specs|)
    ensures var r := specs[j].resource;
      r in taskIds && IsResult(ResultOf(r, taskIds[r], wait(taskIds[r])), specs, ids, wait, j)
  {
    LookUp(taskIds, specs, ids, |specs|, specs[j].resource);
  }

  lemma OneMoreResult(results: seq<BatchResult>, result: BatchResult)
    ensures var succeeded := result.status == "succeeded";
      && Where(results + [result], succeeded) == Where(results, succeeded) + [result]
      && Where(results + [result], !succeeded) == Where(results, !succeeded)
  {
    assert (results + [result])[..|results|] == results;
  }

  /** Each spec's result has its resource and the id of the task waited for. It has failed exactly
      if waiting raised or the task failed, then with the message at hand; it is cancelled exactly
      if the task was; in every other case it has succeeded. */
  lemma ResultsTellTheOutcome(specs: seq<Spec>, ids: seq<string>, wait: string -> Outcome, results: seq<BatchResult>,
      j: nat)
    requires j < |specs| == |ids| && AreResults(results, specs, ids, wait)
    ensures var r := results[j]; var outcome := wait(r.taskId);
      && r.resource == specs[j].resource
      && (exists k :: 0 <= k < |specs| && specs[k].resource == r.resource && ids[k] == r.taskId
            && forall l :: k < l < |specs| ==> specs[l].resource != r.resource)
      && (r.status == "failed" <==> outcome.Raised? || outcome.status == "failed")
      && (r.status == "cancelled" <==> outcome.Finished? && outcome.status == "cancelled")
      && (r.status == "succeeded" <==> outcome.Finished? && outcome.status !in ["failed", "cancelled"])
      && r.error ==
           match outcome
           case Raised(message) => Some(message)
           case Finished(status, message) =>
             if status == "failed" then Some(if message == "" then "task failed" else message)
             else if status == "cancelled" then Some("task cancelled")
             else None
  {
    assert IsResult(results[j], specs, ids, wait, j);
    var k := LastBefore(specs, |specs|, specs[j].resource).value;
    assert specs[k].resource == specs[j].resource && ids[k] == results[j].taskId;
  }

  /**
   Enqueues in order, then waits for all and sorts the results. `wait` says how each task ends.
   */
  method BatchEnqueueAndWait(specs: seq<Spec>, ids: seq<string>, wait: string -> Outcome)
    returns (calls: seq<Enqueued>, ghost results: seq<BatchResult>, successes: seq<BatchResult>,
             failures: seq<BatchResult>)
    requires |ids| == |specs|
    ensures |calls| == |specs|
    ensures forall j :: 0 <= j < |specs| ==> calls[j] == Enqueued(specs[j], DependencyTask(specs, ids, j), ids[j])
    ensures AreResults(results, specs, ids, wait)
    ensures successes == Where(results, true) && failures == Where(results, false)
  {
    var taskIds;
    calls, taskIds := EnqueueAll(specs, ids);
    results, successes, failures := [], [], [];
    NoResults();
    hide *;
    for j := 0 to |specs|
      invariant |results| == j
      invariant forall i :: 0 <= i < j ==> IsResult(results[i], specs, ids, wait, i)
      invariant successes == Where(results, true) && failures == Where(results, false)
    {
      var resource := specs[j].resource;
      AwaitedId(taskIds, specs, ids, wait, j);
      var taskId := taskIds[resource];
      var result := ResultOf(resource, taskId, wait(taskId));
      OneMoreResult(results, result);
      results := results + [result];
      if result.status == "succeeded" {
        successes := successes + [result];
      } else {
        failures := failures + [result];
      }
    }
    AllResults(results, specs, ids, wait);
  }

  lemma NoResults()
    ensures Where([], true) == [] && Where([], false) == []
  {
  }

  lemma AllResults(results: seq<BatchResult>, specs: seq<Spec>, ids: seq<string>, wait: string -> Outcome)
    requires |results| == |specs| == |ids|
    requires forall i :: 0 <= i < |specs| ==> IsResult(results[i], specs, ids, wait, i)
    ensures AreResults(results, specs, ids, wait)
  {
  }

  lemma LinkedAt(plans: seq<Plan>, j: nat)
    requires Linked(plans) && j < |plans| && plans[j].dependency.Some?
    ensures j > 0 && plans[j - 1].resource == plans[j].dependency.value
  {
  }

  /** Enqueued in plan order, every dependency is resolved, to the task of the plan right before. */
  lemma PlanOrderResolvesEveryDependency(items: seq<Item>, selected: set<string>, script: Option<string>,
      taskType: string, ids: seq<string>, j: nat)
    requires j < |ids| == |Plans(items, selected, script)|
    ensures var plans := Plans(items, selected, script);
            var specs := seq(|plans|, i requires 0 <= i < |plans| =>
              Spec(taskType, plans[i].resource, script, plans[i].dependency, Some(plans[i].group),
                   Some(plans[i].index)));
      && (plans[j].dependency.None? ==> DependencyTask(specs, ids, j) == None)
      && (plans[j].dependency.Some? ==> j > 0 && DependencyTask(specs, ids, j) == Some(ids[j - 1]))
  {
    hide Resource, LastBefore, Selected, Scan;
    var plans := Plans(items, selected, script);
    var specs := seq(|plans|, i requires 0 <= i < |plans| =>
      Spec(taskType, plans[i].resource, script, plans[i].dependency, Some(plans[i].group), Some(plans[i].index)));
    EveryDependencyIsThePlanBefore(items, selected, script);
    OnePlanPerSelectedItem(items, |items|, selected, script);
    if plans[j].dependency.Some? {
      var at := Selected(items, |items|, selected);
      LinkedAt(plans, j);
      assert IsPlanOf(plans[j - 1], items, at[j - 1], selected);
      assert specs[j - 1].resource == plans[j].dependency.value != "";
    }
  }

  /** Each spec waits for the task it was given exactly when specs with the same resource were
      given the same task. */
  lemma EveryTaskIsAwaited(specs: seq<Spec>, ids: seq<string>, wait: string -> Outcome, results: seq<BatchResult>)
    requires |specs| == |ids| && AreResults(results, specs, ids, wait)
    ensures (forall j :: 0 <= j < |specs| ==> results[j].taskId == ids[j])
       <==> (forall i, j :: 0 <= i < j < |specs| && specs[i].resource == specs[j].resource ==> ids[i] == ids[j])
  {
    hide LastBefore, ResultOf;
    forall j | 0 <= j < |specs|
      ensures var last := LastBefore(specs, |specs|, specs[j].resource);
        last.Some? && last.value >= j && results[j].taskId == ids[last.value]
    {
      AwaitsTheLast(specs, ids, wait, results, j);
    }
    if forall j :: 0 <= j < |specs| ==> results[j].taskId == ids[j] {
      forall i, j | 0 <= i < j < |specs| && specs[i].resource == specs[j].resource
        ensures ids[i] == ids[j]
      {
        assert results[i].taskId == results[j].taskId;
      }
    }
  }

  lemma AwaitsTheLast(specs: seq<Spec>, ids: seq<string>, wait: string -> Outcome, results: seq<BatchResult>, j: nat)
    requires |specs| == |ids| && AreResults(results, specs, ids, wait) && j < |specs|
    ensures var last := LastBefore(specs, |specs|, specs[j].resource);
      last.Some? && last.value >= j && results[j].taskId == ids[last.value]
  {
    assert IsResult(results[j], specs, ids, wait, j);
  }

  // ---------------------------------------------------------------- what the queue answers

  /** An active task is known by its type, resource and script (lib/db/models/task.py). */
  datatype QueueKey = QueueKey(taskType: string, resource: string, script: string)

  type ActiveTasks = map<QueueKey, string>

  function KeyOf(spec: Spec): QueueKey {
    QueueKey(spec.taskType, spec.resource, if spec.script.Some? then spec.script.value else "")
  }

  /** The same type and resource of the same script; no script is the same as an empty one. */
  predicate SameJob(a: Spec, b: Spec) {
    && a.taskType == b.taskType && a.resource == b.resource
    && (a.script == b.script || (a.script in [None, Some("")] && b.script in [None, Some("")]))
  }

  lemma SameJobSameKey(a: Spec, b: Spec)
    ensures SameJob(a, b) <==> KeyOf(a) == KeyOf(b)
  {
  }

  function StillActive(active: ActiveTasks, ended: set<string>): ActiveTasks {
    map k | k in active && active[k] !in ended :: active[k]
  }

  /** The answer of one call: the id of the active task with the same key, else the fresh one. */
  function Answer(active: ActiveTasks, spec: Spec, newIds: string): string {
    if KeyOf(spec) in active then active[KeyOf(spec)] else newIds
  }

  /** The active tasks when call `j` arrives: `ended[j]` have ended since the call before. */
  function ActiveAt(active: ActiveTasks, specs: seq<Spec>, newIds: seq<string>, ended: seq<set<string>>,
      j: nat): ActiveTasks
    requires j < |specs| == |newIds| == |ended|
  {
    if j == 0 then StillActive(active, ended[0])
    else
      var before := ActiveAt(active, specs, newIds, ended, j - 1);
      StillActive(before[KeyOf(specs[j - 1]) := Answer(before, specs[j - 1], newIds[j - 1])], ended[j])
  }

  /** The queue's answers to a batch. */
  ghost predicate AreAnswers(ids: seq<string>, active: ActiveTasks, specs: seq<Spec>, newIds: seq<string>,
      ended: seq<set<string>>)
    requires |specs| == |newIds| == |ended|
  {
    && |ids| == |specs|
    && forall j :: 0 <= j < |ids| ==> ids[j] == Answer(ActiveAt(active, specs, newIds, ended, j), specs[j], newIds[j])
  }

  /** Task ids are unique: those already active, and the new ones. */
  ghost predicate IdsAreUnique(active: ActiveTasks, newIds: seq<string>) {
    && (forall k, l :: k in active && l in active && active[k] == active[l] ==> k == l)
    && (forall k <- active :: active[k] !in newIds)
    && (forall i, j :: 0 <= i < j < |newIds| ==> newIds[i] != newIds[j])
  }

  /** The task given to spec `i` has not ended by call `j`. */
  predicate LivesUntil(ids: seq<string>, ended: seq<set<string>>, i: nat, j: nat)
    requires i < |ids| == |ended|
  {
    forall k :: i < k <= j && k < |ended| ==> ids[i] !in ended[k]
  }

  /** Of the first `j` calls the active tasks have, under its own key, exactly those that live. */
  ghost predicate FindsLiving(now: ActiveTasks, specs: seq<Spec>, ended: seq<set<string>>, ids: seq<string>,
      j: nat, m: nat)
    requires j <= |specs| == |ids| == |ended|
  {
    forall i :: 0 <= i < j ==>
      (KeyOf(specs[i]) in now && now[KeyOf(specs[i])] == ids[i] <==> LivesUntil(ids, ended, i, m))
  }

  /** No task is under two keys, and a task of the first `j` calls is under its own. */
  ghost predicate HasOwnKeys(now: ActiveTasks, specs: seq<Spec>, ids: seq<string>, j: nat)
    requires j <= |specs| == |ids|
  {
    && (forall i, k :: 0 <= i < j && k in now && now[k] == ids[i] ==> k == KeyOf(specs[i]))
    && (forall k, l :: k in now && l in now && now[k] == now[l] ==> k == l)
  }

  ghost predicate AllKnown(now: ActiveTasks, active: ActiveTasks, newIds: seq<string>, ids: seq<string>, j: nat)
    requires j <= |newIds| == |ids|
  {
    && (forall k <- now :: IsKnown(now[k], active, newIds, j))
    && (forall i :: 0 <= i < j ==> IsKnown(ids[i], active, newIds, j))
  }

  /** What the active tasks say about the first `j` calls, after the ends up to `m`. */
  ghost predicate Remembers(now: ActiveTasks, active: ActiveTasks, specs: seq<Spec>, newIds: seq<string>,
      ended: seq<set<string>>, ids: seq<string>, j: nat, m: nat)
    requires j <= |specs| == |newIds| == |ids| == |ended|
  {
    && FindsLiving(now, specs, ended, ids, j, m)
    && HasOwnKeys(now, specs, ids, j)
    && AllKnown(now, active, newIds, ids, j)
  }

  /** The id was active at first or is one of the first `j` new ones. */
  predicate IsKnown(id: string, active: ActiveTasks, newIds: seq<string>, j: nat)
    requires j <= |newIds|
  {
    id in active.Values || id in newIds[..j]
  }

  lemma NewIdIsNew(active: ActiveTasks, newIds: seq<string>, j: nat)
    requires IdsAreUnique(active, newIds) && j < |newIds|
    ensures !IsKnown(newIds[j], active, newIds, j)
    ensures forall id :: IsKnown(id, active, newIds, j + 1) <==> IsKnown(id, active, newIds, j) || id == newIds[j]
  {
    assert newIds[j] in newIds;
    assert newIds[..j + 1] == newIds[..j] + [newIds[j]];
  }

  /** A call adds its task: it finds it there, or its new id is nobody else's. */
  lemma RemembersCall(now: ActiveTasks, active: ActiveTasks, specs: seq<Spec>, newIds: seq<string>,
      ended: seq<set<string>>, ids: seq<string>, j: nat)
    requires j < |specs| == |newIds| == |ids| == |ended|
    requires Remembers(now, active, specs, newIds, ended, ids, j, j) && IdsAreUnique(active, newIds)
    requires ids[j] == Answer(now, specs[j], newIds[j])
    ensures Remembers(now[KeyOf(specs[j]) := ids[j]], active, specs, newIds, ended, ids, j + 1, j)
  {
    hide KeyOf, IsKnown, IdsAreUnique, FindsLiving, HasOwnKeys, AllKnown, IsFoundOrNew, Answer;
    NewIdIsNew(active, newIds, j);
    FoundOrNew(now, active, specs, newIds, ids, j);
    CallFindsLiving(now, specs, ended, ids, j);
    CallHasOwnKeys(now, specs, ids, j);
    CallKnows(now, active, specs, newIds, ids, j);
  }

  /** The answer is the task under the key, or an id that neither a task nor an earlier call has. */
  ghost predicate IsFoundOrNew(now: ActiveTasks, key: QueueKey, ids: seq<string>, j: nat)
    requires j < |ids|
  {
    if key in now then ids[j] == now[key]
    else (forall k <- now :: now[k] != ids[j]) && forall i :: 0 <= i < j ==> ids[i] != ids[j]
  }

  lemma FoundOrNew(now: ActiveTasks, active: ActiveTasks, specs: seq<Spec>, newIds: seq<string>, ids: seq<string>,
      j: nat)
    requires j < |specs| == |newIds| == |ids| && AllKnown(now, active, newIds, ids, j)
    requires !IsKnown(newIds[j], active, newIds, j) && ids[j] == Answer(now, specs[j], newIds[j])
    ensures IsFoundOrNew(now, KeyOf(specs[j]), ids, j)
  {
    hide KeyOf, IsKnown;
  }

  lemma CallFindsLiving(now: ActiveTasks, specs: seq<Spec>, ended: seq<set<string>>, ids: seq<string>, j: nat)
    requires j < |specs| == |ids| == |ended| && FindsLiving(now, specs, ended, ids, j, j)
    requires IsFoundOrNew(now, KeyOf(specs[j]), ids, j)
    ensures FindsLiving(now[KeyOf(specs[j]) := ids[j]], specs, ended, ids, j + 1, j)
  {
    assert LivesUntil(ids, ended, j, j);
    hide KeyOf, LivesUntil;
  }

  lemma CallHasOwnKeys(now: ActiveTasks, specs: seq<Spec>, ids: seq<string>, j: nat)
    requires j < |specs| == |ids| && HasOwnKeys(now, specs, ids, j)
    requires IsFoundOrNew(now, KeyOf(specs[j]), ids, j)
    ensures HasOwnKeys(now[KeyOf(specs[j]) := ids[j]], specs, ids, j + 1)
  {
    hide KeyOf;
  }

  lemma CallKnows(now: ActiveTasks, active: ActiveTasks, specs: seq<Spec>, newIds: seq<string>, ids: seq<string>,
      j: nat)
    requires j < |specs| == |newIds| == |ids| && AllKnown(now, active, newIds, ids, j)
    requires forall id :: IsKnown(id, active, newIds, j + 1) <==> IsKnown(id, active, newIds, j) || id == newIds[j]
    requires ids[j] == Answer(now, specs[j], newIds[j])
    ensures AllKnown(now[KeyOf(specs[j]) := ids[j]], active, newIds, ids, j + 1)
  {
    hide KeyOf, IsKnown;
    var key := KeyOf(specs[j]);
    assert key in now ==> IsKnown(now[key], active, newIds, j);
    var known := IsKnown(newIds[j], active, newIds, j);
    assert IsKnown(ids[j], active, newIds, j + 1);
    var next := now[key := ids[j]];
    forall k | k in next
      ensures IsKnown(next[k], active, newIds, j + 1)
    {
      assert k != key ==> IsKnown(now[k], active, newIds, j);
    }
  }

  /** Tasks end, and are forgotten. */
  lemma RemembersEnd(now: ActiveTasks, active: ActiveTasks, specs: seq<Spec>, newIds: seq<string>,
      ended: seq<set<string>>, ids: seq<string>, j: nat)
    requires 0 < j < |specs| == |newIds| == |ids| == |ended|
    requires Remembers(now, active, specs, newIds, ended, ids, j, j - 1)
    ensures Remembers(StillActive(now, ended[j]), active, specs, newIds, ended, ids, j, j)
  {
    hide KeyOf, IsKnown;
    forall i | 0 <= i < j
      ensures LivesUntil(ids, ended, i, j) <==> LivesUntil(ids, ended, i, j - 1) && ids[i] !in ended[j]
    {
    }
    hide LivesUntil;
  }

  lemma NothingToRemember(active: ActiveTasks, specs: seq<Spec>, newIds: seq<string>, ended: seq<set<string>>,
      ids: seq<string>)
    requires 0 < |specs| == |newIds| == |ids| == |ended| && IdsAreUnique(active, newIds)
    ensures Remembers(StillActive(active, ended[0]), active, specs, newIds, ended, ids, 0, 0)
  {
  }

  lemma {:induction false} QueueRemembers(active: ActiveTasks, specs: seq<Spec>, newIds: seq<string>,
      ended: seq<set<string>>, ids: seq<string>, j: nat)
    requires j < |specs| == |newIds| == |ended| && AreAnswers(ids, active, specs, newIds, ended)
    requires IdsAreUnique(active, newIds)
    ensures Remembers(ActiveAt(active, specs, newIds, ended, j), active, specs, newIds, ended, ids, j, j)
  {
    hide KeyOf, StillActive, Answer, Remembers, IdsAreUnique;
    if j == 0 {
      NothingToRemember(active, specs, newIds, ended, ids);
    } else {
      QueueRemembers(active, specs, newIds, ended, ids, j - 1);
      var before := ActiveAt(active, specs, newIds, ended, j - 1);
      RemembersCall(before, active, specs, newIds, ended, ids, j - 1);
      RemembersEnd(before[KeyOf(specs[j - 1]) := ids[j - 1]], active, specs, newIds, ended, ids, j);
    }
  }

  /** Two specs are given the same task exactly if their keys agree and the task of the first
      lives until the call of the second. */
  lemma SameTaskExactly(active: ActiveTasks, specs: seq<Spec>, newIds: seq<string>, ended: seq<set<string>>,
      ids: seq<string>, i: nat, j: nat)
    requires i < j < |specs| == |newIds| == |ended| && AreAnswers(ids, active, specs, newIds, ended)
    requires IdsAreUnique(active, newIds)
    ensures ids[i] == ids[j] <==> SameJob(specs[i], specs[j]) && LivesUntil(ids, ended, i, j)
  {
    SameJobSameKey(specs[i], specs[j]);
    hide KeyOf, SameJob, ActiveAt, IdsAreUnique, IsKnown, LivesUntil;
    QueueRemembers(active, specs, newIds, ended, ids, j);
    assert ids[j] == Answer(ActiveAt(active, specs, newIds, ended, j), specs[j], newIds[j]);
    NewIdIsNew(active, newIds, j);
  }

  /** Whatever tasks end while a batch is enqueued, every spec waits for its own task exactly when
      of two specs with the same resource type and script agree and the first one's task has not
      ended when the second is enqueued. */
  lemma RepeatedTasksAreAwaited(active: ActiveTasks, specs: seq<Spec>, newIds: seq<string>, ended: seq<set<string>>,
      ids: seq<string>, wait: string -> Outcome, results: seq<BatchResult>)
    requires |specs| == |newIds| == |ended| && AreAnswers(ids, active, specs, newIds, ended)
    requires IdsAreUnique(active, newIds) && AreResults(results, specs, ids, wait)
    ensures (forall j :: 0 <= j < |specs| ==> results[j].taskId == ids[j])
       <==> (forall i, j :: 0 <= i < j < |specs| && specs[i].resource == specs[j].resource ==>
               SameJob(specs[i], specs[j]) && LivesUntil(ids, ended, i, j))
  {
    hide SameJob, AreResults, IdsAreUnique, ActiveAt, LivesUntil;
    EveryTaskIsAwaited(specs, ids, wait, results);
    forall i, j | 0 <= i < j < |specs|
      ensures ids[i] == ids[j] <==> SameJob(specs[i], specs[j]) && LivesUntil(ids, ended, i, j)
    {
      SameTaskExactly(active, specs, newIds, ended, ids, i, j);
    }
  }

  /** Two specs of one resource on an idle queue: the first waits for its own task exactly if
      type and script are the same too and that task has not ended before the second call. */
  lemma SecondSpecTakesOver(a: Spec, b: Spec, first: string, second: string, gone: set<string>,
      ids: seq<string>, wait: string -> Outcome, results: seq<BatchResult>)
    requires a.resource == b.resource && first != second
    requires AreAnswers(ids, map[], [a, b], [first, second], [{}, gone])
    requires AreResults(results, [a, b], ids, wait)
    ensures results[0].taskId == ids[0] <==> SameJob(a, b) && first !in gone
  {
    SameJobSameKey(a, b);
    hide KeyOf, SameJob;
    var specs, newIds, ended := [a, b], [first, second], [{}, gone];
    var none: ActiveTasks := map[];
    assert ActiveAt(none, specs, newIds, ended, 0) == none;
    assert ids[0] == first;
    var now := ActiveAt(none, specs, newIds, ended, 1);
    assert now == StillActive(none[KeyOf(a) := first], gone);
    assert ids[1] == Answer(now, b, second);
    AwaitsTheLast(specs, ids, wait, results, 0);
    assert LastBefore(specs, 2, a.resource) == Some(1);
  }

  /** One such batch: the same scene of two scripts. */
  lemma NotEveryTaskIsAwaited(ids: seq<string>, wait: string -> Outcome, results: seq<BatchResult>)
    requires var a := Spec("storyboard", "S01", Some("a.json"), None, None, None);
      && AreAnswers(ids, map[], [a, a.(script := Some("b.json"))], ["t1", "t2"], [{}, {}])
      && AreResults(results, [a, a.(script := Some("b.json"))], ids, wait)
    ensures ids == ["t1", "t2"] && results[0].taskId == "t2"
  {
    var a := Spec("storyboard", "S01", Some("a.json"), None, None, None);
    var b := a.(script := Some("b.json"));
    assert KeyOf(a).script[0] != KeyOf(b).script[0];
    SecondSpecTakesOver(a, b, "t1", "t2", {}, ids, wait, results);
    var none: ActiveTasks := map[];
    assert ActiveAt(none, [a, b], ["t1", "t2"], [{}, {}], 0) == none;
    assert ids[0] == "t1";
    assert StillActive(none[KeyOf(a) := "t1"], {}) == map[KeyOf(a) := "t1"];
    assert ids[1] == "t2";
    AwaitsTheLast([a, b], ids, wait, results, 0);
  }

  /** No result is lost, and each is in the list its status names. */
  lemma {:induction false} ResultsAreSplit(results: seq<BatchResult>)
    ensures multiset(Where(results, true)) + multiset(Where(results, false)) == multiset(results)
    ensures forall r <- Where(results, true) :: r.status == "succeeded"
    ensures forall r <- Where(results, false) :: r.status != "succeeded"
  {
    if results != [] {
      var n := |results| - 1;
      assert results == results[..n] + [results[n]];
      ResultsAreSplit(results[..n]);
    }
  }
}
