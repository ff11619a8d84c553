/** Lists of names without repetitions, in the order in which each name first occurs. */
module FirstOccurrence {
  /** The names in order of first occurrence. */
  function Dedup(names: seq<string>): seq<string> {
    if names == [] then []
    else
      var front := Dedup(names[..|names| - 1]);
      if names[|names| - 1] in front then front else front + [names[|names| - 1]]
  }

  function Select(names: seq<string>, wanted: set<string>, inside: bool): seq<string> {
    if names == [] then []
    else
      Select(names[..|names| - 1], wanted, inside) +
      if (names[|names| - 1] in wanted) == inside then [names[|names| - 1]] else []
  }

  /** Where `name` first occurs. */
  function First(names: seq<string>, name: string): (i: nat)
    requires name in names
    ensures i < |names| && names[i] == name && name !in names[..i]
  {
    if names[0] == name then 0 else 1 + First(names[1..], name)
  }

  /** Distinct names, in the order of their first occurrence in `names`. */
  predicate InFirstOrder(part: seq<string>, names: seq<string>) {
    && (forall n <- part :: n in names)
    && forall i, k :: 0 <= i < k < |part| ==> First(names, part[i]) < First(names, part[k])
  }

  lemma {:induction false} FirstInPrefix(names: seq<string>, more: seq<string>, name: string)
    requires name in names
    ensures First(names + more, name) == First(names, name)
  {
    if names[0] != name {
      assert (names + more)[1..] == names[1..] + more;
      FirstInPrefix(names[1..], more, name);
    }
  }

  lemma OrderInLonger(part: seq<string>, names: seq<string>, more: seq<string>)
    requires InFirstOrder(part, names)
    ensures InFirstOrder(part, names + more)
  {
    hide First;
    forall n <- names
      ensures First(names + more, n) == First(names, n)
    {
      FirstInPrefix(names, more, n);
    }
  }

  lemma OneMoreInOrder(part: seq<string>, name: string, names: seq<string>)
    requires InFirstOrder(part, names) && name in names
    requires forall n <- part :: First(names, n) < First(names, name)
    ensures InFirstOrder(part + [name], names)
  {
    hide First;
  }

  lemma FirstOfNew(names: seq<string>, name: string)
    requires name !in names
    ensures First(names + [name], name) == |names|
    ensures forall n <- names :: First(names + [name], n) < |names|
  {
    assert forall i :: 0 <= i < |names| ==> (names + [name])[i] in names;
    forall n <- names
      ensures First(names + [name], n) < |names|
    {
      FirstInPrefix(names, [name], n);
    }
  }

  lemma {:induction false} DedupKeepsFirsts(names: seq<string>)
    ensures InFirstOrder(Dedup(names), names)
    ensures forall n <- names :: n in Dedup(names)
  {
    hide First;
    if names != [] {
      var front, last := names[..|names| - 1], names[|names| - 1];
      assert names == front + [last];
      DedupKeepsFirsts(front);
      OrderInLonger(Dedup(front), front, [last]);
      if last !in Dedup(front) {
        FirstOfNew(front, last);
        InOrderMeansIn(Dedup(front), front);
        hide InFirstOrder;
        OneMoreInOrder(Dedup(front), last, names);
      }
    }
  }

  lemma InOrderMeansIn(part: seq<string>, names: seq<string>)
    requires InFirstOrder(part, names)
    ensures forall n <- part :: n in names
  {
  }

  lemma LastComesLast(front: seq<string>, last: string, names: seq<string>)
    requires InFirstOrder(front + [last], names)
    ensures InFirstOrder(front, names) && last in names
    ensures forall n <- front :: n in names && First(names, n) < First(names, last)
  {
    hide First;
    var part := front + [last];
    assert forall i :: 0 <= i < |front| ==> part[i] == front[i];
    forall n <- front
      ensures n in names && First(names, n) < First(names, last)
    {
      var i :| 0 <= i < |front| && front[i] == n;
      assert part[i] == n && part[|front|] == last;
    }
  }

  lemma {:induction false} SelectKeepsOrder(part: seq<string>, names: seq<string>, wanted: set<string>, inside: bool)
    requires InFirstOrder(part, names)
    ensures InFirstOrder(Select(part, wanted, inside), names)
    ensures forall n :: n in Select(part, wanted, inside) <==> n in part && ((n in wanted) == inside)
    decreases |part|
  {
    if part != [] {
      var front, last := part[..|part| - 1], part[|part| - 1];
      assert part == front + [last];
      LastComesLast(front, last, names);
      hide InFirstOrder, First;
      SelectKeepsOrder(front, names, wanted, inside);
      if (last in wanted) == inside {
        OneMoreInOrder(Select(front, wanted, inside), last, names);
      }
    }
  }
}
