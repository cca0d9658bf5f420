/** Generation of runtime filters from a hash join's equality predicate, and their assignment to a
    probe-side table scan. The physical plan is an arena: hash joins, table scans and runtime
    filters each sit in a slot of their own sequence, and every reference between them is a slot
    (a filter's NodeRef, or a filter slot in an operator's `runtimeFilterList`). */
module Planning {
  import opened Wrappers
  import opened RuntimeFilters

  /** The wait budget, in milliseconds, a table scan receives with its first runtime filter. */
  const DefaultMaxWaitTimeMs := 10000

  /** The fields of a hash join this subsystem reads or writes: its plan id, which input is the
      build side, and the filters it builds (as filter slots, in attachment order). */
  datatype HashJoin = HashJoin(id: int, rightIsBuildSide: bool, runtimeFilterList: seq<nat>)

  /** The fields of a table scan this subsystem reads or writes: its plan id, the filters that
      target it (as filter slots, in attachment order) and how long it waits for them. */
  datatype TableScan = TableScan(id: int, runtimeFilterList: seq<nat>, maxWaitTimeMs: int)

  /** The operators and filters of one physical plan. */
  datatype Plan = Plan(joins: seq<HashJoin>, scans: seq<TableScan>, filters: seq<RuntimeFilter>)

  /** Every filter in the arena is live: it has a build node, and each operator reference names an
      existing slot holding an operator with the id the reference records. */
  ghost predicate LiveFilter(p: Plan, rf: RuntimeFilter) {
    && rf.buildNode.Some?
    && rf.buildNode.value.slot < |p.joins|
    && p.joins[rf.buildNode.value.slot].id == rf.buildNode.value.id
    && (rf.targetNode.Some? ==>
          rf.targetNode.value.slot < |p.scans| && p.scans[rf.targetNode.value.slot].id == rf.targetNode.value.id)
  }

  /** Every reference in the plan points at an existing slot. */
  ghost predicate WellFormed(p: Plan) {
    && (forall j, k :: 0 <= j < |p.joins| && 0 <= k < |p.joins[j].runtimeFilterList| ==>
          p.joins[j].runtimeFilterList[k] < |p.filters|)
    && (forall s, k :: 0 <= s < |p.scans| && 0 <= k < |p.scans[s].runtimeFilterList| ==>
          p.scans[s].runtimeFilterList[k] < |p.filters|)
    && (forall f :: 0 <= f < |p.filters| ==> LiveFilter(p, p.filters[f]))
  }

  /** Filter `f` is in no operator's list. */
  ghost predicate Unlisted(p: Plan, f: nat) {
    && (forall j :: 0 <= j < |p.joins| ==> f !in p.joins[j].runtimeFilterList)
    && (forall s :: 0 <= s < |p.scans| ==> f !in p.scans[s].runtimeFilterList)
  }

  /** Assigned filter `f` is listed exactly once by its build join and exactly once by its target scan. */
  ghost predicate ListedOnce(p: Plan, f: nat)
    requires WellFormed(p) && f < |p.filters| && p.filters[f].targetNode.Some?
  {
    && multiset(p.joins[p.filters[f].buildNode.value.slot].runtimeFilterList)[f] == 1
    && multiset(p.scans[p.filters[f].targetNode.value.slot].runtimeFilterList)[f] == 1
  }

  /** The operator lists and the filters agree: a filter a join lists has that join as build node,
      and a filter a scan lists has that scan as target node; an assigned filter is listed exactly
      once by its build join and exactly once by its target scan, and an unassigned one by nobody.
      So every filter sits in at most one join's list and at most one scan's list. */
  ghost predicate Linked(p: Plan) {
    && WellFormed(p)
    && (forall j, k :: 0 <= j < |p.joins| && 0 <= k < |p.joins[j].runtimeFilterList| ==>
          p.filters[p.joins[j].runtimeFilterList[k]].buildNode == Some(NodeRef(j, p.joins[j].id)))
    && (forall s, k :: 0 <= s < |p.scans| && 0 <= k < |p.scans[s].runtimeFilterList| ==>
          p.filters[p.scans[s].runtimeFilterList[k]].targetNode == Some(NodeRef(s, p.scans[s].id)))
    && (forall f :: 0 <= f < |p.filters| ==>
          if p.filters[f].targetNode.None? then Unlisted(p, f) else ListedOnce(p, f))
  }

  /** Filter ids are pairwise distinct and none exceeds the last id handed out. */
  ghost predicate UniqueIds(p: Plan, lastID: int) {
    && (forall f :: 0 <= f < |p.filters| ==> p.filters[f].id <= lastID)
    && (forall f, g :: 0 <= f < g < |p.filters| ==> p.filters[f].id != p.filters[g].id)
  }

  /** Every filter has exactly one source column, and one target column once it is assigned and
      none before. */
  ghost predicate Shaped(p: Plan) {
    forall f :: 0 <= f < |p.filters| ==>
      && |p.filters[f].srcExprList| == 1
      && |p.filters[f].targetExprList| == (if p.filters[f].targetNode.None? then 0 else 1)
  }

  // ---------------------------------------------------------------- generation

  /** A new, unassigned filter: one source column, no target column, no target node, zero mode. */
  function NewFilter(id: int, build: NodeRef, src: Column, rfType: RuntimeFilterType): RuntimeFilter {
    RuntimeFilter(id, Some(build), [src], [], rfType, Unset, None, 0, 0)
  }

  /** One new filter per enabled type, in the order of the types, with consecutive ids from `firstID`. */
  function Generated(firstID: int, build: NodeRef, src: Column, rfTypes: seq<RuntimeFilterType>): seq<RuntimeFilter> {
    seq(|rfTypes|, i requires 0 <= i < |rfTypes| => NewFilter(firstID + i, build, src, rfTypes[i]))
  }

  /** Generation gives exactly one filter per enabled type, in the order of the types; each has the
      join as build node, the chosen column as its only source, no target column, no target node
      and the zero mode; the ids increase strictly and so are pairwise distinct. */
  lemma GeneratedFilters(firstID: int, build: NodeRef, src: Column, rfTypes: seq<RuntimeFilterType>)
    ensures var fs := Generated(firstID, build, src, rfTypes);
      && |fs| == |rfTypes|
      && (forall i :: 0 <= i < |fs| ==>
            && fs[i].rfType == rfTypes[i]
            && fs[i].buildNode == Some(build)
            && fs[i].srcExprList == [src]
            && fs[i].targetExprList == []
            && fs[i].targetNode.None?
            && fs[i].rfMode == Unset)
      && (forall i, j :: 0 <= i < j < |fs| ==> fs[i].id < fs[j].id)
  {
  }

  /** Adding generated filters keeps the plan well formed and linked, and keeps ids unique when the
      new ids follow the last id handed out. */
  lemma GenerationPreservesInvariants(p: Plan, lastID: int, b: nat, src: Column, rfTypes: seq<RuntimeFilterType>)
    requires WellFormed(p) && b < |p.joins|
    ensures var q := p.(filters := p.filters + Generated(lastID + 1, NodeRef(b, p.joins[b].id), src, rfTypes));
      && WellFormed(q)
      && (Linked(p) ==> Linked(q))
      && (UniqueIds(p, lastID) ==> UniqueIds(q, lastID + |rfTypes|))
  {
    var fs := Generated(lastID + 1, NodeRef(b, p.joins[b].id), src, rfTypes);
    var q := p.(filters := p.filters + fs);
    GeneratedFilters(lastID + 1, NodeRef(b, p.joins[b].id), src, rfTypes);
    assert forall f :: 0 <= f < |p.filters| ==> q.filters[f] == p.filters[f];
    assert forall f :: |p.filters| <= f < |q.filters| ==> q.filters[f] == fs[f - |p.filters|];
    assert WellFormed(q);
    if Linked(p) {
      AppendUnassignedKeepsLinked(p, fs);
    }
    if UniqueIds(p, lastID) {
      AppendFreshIdsKeepsUnique(p, lastID, fs);
    }
  }

  /** Appending filters whose ids count up from just past the last id handed out keeps ids unique. */
  lemma AppendFreshIdsKeepsUnique(p: Plan, lastID: int, fs: seq<RuntimeFilter>)
    requires UniqueIds(p, lastID)
    requires forall i :: 0 <= i < |fs| ==> fs[i].id == lastID + 1 + i
    ensures UniqueIds(p.(filters := p.filters + fs), lastID + |fs|)
  {
    var q := p.(filters := p.filters + fs);
    forall f | 0 <= f < |q.filters|
      ensures q.filters[f].id <= lastID + |fs|
    {
      if f >= |p.filters| {
        assert q.filters[f] == fs[f - |p.filters|];
      }
    }
    forall f, g | 0 <= f < g < |q.filters|
      ensures q.filters[f].id != q.filters[g].id
    {
      if g >= |p.filters| {
        assert q.filters[g] == fs[g - |p.filters|];
        if f >= |p.filters| {
          assert q.filters[f] == fs[f - |p.filters|];
        }
      }
    }
  }

  /** Appending unassigned filters to a linked plan keeps it linked: every list entry is an old
      slot, so no list names a new filter. */
  lemma AppendUnassignedKeepsLinked(p: Plan, fs: seq<RuntimeFilter>)
    requires Linked(p) && WellFormed(p.(filters := p.filters + fs))
    requires forall i :: 0 <= i < |fs| ==> fs[i].targetNode.None?
    ensures Linked(p.(filters := p.filters + fs))
  {
    var q := p.(filters := p.filters + fs);
    assert forall g :: 0 <= g < |p.filters| ==> q.filters[g] == p.filters[g];
    forall g | 0 <= g < |q.filters|
      ensures if q.filters[g].targetNode.None? then Unlisted(q, g) else ListedOnce(q, g)
    {
      if g >= |p.filters| {
        assert q.filters[g] == fs[g - |p.filters|];
        forall j | 0 <= j < |q.joins|
          ensures g !in q.joins[j].runtimeFilterList
        {
          assert forall k :: 0 <= k < |p.joins[j].runtimeFilterList| ==> p.joins[j].runtimeFilterList[k] < |p.filters|;
        }
        forall s | 0 <= s < |q.scans|
          ensures g !in q.scans[s].runtimeFilterList
        {
          assert forall k :: 0 <= k < |p.scans[s].runtimeFilterList| ==> p.scans[s].runtimeFilterList[k] < |p.filters|;
        }
      }
    }
  }

  /** Generated filters have one source column and no target column, so adding them keeps every
      filter shaped. */
  lemma GenerationKeepsShaped(p: Plan, firstID: int, build: NodeRef, src: Column, rfTypes: seq<RuntimeFilterType>)
    requires Shaped(p)
    ensures Shaped(p.(filters := p.filters + Generated(firstID, build, src, rfTypes)))
  {
    var fs := Generated(firstID, build, src, rfTypes);
    var q := p.(filters := p.filters + fs);
    forall f | 0 <= f < |q.filters|
      ensures |q.filters[f].srcExprList| == 1
      ensures |q.filters[f].targetExprList| == (if q.filters[f].targetNode.None? then 0 else 1)
    {
      if f < |p.filters| {
        assert q.filters[f] == p.filters[f];
      } else {
        assert q.filters[f] == fs[f - |p.filters|];
      }
    }
  }

  // ---------------------------------------------------------------- assignment

  /** The plan after filter `f` is assigned to scan `t` with target column `targetExpr`. */
  function Assigned(p: Plan, f: nat, t: nat, targetExpr: Column): Plan
    requires WellFormed(p) && f < |p.filters| && t < |p.scans|
  {
    var rf := p.filters[f];
    var scan := p.scans[t];
    var b := rf.buildNode.value.slot;
    var join := p.joins[b];
    var budget := if |scan.runtimeFilterList| == 0 then DefaultMaxWaitTimeMs else scan.maxWaitTimeMs;
    Plan(
      p.joins[b := join.(runtimeFilterList := join.runtimeFilterList + [f])],
      p.scans[t := scan.(runtimeFilterList := scan.runtimeFilterList + [f], maxWaitTimeMs := budget)],
      p.filters[f := rf.(targetNode := Some(NodeRef(t, scan.id)), targetExprList := rf.targetExprList + [targetExpr])])
  }

  /** Assignment points the filter at the scan and appends the target column, appends the filter
      once to the end of its build join's list and of the scan's list, and sets the scan's budget
      exactly when the scan had no filter before. The filter's id, type, mode, sources, build
      node and stored endpoint ids (every field but the target node and the target list), every other filter, every other join and every other scan are unchanged, and so are
      all operator ids. */
  lemma AssignEffect(p: Plan, f: nat, t: nat, targetExpr: Column)
    requires WellFormed(p) && f < |p.filters| && t < |p.scans|
    ensures var q, rf, b := Assigned(p, f, t, targetExpr), p.filters[f], p.filters[f].buildNode.value.slot;
      && |q.joins| == |p.joins| && |q.scans| == |p.scans| && |q.filters| == |p.filters|
      && q.filters[f].targetNode == Some(NodeRef(t, p.scans[t].id))
      && q.filters[f].targetExprList == rf.targetExprList + [targetExpr]
      && q.filters[f].id == rf.id && q.filters[f].rfType == rf.rfType && q.filters[f].rfMode == rf.rfMode
      && q.filters[f].srcExprList == rf.srcExprList && q.filters[f].buildNode == rf.buildNode
      && q.filters[f] == rf.(targetNode := Some(NodeRef(t, p.scans[t].id)), targetExprList := rf.targetExprList + [targetExpr])
      && q.joins[b].runtimeFilterList == p.joins[b].runtimeFilterList + [f]
      && q.scans[t].runtimeFilterList == p.scans[t].runtimeFilterList + [f]
      && (|p.scans[t].runtimeFilterList| == 0 ==> q.scans[t].maxWaitTimeMs == DefaultMaxWaitTimeMs)
      && (|p.scans[t].runtimeFilterList| != 0 ==> q.scans[t].maxWaitTimeMs == p.scans[t].maxWaitTimeMs)
      && (forall g :: 0 <= g < |p.filters| && g != f ==> q.filters[g] == p.filters[g])
      && (forall j :: 0 <= j < |p.joins| && j != b ==> q.joins[j] == p.joins[j])
      && (forall s :: 0 <= s < |p.scans| && s != t ==> q.scans[s] == p.scans[s])
      && (forall j :: 0 <= j < |p.joins| ==> q.joins[j].id == p.joins[j].id && q.joins[j].rightIsBuildSide == p.joins[j].rightIsBuildSide)
      && (forall s :: 0 <= s < |p.scans| ==> q.scans[s].id == p.scans[s].id)
  {
  }

  /** Assignment keeps the plan well formed and the filter ids unique; it keeps the plan linked when
      the filter had no target node before. */
  lemma AssignPreservesInvariants(p: Plan, f: nat, t: nat, targetExpr: Column, lastID: int)
    requires WellFormed(p) && f < |p.filters| && t < |p.scans|
    ensures var q := Assigned(p, f, t, targetExpr);
      && WellFormed(q)
      && (UniqueIds(p, lastID) ==> UniqueIds(q, lastID))
      && (Linked(p) && p.filters[f].targetNode.None? ==> Linked(q))
  {
    var q := Assigned(p, f, t, targetExpr);
    AssignKeepsWellFormed(p, f, t, targetExpr);
    if UniqueIds(p, lastID) {
      assert forall g :: 0 <= g < |q.filters| ==> q.filters[g].id == p.filters[g].id;
    }
    if Linked(p) && p.filters[f].targetNode.None? {
      AssignKeepsBackLinks(p, f, t, targetExpr);
      AssignKeepsCounts(p, f, t, targetExpr);
    }
  }

  /** Assignment keeps every reference in the plan pointing at an existing slot. */
  lemma AssignKeepsWellFormed(p: Plan, f: nat, t: nat, targetExpr: Column)
    requires WellFormed(p) && f < |p.filters| && t < |p.scans|
    ensures WellFormed(Assigned(p, f, t, targetExpr))
  {
    var q := Assigned(p, f, t, targetExpr);
    AssignEffect(p, f, t, targetExpr);
    assert forall g :: 0 <= g < |q.filters| ==> LiveFilter(q, q.filters[g]);
  }

  /** Assigning an unassigned filter keeps every list entry pointing back at its operator. */
  lemma AssignKeepsBackLinks(p: Plan, f: nat, t: nat, targetExpr: Column)
    requires Linked(p) && f < |p.filters| && t < |p.scans| && p.filters[f].targetNode.None?
    ensures var q := Assigned(p, f, t, targetExpr);
      && (forall j, k :: 0 <= j < |q.joins| && 0 <= k < |q.joins[j].runtimeFilterList| ==>
            q.joins[j].runtimeFilterList[k] < |q.filters| &&
            q.filters[q.joins[j].runtimeFilterList[k]].buildNode == Some(NodeRef(j, q.joins[j].id)))
      && (forall s, k :: 0 <= s < |q.scans| && 0 <= k < |q.scans[s].runtimeFilterList| ==>
            q.scans[s].runtimeFilterList[k] < |q.filters| &&
            q.filters[q.scans[s].runtimeFilterList[k]].targetNode == Some(NodeRef(s, q.scans[s].id)))
  {
    var q := Assigned(p, f, t, targetExpr);
    AssignEffect(p, f, t, targetExpr);
    var b := p.filters[f].buildNode.value.slot;
    forall j, k | 0 <= j < |q.joins| && 0 <= k < |q.joins[j].runtimeFilterList|
      ensures q.joins[j].runtimeFilterList[k] < |q.filters|
      ensures q.filters[q.joins[j].runtimeFilterList[k]].buildNode == Some(NodeRef(j, q.joins[j].id))
    {
      if j == b && k == |p.joins[j].runtimeFilterList| {
      } else {
        assert q.joins[j].runtimeFilterList[k] == p.joins[j].runtimeFilterList[k];
      }
    }
    forall s, k | 0 <= s < |q.scans| && 0 <= k < |q.scans[s].runtimeFilterList|
      ensures q.scans[s].runtimeFilterList[k] < |q.filters|
      ensures q.filters[q.scans[s].runtimeFilterList[k]].targetNode == Some(NodeRef(s, q.scans[s].id))
    {
      if s == t && k == |p.scans[s].runtimeFilterList| {
      } else {
        var g := p.scans[s].runtimeFilterList[k];
        assert q.scans[s].runtimeFilterList[k] == g;
        assert g != f;
      }
    }
  }

  /** Assigning an unassigned filter lists it once by its build join and once by the scan, and
      leaves how often every other filter is listed unchanged. */
  lemma AssignKeepsCounts(p: Plan, f: nat, t: nat, targetExpr: Column)
    requires Linked(p) && f < |p.filters| && t < |p.scans| && p.filters[f].targetNode.None?
    ensures WellFormed(Assigned(p, f, t, targetExpr))
    ensures var q := Assigned(p, f, t, targetExpr);
      forall g :: 0 <= g < |q.filters| ==>
        if q.filters[g].targetNode.None? then Unlisted(q, g) else ListedOnce(q, g)
  {
    var q := Assigned(p, f, t, targetExpr);
    AssignKeepsWellFormed(p, f, t, targetExpr);
    AssignEffect(p, f, t, targetExpr);
    var b := p.filters[f].buildNode.value.slot;
    forall g | 0 <= g < |q.filters|
      ensures if q.filters[g].targetNode.None? then Unlisted(q, g) else ListedOnce(q, g)
    {
      if g == f {
        assert Unlisted(p, f);
        assert f !in p.joins[b].runtimeFilterList && f !in p.scans[t].runtimeFilterList;
        assert multiset(q.joins[b].runtimeFilterList) == multiset(p.joins[b].runtimeFilterList) + multiset{f};
        assert multiset(q.scans[t].runtimeFilterList) == multiset(p.scans[t].runtimeFilterList) + multiset{f};
      } else if p.filters[g].targetNode.None? {
        assert Unlisted(p, g);
        forall j | 0 <= j < |q.joins|
          ensures g !in q.joins[j].runtimeFilterList
        {
          assert j == b ==> q.joins[j].runtimeFilterList == p.joins[j].runtimeFilterList + [f];
        }
        forall s | 0 <= s < |q.scans|
          ensures g !in q.scans[s].runtimeFilterList
        {
          assert s == t ==> q.scans[s].runtimeFilterList == p.scans[s].runtimeFilterList + [f];
        }
      } else {
        assert ListedOnce(p, g);
        var bg, tg := p.filters[g].buildNode.value.slot, p.filters[g].targetNode.value.slot;
        if bg == b {
          assert multiset(q.joins[bg].runtimeFilterList) == multiset(p.joins[bg].runtimeFilterList) + multiset{f};
        }
        if tg == t {
          assert multiset(q.scans[tg].runtimeFilterList) == multiset(p.scans[tg].runtimeFilterList) + multiset{f};
        }
      }
    }
  }

  /** Assigning an unassigned filter gives it its one target column and keeps every filter shaped. */
  lemma AssignKeepsShaped(p: Plan, f: nat, t: nat, targetExpr: Column)
    requires WellFormed(p) && Shaped(p) && f < |p.filters| && t < |p.scans| && p.filters[f].targetNode.None?
    ensures Shaped(Assigned(p, f, t, targetExpr))
  {
    AssignEffect(p, f, t, targetExpr);
  }

  /** Two filters assigned one after the other to the same scan: the scan lists both, the first
      assignment alone decides the budget, and the second leaves it as the first set it. */
  lemma SecondAssignKeepsBudget(p: Plan, f1: nat, f2: nat, t: nat, e1: Column, e2: Column)
    requires WellFormed(p) && f1 < |p.filters| && f2 < |p.filters| && t < |p.scans|
    ensures WellFormed(Assigned(p, f1, t, e1))
    ensures var q1 := Assigned(p, f1, t, e1);
      var q2 := Assigned(q1, f2, t, e2);
      && q2.scans[t].runtimeFilterList == p.scans[t].runtimeFilterList + [f1, f2]
      && q2.scans[t].maxWaitTimeMs == q1.scans[t].maxWaitTimeMs
      && q2.scans[t].maxWaitTimeMs ==
           (if |p.scans[t].runtimeFilterList| == 0 then DefaultMaxWaitTimeMs else p.scans[t].maxWaitTimeMs)
  {
    AssignPreservesInvariants(p, f1, t, e1, 0);
    var q1 := Assigned(p, f1, t, e1);
    AssignEffect(p, f1, t, e1);
    AssignEffect(q1, f2, t, e2);
    assert p.scans[t].runtimeFilterList + [f1] + [f2] == p.scans[t].runtimeFilterList + [f1, f2];
  }

  /** Nothing stops a filter from being assigned twice: assigning an unassigned filter of a linked
      plan to two scans (the same scan or two different ones) leaves it with two target columns,
      listed by both scans and twice by its build join, while it points at the second scan only,
      so the plan is no longer linked. */
  lemma AssignTwiceBreaksLinks(p: Plan, f: nat, t1: nat, t2: nat, e1: Column, e2: Column)
    requires Linked(p) && f < |p.filters| && p.filters[f].targetNode.None?
    requires t1 < |p.scans| && t2 < |p.scans|
    ensures WellFormed(Assigned(p, f, t1, e1))
    ensures var q := Assigned(Assigned(p, f, t1, e1), f, t2, e2);
      && q.filters[f].targetExprList == p.filters[f].targetExprList + [e1, e2]
      && q.filters[f].targetNode == Some(NodeRef(t2, p.scans[t2].id))
      && f in q.scans[t1].runtimeFilterList && f in q.scans[t2].runtimeFilterList
      && multiset(q.joins[p.filters[f].buildNode.value.slot].runtimeFilterList)[f] == 2
      && !Linked(q)
  {
    AssignKeepsWellFormed(p, f, t1, e1);
    var q1 := Assigned(p, f, t1, e1);
    AssignKeepsWellFormed(q1, f, t2, e2);
    AssignEffect(p, f, t1, e1);
    AssignEffect(q1, f, t2, e2);
    var q := Assigned(q1, f, t2, e2);
    var b := p.filters[f].buildNode.value.slot;
    assert Unlisted(p, f);
    assert q.joins[b].runtimeFilterList == p.joins[b].runtimeFilterList + [f] + [f];
    assert multiset(q.joins[b].runtimeFilterList) == multiset(p.joins[b].runtimeFilterList) + multiset{f, f};
    assert q.scans[t1].runtimeFilterList[|q1.scans[t1].runtimeFilterList| - 1] == f;
    assert p.filters[f].targetExprList + [e1] + [e2] == p.filters[f].targetExprList + [e1, e2];
    assert !ListedOnce(q, f);
  }

  // ---------------------------------------------------------------- the mutable plan

  /** The filter id generator of one plan: each call hands out the next integer. */
  class IDGenerator {
    var id: int

    constructor ()
      ensures id == 0
    {
      id := 0;
    }

    method GetNextID() returns (next: int)
      modifies this
      ensures id == old(id) + 1 && next == id
    {
      id := id + 1;
      next := id;
    }
  }

  /** The physical plan as it is mutated during plan construction. */
  class PhysicalPlan {
    var joins: seq<HashJoin>
    var scans: seq<TableScan>
    var filters: seq<RuntimeFilter>

    function State(): Plan
      reads this
    {
      Plan(joins, scans, filters)
    }

    ghost predicate Valid()
      reads this
    {
      WellFormed(State())
    }

    constructor (p: Plan)
      requires WellFormed(p)
      ensures Valid() && State() == p
    {
      joins, scans, filters := p.joins, p.scans, p.filters;
    }

    /** Builds one unassigned filter per enabled type from the equality predicate `left = right` of
        the join in slot `buildNode`. The build-side argument is the filters' only source column and
        the other argument's unique id is returned; each filter takes a fresh id from the generator.
        Returns the slots of the new filters, in the order of `rfTypes`. */
    method NewRuntimeFilter(rfIDGenerator: IDGenerator, left: Column, right: Column, buildNode: nat,
                            rfTypes: seq<RuntimeFilterType>)
      returns (result: seq<nat>, targetExprUniqueID: int)
      requires Valid() && buildNode < |joins|
      modifies this, rfIDGenerator
      ensures Valid()
      ensures joins == old(joins) && scans == old(scans)
      ensures old(joins[buildNode].rightIsBuildSide) ==> targetExprUniqueID == left.uniqueID
      ensures !old(joins[buildNode].rightIsBuildSide) ==> targetExprUniqueID == right.uniqueID
      ensures filters == old(filters) +
        Generated(old(rfIDGenerator.id) + 1, NodeRef(buildNode, joins[buildNode].id),
                  if joins[buildNode].rightIsBuildSide then right else left, rfTypes)
      ensures rfIDGenerator.id == old(rfIDGenerator.id) + |rfTypes|
      ensures |result| == |rfTypes| && forall i :: 0 <= i < |rfTypes| ==> result[i] == old(|filters|) + i
      ensures old(Linked(State())) ==> Linked(State())
      ensures old(UniqueIds(State(), rfIDGenerator.id)) ==> UniqueIds(State(), rfIDGenerator.id)
      ensures old(Shaped(State())) ==> Shaped(State())
    {
      var srcExpr: Column;
      if joins[buildNode].rightIsBuildSide {
        srcExpr := right;
        targetExprUniqueID := left.uniqueID;
      } else {
        srcExpr := left;
        targetExprUniqueID := right.uniqueID;
      }
      var build := NodeRef(buildNode, joins[buildNode].id);
      ghost var firstID := rfIDGenerator.id + 1;
      ghost var p := State();
      result := [];
      for i := 0 to |rfTypes|
        invariant joins == p.joins && scans == p.scans
        invariant rfIDGenerator.id == firstID - 1 + i
        invariant filters == p.filters + Generated(firstID, build, srcExpr, rfTypes[..i])
        invariant |result| == i && forall k :: 0 <= k < i ==> result[k] == |p.filters| + k
      {
        var id := rfIDGenerator.GetNextID();
        filters := filters + [NewFilter(id, build, srcExpr, rfTypes[i])];
        result := result + [|filters| - 1];
        assert Generated(firstID, build, srcExpr, rfTypes[..i + 1]) ==
          Generated(firstID, build, srcExpr, rfTypes[..i]) + [NewFilter(id, build, srcExpr, rfTypes[i])];
      }
      assert rfTypes[..|rfTypes|] == rfTypes;
      GenerationPreservesInvariants(p, firstID - 1, buildNode, srcExpr, rfTypes);
      if Shaped(p) {
        GenerationKeepsShaped(p, firstID, build, srcExpr, rfTypes);
      }
    }

    /** Assigns filter `f` to the table scan in slot `targetNode` with target column `targetExpr`. */
    method Assign(f: nat, targetNode: nat, targetExpr: Column)
      requires Valid() && f < |filters| && targetNode < |scans|
      modifies this
      ensures Valid()
      ensures State() == Assigned(old(State()), f, targetNode, targetExpr)
      ensures old(Linked(State()) && filters[f].targetNode.None?) ==> Linked(State())
      ensures old(Shaped(State()) && filters[f].targetNode.None?) ==> Shaped(State())
    {
      ghost var p := State();
      var rf := filters[f];
      rf := rf.(targetNode := Some(NodeRef(targetNode, scans[targetNode].id)));
      if |scans[targetNode].runtimeFilterList| == 0 {
        scans := scans[targetNode := scans[targetNode].(maxWaitTimeMs := DefaultMaxWaitTimeMs)];
      }
      rf := rf.(targetExprList := rf.targetExprList + [targetExpr]);
      filters := filters[f := rf];
      var b := rf.buildNode.value.slot;
      joins := joins[b := joins[b].(runtimeFilterList := joins[b].runtimeFilterList + [f])];
      scans := scans[targetNode := scans[targetNode].(runtimeFilterList := scans[targetNode].runtimeFilterList + [f])];
      AssignPreservesInvariants(p, f, targetNode, targetExpr, 0);
      if Shaped(p) && p.filters[f].targetNode.None? {
        AssignKeepsShaped(p, f, targetNode, targetExpr);
      }
    }
  }
}
