/** Requirement replacement, route versions, cycle times, part removal, release: each keeps
    the plan invariant. */
module PlanSteps {
  import opened Common
  import opened Routes
  import opened Tables
  import opened PlanCommands
  import opened PlanInvariant

  // ---- replacing requirements with the same models ----

  function Without(prior: seq<Requirement>, i: nat): seq<Requirement>
    requires i < |prior|
  {
    prior[..i] + prior[i + 1..]
  }

  lemma {:induction false} RequantifiedRows(prior: seq<Requirement>, rows: seq<ModelQuantity>)
    ensures |Requantified(prior, rows)| == |prior|
    ensures forall i :: 0 <= i < |prior| ==>
              Requantified(prior, rows)[i]
              == prior[i].(requiredQuantity := QuantityFor(rows, prior[i].modelId, prior[i].requiredQuantity))
  {
    if prior != [] {
      RequantifiedRows(prior[1..], rows);
    }
  }

  lemma {:induction false} SumWithout(prior: seq<Requirement>, i: nat)
    requires i < |prior|
    ensures SumRequired(prior) == prior[i].requiredQuantity + SumRequired(Without(prior, i))
  {
    if i == 0 {
      assert Without(prior, 0) == prior[1..];
    } else {
      SumWithout(prior[1..], i - 1);
      assert Without(prior, i)[1..] == Without(prior[1..], i - 1);
    }
  }

  lemma MatchFirst(prior: seq<Requirement>, rows: seq<ModelQuantity>) returns (i: nat)
    requires rows != [] && DistinctModels(rows) && SameModelSet(prior, rows)
    requires forall i, j :: 0 <= i < j < |prior| ==> prior[i].modelId != prior[j].modelId
    ensures i < |prior| && prior[i].modelId == rows[0].modelId
  {
    ShortcutExact(prior, rows);
    assert rows[0].modelId in RowIds(rows);
    assert RowIds(rows) == PriorIds(prior);
    i :| 0 <= i < |prior| && prior[i].modelId == rows[0].modelId;
  }

  lemma WithoutDistinct(prior: seq<Requirement>, i: nat)
    requires i < |prior|
    requires forall i, j :: 0 <= i < j < |prior| ==> prior[i].modelId != prior[j].modelId
    ensures forall i', j :: 0 <= i' < j < |Without(prior, i)| ==> Without(prior, i)[i'].modelId != Without(prior, i)[j].modelId
  {
  }

  /** Requantifying over the same models sums to the new total, whatever the two orders. */
  lemma {:induction false} RequantifiedSum(prior: seq<Requirement>, rows: seq<ModelQuantity>)
    requires DistinctModels(rows) && SameModelSet(prior, rows)
    requires forall i, j :: 0 <= i < j < |prior| ==> prior[i].modelId != prior[j].modelId
    ensures SumRequired(Requantified(prior, rows)) == SumQuantities(rows)
    decreases |rows|
  {
    if rows != [] {
      var i := MatchFirst(prior, rows);
      SameWithout(prior, rows, i);
      RequantifiedWithout(prior, rows, i);
      WithoutDistinct(prior, i);
      SumWithout(Requantified(prior, rows), i);
      RequantifiedSum(Without(prior, i), rows[1..]);
    }
  }

  lemma SameWithout(prior: seq<Requirement>, rows: seq<ModelQuantity>, i: nat)
    requires rows != [] && SameModelSet(prior, rows) && i < |prior| && prior[i].modelId == rows[0].modelId
    requires forall i, j :: 0 <= i < j < |prior| ==> prior[i].modelId != prior[j].modelId
    ensures SameModelSet(Without(prior, i), rows[1..])
    ensures forall k :: 0 <= k < |Without(prior, i)| ==> Without(prior, i)[k].modelId != rows[0].modelId
  {
    var fewer := Without(prior, i);
    forall k | 0 <= k < |fewer| ensures HasModel(rows[1..], fewer[k].modelId) && fewer[k].modelId != rows[0].modelId {
      var l := if k < i then k else k + 1;
      assert fewer[k] == prior[l];
      assert HasModel(rows, prior[l].modelId);
      var m :| 0 <= m < |rows| && rows[m].modelId == prior[l].modelId;
      assert m > 0 && rows[1..][m - 1] == rows[m];
    }
  }

  lemma {:induction false} QuantityTail(rows: seq<ModelQuantity>, modelId: string, a: nat, b: nat)
    requires HasModel(rows, modelId)
    ensures QuantityFor(rows, modelId, a) == QuantityFor(rows, modelId, b)
  {
    if rows[0].modelId != modelId {
      var i :| 0 <= i < |rows| && rows[i].modelId == modelId;
      assert rows[1..][i - 1].modelId == modelId;
      QuantityTail(rows[1..], modelId, a, b);
    }
  }

  lemma RequantifiedWithout(prior: seq<Requirement>, rows: seq<ModelQuantity>, i: nat)
    requires rows != [] && i < |prior| && prior[i].modelId == rows[0].modelId
    requires forall k :: 0 <= k < |Without(prior, i)| ==> Without(prior, i)[k].modelId != rows[0].modelId
    ensures |Requantified(prior, rows)| == |prior|
    ensures Without(Requantified(prior, rows), i) == Requantified(Without(prior, i), rows[1..])
    ensures Requantified(prior, rows)[i].requiredQuantity == rows[0].requiredQuantity
  {
    var fewer := Without(prior, i);
    RequantifiedRows(prior, rows);
    RequantifiedRows(fewer, rows[1..]);
    var a, b := Without(Requantified(prior, rows), i), Requantified(fewer, rows[1..]);
    forall k | 0 <= k < |fewer| ensures a[k] == b[k] {
      var l := if k < i then k else k + 1;
      assert a[k] == Requantified(prior, rows)[l] && fewer[k] == prior[l];
    }
  }

  lemma QuantitiesKeepLists(plan: Plan, rows: seq<ModelQuantity>, nextId: nat)
    requires ListsInv(plan, nextId)
    ensures ListsInv(WithQuantities(plan, rows), nextId)
  {
    hide Requantified, SumQuantities, WellFormedSteps, StepsOwned, StepsBelow;
  }

  lemma QuantitiesKeepRows(plan: Plan, rows: seq<ModelQuantity>, nextId: nat)
    requires RowsInv(plan, nextId) && DistinctModels(rows)
    ensures RowsInv(WithQuantities(plan, rows), nextId)
  {
    hide Requantified, SumQuantities;
    var b := WithQuantities(plan, rows);
    RequantifiedRows(plan.requirements, rows);
    forall i | 0 <= i < |b.parts| ensures HasRequirement(b.requirements, b.parts[i].requirementId) {
      assert HasRequirement(plan.requirements, plan.parts[i].requirementId);
      var j :| 0 <= j < |plan.requirements| && plan.requirements[j].id == plan.parts[i].requirementId;
      assert b.requirements[j].id == plan.requirements[j].id;
    }
  }

  lemma QuantitiesInv(plan: Plan, rows: seq<ModelQuantity>, nextId: nat)
    requires PlanInv(plan, nextId) && plan.status == Draft
    requires DistinctModels(rows) && SameModelSet(plan.requirements, rows)
    ensures PlanInv(WithQuantities(plan, rows), nextId)
  {
    hide ListsInv, DistinctParts, PartsOwned;
    RequantifiedSum(plan.requirements, rows);
    QuantitiesKeepLists(plan, rows, nextId);
    QuantitiesKeepRows(plan, rows, nextId);
  }

  lemma ReplaceKeepsPlans(s: State, catalog: Catalog, p: nat, version: nat, rows: seq<ModelQuantity>)
    requires PlansInv(s) && FloorStagesOnly(catalog)
    requires ReplaceRequirements(s, catalog, p, version, rows).Ok?
    ensures PlansInv(ReplaceRequirements(s, catalog, p, version, rows).value)
  {
    hide PlansInv;
    PlanHolds(s, p);
    if SameModelSet(s.plans[p].requirements, rows) {
      QuantitiesInv(s.plans[p], rows, s.nextId);
    } else {
      RebuiltInv(s.plans[p], catalog, rows, s.nextId);
    }
    ReplacePlan(s, ReplaceRequirements(s, catalog, p, version, rows).value, p);
  }

  // ---- route versions ----

  lemma InputRowsInv(plan: Plan, catalog: Catalog, steps: seq<StepInput>, id: nat)
    requires FloorStagesOnly(catalog) && CheckSteps(plan, catalog, steps).None?
    requires forall i :: 0 <= i < |steps| ==> steps[i].stepOrder >= 1
    ensures WellFormedSteps(InputRows(steps, id)) && StepsOwned(InputRows(steps, id), plan.parts)
    ensures StepsBelow(InputRows(steps, id), id + |steps| + 1)
  {
    var rows := InputRows(steps, id);
    forall i | 0 <= i < |rows| ensures HasPart(plan.parts, rows[i].partId) {
      var part := FindPart(plan.parts, steps[i].partId).value;
      var j :| 0 <= j < |plan.parts| && plan.parts[j] == part;
    }
  }

  lemma AddVersion(a: Plan, list: PartsList, rowVersion: nat, n: nat, nextId: nat)
    requires PlanInv(a, n) && a.status == Draft && n <= list.id < nextId
    requires list.version == HighestVersion(a.lists) + 1
    requires WellFormedSteps(list.steps) && StepsOwned(list.steps, a.parts) && StepsBelow(list.steps, nextId)
    ensures PlanInv(a.(lists := a.lists + [list], rowVersion := rowVersion,
                       lot := a.lot.(partsListId := list.id, partsListVersion := list.version)), nextId)
  {
    hide WellFormedSteps, StepsOwned, RowsInv, LotInv;
    AddedLists(a, list, n, nextId, rowVersion);
    LabelsKeepLot(a, list, rowVersion);
    RowsLater(a, list, rowVersion, n, nextId);
  }

  ghost function Cited(a: Plan, list: PartsList, rowVersion: nat): Plan {
    a.(lists := a.lists + [list], rowVersion := rowVersion,
       lot := a.lot.(partsListId := list.id, partsListVersion := list.version))
  }

  lemma LabelsKeepLot(a: Plan, list: PartsList, rowVersion: nat)
    requires LotInv(a)
    ensures LotInv(Cited(a, list, rowVersion))
  {
  }

  lemma RowsLater(a: Plan, list: PartsList, rowVersion: nat, n: nat, nextId: nat)
    requires RowsInv(a, n) && n <= nextId
    ensures RowsInv(Cited(a, list, rowVersion), nextId)
  {
  }

  lemma AddedLists(a: Plan, list: PartsList, n: nat, nextId: nat, rowVersion: nat)
    requires ListsInv(a, n) && n <= list.id < nextId && list.version == HighestVersion(a.lists) + 1
    requires WellFormedSteps(list.steps) && StepsOwned(list.steps, a.parts) && StepsBelow(list.steps, nextId)
    ensures ListsInv(Cited(a, list, rowVersion), nextId)
  {
    hide WellFormedSteps, StepsOwned, HighestVersion;
    HighestIsLast(a.lists);
    assert forall i :: 0 <= i < |a.lists| ==> a.lists[i].version <= a.lists[|a.lists| - 1].version;
  }

  lemma RouteVersionPlan(plan: Plan, catalog: Catalog, steps: seq<StepInput>, n: nat)
    requires PlanInv(plan, n) && plan.status == Draft && FloorStagesOnly(catalog)
    requires CheckSteps(plan, catalog, steps).None?
    requires forall i :: 0 <= i < |steps| ==> steps[i].stepOrder >= 1
    ensures PlanInv(WithVersion(plan, steps, n), n + |steps| + 1)
  {
    hide PlanInv, CheckSteps, InputRows, HighestVersion, WellFormedSteps, StepsOwned, StepsBelow;
    InputRowsInv(plan, catalog, steps, n);
    var list := PartsList(n + |steps|, HighestVersion(plan.lists) + 1, InputRows(steps, n));
    AddVersion(plan, list, plan.rowVersion + 1, n, n + |steps| + 1);
  }

  lemma RouteVersionKeepsPlans(s: State, catalog: Catalog, p: nat, version: nat, steps: seq<StepInput>)
    requires PlansInv(s) && FloorStagesOnly(catalog)
    requires CreateRouteVersion(s, catalog, p, version, steps).Ok?
    ensures PlansInv(CreateRouteVersion(s, catalog, p, version, steps).value)
  {
    hide PlansInv;
    hide PlanInv;
    PlanHolds(s, p);
    RouteVersionPlan(s.plans[p], catalog, steps, s.nextId);
    ReplacePlan(s, CreateRouteVersion(s, catalog, p, version, steps).value, p);
  }

  // ---- parts ----

  lemma UpdateKeepsOwned(steps: seq<RoutingStep>, parts: seq<Part>, part: Part)
    requires StepsOwned(steps, parts)
    ensures StepsOwned(steps, UpdatePart(parts, part))
  {
    forall i | 0 <= i < |steps| ensures HasPart(UpdatePart(parts, part), steps[i].partId) {
      var j :| 0 <= j < |parts| && parts[j].id == steps[i].partId;
      assert UpdatePart(parts, part)[j].id == parts[j].id;
    }
  }

  lemma UpdatedRows(a: Plan, part: Part, found: Part, nextId: nat)
    requires RowsInv(a, nextId) && FindPart(a.parts, part.id) == Some(found) && found.requirementId == part.requirementId
    ensures RowsInv(a.(parts := UpdatePart(a.parts, part)), nextId)
  {
    var parts := UpdatePart(a.parts, part);
    var k :| 0 <= k < |a.parts| && a.parts[k] == found;
    forall i | 0 <= i < |parts| ensures parts[i].id == a.parts[i].id && HasRequirement(a.requirements, parts[i].requirementId) {
      assert i != k ==> a.parts[i].id != part.id;
      assert HasRequirement(a.requirements, a.parts[i].requirementId);
    }
  }

  lemma UpdatedLists(a: Plan, part: Part, nextId: nat)
    requires ListsInv(a, nextId)
    ensures ListsInv(a.(parts := UpdatePart(a.parts, part)), nextId)
  {
    forall i | 0 <= i < |a.lists| ensures StepsOwned(a.lists[i].steps, UpdatePart(a.parts, part)) {
      UpdateKeepsOwned(a.lists[i].steps, a.parts, part);
    }
  }

  lemma OverridePlan(a: Plan, part: Part, times: Option<CycleTimes>, nextId: nat)
    requires PlanInv(a, nextId) && a.status == Draft && FindPart(a.parts, part.id) == Some(part)
    ensures PlanInv(WithOverride(a, part, times), nextId)
  {
    hide ListsInv, RowsInv, UpdatePart;
    var updated := part.(override := times, rowVersion := part.rowVersion + 1);
    UpdatedRows(a, updated, part, nextId);
    UpdatedLists(a, updated, nextId);
  }

  lemma OverrideKeepsPlans(s: State, p: nat, partId: nat, version: nat, times: Option<CycleTimes>)
    requires PlansInv(s) && OverrideCycleTimes(s, p, partId, version, times).Ok?
    ensures PlansInv(OverrideCycleTimes(s, p, partId, version, times).value)
  {
    hide PlansInv;
    hide PlanInv;
    PlanHolds(s, p);
    OverridePlan(s.plans[p], FindPart(s.plans[p].parts, partId).value, times, s.nextId);
    ReplacePlan(s, OverrideCycleTimes(s, p, partId, version, times).value, p);
  }

  lemma {:induction false} WithoutPartRows(steps: seq<RoutingStep>, partId: nat)
    requires WellFormedSteps(steps)
    ensures WellFormedSteps(WithoutPart(steps, partId))
    ensures forall x :: x in WithoutPart(steps, partId) ==> x in steps && x.partId != partId
  {
    if steps != [] {
      var tail := steps[1..];
      assert steps == [steps[0]] + tail;
      assert forall i :: 0 <= i < |tail| ==> tail[i] == steps[i + 1];
      WithoutPartRows(tail, partId);
      var rest := WithoutPart(tail, partId);
      forall j | 0 <= j < |rest| ensures rest[j].id != steps[0].id
        && (rest[j].partId != steps[0].partId || rest[j].stepOrder != steps[0].stepOrder)
      {
        assert rest[j] in tail;
        var k :| 0 <= k < |tail| && tail[k] == rest[j];
        assert steps[k + 1] == rest[j];
      }
      ConsWellFormed(steps[0], rest);
    }
  }

  lemma ConsWellFormed(x: RoutingStep, rest: seq<RoutingStep>)
    requires WellFormedSteps(rest) && x.stepOrder >= 1 && x.place.stageId != PRE_FLOOR
    requires forall j :: 0 <= j < |rest| ==> rest[j].id != x.id
    requires forall j :: 0 <= j < |rest| ==> rest[j].partId != x.partId || rest[j].stepOrder != x.stepOrder
    ensures WellFormedSteps([x] + rest)
  {
  }

  lemma {:induction false} DropPartRows(parts: seq<Part>, partId: nat, x: Part)
    ensures x in DropPart(parts, partId) <==> x in parts && x.id != partId
  {
    if parts != [] {
      assert parts == [parts[0]] + parts[1..];
      DropPartRows(parts[1..], partId, x);
    }
  }

  lemma {:induction false} DropPartDistinct(parts: seq<Part>, partId: nat)
    requires DistinctParts(parts)
    ensures DistinctParts(DropPart(parts, partId))
  {
    if parts != [] {
      var tail := parts[1..];
      DropPartDistinct(tail, partId);
      var rest := DropPart(tail, partId);
      forall j | 0 <= j < |rest| ensures rest[j].id != parts[0].id {
        DropPartRows(tail, partId, rest[j]);
        var k :| 0 <= k < |tail| && tail[k] == rest[j];
        assert parts[k + 1] == rest[j];
      }
    }
  }

  lemma StrippedOwned(steps: seq<RoutingStep>, parts: seq<Part>, partId: nat)
    requires WellFormedSteps(steps) && StepsOwned(steps, parts)
    ensures StepsOwned(WithoutPart(steps, partId), DropPart(parts, partId))
  {
    WithoutPartRows(steps, partId);
    var kept := WithoutPart(steps, partId);
    forall i | 0 <= i < |kept| ensures HasPart(DropPart(parts, partId), kept[i].partId) {
      assert kept[i] in steps;
      var k :| 0 <= k < |steps| && steps[k] == kept[i];
      assert HasPart(parts, steps[k].partId);
      var j :| 0 <= j < |parts| && parts[j].id == kept[i].partId;
      DropPartRows(parts, partId, parts[j]);
      var m :| 0 <= m < |DropPart(parts, partId)| && DropPart(parts, partId)[m] == parts[j];
    }
  }

  lemma StrippedLists(a: Plan, partId: nat, nextId: nat)
    requires ListsInv(a, nextId)
    ensures ListsInv(PlanWithout(a, partId), nextId)
  {
    hide WellFormedSteps, StepsOwned, StepsBelow, DropPart, WithoutPart;
    var lists := StripLists(a.lists, partId);
    forall i | 0 <= i < |lists|
      ensures WellFormedSteps(lists[i].steps) && StepsOwned(lists[i].steps, DropPart(a.parts, partId))
      ensures StepsBelow(lists[i].steps, nextId)
    {
      WithoutPartRows(a.lists[i].steps, partId);
      StrippedOwned(a.lists[i].steps, a.parts, partId);
      StrippedBelow(a.lists[i].steps, partId, nextId);
    }
  }

  lemma StrippedBelow(steps: seq<RoutingStep>, partId: nat, bound: nat)
    requires WellFormedSteps(steps) && StepsBelow(steps, bound)
    ensures StepsBelow(WithoutPart(steps, partId), bound)
  {
    WithoutPartRows(steps, partId);
    var kept := WithoutPart(steps, partId);
    forall i | 0 <= i < |kept| ensures kept[i].id < bound {
      assert kept[i] in steps;
      var k :| 0 <= k < |steps| && steps[k] == kept[i];
    }
  }

  lemma StrippedRows(a: Plan, partId: nat, nextId: nat)
    requires RowsInv(a, nextId)
    ensures RowsInv(PlanWithout(a, partId), nextId)
  {
    var b := PlanWithout(a, partId);
    DropPartDistinct(a.parts, partId);
    forall i | 0 <= i < |b.parts| ensures b.parts[i].id < nextId && HasRequirement(b.requirements, b.parts[i].requirementId) {
      DropPartRows(a.parts, partId, b.parts[i]);
      var k :| 0 <= k < |a.parts| && a.parts[k] == b.parts[i];
      assert HasRequirement(a.requirements, a.parts[k].requirementId);
    }
  }

  lemma PlanWithoutInv(a: Plan, partId: nat, nextId: nat)
    requires PlanInv(a, nextId) && a.status == Draft
    ensures PlanInv(PlanWithout(a, partId), nextId)
  {
    StrippedLists(a, partId, nextId);
    StrippedRows(a, partId, nextId);
  }

  lemma RemoveKeepsPlans(s: State, p: nat, partId: nat, version: nat)
    requires PlansInv(s) && RemovePart(s, p, partId, version).Ok?
    ensures PlansInv(RemovePart(s, p, partId, version).value)
  {
    hide PlansInv;
    hide PlanInv;
    PlanHolds(s, p);
    PlanWithoutInv(s.plans[p], partId, s.nextId);
    ReplacePlan(s, RemovePart(s, p, partId, version).value, p);
  }

  // ---- release and completion ----

  lemma ReleaseKeepsPlans(s: State, p: nat, version: nat, before: (string, string) -> bool)
    requires PlansInv(s) && ReleaseProject(s, p, version, before).Ok?
    ensures PlansInv(ReleaseProject(s, p, version, before).value)
  {
    hide PlansInv;
    hide PlanInv;
    PlanHolds(s, p);
    var t := ReleaseProject(s, p, version, before).value;
    Restamped(s.plans[p], Released, s.plans[p].rowVersion + 1, s.nextId);
    ReplacePlan(s, t, p);
  }

  lemma Restamped(a: Plan, status: ProjectStatus, rowVersion: nat, nextId: nat)
    requires PlanInv(a, nextId)
    requires a.status != Draft || CheckRelease(a).None?
    ensures PlanInv(a.(status := status, rowVersion := rowVersion), nextId)
  {
    var b := a.(status := status, rowVersion := rowVersion);
    assert CitedSteps(b) == CitedSteps(a);
    if a.status == Draft {
      forall i | 0 <= i < |b.parts| ensures PartTimed(b.parts[i], CitedSteps(b)) {
        assert PartTimed(a.parts[i], CitedSteps(a));
      }
    }
  }

  lemma CompleteKeepsPlans(s: State, p: nat, version: nat)
    requires PlansInv(s) && CompleteProject(s, p, version).Ok?
    ensures PlansInv(CompleteProject(s, p, version).value)
  {
    hide PlansInv;
    hide PlanInv;
    PlanHolds(s, p);
    var t := CompleteProject(s, p, version).value;
    Restamped(s.plans[p], Completed, s.plans[p].rowVersion + 1, s.nextId);
    ReplacePlan(s, t, p);
  }
}
