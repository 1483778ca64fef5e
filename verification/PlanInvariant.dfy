/** What every reachable state says about each project's plan, and why commands keep it. */
module PlanInvariant {
  import opened Common
  import opened Routes
  import opened Tables
  import opened PlanCommands

  // ---- the invariant ----

  ghost predicate StepsOwned(steps: seq<RoutingStep>, parts: seq<Part>) {
    forall i :: 0 <= i < |steps| ==> HasPart(parts, steps[i].partId)
  }

  predicate HasPart(parts: seq<Part>, id: nat) {
    exists j :: 0 <= j < |parts| && parts[j].id == id
  }

  /** Row ids taken so far. */
  ghost predicate StepsBelow(steps: seq<RoutingStep>, bound: nat) {
    forall i :: 0 <= i < |steps| ==> steps[i].id < bound
  }

  /** Versions are numbered upwards and the lot cites the highest, with its number. */
  ghost predicate ListsInv(plan: Plan, nextId: nat) {
    var lists := plan.lists;
    && lists != []
    && (forall i :: 0 <= i < |lists| ==> lists[i].id < nextId && WellFormedSteps(lists[i].steps))
    && (forall i :: 0 <= i < |lists| ==> StepsOwned(lists[i].steps, plan.parts))
    && (forall i :: 0 <= i < |lists| ==> StepsBelow(lists[i].steps, nextId))
    && (forall i, j :: 0 <= i < j < |lists| ==> lists[i].version < lists[j].version && lists[i].id < lists[j].id)
    && plan.lot.partsListId == lists[|lists| - 1].id
    && plan.lot.partsListVersion == lists[|lists| - 1].version
  }

  ghost predicate LotInv(plan: Plan) {
    && plan.lot.requiredQuantity == SumRequired(plan.requirements)
    && plan.lot.labelPackSize == plan.trayQuantity
    && plan.lot.name == plan.name
  }

  ghost predicate DistinctParts(parts: seq<Part>) {
    forall i, j :: 0 <= i < j < |parts| ==> parts[i].id != parts[j].id
  }

  ghost predicate RowsInv(plan: Plan, nextId: nat) {
    && DistinctParts(plan.parts)
    && (forall i :: 0 <= i < |plan.parts| ==> plan.parts[i].id < nextId)
    && (forall i, j :: 0 <= i < j < |plan.requirements| ==> plan.requirements[i].modelId != plan.requirements[j].modelId)
    && (forall i, j :: 0 <= i < j < |plan.requirements| ==> plan.requirements[i].id < plan.requirements[j].id)
    && PartsOwned(plan)
  }

  /** What release has checked and nothing can undo. */
  ghost predicate Timed(plan: Plan) {
    && plan.requirements != [] && plan.parts != []
    && forall i :: 0 <= i < |plan.parts| ==> PartTimed(plan.parts[i], CitedSteps(plan))
  }

  ghost predicate PlanInv(plan: Plan, nextId: nat) {
    && ListsInv(plan, nextId)
    && LotInv(plan)
    && RowsInv(plan, nextId)
    && (plan.status != Draft ==> Timed(plan))
  }

  ghost predicate PlansInv(s: State) {
    forall p :: p in s.plans ==> p < s.nextId && PlanInv(s.plans[p], s.nextId)
  }

  lemma PlanHolds(s: State, p: nat)
    requires PlansInv(s) && p in s.plans
    ensures p < s.nextId && PlanInv(s.plans[p], s.nextId)
  {
  }

  lemma PlanInvLater(plan: Plan, a: nat, b: nat)
    requires PlanInv(plan, a) && a <= b
    ensures PlanInv(plan, b)
  {
  }

  /** Ids in the list are distinct, so the lot's id finds the highest version itself. */
  lemma CitedIsHighest(plan: Plan, nextId: nat)
    requires ListsInv(plan, nextId)
    ensures FindList(plan.lists, plan.lot.partsListId) == Some(plan.lists[|plan.lists| - 1])
    ensures CitedSteps(plan) == plan.lists[|plan.lists| - 1].steps
  {
    var list := FindList(plan.lists, plan.lot.partsListId);
    assert plan.lists[|plan.lists| - 1] in plan.lists;
    var i :| 0 <= i < |plan.lists| && plan.lists[i] == list.value;
  }

  lemma {:induction false} HighestIsLast(lists: seq<PartsList>)
    requires lists != []
    requires forall i, j :: 0 <= i < j < |lists| ==> lists[i].version < lists[j].version
    ensures HighestVersion(lists) == lists[|lists| - 1].version
  {
    if |lists| > 1 {
      var tail := lists[1..];
      assert forall i, j :: 0 <= i < j < |tail| ==> tail[i] == lists[i + 1] && tail[j] == lists[j + 1];
      HighestIsLast(tail);
      assert lists[0].version < lists[|lists| - 1].version;
    } else {
      assert lists[1..] == [];
    }
  }

  // ---- catalog snapshots ----

  ghost predicate StepsWithin(steps: seq<RoutingStep>, lo: nat, hi: nat) {
    && (forall i :: 0 <= i < |steps| ==> lo <= steps[i].id < hi)
    && (forall i, j :: 0 <= i < j < |steps| ==> steps[i].id < steps[j].id)
    && (forall i :: 0 <= i < |steps| ==> steps[i].stepOrder >= 1 && steps[i].place.stageId != PRE_FLOOR)
  }

  ghost predicate PartsWithin(parts: seq<Part>, lo: nat, hi: nat) {
    && (forall i :: 0 <= i < |parts| ==> lo <= parts[i].id < hi)
    && (forall i, j :: 0 <= i < j < |parts| ==> parts[i].id < parts[j].id)
  }

  lemma StepsAppend(a: seq<RoutingStep>, b: seq<RoutingStep>, lo: nat, mid: nat, hi: nat)
    requires lo <= mid <= hi && StepsWithin(a, lo, mid) && StepsWithin(b, mid, hi)
    ensures StepsWithin(a + b, lo, hi)
  {
  }

  lemma PartsAppend(a: seq<Part>, b: seq<Part>, lo: nat, mid: nat, hi: nat)
    requires lo <= mid <= hi && PartsWithin(a, lo, mid) && PartsWithin(b, mid, hi)
    ensures PartsWithin(a + b, lo, hi)
  {
  }

  lemma OwnedAppend(a: seq<RoutingStep>, b: seq<RoutingStep>, pa: seq<Part>, pb: seq<Part>)
    requires StepsOwned(a, pa) && StepsOwned(b, pb)
    ensures StepsOwned(a + b, pa + pb)
  {
    forall i | 0 <= i < |a + b| ensures HasPart(pa + pb, (a + b)[i].partId) {
      if i < |a| {
        var j :| 0 <= j < |pa| && pa[j].id == a[i].partId;
        assert (pa + pb)[j].id == a[i].partId;
      } else {
        var j :| 0 <= j < |pb| && pb[j].id == b[i - |a|].partId;
        assert (pa + pb)[|pa| + j].id == b[i - |a|].partId;
      }
    }
  }

  lemma {:induction false} StepRowsWithin(raw: seq<RawStep>, index: nat, partId: nat, catalog: Catalog, id: nat)
    requires FloorStagesOnly(catalog)
    ensures var steps := StepRows(raw, index, partId, catalog, id);
            && StepsWithin(steps, id, id + |steps|)
            && forall i :: 0 <= i < |steps| ==> steps[i].partId == partId
    decreases |raw|
  {
    if raw != [] {
      if KeepsStep(raw[0], catalog) {
        StepRowsWithin(raw[1..], index + 1, partId, catalog, id + 1);
        var first := [RoutingStep(id, partId, Place(raw[0].stageId.value, raw[0].subStageId), StepOrder(raw[0], index))];
        var rest := StepRows(raw[1..], index + 1, partId, catalog, id + 1);
        StepsAppend(first, rest, id, id + 1, id + 1 + |rest|);
      } else {
        StepRowsWithin(raw[1..], index + 1, partId, catalog, id);
      }
    }
  }

  ghost predicate SnapshotInv(snapshot: Snapshot, id: nat) {
    && id <= snapshot.nextId
    && StepsWithin(snapshot.steps, id, snapshot.nextId)
    && PartsWithin(snapshot.parts, id, snapshot.nextId)
    && StepsOwned(snapshot.steps, snapshot.parts)
  }

  lemma SnapshotAppend(a: Snapshot, b: Snapshot, id: nat)
    requires SnapshotInv(a, id) && SnapshotInv(b, a.nextId)
    ensures SnapshotInv(Snapshot(a.parts + b.parts, a.steps + b.steps, b.nextId), id)
  {
    StepsAppend(a.steps, b.steps, id, a.nextId, b.nextId);
    PartsAppend(a.parts, b.parts, id, a.nextId, b.nextId);
    OwnedAppend(a.steps, b.steps, a.parts, b.parts);
  }

  lemma {:induction false} PartRowsInv(parts: seq<ModelPart>, requirementId: nat, catalog: Catalog, id: nat)
    requires FloorStagesOnly(catalog)
    ensures SnapshotInv(PartRows(parts, requirementId, catalog, id), id)
    ensures forall i :: 0 <= i < |PartRows(parts, requirementId, catalog, id).parts| ==>
              PartRows(parts, requirementId, catalog, id).parts[i].requirementId == requirementId
    decreases |parts|
  {
    if parts != [] {
      var steps := StepRows(parts[0].routing, 0, id, catalog, id + 1);
      StepRowsWithin(parts[0].routing, 0, id, catalog, id + 1);
      var part := Part(id, parts[0].code, requirementId, parts[0].planned, None, 1);
      var first := Snapshot([part], steps, id + 1 + |steps|);
      assert [part][0].id == id;
      assert StepsOwned(steps, [part]);
      assert SnapshotInv(first, id);
      PartRowsInv(parts[1..], requirementId, catalog, id + 1 + |steps|);
      SnapshotAppend(first, PartRows(parts[1..], requirementId, catalog, id + 1 + |steps|), id);
    }
  }

  ghost predicate Owned(parts: seq<Part>, requirements: seq<Requirement>) {
    forall i :: 0 <= i < |parts| ==> HasRequirement(requirements, parts[i].requirementId)
  }

  lemma {:induction false} ModelRowsInv(requirements: seq<Requirement>, catalog: Catalog, id: nat)
    requires FloorStagesOnly(catalog)
    ensures SnapshotInv(ModelRows(requirements, catalog, id), id)
    ensures Owned(ModelRows(requirements, catalog, id).parts, requirements)
    decreases |requirements|
  {
    if requirements != [] {
      var model := if requirements[0].modelId in catalog.models then catalog.models[requirements[0].modelId].parts else [];
      var first := PartRows(model, requirements[0].id, catalog, id);
      PartRowsInv(model, requirements[0].id, catalog, id);
      var rest := ModelRows(requirements[1..], catalog, first.nextId);
      ModelRowsInv(requirements[1..], catalog, first.nextId);
      SnapshotAppend(first, rest, id);
      OwnedTail(first.parts, rest.parts, requirements);
    }
  }

  lemma OwnedTail(first: seq<Part>, rest: seq<Part>, requirements: seq<Requirement>)
    requires requirements != [] && Owned(rest, requirements[1..])
    requires forall i :: 0 <= i < |first| ==> first[i].requirementId == requirements[0].id
    ensures Owned(first + rest, requirements)
  {
    forall i | 0 <= i < |first + rest| ensures HasRequirement(requirements, (first + rest)[i].requirementId) {
      if i < |first| {
        assert (first + rest)[i] == first[i];
      } else {
        assert HasRequirement(requirements[1..], rest[i - |first|].requirementId);
        var j :| 0 <= j < |requirements[1..]| && requirements[1..][j].id == rest[i - |first|].requirementId;
        assert requirements[j + 1].id == (first + rest)[i].requirementId;
      }
    }
  }

  lemma {:induction false} RequirementRowsInv(rows: seq<ModelQuantity>, id: nat)
    ensures var r := RequirementRows(rows, id);
            && |r| == |rows|
            && (forall i :: 0 <= i < |r| ==> r[i] == Requirement(id + i, rows[i].modelId, rows[i].requiredQuantity))
            && SumRequired(r) == SumQuantities(rows)
    decreases |rows|
  {
    if rows != [] {
      RequirementRowsInv(rows[1..], id + 1);
    }
  }

  /** A draft rebuilt from the catalog satisfies the plan invariant. */
  lemma RebuiltInv(plan: Plan, catalog: Catalog, rows: seq<ModelQuantity>, id: nat)
    requires FloorStagesOnly(catalog) && DistinctModels(rows) && plan.status == Draft
    requires plan.lot.labelPackSize == plan.trayQuantity && plan.lot.name == plan.name
    requires Unclashing(Rebuilt(plan, catalog, rows, id))
    ensures var rebuilt := Rebuilt(plan, catalog, rows, id);
            id <= rebuilt.lot.partsListId && PlanInv(rebuilt, rebuilt.lot.partsListId + 1)
  {
    hide ModelRows, RequirementRows, SumQuantities, Unclashing, ListsInv, RowsInv;
    var rebuilt := Rebuilt(plan, catalog, rows, id);
    RequirementRowsInv(rows, id);
    ModelRowsInv(rebuilt.requirements, catalog, id + |rows|);
    RebuiltLists(rebuilt, id + |rows|);
    RebuiltRows(rebuilt, rows, id);
  }

  lemma RebuiltLists(plan: Plan, id: nat)
    requires |plan.lists| == 1 && Unclashing(plan)
    requires plan.lot.partsListId == plan.lists[0].id && plan.lot.partsListVersion == plan.lists[0].version
    requires SnapshotInv(Snapshot(plan.parts, plan.lists[0].steps, plan.lists[0].id), id)
    ensures ListsInv(plan, plan.lists[0].id + 1)
  {
    assert CitedSteps(plan) == plan.lists[0].steps;
  }

  lemma RebuiltRows(plan: Plan, rows: seq<ModelQuantity>, id: nat)
    requires |plan.lists| == 1 && DistinctModels(rows) && |plan.requirements| == |rows|
    requires forall i :: 0 <= i < |rows| ==>
               plan.requirements[i] == Requirement(id + i, rows[i].modelId, rows[i].requiredQuantity)
    requires SnapshotInv(Snapshot(plan.parts, plan.lists[0].steps, plan.lists[0].id), id + |rows|)
    requires Owned(plan.parts, plan.requirements)
    ensures RowsInv(plan, plan.lists[0].id + 1)
  {
  }

  // ---- each command keeps it ----

  lemma CreateKeepsPlans(s: State, catalog: Catalog, code: string, name: string, product: Option<string>,
                         batchSize: Option<nat>, lotCode: Option<string>, rows: seq<ModelQuantity>)
    requires PlansInv(s) && FloorStagesOnly(catalog)
    requires CreateProject(s, catalog, code, name, product, batchSize, lotCode, rows).Ok?
    ensures PlansInv(CreateProject(s, catalog, code, name, product, batchSize, lotCode, rows).value)
  {
    hide PlansInv;
    CreatedPlan(s, catalog, code, name, product, batchSize, lotCode, rows);
    AddRebuilt(s, BlankPlan(code, name, product, batchSize, lotCode), catalog, rows);
  }

  lemma CreatedPlan(s: State, catalog: Catalog, code: string, name: string, product: Option<string>,
                    batchSize: Option<nat>, lotCode: Option<string>, rows: seq<ModelQuantity>)
    requires CreateProject(s, catalog, code, name, product, batchSize, lotCode, rows).Ok?
    ensures var plan := Rebuilt(BlankPlan(code, name, product, batchSize, lotCode), catalog, rows, s.nextId + 1);
            && DistinctModels(rows) && Unclashing(plan)
            && CreateProject(s, catalog, code, name, product, batchSize, lotCode, rows)
               == Ok(s.(plans := s.plans[s.nextId := plan], nextId := plan.lot.partsListId + 1))
  {
  }

  lemma AddRebuilt(s: State, blank: Plan, catalog: Catalog, rows: seq<ModelQuantity>)
    requires PlansInv(s) && FloorStagesOnly(catalog) && DistinctModels(rows) && blank.status == Draft
    requires blank.lot.labelPackSize == blank.trayQuantity && blank.lot.name == blank.name
    requires Unclashing(Rebuilt(blank, catalog, rows, s.nextId + 1))
    ensures var plan := Rebuilt(blank, catalog, rows, s.nextId + 1);
            PlansInv(s.(plans := s.plans[s.nextId := plan], nextId := plan.lot.partsListId + 1))
  {
    hide PlanInv;
    hide PlansInv;
    var plan := Rebuilt(blank, catalog, rows, s.nextId + 1);
    RebuiltInv(blank, catalog, rows, s.nextId + 1);
    AddPlan(s, s.(plans := s.plans[s.nextId := plan], nextId := plan.lot.partsListId + 1));
  }

  lemma AddPlan(s: State, t: State)
    requires PlansInv(s) && s.nextId < t.nextId
    requires s.nextId in t.plans && t.plans == s.plans[s.nextId := t.plans[s.nextId]]
    requires PlanInv(t.plans[s.nextId], t.nextId)
    ensures PlansInv(t)
  {
    forall p | p in t.plans ensures p < t.nextId && PlanInv(t.plans[p], t.nextId) {
      if p != s.nextId {
        PlanInvLater(s.plans[p], s.nextId, t.nextId);
      }
    }
  }

  /** Replacing one plan by another that satisfies the invariant keeps it for all. */
  lemma ReplacePlan(s: State, t: State, p: nat)
    requires PlansInv(s) && p in s.plans && s.nextId <= t.nextId
    requires p in t.plans && t.plans == s.plans[p := t.plans[p]]
    requires PlanInv(t.plans[p], t.nextId)
    ensures PlansInv(t)
  {
    forall q | q in t.plans ensures q < t.nextId && PlanInv(t.plans[q], t.nextId) {
      if q != p {
        PlanInvLater(s.plans[q], s.nextId, t.nextId);
      }
    }
  }

  lemma PatchKeepsPlans(s: State, catalog: Catalog, p: nat, version: nat, name: Option<string>,
                        product: Option<Option<string>>, batchSize: Option<nat>)
    requires PlansInv(s) && PatchProject(s, catalog, p, version, name, product, batchSize).Ok?
    ensures PlansInv(PatchProject(s, catalog, p, version, name, product, batchSize).value)
  {
    var t := PatchProject(s, catalog, p, version, name, product, batchSize).value;
    Relabelled(s.plans[p], t.plans[p], t.nextId);
    ReplacePlan(s, t, p);
  }

  /** Names, products and sizes are not what the rows hang on. */
  lemma Relabelled(a: Plan, b: Plan, nextId: nat)
    requires PlanInv(a, nextId) && a.status == b.status == Draft
    requires b.lists == a.lists && b.parts == a.parts && b.requirements == a.requirements
    requires b.lot.partsListId == a.lot.partsListId && b.lot.partsListVersion == a.lot.partsListVersion
    requires b.lot.requiredQuantity == a.lot.requiredQuantity && LotInv(b)
    ensures PlanInv(b, nextId)
  {
  }

  // ---- the same-model-set shortcut ----

  /** The shortcut test holds exactly when the two model sets are equal. */
  lemma ShortcutExact(prior: seq<Requirement>, rows: seq<ModelQuantity>)
    requires DistinctModels(rows)
    requires forall i, j :: 0 <= i < j < |prior| ==> prior[i].modelId != prior[j].modelId
    ensures SameModelSet(prior, rows)
       <==> (set i | 0 <= i < |prior| :: prior[i].modelId) == (set i | 0 <= i < |rows| :: rows[i].modelId)
  {
    var a, b := PriorIds(prior), RowIds(rows);
    IdCounts(prior, rows);
    assert a == set i | 0 <= i < |prior| :: prior[i].modelId;
    assert b == set i | 0 <= i < |rows| :: rows[i].modelId;
    if SameModelSet(prior, rows) {
      forall m | m in a ensures m in b {
        var i :| 0 <= i < |prior| && prior[i].modelId == m;
        assert HasModel(rows, prior[i].modelId);
      }
      SubsetSameSize(a, b);
    }
    if a == b {
      forall i | 0 <= i < |prior| ensures HasModel(rows, prior[i].modelId) {
        assert prior[i].modelId in a;
      }
    }
  }

  function PriorIds(prior: seq<Requirement>): set<string> {
    set i | 0 <= i < |prior| :: prior[i].modelId
  }

  function RowIds(rows: seq<ModelQuantity>): set<string> {
    set i | 0 <= i < |rows| :: rows[i].modelId
  }

  lemma IdCounts(prior: seq<Requirement>, rows: seq<ModelQuantity>)
    requires DistinctModels(rows)
    requires forall i, j :: 0 <= i < j < |prior| ==> prior[i].modelId != prior[j].modelId
    ensures |PriorIds(prior)| == |prior| && |RowIds(rows)| == |rows|
  {
    CountPrior(prior);
    CountRows(rows);
  }

  lemma {:induction false} CountPrior(prior: seq<Requirement>)
    requires forall i, j :: 0 <= i < j < |prior| ==> prior[i].modelId != prior[j].modelId
    ensures |PriorIds(prior)| == |prior|
  {
    if prior != [] {
      var last := |prior| - 1;
      CountPrior(prior[..last]);
      assert PriorIds(prior) == PriorIds(prior[..last]) + {prior[last].modelId} by {
        forall m | m in PriorIds(prior) ensures m in PriorIds(prior[..last]) + {prior[last].modelId} {
          var i :| 0 <= i < |prior| && prior[i].modelId == m;
          if i < last {
            assert prior[..last][i].modelId == m;
          }
        }
      }
    }
  }

  lemma {:induction false} CountRows(rows: seq<ModelQuantity>)
    requires DistinctModels(rows)
    ensures |RowIds(rows)| == |rows|
  {
    if rows != [] {
      var last := |rows| - 1;
      CountRows(rows[..last]);
      assert RowIds(rows) == RowIds(rows[..last]) + {rows[last].modelId} by {
        forall m | m in RowIds(rows) ensures m in RowIds(rows[..last]) + {rows[last].modelId} {
          var i :| 0 <= i < |rows| && rows[i].modelId == m;
          if i < last {
            assert rows[..last][i].modelId == m;
          }
        }
      }
    }
  }

  lemma {:induction false} SubsetSameSize(a: set<string>, b: set<string>)
    requires a <= b && |a| == |b|
    ensures a == b
  {
    if a != {} {
      var x :| x in a;
      SubsetSameSize(a - {x}, b - {x});
    }
  }
}
