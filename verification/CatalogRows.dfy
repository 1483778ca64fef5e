/** What creating a project, or replacing its requirements, takes from the catalog. */
module CatalogRows {
  import opened Common
  import opened Text
  import opened Routes
  import opened Tables
  import opened PlanCommands
  import opened PlanInvariant
  import opened Production

  /** The parts that the models' structures name, model by model, each with its model. */
  function Structure(catalog: Catalog, rows: seq<ModelQuantity>): seq<(string, ModelPart)> {
    if rows == [] then []
    else StructureOf(rows[0].modelId, if rows[0].modelId in catalog.models then catalog.models[rows[0].modelId].parts else [])
         + Structure(catalog, rows[1..])
  }

  function StructureOf(model: string, parts: seq<ModelPart>): seq<(string, ModelPart)> {
    seq(|parts|, i requires 0 <= i < |parts| => (model, parts[i]))
  }

  /** A stored routing entry naming a configured stage, and a sub-stage only where that stage has it. */
  predicate Configured(raw: RawStep, catalog: Catalog) {
    && raw.stageId.Some? && raw.stageId.value in catalog.stages && Trim(raw.stageId.value) != ""
    && (raw.subStageId.None? || (raw.subStageId.value, raw.stageId.value) in catalog.eligible)
  }

  /** A route row stands for a stored entry: its place, and its order or else its position. */
  predicate Stands(step: RoutingStep, raw: RawStep, position: nat) {
    && raw.stageId.Some? && step.place == Place(raw.stageId.value, raw.subStageId)
    && step.stepOrder == if raw.order.Some? && raw.order.value > 0 then raw.order.value else position
  }

  ghost predicate StandsFor(step: RoutingStep, routing: seq<RawStep>, position: nat, catalog: Catalog) {
    exists k: nat :: k < |routing| && Configured(routing[k], catalog) && Stands(step, routing[k], position + k)
  }

  ghost predicate StoodFor(raw: RawStep, position: nat, steps: seq<RoutingStep>, partId: nat) {
    exists x :: x in steps && x.partId == partId && Stands(x, raw, position)
  }

  /** The part's rows are the usable stored entries: each row stands for one, and each has its row. */
  ghost predicate RoutedAs(steps: seq<RoutingStep>, partId: nat, routing: seq<RawStep>, position: nat, catalog: Catalog) {
    && (forall x :: x in steps && x.partId == partId ==> StandsFor(x, routing, position, catalog))
    && (forall k: nat :: k < |routing| && Configured(routing[k], catalog) ==>
          StoodFor(routing[k], position + k, steps, partId))
  }

  ghost predicate PartFrom(part: Part, entry: (string, ModelPart), requirements: seq<Requirement>) {
    && part.code == entry.1.code && part.planned == entry.1.planned && part.override == None && part.rowVersion == 1
    && exists r :: r in requirements && r.modelId == entry.0 && r.id == part.requirementId
  }

  /** One part per entry, in order, each under its own model's requirement, with the part's own
      routing; and no row of any other part. */
  ghost predicate PartsFrom(parts: seq<Part>, steps: seq<RoutingStep>, entries: seq<(string, ModelPart)>,
                            requirements: seq<Requirement>, catalog: Catalog) {
    && |parts| == |entries|
    && (forall j :: 0 <= j < |entries| ==> PartFrom(parts[j], entries[j], requirements))
    && (forall j :: 0 <= j < |entries| ==> RoutedAs(steps, parts[j].id, entries[j].1.routing, 1, catalog))
    && StepsOf(steps, parts)
  }

  ghost predicate StepsOf(steps: seq<RoutingStep>, parts: seq<Part>) {
    forall x :: x in steps ==> exists part :: part in parts && part.id == x.partId
  }

  /** The plan's rows are those the catalog gives for the models asked for: the requirements as
      given, the models' parts and routing in one version, and a lot that cites it. */
  ghost predicate FromCatalog(plan: Plan, catalog: Catalog, rows: seq<ModelQuantity>) {
    && |plan.requirements| == |rows|
    && (forall i :: 0 <= i < |rows| ==>
          plan.requirements[i].modelId == rows[i].modelId && plan.requirements[i].requiredQuantity == rows[i].requiredQuantity)
    && |plan.lists| == 1 && plan.lists[0].version == 1
    && PartsFrom(plan.parts, plan.lists[0].steps, Structure(catalog, rows), plan.requirements, catalog)
    && plan.lot.partsListId == plan.lists[0].id && plan.lot.partsListVersion == 1
    && plan.lot.requiredQuantity == SumQuantities(rows)
  }

  // ---- one part's routing ----

  lemma {:induction false} StepsStand(routing: seq<RawStep>, index: nat, partId: nat, catalog: Catalog, id: nat)
    ensures RoutedAs(StepRows(routing, index, partId, catalog, id), partId, routing, index + 1, catalog)
    ensures forall x :: x in StepRows(routing, index, partId, catalog, id) ==> x.partId == partId
    decreases |routing|
  {
    hide RoutedAs;
    if routing != [] {
      var kept := KeepsStep(routing[0], catalog);
      var next := if kept then id + 1 else id;
      StepsStand(routing[1..], index + 1, partId, catalog, next);
      StandsNext(StepRows(routing, index, partId, catalog, id), StepRows(routing[1..], index + 1, partId, catalog, next),
                 partId, routing, index + 1, catalog);
    } else {
      NoSteps(partId, index + 1, catalog);
    }
  }

  lemma NoSteps(partId: nat, position: nat, catalog: Catalog)
    ensures RoutedAs([], partId, [], position, catalog)
  {
  }

  lemma StandsNext(steps: seq<RoutingStep>, rest: seq<RoutingStep>, partId: nat, routing: seq<RawStep>, position: nat,
                   catalog: Catalog)
    requires routing != [] && RoutedAs(rest, partId, routing[1..], position + 1, catalog)
    requires if Configured(routing[0], catalog)
             then steps != [] && steps == [steps[0]] + rest && steps[0].partId == partId && Stands(steps[0], routing[0], position)
             else steps == rest
    ensures RoutedAs(steps, partId, routing, position, catalog)
  {
    hide Configured, Stands, StandsFor, StoodFor;
    forall x | x in steps && x.partId == partId ensures StandsFor(x, routing, position, catalog) {
      if x in rest {
        StandsLater(x, routing, position, catalog);
      } else {
        StandsFirst(x, routing, position, catalog);
      }
    }
    forall k: nat | k < |routing| && Configured(routing[k], catalog) ensures StoodFor(routing[k], position + k, steps, partId) {
      if k > 0 {
        assert routing[k] == routing[1..][k - 1];
        assert StoodFor(routing[1..][k - 1], position + 1 + (k - 1), rest, partId);
        StoodAmong(routing[k], position + k, rest, steps, partId);
      } else {
        StoodFirst(steps, routing[0], position, partId);
      }
    }
  }

  lemma StandsLater(x: RoutingStep, routing: seq<RawStep>, position: nat, catalog: Catalog)
    requires routing != [] && StandsFor(x, routing[1..], position + 1, catalog)
    ensures StandsFor(x, routing, position, catalog)
  {
    hide Configured, Stands;
    var rest := routing[1..];
    var k: nat :| k < |rest| && Configured(rest[k], catalog) && Stands(x, rest[k], position + 1 + k);
    assert routing[k + 1] == rest[k] && position + 1 + k == position + (k + 1);
  }

  lemma StandsFirst(x: RoutingStep, routing: seq<RawStep>, position: nat, catalog: Catalog)
    requires routing != [] && Configured(routing[0], catalog) && Stands(x, routing[0], position)
    ensures StandsFor(x, routing, position, catalog)
  {
    hide Configured, Stands;
    assert Stands(x, routing[0], position + 0);
  }

  lemma StoodAmong(raw: RawStep, position: nat, rest: seq<RoutingStep>, steps: seq<RoutingStep>, partId: nat)
    requires StoodFor(raw, position, rest, partId) && forall x :: x in rest ==> x in steps
    ensures StoodFor(raw, position, steps, partId)
  {
    hide Stands;
  }

  lemma StoodFirst(steps: seq<RoutingStep>, raw: RawStep, position: nat, partId: nat)
    requires steps != [] && steps[0].partId == partId && Stands(steps[0], raw, position)
    ensures StoodFor(raw, position, steps, partId)
  {
    hide Stands;
    assert steps[0] in steps;
  }

  // ---- all parts ----

  ghost predicate IdsWithin(parts: seq<Part>, lo: nat, hi: nat) {
    lo <= hi && forall part :: part in parts ==> lo <= part.id < hi
  }

  lemma PartsFromAppend(a: Snapshot, b: Snapshot, ea: seq<(string, ModelPart)>, eb: seq<(string, ModelPart)>,
                        requirements: seq<Requirement>, catalog: Catalog, lo: nat)
    requires PartsFrom(a.parts, a.steps, ea, requirements, catalog) && IdsWithin(a.parts, lo, a.nextId)
    requires PartsFrom(b.parts, b.steps, eb, requirements, catalog) && IdsWithin(b.parts, a.nextId, b.nextId)
    ensures PartsFrom(a.parts + b.parts, a.steps + b.steps, ea + eb, requirements, catalog)
    ensures IdsWithin(a.parts + b.parts, lo, b.nextId)
  {
    hide PartFrom, RoutedAs;
    var parts, steps, entries := a.parts + b.parts, a.steps + b.steps, ea + eb;
    forall j | 0 <= j < |entries| ensures RoutedAs(steps, parts[j].id, entries[j].1.routing, 1, catalog) {
      if j < |ea| {
        assert parts[j] in a.parts;
        RoutedWider(a.steps, b.steps, steps, parts[j].id, ea[j].1.routing, catalog);
      } else {
        assert parts[j] == b.parts[j - |ea|] && parts[j] in b.parts;
        RoutedWider(b.steps, a.steps, steps, parts[j].id, eb[j - |ea|].1.routing, catalog);
      }
    }
    forall x | x in steps ensures exists part :: part in parts && part.id == x.partId {
      var part :| (part in a.parts || part in b.parts) && part.id == x.partId;
      assert part in parts;
    }
  }

  lemma RoutedWider(own: seq<RoutingStep>, others: seq<RoutingStep>, steps: seq<RoutingStep>, partId: nat, routing: seq<RawStep>,
                    catalog: Catalog)
    requires RoutedAs(own, partId, routing, 1, catalog)
    requires forall x :: x in others ==> x.partId != partId
    requires forall x :: x in steps <==> x in own || x in others
    ensures RoutedAs(steps, partId, routing, 1, catalog)
  {
    hide StandsFor, Stands;
    forall k: nat | k < |routing| && Configured(routing[k], catalog) ensures StoodFor(routing[k], 1 + k, steps, partId) {
      assert StoodFor(routing[k], 1 + k, own, partId);
      var x :| x in own && x.partId == partId && Stands(x, routing[k], 1 + k);
      assert x in steps;
    }
  }

  lemma {:induction false} PartRowsFrom(parts: seq<ModelPart>, requirement: Requirement, requirements: seq<Requirement>,
                                        catalog: Catalog, id: nat)
    requires requirement in requirements
    ensures var s := PartRows(parts, requirement.id, catalog, id);
            && PartsFrom(s.parts, s.steps, StructureOf(requirement.modelId, parts), requirements, catalog)
            && IdsWithin(s.parts, id, s.nextId)
    decreases |parts|
  {
    hide PartFrom, RoutedAs, StepRows;
    if parts != [] {
      var steps := StepRows(parts[0].routing, 0, id, catalog, id + 1);
      var part := Part(id, parts[0].code, requirement.id, parts[0].planned, None, 1);
      var first := Snapshot([part], steps, id + 1 + |steps|);
      StepsStand(parts[0].routing, 0, id, catalog, id + 1);
      var entry := (requirement.modelId, parts[0]);
      FirstPartFrom(part, entry, requirement, requirements);
      OnePart(part, steps, entry, requirements, catalog);
      PartRowsFrom(parts[1..], requirement, requirements, catalog, first.nextId);
      PartsFromAppend(first, PartRows(parts[1..], requirement.id, catalog, first.nextId), [entry],
                      StructureOf(requirement.modelId, parts[1..]), requirements, catalog, id);
      assert StructureOf(requirement.modelId, parts) == [entry] + StructureOf(requirement.modelId, parts[1..]);
    }
  }

  lemma FirstPartFrom(part: Part, entry: (string, ModelPart), requirement: Requirement, requirements: seq<Requirement>)
    requires requirement in requirements && entry.0 == requirement.modelId
    requires part == Part(part.id, entry.1.code, requirement.id, entry.1.planned, None, 1)
    ensures PartFrom(part, entry, requirements)
  {
  }

  lemma OnePart(part: Part, steps: seq<RoutingStep>, entry: (string, ModelPart), requirements: seq<Requirement>, catalog: Catalog)
    requires PartFrom(part, entry, requirements) && RoutedAs(steps, part.id, entry.1.routing, 1, catalog)
    requires forall x :: x in steps ==> x.partId == part.id
    ensures PartsFrom([part], steps, [entry], requirements, catalog)
  {
    hide PartFrom, RoutedAs;
    assert part in [part];
  }

  lemma {:induction false} ModelRowsFrom(rows: seq<ModelQuantity>, requirements: seq<Requirement>, all: seq<Requirement>,
                                         catalog: Catalog, id: nat)
    requires |requirements| == |rows| && forall i :: 0 <= i < |rows| ==> requirements[i].modelId == rows[i].modelId
    requires forall r :: r in requirements ==> r in all
    ensures var s := ModelRows(requirements, catalog, id);
            && PartsFrom(s.parts, s.steps, Structure(catalog, rows), all, catalog)
            && IdsWithin(s.parts, id, s.nextId)
    decreases |rows|
  {
    hide PartsFrom, PartRows;
    if rows == [] {
      NoParts(all, catalog);
    } else {
      var model := if rows[0].modelId in catalog.models then catalog.models[rows[0].modelId].parts else [];
      var first := PartRows(model, requirements[0].id, catalog, id);
      PartRowsFrom(model, requirements[0], all, catalog, id);
      ModelRowsFrom(rows[1..], requirements[1..], all, catalog, first.nextId);
      PartsFromAppend(first, ModelRows(requirements[1..], catalog, first.nextId), StructureOf(rows[0].modelId, model),
                      Structure(catalog, rows[1..]), all, catalog, id);
    }
  }

  lemma NoParts(requirements: seq<Requirement>, catalog: Catalog)
    ensures PartsFrom([], [], [], requirements, catalog)
  {
  }

  lemma RebuiltFromCatalog(plan: Plan, catalog: Catalog, rows: seq<ModelQuantity>, id: nat)
    ensures FromCatalog(Rebuilt(plan, catalog, rows, id), catalog, rows)
  {
    hide PartsFrom, ModelRows, RequirementRows, SumQuantities;
    RequirementRowsInv(rows, id);
    var requirements := RequirementRows(rows, id);
    ModelRowsFrom(rows, requirements, requirements, catalog, id + |rows|);
  }

  // ---- when the rows clash ----

  function EntryOrder(raw: RawStep, position: nat): int {
    if raw.order.Some? && raw.order.value > 0 then raw.order.value else position
  }

  /** No two usable entries of a routing have the same order. */
  ghost predicate OrdersDiffer(routing: seq<RawStep>, position: nat, catalog: Catalog) {
    forall k: nat, l: nat :: k < l < |routing| && Configured(routing[k], catalog) && Configured(routing[l], catalog) ==>
      EntryOrder(routing[k], position + k) != EntryOrder(routing[l], position + l)
  }

  ghost predicate AllOrdersDiffer(entries: seq<(string, ModelPart)>, catalog: Catalog) {
    forall e :: e in entries ==> OrdersDiffer(e.1.routing, 1, catalog)
  }

  /** No two parts share a code, and no part's routing repeats an order. */
  ghost predicate Clashless(entries: seq<(string, ModelPart)>, catalog: Catalog) {
    && (forall i, j :: 0 <= i < j < |entries| ==> entries[i].1.code != entries[j].1.code)
    && AllOrdersDiffer(entries, catalog)
  }

  ghost predicate NewOrder(order: int, routing: seq<RawStep>, position: nat, catalog: Catalog) {
    forall l: nat :: l < |routing| && Configured(routing[l], catalog) ==> order != EntryOrder(routing[l], position + l)
  }

  lemma OrdersCons(routing: seq<RawStep>, position: nat, catalog: Catalog)
    requires routing != []
    ensures OrdersDiffer(routing, position, catalog)
       <==> && OrdersDiffer(routing[1..], position + 1, catalog)
            && (Configured(routing[0], catalog) ==> NewOrder(EntryOrder(routing[0], position), routing[1..], position + 1, catalog))
  {
    hide Configured, EntryOrder;
    var rest := routing[1..];
    forall k: nat | k < |rest| ensures rest[k] == routing[k + 1] && position + 1 + k == position + (k + 1) {
    }
    if OrdersDiffer(routing, position, catalog) {
      forall k: nat, l: nat | k < l < |rest| && Configured(rest[k], catalog) && Configured(rest[l], catalog)
        ensures EntryOrder(rest[k], position + 1 + k) != EntryOrder(rest[l], position + 1 + l)
      {
        assert Configured(routing[k + 1], catalog) && Configured(routing[l + 1], catalog);
      }
      forall l: nat | Configured(routing[0], catalog) && l < |rest| && Configured(rest[l], catalog)
        ensures EntryOrder(routing[0], position) != EntryOrder(rest[l], position + 1 + l)
      {
        assert Configured(routing[l + 1], catalog) && position + 0 == position;
      }
    } else {
      var k: nat, l: nat :| k < l < |routing| && Configured(routing[k], catalog) && Configured(routing[l], catalog)
                            && EntryOrder(routing[k], position + k) == EntryOrder(routing[l], position + l);
      assert Configured(rest[l - 1], catalog);
      if k > 0 {
        assert Configured(rest[k - 1], catalog);
      }
    }
  }

  lemma {:induction false} RoutingOrders(routing: seq<RawStep>, index: nat, partId: nat, catalog: Catalog, id: nat)
    ensures DistinctOrders(StepRows(routing, index, partId, catalog, id)) <==> OrdersDiffer(routing, index + 1, catalog)
    decreases |routing|
  {
    hide OrdersDiffer, DistinctOrders;
    if routing == [] {
      NoOrders(index + 1, catalog);
    } else {
      var kept := KeepsStep(routing[0], catalog);
      var next := if kept then id + 1 else id;
      var steps, rest := StepRows(routing, index, partId, catalog, id), StepRows(routing[1..], index + 1, partId, catalog, next);
      RoutingOrders(routing[1..], index + 1, partId, catalog, next);
      OrdersCons(routing, index + 1, catalog);
      if kept {
        StepsStand(routing[1..], index + 1, partId, catalog, next);
        RowsCons(steps[0], rest);
        SameOrders(steps[0].stepOrder, rest, partId, routing[1..], index + 2, catalog);
      }
    }
  }

  lemma NoOrders(position: nat, catalog: Catalog)
    ensures DistinctOrders([]) && OrdersDiffer([], position, catalog)
  {
  }

  lemma RowsCons(first: RoutingStep, rest: seq<RoutingStep>)
    requires forall x :: x in rest ==> x.partId == first.partId
    ensures DistinctOrders([first] + rest) <==> DistinctOrders(rest) && forall x :: x in rest ==> first.stepOrder != x.stepOrder
  {
    var all := [first] + rest;
    assert forall i :: 0 <= i < |rest| ==> all[i + 1] == rest[i];
    if DistinctOrders(all) {
      forall i, j | 0 <= i < j < |rest| ensures rest[i].partId != rest[j].partId || rest[i].stepOrder != rest[j].stepOrder {
        assert all[i + 1] == rest[i] && all[j + 1] == rest[j];
      }
      forall x | x in rest ensures first.stepOrder != x.stepOrder {
        var j :| 0 <= j < |rest| && rest[j] == x;
        assert all[0] == first && all[j + 1] == x;
      }
    }
  }

  /** The orders of a part's rows are those of its usable entries. */
  lemma SameOrders(order: int, steps: seq<RoutingStep>, partId: nat, routing: seq<RawStep>, position: nat, catalog: Catalog)
    requires RoutedAs(steps, partId, routing, position, catalog) && forall x :: x in steps ==> x.partId == partId
    ensures (forall x :: x in steps ==> order != x.stepOrder) <==> NewOrder(order, routing, position, catalog)
  {
    hide StandsFor, StoodFor, Configured, EntryOrder;
    forall x | x in steps && NewOrder(order, routing, position, catalog) ensures order != x.stepOrder {
      RowOrder(x, routing, position, catalog);
    }
    forall l: nat | l < |routing| && Configured(routing[l], catalog) ensures exists x :: x in steps && x.stepOrder == EntryOrder(routing[l], position + l) {
      EntryRow(routing[l], position + l, steps, partId);
    }
  }

  lemma RowOrder(x: RoutingStep, routing: seq<RawStep>, position: nat, catalog: Catalog)
    requires StandsFor(x, routing, position, catalog)
    ensures exists l: nat :: l < |routing| && Configured(routing[l], catalog) && x.stepOrder == EntryOrder(routing[l], position + l)
  {
    hide Configured, Stands;
    var l: nat :| l < |routing| && Configured(routing[l], catalog) && Stands(x, routing[l], position + l);
    StandsOrder(x, routing[l], position + l);
  }

  lemma EntryRow(raw: RawStep, position: nat, steps: seq<RoutingStep>, partId: nat)
    requires StoodFor(raw, position, steps, partId)
    ensures exists x :: x in steps && x.stepOrder == EntryOrder(raw, position)
  {
    var x :| x in steps && x.partId == partId && Stands(x, raw, position);
    StandsOrder(x, raw, position);
  }

  lemma StandsOrder(step: RoutingStep, raw: RawStep, position: nat)
    requires Stands(step, raw, position)
    ensures step.stepOrder == EntryOrder(raw, position)
  {
  }

  lemma OrdersAppend(a: seq<RoutingStep>, b: seq<RoutingStep>)
    requires forall x, y :: x in a && y in b ==> x.partId != y.partId
    ensures DistinctOrders(a + b) <==> DistinctOrders(a) && DistinctOrders(b)
  {
    var all := a + b;
    assert forall i :: 0 <= i < |b| ==> all[|a| + i] == b[i];
    if DistinctOrders(all) {
      forall i, j | 0 <= i < j < |a| ensures a[i].partId != a[j].partId || a[i].stepOrder != a[j].stepOrder {
        assert all[i] == a[i] && all[j] == a[j];
      }
      forall i, j | 0 <= i < j < |b| ensures b[i].partId != b[j].partId || b[i].stepOrder != b[j].stepOrder {
        assert all[|a| + i] == b[i] && all[|a| + j] == b[j];
      }
    }
  }

  lemma ApartRows(a: Snapshot, b: Snapshot, lo: nat)
    requires StepsOf(a.steps, a.parts) && StepsOf(b.steps, b.parts)
    requires IdsWithin(a.parts, lo, a.nextId) && IdsWithin(b.parts, a.nextId, b.nextId)
    ensures forall x, y :: x in a.steps && y in b.steps ==> x.partId != y.partId
  {
  }

  lemma EntriesAppend(a: seq<(string, ModelPart)>, b: seq<(string, ModelPart)>, catalog: Catalog)
    ensures AllOrdersDiffer(a + b, catalog) <==> AllOrdersDiffer(a, catalog) && AllOrdersDiffer(b, catalog)
  {
    hide OrdersDiffer;
    forall e ensures e in a + b <==> e in a || e in b {
    }
  }

  lemma {:induction false} PartOrders(parts: seq<ModelPart>, requirement: Requirement, catalog: Catalog, id: nat)
    ensures DistinctOrders(PartRows(parts, requirement.id, catalog, id).steps)
       <==> AllOrdersDiffer(StructureOf(requirement.modelId, parts), catalog)
    decreases |parts|
  {
    hide DistinctOrders, OrdersDiffer, AllOrdersDiffer, RoutedAs, PartFrom, StepRows;
    if parts == [] {
      NoOrders(0, catalog);
      NoEntries(catalog);
    } else {
      var steps := StepRows(parts[0].routing, 0, id, catalog, id + 1);
      var first := Snapshot([Part(id, parts[0].code, requirement.id, parts[0].planned, None, 1)], steps, id + 1 + |steps|);
      var rest := PartRows(parts[1..], requirement.id, catalog, first.nextId);
      var entry := (requirement.modelId, parts[0]);
      RoutingOrders(parts[0].routing, 0, id, catalog, id + 1);
      StepsStand(parts[0].routing, 0, id, catalog, id + 1);
      assert first.parts[0] in first.parts;
      PartOrders(parts[1..], requirement, catalog, first.nextId);
      PartRowsFrom(parts[1..], requirement, [requirement], catalog, first.nextId);
      ApartRows(first, rest, id);
      OrdersAppend(steps, rest.steps);
      OneEntry(entry, catalog);
      EntriesAppend([entry], StructureOf(requirement.modelId, parts[1..]), catalog);
      assert StructureOf(requirement.modelId, parts) == [entry] + StructureOf(requirement.modelId, parts[1..]);
    }
  }

  lemma {:induction false} ModelOrders(rows: seq<ModelQuantity>, requirements: seq<Requirement>, catalog: Catalog, id: nat)
    requires |requirements| == |rows| && forall i :: 0 <= i < |rows| ==> requirements[i].modelId == rows[i].modelId
    ensures DistinctOrders(ModelRows(requirements, catalog, id).steps) <==> AllOrdersDiffer(Structure(catalog, rows), catalog)
    decreases |rows|
  {
    hide DistinctOrders, OrdersDiffer, AllOrdersDiffer, RoutedAs, PartFrom, PartRows;
    if rows == [] {
      NoOrders(0, catalog);
      NoEntries(catalog);
    } else {
      var model := if rows[0].modelId in catalog.models then catalog.models[rows[0].modelId].parts else [];
      var first := PartRows(model, requirements[0].id, catalog, id);
      var rest := ModelRows(requirements[1..], catalog, first.nextId);
      PartRowsFrom(model, requirements[0], requirements, catalog, id);
      PartOrders(model, requirements[0], catalog, id);
      ModelRowsFrom(rows[1..], requirements[1..], requirements, catalog, first.nextId);
      ModelOrders(rows[1..], requirements[1..], catalog, first.nextId);
      ApartRows(first, rest, id);
      OrdersAppend(first.steps, rest.steps);
      EntriesAppend(StructureOf(rows[0].modelId, model), Structure(catalog, rows[1..]), catalog);
    }
  }

  lemma OneEntry(entry: (string, ModelPart), catalog: Catalog)
    ensures AllOrdersDiffer([entry], catalog) <==> OrdersDiffer(entry.1.routing, 1, catalog)
  {
    hide OrdersDiffer;
    assert entry in [entry];
  }

  lemma NoEntries(catalog: Catalog)
    ensures AllOrdersDiffer([], catalog)
  {
  }

  /** The rows built from the catalog violate a unique constraint exactly when two parts of the models'
      structures share a code, or two usable entries of one part's routing an order. */
  lemma ClashesExactly(plan: Plan, catalog: Catalog, rows: seq<ModelQuantity>, id: nat)
    ensures Unclashing(Rebuilt(plan, catalog, rows, id)) <==> Clashless(Structure(catalog, rows), catalog)
  {
    hide ModelRows, RequirementRows, SumQuantities, DistinctOrders, AllOrdersDiffer, PartFrom, RoutedAs;
    RequirementRowsInv(rows, id);
    var requirements := RequirementRows(rows, id);
    ModelOrders(rows, requirements, catalog, id + |rows|);
    ModelRowsFrom(rows, requirements, requirements, catalog, id + |rows|);
    var rebuilt := Rebuilt(plan, catalog, rows, id);
    SameCodes(rebuilt.parts, Structure(catalog, rows), requirements);
    assert rebuilt.lists == [rebuilt.lists[0]];
    assert CitedSteps(rebuilt) == rebuilt.lists[0].steps;
  }

  lemma SameCodes(parts: seq<Part>, entries: seq<(string, ModelPart)>, requirements: seq<Requirement>)
    requires |parts| == |entries| && forall j :: 0 <= j < |entries| ==> PartFrom(parts[j], entries[j], requirements)
    ensures DistinctCodes(parts) <==> forall i, j :: 0 <= i < j < |entries| ==> entries[i].1.code != entries[j].1.code
  {
  }

  // ---- the commands ----

  /** A new project: a draft at version 1 with the catalog's rows for the models asked for, trays of
      200 and a lot named after the code unless asked otherwise; nothing else is written. */
  lemma CreationWrites(s: State, catalog: Catalog, code: string, name: string, product: Option<string>,
                       batchSize: Option<nat>, lotCode: Option<string>, rows: seq<ModelQuantity>)
    requires CreateProject(s, catalog, code, name, product, batchSize, lotCode, rows).Ok?
    ensures var t := CreateProject(s, catalog, code, name, product, batchSize, lotCode, rows).value;
            && s.nextId in t.plans && t == s.(plans := s.plans[s.nextId := t.plans[s.nextId]], nextId := t.nextId)
            && var a := t.plans[s.nextId];
            && a.status == Draft && a.rowVersion == 1 && a.code == code && a.name == name && a.product == product
            && a.trayQuantity == a.lot.labelPackSize == (if batchSize.Some? then batchSize.value else 200)
            && a.lot.code == (if lotCode.Some? then lotCode.value else code + "-L1") && a.lot.name == name
            && FromCatalog(a, catalog, rows)
  {
    hide Rebuilt, FromCatalog, Unclashing;
    CreatedPlan(s, catalog, code, name, product, batchSize, lotCode, rows);
    RebuiltFromCatalog(BlankPlan(code, name, product, batchSize, lotCode), catalog, rows, s.nextId + 1);
    RebuiltKeeps(BlankPlan(code, name, product, batchSize, lotCode), catalog, rows, s.nextId + 1);
  }

  lemma RebuiltKeeps(plan: Plan, catalog: Catalog, rows: seq<ModelQuantity>, id: nat)
    ensures var b := Rebuilt(plan, catalog, rows, id);
            b == plan.(requirements := b.requirements, parts := b.parts, lists := b.lists, rowVersion := plan.rowVersion + 1,
                       lot := plan.lot.(partsListId := b.lot.partsListId, partsListVersion := b.lot.partsListVersion,
                                        requiredQuantity := SumQuantities(rows)))
  {
  }

  /** Every prior requirement keeps its id and model and takes the quantity given for that model. */
  ghost predicate TakesQuantities(after: seq<Requirement>, prior: seq<Requirement>, rows: seq<ModelQuantity>) {
    && |after| == |prior|
    && forall i :: 0 <= i < |prior| ==>
         && after[i].id == prior[i].id && after[i].modelId == prior[i].modelId
         && ModelQuantity(prior[i].modelId, after[i].requiredQuantity) in rows
  }

  lemma ReplacementCases(s: State, catalog: Catalog, p: nat, version: nat, rows: seq<ModelQuantity>)
    requires ReplaceRequirements(s, catalog, p, version, rows).Ok?
    ensures p in s.plans && s.plans[p].rowVersion == version && s.plans[p].status == Draft && DistinctModels(rows)
    ensures var t, a := ReplaceRequirements(s, catalog, p, version, rows).value, s.plans[p];
            if SameModelSet(a.requirements, rows) then t == s.(plans := s.plans[p := WithQuantities(a, rows)])
            else !Referenced(s, p) && var b := Rebuilt(a, catalog, rows, s.nextId);
                 t == s.(plans := s.plans[p := b], nextId := b.lot.partsListId + 1)
  {
    hide SameModelSet, DistinctModels, WithQuantities, Rebuilt, Unclashing, Referenced;
  }

  lemma ModelSets(s: State, p: nat, rows: seq<ModelQuantity>)
    requires Reachable(s) && p in s.plans && DistinctModels(rows)
    ensures SameModelSet(s.plans[p].requirements, rows)
       <==> (set r | r in s.plans[p].requirements :: r.modelId) == (set x | x in rows :: x.modelId)
  {
    hide Reachable, DistinctModels, SameModelSet, ListsInv, LotInv, Timed;
    ReachablePlan(s, p);
    var prior := s.plans[p].requirements;
    ShortcutExact(prior, rows);
    assert (set r | r in prior :: r.modelId) == set i | 0 <= i < |prior| :: prior[i].modelId;
    assert (set x | x in rows :: x.modelId) == set i | 0 <= i < |rows| :: rows[i].modelId;
  }

  lemma ShortcutWrites(plan: Plan, rows: seq<ModelQuantity>)
    requires SameModelSet(plan.requirements, rows)
    ensures var b := WithQuantities(plan, rows);
            && TakesQuantities(b.requirements, plan.requirements, rows)
            && b == plan.(requirements := b.requirements, rowVersion := plan.rowVersion + 1,
                          lot := plan.lot.(requiredQuantity := SumQuantities(rows)))
  {
    RequantifiedTakes(plan.requirements, rows);
  }

  lemma {:induction false} RequantifiedTakes(prior: seq<Requirement>, rows: seq<ModelQuantity>)
    requires forall i :: 0 <= i < |prior| ==> HasModel(rows, prior[i].modelId)
    ensures TakesQuantities(Requantified(prior, rows), prior, rows)
  {
    if prior != [] {
      assert forall i :: 0 <= i < |prior[1..]| ==> prior[1..][i] == prior[i + 1];
      RequantifiedTakes(prior[1..], rows);
      assert HasModel(rows, prior[0].modelId);
      GivenQuantity(rows, prior[0].modelId, prior[0].requiredQuantity);
      var after, rest := Requantified(prior, rows), Requantified(prior[1..], rows);
      assert after[1..] == rest;
    }
  }

  lemma {:induction false} GivenQuantity(rows: seq<ModelQuantity>, modelId: string, default: nat)
    requires HasModel(rows, modelId)
    ensures ModelQuantity(modelId, QuantityFor(rows, modelId, default)) in rows
  {
    var i :| 0 <= i < |rows| && rows[i].modelId == modelId;
    if i > 0 {
      assert rows[1..][i - 1] == rows[i];
    }
    if rows[0].modelId != modelId {
      GivenQuantity(rows[1..], modelId, default);
    }
  }

  /** What a replacement leaves: with the model set unchanged, new quantities on the rows there were;
      otherwise the project had no packs and its rows are the catalog's for the models given. */
  ghost predicate ReplacementLeaves(s: State, catalog: Catalog, p: nat, rows: seq<ModelQuantity>, t: State)
    requires p in s.plans
  {
    && p in t.plans && t == s.(plans := s.plans[p := t.plans[p]], nextId := t.nextId)
    && var a, b := s.plans[p], t.plans[p];
    && b == a.(requirements := b.requirements, parts := b.parts, lists := b.lists, rowVersion := a.rowVersion + 1,
               lot := a.lot.(partsListId := b.lot.partsListId, partsListVersion := b.lot.partsListVersion,
                             requiredQuantity := SumQuantities(rows)))
    && if (set r | r in a.requirements :: r.modelId) == (set x | x in rows :: x.modelId)
       then TakesQuantities(b.requirements, a.requirements, rows)
            && b.parts == a.parts && b.lists == a.lists && b.lot == a.lot.(requiredQuantity := SumQuantities(rows))
       else FromCatalog(b, catalog, rows) && forall x :: x in s.batches ==> x.projectId != p
  }

  /** A committed replacement found a draft at the version named, and left exactly that. */
  lemma ReplacementWrites(s: State, catalog: Catalog, p: nat, version: nat, rows: seq<ModelQuantity>)
    requires Reachable(s) && ReplaceRequirements(s, catalog, p, version, rows).Ok?
    ensures p in s.plans && s.plans[p].rowVersion == version && s.plans[p].status == Draft
    ensures ReplacementLeaves(s, catalog, p, rows, ReplaceRequirements(s, catalog, p, version, rows).value)
  {
    hide Reachable, Inv, FromCatalog, TakesQuantities, Unclashing, SameModelSet, Rebuilt, WithQuantities, DistinctModels;
    ReplacementCases(s, catalog, p, version, rows);
    ModelSets(s, p, rows);
    var a := s.plans[p];
    RebuiltKeeps(a, catalog, rows, s.nextId);
    RebuiltFromCatalog(a, catalog, rows, s.nextId);
    if SameModelSet(a.requirements, rows) {
      ShortcutWrites(a, rows);
    }
  }
}
