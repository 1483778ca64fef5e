/** When each command commits, said of the tables alone: nothing else stops it, and nothing less will do. */
module CommandGuards {
  import opened Common
  import opened Text
  import opened Routes
  import opened Tables
  import opened Minting
  import opened FloorCommands
  import opened PlanCommands
  import opened FloorInvariant
  import opened FloorSteps
  import opened PlanInvariant
  import opened Production
  import opened Finishing
  import opened ReadGate
  import opened CommandFacts
  import opened CatalogRows

  // ---- the floor ----

  /** The newest verdict where the pack stands is a pass, and its scans or its route name that place. */
  ghost predicate MayLeave(s: State, b: nat)
    requires b < |s.batches| && s.batches[b].projectId in s.plans
  {
    && Cleared(s.inspections, s.decisions, b, s.batches[b].place)
    && (AcceptedOf(s.events, b) != [] || exists x :: x in RouteOf(s, b) && x.place == s.batches[b].place)
  }

  lemma HopExactly(s: State, b: nat)
    requires b < |s.batches| && BatchInv(s, b)
    ensures HopPassed(s, b, RouteOf(s, b)) <==> MayLeave(s, b)
  {
    hide BatchInv, HopPassed, GateVerdict, Cleared;
    InProjectPlan(s, b);
    if AcceptedOf(s.events, b) != [] {
      HopOpensExactly(s, b);
    } else {
      UnscannedHop(s, b);
      ClearedIs(s.inspections, s.decisions, b, s.batches[b].place);
    }
  }

  lemma InProjectPlan(s: State, b: nat)
    requires b < |s.batches| && BatchInv(s, b)
    ensures s.batches[b].projectId in s.plans
  {
  }

  /** A scan is recorded exactly for a live pack with a step left and the part scanned, if any; and,
      at that step's place, only from the pre-floor or from a place it may leave. */
  lemma ScanCommitsExactly(s: State, c: Scan)
    requires Reachable(s)
    ensures RecordScan(s, c).Ok?
       <==> && c.batchId < |s.batches| && s.batches[c.batchId].projectId in s.plans
            && var pack, k, route := s.batches[c.batchId], |AcceptedOf(s.events, c.batchId)|, RouteOf(s, c.batchId);
            && k < |route| && (pack.status == Active || pack.status == Planned)
            && (c.partId.None? || c.partId == Some(pack.partId))
            && (c.place == route[k].place ==> pack.place.stageId == "STG-PROJECTS" || MayLeave(s, c.batchId))
  {
    hide Reachable, BatchInv, HopPassed, MayLeave, Block, Advance, Issue, RecordScan;
    if c.batchId < |s.batches| {
      ReachablePack(s, c.batchId);
      InProjectPlan(s, c.batchId);
      HopExactly(s, c.batchId);
      ScanGuard(s, c);
    } else {
      UnknownPack(s, c);
    }
  }

  lemma UnknownPack(s: State, c: Scan)
    requires c.batchId >= |s.batches|
    ensures RecordScan(s, c) == Err(NotFound)
  {
  }

  lemma ScanGuard(s: State, c: Scan)
    requires c.batchId < |s.batches| && BatchInv(s, c.batchId)
    ensures s.batches[c.batchId].projectId in s.plans
    ensures var pack, k, route := s.batches[c.batchId], |AcceptedOf(s.events, c.batchId)|, RouteOf(s, c.batchId);
            RecordScan(s, c).Ok?
            <==> && k < |route| && (pack.status == Active || pack.status == Planned)
                 && (c.partId.None? || c.partId == Some(pack.partId))
                 && (c.place == route[k].place ==> pack.place.stageId == "STG-PROJECTS" || HopPassed(s, c.batchId, route))
  {
    hide BatchInv, HopPassed, Block, Advance, Issue, RouteContext;
    InProjectPlan(s, c.batchId);
    ContextExactly(s, c.batchId);
    StandpointOf(s, c.batchId);
  }

  /** A pack closes exactly when it is active, has taken its whole route and is cleared where it stands. */
  lemma ClosureCommitsExactly(s: State, b: nat)
    requires Reachable(s)
    ensures CloseBatch(s, b).Ok?
       <==> && b < |s.batches| && s.batches[b].projectId in s.plans && s.batches[b].status == Active
            && |AcceptedOf(s.events, b)| == |RouteOf(s, b)| > 0 && Cleared(s.inspections, s.decisions, b, s.batches[b].place)
  {
    hide Reachable, BatchInv, Cleared, CloseBatch, GateVerdict;
    if b < |s.batches| {
      ReachablePack(s, b);
      InProjectPlan(s, b);
      ClearedIs(s.inspections, s.decisions, b, s.batches[b].place);
      ClosureGuard(s, b);
      if CloseBatch(s, b).Ok? {
        ClosureSeen(s, b);
      }
      if s.batches[b].status == Active && |AcceptedOf(s.events, b)| == |RouteOf(s, b)| > 0
         && GateVerdict(s.inspections, s.decisions, b, s.batches[b].place) == Some(Passed) {
        ClosureCommits(s, b);
      }
    } else {
      NoPackToClose(s, b);
    }
  }

  lemma NoPackToClose(s: State, b: nat)
    requires b >= |s.batches|
    ensures CloseBatch(s, b).Err?
  {
  }

  lemma ClosureGuard(s: State, b: nat)
    requires b < |s.batches| && BatchInv(s, b)
    ensures CloseBatch(s, b).Ok? ==> GateVerdict(s.inspections, s.decisions, b, s.batches[b].place) == Some(Passed)
  {
    hide GateVerdict;
    var route, k := RouteOf(s, b), |AcceptedOf(s.events, b)|;
    NextAfterPrefix(route, k);
    if k == |route| > 0 {
      var i := IndexOfStep(route, route[k - 1].id);
      assert i == k - 1;
    }
  }

  /** Verdicts, dispositions, inspections and hand-made packs. */
  lemma QualityCommitsExactly(s: State, i: nat, verdict: Verdict, version: nat, disposition: Disposition, b: nat, place: Place)
    requires Reachable(s)
    ensures CreateInspection(s, b, place).Ok? <==> b < |s.batches|
    ensures Decide(s, i, verdict, version).Ok?
       <==> && i < |s.inspections| && s.inspections[i].rowVersion == version
            && (s.inspections[i].status == Open || s.inspections[i].status == InProgress)
    ensures Analyse(s, i, disposition).Ok?
       <==> && i < |s.inspections| && s.inspections[i].batchId < |s.batches|
            && (s.batches[s.inspections[i].batchId].status in {Planned, Active, Held})
            && (exists d: nat :: NewestVerdict(s.decisions, i, d) && s.decisions[d].verdict != Passed)
            && forall x :: x in s.analyses ==> x.inspectionId != i
  {
    hide Reachable, Inv, FloorInv, BatchInv, LatestVerdict, NewestVerdict;
    ReachableInv(s);
    InvTables(s);
    NotPassed(s.decisions, i);
    assert (forall x :: x in s.analyses ==> x.inspectionId != i)
      <==> !exists a :: 0 <= a < |s.analyses| && s.analyses[a].inspectionId == i by {
      forall a | 0 <= a < |s.analyses| ensures s.analyses[a] in s.analyses {
      }
    }
  }

  lemma NotPassed(decisions: seq<Decision>, i: nat)
    ensures LatestVerdict(decisions, i).Some? && LatestVerdict(decisions, i) != Some(Passed)
       <==> exists d: nat :: NewestVerdict(decisions, i, d) && decisions[d].verdict != Passed
  {
    if LatestVerdict(decisions, i).Some? {
      var d := VerdictHasRow(decisions, i);
      LatestVerdictIs(decisions, i, d);
    }
    forall d: nat | NewestVerdict(decisions, i, d) ensures LatestVerdict(decisions, i) == Some(decisions[d].verdict) {
      LatestVerdictIs(decisions, i, d);
    }
  }

  lemma HandMadeCommitsExactly(s: State, p: nat, partId: nat, code: string, quantity: nat, packSize: nat, place: Place)
    ensures CreateBatch(s, p, partId, code, quantity, packSize, place).Ok?
       <==> && p in s.plans && (exists part :: part in s.plans[p].parts && part.id == partId)
            && forall x :: x in s.batches ==> x.code != code
  {
    assert (forall x :: x in s.batches ==> x.code != code) <==> !exists i :: 0 <= i < |s.batches| && s.batches[i].code == code by {
      forall i | 0 <= i < |s.batches| ensures s.batches[i] in s.batches {
      }
    }
  }

  /** Why the floor commands refuse: an unknown row is not found, another version is stale, and everything
      else conflicts. */
  lemma FloorRefusals(s: State, c: Scan, b: nat, place: Place, i: nat, verdict: Verdict, version: nat, disposition: Disposition)
    requires Reachable(s)
    ensures RecordScan(s, c).Err? ==> RecordScan(s, c).problem == if c.batchId >= |s.batches| then NotFound else Conflict
    ensures CloseBatch(s, b).Err? ==> CloseBatch(s, b).problem == if b >= |s.batches| then NotFound else Conflict
    ensures CreateInspection(s, b, place).Err? ==> CreateInspection(s, b, place).problem == NotFound
    ensures Decide(s, i, verdict, version).Err? ==>
              Decide(s, i, verdict, version).problem
              == if i >= |s.inspections| then NotFound else if s.inspections[i].rowVersion != version then StaleVersion else Conflict
    ensures Analyse(s, i, disposition).Err? ==>
              Analyse(s, i, disposition).problem == if i >= |s.inspections| then NotFound else Conflict
  {
    hide Reachable, Inv, BatchInv, RecordScan, CloseBatch, CreateInspection, Decide, Analyse;
    ReachableInv(s);
    QualityRefusals(s, b, place, i, verdict, version, disposition);
    if c.batchId < |s.batches| {
      ReachablePack(s, c.batchId);
      if RecordScan(s, c).Err? { ScanRefusals(s, c); }
    } else {
      UnknownPack(s, c);
    }
    if b < |s.batches| { ReachablePack(s, b); }
    ClosureRefusals(s, b);
  }

  lemma ClosureRefusals(s: State, b: nat)
    requires b < |s.batches| ==> BatchInv(s, b)
    ensures CloseBatch(s, b).Err? ==> CloseBatch(s, b).problem == if b >= |s.batches| then NotFound else Conflict
  {
    hide BatchInv;
    if b < |s.batches| { InProjectPlan(s, b); }
  }

  lemma QualityRefusals(s: State, b: nat, place: Place, i: nat, verdict: Verdict, version: nat, disposition: Disposition)
    requires Inv(s)
    ensures CreateInspection(s, b, place).Err? ==> CreateInspection(s, b, place).problem == NotFound
    ensures Decide(s, i, verdict, version).Err? ==>
              Decide(s, i, verdict, version).problem
              == if i >= |s.inspections| then NotFound else if s.inspections[i].rowVersion != version then StaleVersion else Conflict
    ensures Analyse(s, i, disposition).Err? ==>
              Analyse(s, i, disposition).problem == if i >= |s.inspections| then NotFound else Conflict
  {
    hide Inv;
    InvTables(s);
  }

  lemma ScanRefusals(s: State, c: Scan)
    requires c.batchId < |s.batches| && BatchInv(s, c.batchId) && RecordScan(s, c).Err?
    ensures RecordScan(s, c).problem == Conflict
  {
    hide BatchInv, HopPassed, RouteContext;
    InProjectPlan(s, c.batchId);
    ContextOf(s, c.batchId);
  }

  // ---- project edits ----

  /** Every edit of a project refuses in the same order: no such project, another version, not a draft. */
  lemma EditsRefuse(s: State, catalog: Catalog, p: nat, version: nat, name: Option<string>, product: Option<Option<string>>,
                    size: Option<nat>, rows: seq<ModelQuantity>, steps: seq<StepInput>, partId: nat,
                    before: (string, string) -> bool)
    requires p !in s.plans || s.plans[p].rowVersion != version || s.plans[p].status != Draft
    requires forall i :: 0 <= i < |steps| ==> steps[i].stepOrder >= 1
    ensures var problem := if p !in s.plans then NotFound else if s.plans[p].rowVersion != version then StaleVersion else Conflict;
            && PatchProject(s, catalog, p, version, name, product, size) == Err(problem)
            && ReplaceRequirements(s, catalog, p, version, rows) == Err(problem)
            && CreateRouteVersion(s, catalog, p, version, steps) == Err(problem)
            && RemovePart(s, p, partId, version) == Err(problem)
            && DeleteProject(s, p, Some(version)) == Err(problem)
            && ReleaseProject(s, p, version, before) == Err(problem)
  {
  }

  ghost predicate Knows(catalog: Catalog, rows: seq<ModelQuantity>, product: Option<string>) {
    && (forall i, j :: 0 <= i < j < |rows| ==> rows[i].modelId != rows[j].modelId)
    && forall x :: x in rows ==>
         x.modelId in catalog.models && (product.Some? ==> catalog.models[x.modelId].productId == product.value)
  }

  lemma KnowsExactly(catalog: Catalog, rows: seq<ModelQuantity>, product: Option<string>)
    ensures CheckModels(catalog, product, rows).None? <==> Knows(catalog, rows, product)
  {
    forall i | 0 <= i < |rows| ensures rows[i] in rows {
    }
  }

  /** A replacement at the project's version and draft commits exactly when its models are known,
      distinct and of the project's product, and either they are the models there were or the project
      has no packs and the models' structures repeat no part code and no order of a part. */
  lemma ReplacementCommitsExactly(s: State, catalog: Catalog, p: nat, version: nat, rows: seq<ModelQuantity>)
    requires Reachable(s) && p in s.plans && s.plans[p].rowVersion == version && s.plans[p].status == Draft
    ensures ReplaceRequirements(s, catalog, p, version, rows).Ok?
       <==> && Knows(catalog, rows, s.plans[p].product)
            && ((set r | r in s.plans[p].requirements :: r.modelId) == (set x | x in rows :: x.modelId)
                || ((forall x :: x in s.batches ==> x.projectId != p) && Clashless(Structure(catalog, rows), catalog)))
  {
    hide Reachable, PlanInv, CheckModels, Knows, SameModelSet, Unclashing, Rebuilt, Clashless;
    SomeVersion(s, p);
    if Knows(catalog, rows, s.plans[p].product) {
      KnownDistinct(catalog, rows, s.plans[p].product);
      ModelSets(s, p, rows);
    }
    KnowsExactly(catalog, rows, s.plans[p].product);
    ClashesExactly(s.plans[p], catalog, rows, s.nextId);
    ReferencedExactly(s, p);
  }

  lemma SomeVersion(s: State, p: nat)
    requires Reachable(s) && p in s.plans
    ensures s.plans[p].lists != []
  {
    hide Reachable;
    ReachablePlan(s, p);
  }

  lemma KnownDistinct(catalog: Catalog, rows: seq<ModelQuantity>, product: Option<string>)
    requires Knows(catalog, rows, product)
    ensures DistinctModels(rows)
  {
  }

  lemma ReferencedExactly(s: State, p: nat)
    ensures Referenced(s, p) <==> exists x :: x in s.batches && x.projectId == p
  {
    forall i | 0 <= i < |s.batches| ensures s.batches[i] in s.batches {
    }
  }

  lemma CreationCommitsExactly(s: State, catalog: Catalog, code: string, name: string, product: Option<string>,
                               size: Option<nat>, lotCode: Option<string>, rows: seq<ModelQuantity>)
    ensures CreateProject(s, catalog, code, name, product, size, lotCode, rows).Ok?
       <==> && (product.Some? ==> product.value in catalog.products) && Knows(catalog, rows, product)
            && Clashless(Structure(catalog, rows), catalog)
  {
    hide CheckModels, Knows, Unclashing, Rebuilt, Clashless;
    KnowsExactly(catalog, rows, product);
    ClashesExactly(BlankPlan(code, name, product, size, lotCode), catalog, rows, s.nextId + 1);
  }

  /** A step input names a part, a configured stage and, if any, a sub-stage of that stage. */
  ghost predicate Usable(plan: Plan, catalog: Catalog, x: StepInput) {
    && x.stepOrder >= 1 && (exists part :: part in plan.parts && part.id == x.partId) && x.place.stageId in catalog.stages
    && (x.place.subStageId.Some? ==> && x.place.subStageId.value in catalog.subStages
                                     && (x.place.subStageId.value, x.place.stageId) in catalog.eligible)
  }

  /** The other edits of a draft at its version. */
  lemma EditsCommitExactly(s: State, catalog: Catalog, p: nat, version: nat, name: Option<string>, product: Option<Option<string>>,
                           size: Option<nat>, steps: seq<StepInput>, partId: nat)
    requires p in s.plans && s.plans[p].rowVersion == version && s.plans[p].status == Draft
    ensures PatchProject(s, catalog, p, version, name, product, size).Ok?
       <==> (product.Some? && product.value.Some? ==> product.value.value in catalog.products)
    ensures CreateRouteVersion(s, catalog, p, version, steps).Ok?
       <==> && (forall x :: x in steps ==> Usable(s.plans[p], catalog, x))
            && forall i, j :: 0 <= i < j < |steps| && steps[i].partId == steps[j].partId ==>
                 steps[i].place != steps[j].place && steps[i].stepOrder != steps[j].stepOrder
    ensures RemovePart(s, p, partId, version).Ok?
       <==> (exists part :: part in s.plans[p].parts && part.id == partId) && forall x :: x in s.batches ==> x.partId != partId
    ensures DeleteProject(s, p, None).Ok? <==> forall x :: x in s.batches ==> x.projectId != p
  {
    hide Usable, CheckSteps;
    VersionGuard(s, catalog, p, version, steps);
    ReferencedExactly(s, p);
    forall i | 0 <= i < |s.batches| ensures s.batches[i] in s.batches {
    }
  }

  lemma VersionGuard(s: State, catalog: Catalog, p: nat, version: nat, steps: seq<StepInput>)
    requires p in s.plans && s.plans[p].rowVersion == version && s.plans[p].status == Draft
    ensures CreateRouteVersion(s, catalog, p, version, steps).Ok?
       <==> && (forall x :: x in steps ==> Usable(s.plans[p], catalog, x))
            && forall i, j :: 0 <= i < j < |steps| && steps[i].partId == steps[j].partId ==>
                 steps[i].place != steps[j].place && steps[i].stepOrder != steps[j].stepOrder
  {
    forall i | 0 <= i < |steps| ensures steps[i] in steps {
    }
  }

  lemma OverrideCommitsExactly(s: State, p: nat, partId: nat, version: nat, times: Option<CycleTimes>)
    requires Reachable(s)
    ensures OverrideCycleTimes(s, p, partId, version, times).Ok?
       <==> && p in s.plans && s.plans[p].status == Draft
            && exists part :: part in s.plans[p].parts && part.id == partId && part.rowVersion == version
  {
    hide Reachable, ListsInv, LotInv, Timed;
    if p in s.plans {
      ReachablePlan(s, p);
      OnePartById(s.plans[p].parts, partId);
    }
  }

  lemma OnePartById(parts: seq<Part>, id: nat)
    requires DistinctParts(parts)
    ensures forall a, b :: a in parts && b in parts && a.id == b.id ==> a == b
  {
  }

  /** Why the planning commands refuse a project at its version and draft. */
  lemma PlanRefusals(s: State, catalog: Catalog, p: nat, version: nat, name: Option<string>, product: Option<Option<string>>,
                     size: Option<nat>, rows: seq<ModelQuantity>, steps: seq<StepInput>, partId: nat,
                     before: (string, string) -> bool)
    requires p in s.plans && s.plans[p].rowVersion == version && s.plans[p].status == Draft && s.plans[p].lists != []
    ensures PatchProject(s, catalog, p, version, name, product, size).Err? ==>
              PatchProject(s, catalog, p, version, name, product, size).problem == NotFound
    ensures ReplaceRequirements(s, catalog, p, version, rows).Err? ==>
              ReplaceRequirements(s, catalog, p, version, rows).problem
              == if !DistinctRows(rows) then Conflict
                 else if exists x :: x in rows && x.modelId !in catalog.models then NotFound
                 else if !Knows(catalog, rows, s.plans[p].product) then Conflict
                 else if exists x :: x in s.batches && x.projectId == p then Unhandled else Conflict
    ensures RemovePart(s, p, partId, version).Err? ==>
              RemovePart(s, p, partId, version).problem
              == if exists part :: part in s.plans[p].parts && part.id == partId then Conflict else NotFound
    ensures DeleteProject(s, p, None).Err? ==> DeleteProject(s, p, None).problem == Conflict
    ensures ReleaseProject(s, p, version, before).Err? ==> ReleaseProject(s, p, version, before).problem == Conflict
    ensures CreateRouteVersion(s, catalog, p, version, steps).Err? ==>
              CreateRouteVersion(s, catalog, p, version, steps).problem
              == if exists x :: x in steps && x.stepOrder < 1 then Malformed
                 else if forall x :: x in steps ==> Named(s.plans[p], catalog, x) then Conflict else NotFound
  {
    hide CheckModels, Knows, DistinctRows, SameModelSet, Unclashing, Rebuilt, CheckSteps, MintParts, Named;
    ModelRefusals(catalog, rows, s.plans[p].product);
    StepRefusals(s.plans[p], catalog, steps);
    ReferencedExactly(s, p);
    forall i | 0 <= i < |steps| ensures steps[i] in steps {
    }
  }

  ghost predicate DistinctRows(rows: seq<ModelQuantity>) {
    forall i, j :: 0 <= i < j < |rows| ==> rows[i].modelId != rows[j].modelId
  }

  lemma ModelRefusals(catalog: Catalog, rows: seq<ModelQuantity>, product: Option<string>)
    ensures CheckModels(catalog, product, rows)
         == if !DistinctRows(rows) then Some(Conflict)
            else if exists x :: x in rows && x.modelId !in catalog.models then Some(NotFound)
            else if !Knows(catalog, rows, product) then Some(Conflict) else None
  {
    forall i | 0 <= i < |rows| ensures rows[i] in rows {
    }
  }

  /** The rows a step input names exist, whether or not they go together. */
  ghost predicate Named(plan: Plan, catalog: Catalog, x: StepInput) {
    && (exists part :: part in plan.parts && part.id == x.partId) && x.place.stageId in catalog.stages
    && (x.place.subStageId.Some? ==> x.place.subStageId.value in catalog.subStages)
  }

  lemma StepRefusals(plan: Plan, catalog: Catalog, steps: seq<StepInput>)
    ensures CheckSteps(plan, catalog, steps) in {None, Some(NotFound), Some(Conflict)}
    ensures CheckSteps(plan, catalog, steps) == Some(NotFound) <==> !forall x :: x in steps ==> Named(plan, catalog, x)
  {
    forall i | 0 <= i < |steps| ensures steps[i] in steps {
    }
  }

  /** Why a creation and an override refuse. */
  lemma OtherRefusals(s: State, catalog: Catalog, code: string, name: string, product: Option<string>, size: Option<nat>,
                      lotCode: Option<string>, rows: seq<ModelQuantity>, p: nat, partId: nat, version: nat, times: Option<CycleTimes>,
                      quantity: nat, packSize: nat, place: Place)
    ensures CreateProject(s, catalog, code, name, product, size, lotCode, rows).Err? ==>
              CreateProject(s, catalog, code, name, product, size, lotCode, rows).problem
              == if product.Some? && product.value !in catalog.products then NotFound
                 else if !DistinctRows(rows) then Conflict
                 else if exists x :: x in rows && x.modelId !in catalog.models then NotFound else Conflict
    ensures OverrideCycleTimes(s, p, partId, version, times).Err? ==>
              OverrideCycleTimes(s, p, partId, version, times).problem
              == if p !in s.plans || !exists part :: part in s.plans[p].parts && part.id == partId then NotFound
                 else if s.plans[p].status != Draft then Conflict else StaleVersion
    ensures CreateBatch(s, p, partId, code, quantity, packSize, place).Err? ==>
              CreateBatch(s, p, partId, code, quantity, packSize, place).problem
              == if p !in s.plans || !exists part :: part in s.plans[p].parts && part.id == partId then NotFound else Conflict
    ensures CompleteProject(s, p, version).Err? ==>
              CompleteProject(s, p, version).problem
              == if p !in s.plans then NotFound else if s.plans[p].rowVersion != version then StaleVersion else Conflict
  {
    hide CheckModels, Knows, DistinctRows, Unclashing, Rebuilt;
    ModelRefusals(catalog, rows, product);
  }

  // ---- release ----

  /** The override's seconds for a place, or else the catalog's, kept under the key "stage::sub-stage". */
  ghost predicate HasTime(part: Part, place: Place) {
    var key := place.stageId + "::" + if place.subStageId.Some? then place.subStageId.value else "";
    || (part.override.Some? && key in part.override.value && 1 <= part.override.value[key] <= 86400)
    || (key in part.planned && 1 <= part.planned[key] <= 86400)
  }

  /** A release at the project's version commits exactly when the project is a draft with requirements
      and parts, every step of its cited version has a time, and no code it would mint is taken. */
  lemma ReleaseCommitsExactly(s: State, p: nat, version: nat, before: (string, string) -> bool)
    requires Reachable(s)
    ensures ReleaseProject(s, p, version, before).Ok?
       <==> && p in s.plans && s.plans[p].rowVersion == version && s.plans[p].status == Draft
            && s.plans[p].requirements != [] && s.plans[p].parts != []
            && (forall part, x :: part in s.plans[p].parts && x in CitedSteps(s.plans[p]) && x.partId == part.id ==>
                  HasTime(part, x.place))
            && var minted := MintParts(s.plans[p], p, SortParts(s.plans[p].parts, before), TraySize(s.plans[p]), s.batches,
                                       InProject(s.batches, p));
               forall x, y :: x in minted && y in s.batches ==> x.code != y.code
  {
    hide Reachable, ListsInv, LotInv, Timed, MintParts, SortParts, TraySize, InProject, CodesFree, PartTimed, PartsOwned, Published, HasTime;
    if p in s.plans {
      ReachablePlan(s, p);
      TimedExactly(s.plans[p].parts, CitedSteps(s.plans[p]));
      FreeExactly(MintParts(s.plans[p], p, SortParts(s.plans[p].parts, before), TraySize(s.plans[p]), s.batches, InProject(s.batches, p)),
                  s.batches);
    }
  }

  lemma FreeExactly(minted: seq<Batch>, batches: seq<Batch>)
    ensures CodesFree(minted, batches) <==> forall x, y :: x in minted && y in batches ==> x.code != y.code
  {
    forall i | 0 <= i < |minted| ensures minted[i] in minted {
    }
    forall j | 0 <= j < |batches| ensures batches[j] in batches {
    }
  }

  lemma TimedExactly(parts: seq<Part>, steps: seq<RoutingStep>)
    ensures (exists i :: 0 <= i < |parts| && !PartTimed(parts[i], steps))
       <==> !forall part, x :: part in parts && x in steps && x.partId == part.id ==> HasTime(part, x.place)
  {
    forall part, x | part in parts && x in steps && x.partId == part.id && !HasTime(part, x.place)
      ensures exists i :: 0 <= i < |parts| && !PartTimed(parts[i], steps)
    {
      var i :| 0 <= i < |parts| && parts[i] == part;
      var j :| 0 <= j < |steps| && steps[j] == x;
      assert ResolveTime(part, steps[j].place).None?;
    }
    forall i | 0 <= i < |parts| && !PartTimed(parts[i], steps)
      ensures exists part, x :: part in parts && x in steps && x.partId == part.id && !HasTime(part, x.place)
    {
      var j :| 0 <= j < |steps| && steps[j].partId == parts[i].id && ResolveTime(parts[i], steps[j].place).None?;
      assert parts[i] in parts && steps[j] in steps && !HasTime(parts[i], steps[j].place);
    }
  }
}
