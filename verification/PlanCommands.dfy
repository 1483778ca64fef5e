/**
 The planning commands as next-state functions: project creation and edits, requirement
 replacement, route versions, cycle times, release and completion.
 */
module PlanCommands {
  import opened Common
  import opened Routes
  import opened Tables
  import opened Text
  import opened Minting

  // ---- the catalog a command reads ----

  /** A stored routing entry: fields of any other JSON type read as absent. */
  datatype RawStep = RawStep(stageId: Option<string>, subStageId: Option<string>, order: Option<int>)

  datatype ModelPart = ModelPart(code: string, planned: CycleTimes, routing: seq<RawStep>)

  datatype Model = Model(productId: string, parts: seq<ModelPart>)

  datatype Catalog = Catalog(products: set<string>, models: map<string, Model>, stages: set<string>,
                             subStages: set<string>, eligible: set<(string, string)>)

  /** No stage row carries the pre-floor marker's name. */
  ghost predicate FloorStagesOnly(catalog: Catalog) {
    PRE_FLOOR !in catalog.stages
  }

  datatype ModelQuantity = ModelQuantity(modelId: string, requiredQuantity: nat)

  function SumQuantities(rows: seq<ModelQuantity>): nat {
    if rows == [] then 0 else rows[0].requiredQuantity + SumQuantities(rows[1..])
  }

  function SumRequired(rows: seq<Requirement>): nat {
    if rows == [] then 0 else rows[0].requiredQuantity + SumRequired(rows[1..])
  }

  predicate DistinctModels(rows: seq<ModelQuantity>) {
    forall i, j :: 0 <= i < j < |rows| ==> rows[i].modelId != rows[j].modelId
  }

  /** The unique constraint on (version, part, order). */
  predicate DistinctOrders(steps: seq<RoutingStep>) {
    forall i, j :: 0 <= i < j < |steps| ==>
      steps[i].partId != steps[j].partId || steps[i].stepOrder != steps[j].stepOrder
  }

  /** The unique constraint on (project, part code). */
  predicate DistinctCodes(parts: seq<Part>) {
    forall i, j :: 0 <= i < j < |parts| ==> parts[i].code != parts[j].code
  }

  // ---- snapshotting the catalog ----

  function StepOrder(raw: RawStep, index: nat): (order: int)
    ensures order >= 1
  {
    if raw.order.Some? && raw.order.value > 0 then raw.order.value else index + 1
  }

  predicate KeepsStep(raw: RawStep, catalog: Catalog) {
    && raw.stageId.Some? && Trim(raw.stageId.value) != ""
    && raw.stageId.value in catalog.stages
    && (raw.subStageId.Some? ==> (raw.subStageId.value, raw.stageId.value) in catalog.eligible)
  }

  /** The routing rows of one part: unreadable and unconfigured entries are dropped. */
  function StepRows(raw: seq<RawStep>, index: nat, partId: nat, catalog: Catalog, id: nat): seq<RoutingStep>
  {
    if raw == [] then []
    else if KeepsStep(raw[0], catalog) then
      [RoutingStep(id, partId, Place(raw[0].stageId.value, raw[0].subStageId), StepOrder(raw[0], index))]
      + StepRows(raw[1..], index + 1, partId, catalog, id + 1)
    else StepRows(raw[1..], index + 1, partId, catalog, id)
  }

  datatype Snapshot = Snapshot(parts: seq<Part>, steps: seq<RoutingStep>, nextId: nat)

  /** One project part and its route rows per catalog part of a model. */
  function PartRows(parts: seq<ModelPart>, requirementId: nat, catalog: Catalog, id: nat): Snapshot {
    if parts == [] then Snapshot([], [], id)
    else
      var steps := StepRows(parts[0].routing, 0, id, catalog, id + 1);
      var rest := PartRows(parts[1..], requirementId, catalog, id + 1 + |steps|);
      Snapshot([Part(id, parts[0].code, requirementId, parts[0].planned, None, 1)] + rest.parts,
               steps + rest.steps, rest.nextId)
  }

  function ModelRows(requirements: seq<Requirement>, catalog: Catalog, id: nat): Snapshot {
    if requirements == [] then Snapshot([], [], id)
    else
      var model := if requirements[0].modelId in catalog.models then catalog.models[requirements[0].modelId].parts else [];
      var first := PartRows(model, requirements[0].id, catalog, id);
      var rest := ModelRows(requirements[1..], catalog, first.nextId);
      Snapshot(first.parts + rest.parts, first.steps + rest.steps, rest.nextId)
  }

  function RequirementRows(rows: seq<ModelQuantity>, id: nat): seq<Requirement> {
    if rows == [] then []
    else [Requirement(id, rows[0].modelId, rows[0].requiredQuantity)] + RequirementRows(rows[1..], id + 1)
  }

  /** The checks shared by creation and replacement, in the order they are made. */
  function CheckModels(catalog: Catalog, product: Option<string>, rows: seq<ModelQuantity>): Option<Problem> {
    if !DistinctModels(rows) then Some(Conflict)
    else if exists i :: 0 <= i < |rows| && rows[i].modelId !in catalog.models then Some(NotFound)
    else if product.Some? && exists i :: 0 <= i < |rows| && catalog.models[rows[i].modelId].productId != product.value
      then Some(Conflict)
    else None
  }

  /** The plan rebuilt from the catalog: requirements, part snapshots, version 1 of the
      route, and a lot re-pointed at them. New rows are numbered from `id`. */
  function Rebuilt(plan: Plan, catalog: Catalog, rows: seq<ModelQuantity>, id: nat): Plan {
    var requirements := RequirementRows(rows, id);
    var snapshot := ModelRows(requirements, catalog, id + |rows|);
    var list := PartsList(snapshot.nextId, 1, snapshot.steps);
    plan.(requirements := requirements, parts := snapshot.parts, lists := [list], rowVersion := plan.rowVersion + 1,
          lot := plan.lot.(partsListId := list.id, partsListVersion := 1, requiredQuantity := SumQuantities(rows)))
  }

  /** The rows a rebuilt plan inserts violate no unique constraint. */
  predicate Unclashing(plan: Plan) {
    DistinctOrders(CitedSteps(plan)) && DistinctCodes(plan.parts)
  }

  // ---- commands ----

  /** A new draft before its rows: the lot's name is the project's, its packs a tray. */
  function BlankPlan(code: string, name: string, product: Option<string>, batchSize: Option<nat>, lotCode: Option<string>)
    : Plan
  {
    var tray := if batchSize.Some? then batchSize.value else 200;
    var lot := Lot(if lotCode.Some? then lotCode.value else code + "-L1", name, 0, 0, 0, tray);
    Plan(Draft, 0, code, name, product, tray, [], [], [], lot)
  }

  function CreateProject(s: State, catalog: Catalog, code: string, name: string, product: Option<string>,
                         batchSize: Option<nat>, lotCode: Option<string>, rows: seq<ModelQuantity>): Result<State>
  {
    if product.Some? && product.value !in catalog.products then Err(NotFound)
    else
      match CheckModels(catalog, product, rows)
      case Some(p) => Err(p)
      case None =>
        var plan := Rebuilt(BlankPlan(code, name, product, batchSize, lotCode), catalog, rows, s.nextId + 1);
        if !Unclashing(plan) then Err(Conflict)
        else Ok(s.(plans := s.plans[s.nextId := plan], nextId := plan.lot.partsListId + 1))
  }

  /** What every project edit checks first: the row exists, its version, and that it is a draft. */
  function CheckDraft(s: State, p: nat, expectedVersion: nat): Option<Problem> {
    if p !in s.plans then Some(NotFound)
    else if s.plans[p].rowVersion != expectedVersion then Some(StaleVersion)
    else if s.plans[p].status != Draft then Some(Conflict)
    else None
  }

  function PatchProject(s: State, catalog: Catalog, p: nat, expectedVersion: nat, name: Option<string>,
                        product: Option<Option<string>>, batchSize: Option<nat>): Result<State>
  {
    match CheckDraft(s, p, expectedVersion)
    case Some(problem) => Err(problem)
    case None =>
      if product.Some? && product.value.Some? && product.value.value !in catalog.products then Err(NotFound)
      else
        var plan := s.plans[p];
        var sized := if batchSize.None? then plan
                     else plan.(trayQuantity := batchSize.value, lot := plan.lot.(labelPackSize := batchSize.value));
        var named := if name.None? then sized
                     else sized.(name := name.value, lot := sized.lot.(name := name.value));
        var moved := if product.None? then named else named.(product := product.value);
        Ok(s.(plans := s.plans[p := moved.(rowVersion := plan.rowVersion + 1)]))
  }

  predicate HasModel(rows: seq<ModelQuantity>, modelId: string) {
    exists i :: 0 <= i < |rows| && rows[i].modelId == modelId
  }

  /** The shortcut test: as many rows as before, and every prior model listed. */
  predicate SameModelSet(prior: seq<Requirement>, rows: seq<ModelQuantity>) {
    |prior| == |rows| && forall i :: 0 <= i < |prior| ==> HasModel(rows, prior[i].modelId)
  }

  function QuantityFor(rows: seq<ModelQuantity>, modelId: string, default: nat): nat {
    if rows == [] then default
    else if rows[0].modelId == modelId then rows[0].requiredQuantity
    else QuantityFor(rows[1..], modelId, default)
  }

  function Requantified(prior: seq<Requirement>, rows: seq<ModelQuantity>): seq<Requirement> {
    if prior == [] then []
    else [prior[0].(requiredQuantity := QuantityFor(rows, prior[0].modelId, prior[0].requiredQuantity))]
         + Requantified(prior[1..], rows)
  }

  /** The shortcut: quantities and the lot's target change, parts and routes stay. */
  function WithQuantities(plan: Plan, rows: seq<ModelQuantity>): Plan {
    plan.(requirements := Requantified(plan.requirements, rows), rowVersion := plan.rowVersion + 1,
          lot := plan.lot.(requiredQuantity := SumQuantities(rows)))
  }

  predicate Referenced(s: State, p: nat) {
    exists b :: 0 <= b < |s.batches| && s.batches[b].projectId == p
  }

  function ReplaceRequirements(s: State, catalog: Catalog, p: nat, expectedVersion: nat, rows: seq<ModelQuantity>)
    : Result<State>
  {
    match CheckDraft(s, p, expectedVersion)
    case Some(problem) => Err(problem)
    case None =>
      var plan := s.plans[p];
      match CheckModels(catalog, plan.product, rows)
      case Some(problem) => Err(problem)
      case None =>
        if SameModelSet(plan.requirements, rows) then
          if plan.lists == [] then Err(Conflict)
          else Ok(s.(plans := s.plans[p := WithQuantities(plan, rows)]))
        else if Referenced(s, p) then Err(Unhandled)
        else
          var rebuilt := Rebuilt(plan, catalog, rows, s.nextId);
          if !Unclashing(rebuilt) then Err(Conflict)
          else Ok(s.(plans := s.plans[p := rebuilt], nextId := rebuilt.lot.partsListId + 1))
  }

  datatype StepInput = StepInput(partId: nat, place: Place, stepOrder: int)

  function HighestVersion(lists: seq<PartsList>): nat {
    if lists == [] then 0
    else
      var rest := HighestVersion(lists[1..]);
      if lists[0].version > rest then lists[0].version else rest
  }

  function InputRows(steps: seq<StepInput>, id: nat): (rows: seq<RoutingStep>)
    ensures |rows| == |steps|
    ensures forall i :: 0 <= i < |rows| ==>
              rows[i] == RoutingStep(id + i, steps[i].partId, steps[i].place, steps[i].stepOrder)
  {
    seq(|steps|, i requires 0 <= i < |steps| => RoutingStep(id + i, steps[i].partId, steps[i].place, steps[i].stepOrder))
  }

  function CheckSteps(plan: Plan, catalog: Catalog, steps: seq<StepInput>): Option<Problem> {
    if exists i :: 0 <= i < |steps| && FindPart(plan.parts, steps[i].partId).None? then Some(NotFound)
    else if exists i :: 0 <= i < |steps| && steps[i].place.stageId !in catalog.stages then Some(NotFound)
    else if exists i :: 0 <= i < |steps| && steps[i].place.subStageId.Some?
                        && steps[i].place.subStageId.value !in catalog.subStages then Some(NotFound)
    else if exists i :: 0 <= i < |steps| && steps[i].place.subStageId.Some?
                        && (steps[i].place.subStageId.value, steps[i].place.stageId) !in catalog.eligible then Some(Conflict)
    else if exists i, j :: 0 <= i < j < |steps| && steps[i].partId == steps[j].partId
                           && (steps[i].place == steps[j].place || steps[i].stepOrder == steps[j].stepOrder)
      then Some(Conflict)
    else None
  }

  /** A plan with one more route version, cited by its lot. */
  function WithVersion(plan: Plan, steps: seq<StepInput>, id: nat): Plan {
    var list := PartsList(id + |steps|, HighestVersion(plan.lists) + 1, InputRows(steps, id));
    plan.(lists := plan.lists + [list], rowVersion := plan.rowVersion + 1,
          lot := plan.lot.(partsListId := list.id, partsListVersion := list.version))
  }

  function CreateRouteVersion(s: State, catalog: Catalog, p: nat, expectedVersion: nat, steps: seq<StepInput>)
    : Result<State>
  {
    if exists i :: 0 <= i < |steps| && steps[i].stepOrder < 1 then Err(Malformed)
    else
      match CheckDraft(s, p, expectedVersion)
      case Some(problem) => Err(problem)
      case None =>
        var plan := s.plans[p];
        match CheckSteps(plan, catalog, steps)
        case Some(problem) => Err(problem)
        case None =>
          Ok(s.(plans := s.plans[p := WithVersion(plan, steps, s.nextId)], nextId := s.nextId + |steps| + 1))
  }

  function UpdatePart(parts: seq<Part>, part: Part): (updated: seq<Part>)
    ensures |updated| == |parts|
    ensures forall i :: 0 <= i < |parts| ==> updated[i] == if parts[i].id == part.id then part else parts[i]
  {
    seq(|parts|, i requires 0 <= i < |parts| => if parts[i].id == part.id then part else parts[i])
  }

  function WithOverride(plan: Plan, part: Part, times: Option<CycleTimes>): Plan {
    plan.(parts := UpdatePart(plan.parts, part.(override := times, rowVersion := part.rowVersion + 1)))
  }

  function OverrideCycleTimes(s: State, p: nat, partId: nat, expectedVersion: nat, times: Option<CycleTimes>)
    : Result<State>
  {
    if p !in s.plans then Err(NotFound)
    else
      var plan := s.plans[p];
      match FindPart(plan.parts, partId)
      case None => Err(NotFound)
      case Some(part) =>
        if plan.status != Draft then Err(Conflict)
        else if part.rowVersion != expectedVersion then Err(StaleVersion)
        else Ok(s.(plans := s.plans[p := WithOverride(plan, part, times)]))
  }

  function WithoutPart(steps: seq<RoutingStep>, partId: nat): seq<RoutingStep> {
    if steps == [] then []
    else if steps[0].partId == partId then WithoutPart(steps[1..], partId)
    else [steps[0]] + WithoutPart(steps[1..], partId)
  }

  function StripLists(lists: seq<PartsList>, partId: nat): (stripped: seq<PartsList>)
    ensures |stripped| == |lists|
    ensures forall i :: 0 <= i < |lists| ==>
              stripped[i] == lists[i].(steps := WithoutPart(lists[i].steps, partId))
  {
    seq(|lists|, i requires 0 <= i < |lists| => lists[i].(steps := WithoutPart(lists[i].steps, partId)))
  }

  function DropPart(parts: seq<Part>, partId: nat): seq<Part> {
    if parts == [] then []
    else if parts[0].id == partId then DropPart(parts[1..], partId)
    else [parts[0]] + DropPart(parts[1..], partId)
  }

  function PlanWithout(plan: Plan, partId: nat): Plan {
    plan.(parts := DropPart(plan.parts, partId), lists := StripLists(plan.lists, partId), rowVersion := plan.rowVersion + 1)
  }

  function RemovePart(s: State, p: nat, partId: nat, expectedVersion: nat): Result<State> {
    match CheckDraft(s, p, expectedVersion)
    case Some(problem) => Err(problem)
    case None =>
      var plan := s.plans[p];
      if FindPart(plan.parts, partId).None? then Err(NotFound)
      else if exists b :: 0 <= b < |s.batches| && s.batches[b].partId == partId then Err(Conflict)
      else
        Ok(s.(plans := s.plans[p := PlanWithout(plan, partId)]))
  }

  function DeleteProject(s: State, p: nat, expectedVersion: Option<nat>): Result<State> {
    if p !in s.plans then Err(NotFound)
    else if expectedVersion.Some? && s.plans[p].rowVersion != expectedVersion.value then Err(StaleVersion)
    else if s.plans[p].status != Draft then Err(Conflict)
    else if Referenced(s, p) then Err(Conflict)
    else Ok(s.(plans := s.plans - {p}))
  }

  // ---- release and completion ----

  function CycleKey(place: Place): string {
    place.stageId + "::" + if place.subStageId.Some? then place.subStageId.value else ""
  }

  function StepTime(times: CycleTimes, place: Place): (t: Option<int>)
    ensures t.Some? ==> 1 <= t.value <= 86400
  {
    if CycleKey(place) in times && 1 <= times[CycleKey(place)] <= 86400 then Some(times[CycleKey(place)]) else None
  }

  /** The designed time of a step: the override first, then the catalog snapshot. */
  function ResolveTime(part: Part, place: Place): (t: Option<int>)
    ensures t.Some? ==> 1 <= t.value <= 86400
  {
    var o := if part.override.Some? then StepTime(part.override.value, place) else None;
    if o.Some? then o else StepTime(part.planned, place)
  }

  predicate PartTimed(part: Part, steps: seq<RoutingStep>) {
    forall i :: 0 <= i < |steps| && steps[i].partId == part.id ==> ResolveTime(part, steps[i].place).Some?
  }

  predicate HasRequirement(requirements: seq<Requirement>, id: nat) {
    exists j :: 0 <= j < |requirements| && requirements[j].id == id
  }

  predicate PartsOwned(plan: Plan) {
    forall i :: 0 <= i < |plan.parts| ==> HasRequirement(plan.requirements, plan.parts[i].requirementId)
  }

  function CheckRelease(plan: Plan): Option<Problem> {
    if plan.status != Draft then Some(Conflict)
    else if plan.requirements == [] then Some(Conflict)
    else if plan.parts == [] then Some(Conflict)
    else if !PartsOwned(plan) then Some(Conflict)
    else if exists i :: 0 <= i < |plan.parts| && !PartTimed(plan.parts[i], CitedSteps(plan)) then Some(Conflict)
    else None
  }

  /** The projection rows of freshly minted packs. */
  function PlacePositions(positions: map<nat, Position>, first: nat, count: nat): (placed: map<nat, Position>)
    ensures forall b: nat :: b in placed <==> b in positions || first <= b < first + count
    ensures forall b: nat :: first <= b < first + count ==> placed[b] == Position(Place(PRE_FLOOR, None), None, None)
    ensures forall b :: b in positions && (b < first || b >= first + count) ==> placed[b] == positions[b]
    decreases count
  {
    if count == 0 then positions
    else PlacePositions(positions, first, count - 1)[first + count - 1 := Position(Place(PRE_FLOOR, None), None, None)]
  }

  /** Releasing a project activates its planned packs. */
  function Activate(batches: seq<Batch>, p: nat): (activated: seq<Batch>)
    ensures |activated| == |batches|
    ensures forall b :: 0 <= b < |batches| ==>
              activated[b] == if batches[b].projectId == p && batches[b].status == Planned
                              then batches[b].(status := Active) else batches[b]
  {
    seq(|batches|, b requires 0 <= b < |batches| =>
      if batches[b].projectId == p && batches[b].status == Planned then batches[b].(status := Active) else batches[b])
  }

  predicate CodesFree(minted: seq<Batch>, batches: seq<Batch>) {
    forall i, j :: 0 <= i < |minted| && 0 <= j < |batches| ==> minted[i].code != batches[j].code
  }

  /** The tables after a release: the project released, its minted packs placed and active. */
  function Published(s: State, p: nat, minted: seq<Batch>): State
    requires p in s.plans
  {
    var plan := s.plans[p];
    s.(plans := s.plans[p := plan.(status := Released, rowVersion := plan.rowVersion + 1)],
       batches := Activate(s.batches + minted, p),
       positions := PlacePositions(s.positions, |s.batches|, |minted|))
  }

  function ReleaseProject(s: State, p: nat, expectedVersion: nat, before: (string, string) -> bool): Result<State> {
    if p !in s.plans then Err(NotFound)
    else
      var plan := s.plans[p];
      if plan.rowVersion != expectedVersion then Err(StaleVersion)
      else
        match CheckRelease(plan)
        case Some(problem) => Err(problem)
        case None =>
          var minted := MintParts(plan, p, SortParts(plan.parts, before), TraySize(plan), s.batches, InProject(s.batches, p));
          if !CodesFree(minted, s.batches) then Err(Conflict)
          else
            Ok(Published(s, p, minted))
  }

  /** Production's terminal rule: closed, or scrapped through a SCRAP analysis. */
  predicate BatchResolved(s: State, b: nat)
    requires b < |s.batches|
  {
    s.batches[b].status == Closed
    || (s.batches[b].status == Scrapped && LatestDisposition(s.analyses, b) == Some(Scrap))
  }

  function CompleteProject(s: State, p: nat, expectedVersion: nat): Result<State> {
    if p !in s.plans then Err(NotFound)
    else
      var plan := s.plans[p];
      if plan.rowVersion != expectedVersion then Err(StaleVersion)
      else if plan.status != Released then Err(Conflict)
      else if !Referenced(s, p) then Err(Conflict)
      else if exists b :: 0 <= b < |s.batches| && s.batches[b].projectId == p && !BatchResolved(s, b) then Err(Conflict)
      else Ok(s.(plans := s.plans[p := plan.(status := Completed, rowVersion := plan.rowVersion + 1)]))
  }
}
