/**
 The rows the production commands read and write.

 Append-only tables are sequences whose index is the row's key, so that "createdAt
 descending, then id descending" is "greatest index first". A project owns exactly one
 lot, and requirements, parts and parts-list versions belong to one project, so their
 rows are kept inside the project's plan.
 */
module Tables {
  import opened Common
  import opened Routes

  // ---- planning rows ----

  datatype ProjectStatus = Draft | Released | Completed

  datatype Requirement = Requirement(id: nat, modelId: string, requiredQuantity: nat)

  /** Planned seconds per route step, keyed by the printed step. */
  type CycleTimes = map<string, int>

  datatype Part = Part(id: nat, code: string, requirementId: nat,
                       planned: CycleTimes, override: Option<CycleTimes>, rowVersion: nat)

  datatype PartsList = PartsList(id: nat, version: nat, steps: seq<RoutingStep>)

  datatype Lot = Lot(code: string, name: string, partsListId: nat, partsListVersion: nat,
                     requiredQuantity: nat, labelPackSize: nat)

  datatype Plan = Plan(status: ProjectStatus, rowVersion: nat, code: string, name: string,
                       product: Option<string>, trayQuantity: nat,
                       requirements: seq<Requirement>, parts: seq<Part>, lists: seq<PartsList>,
                       lot: Lot)

  // ---- floor rows ----

  datatype BatchStatus = Planned | Active | Held | Closed | Scrapped

  /** `series` is set on packs minted at release and null on packs created by hand. */
  datatype Batch = Batch(code: string, projectId: nat, partId: nat, plannedQuantity: nat, labelPackSize: nat,
                         requirementId: nat, series: Option<(nat, nat)>, place: Place,
                         status: BatchStatus, rowVersion: nat)

  datatype Position = Position(place: Place, routeStepId: Option<nat>, lastEventId: Option<nat>)

  datatype StageEvent = StageEvent(batchId: nat, place: Place, partId: nat, accepted: bool, routeStepId: Option<nat>)

  datatype Violation = Violation(eventId: nat, batchId: nat, attempted: Place, expected: seq<RoutingStep>)

  /** The scan-out material issue posted when a pack leaves the pre-floor marker. */
  datatype Issuance = Issuance(batchId: nat, destination: Place, quantity: nat)

  datatype InspectionStatus = Open | InProgress | Finished | Cancelled

  datatype Inspection = Inspection(batchId: nat, place: Place, status: InspectionStatus, rowVersion: nat)

  datatype Verdict = Passed | Failed | Hold

  datatype Decision = Decision(inspectionId: nat, verdict: Verdict)

  datatype Disposition = Rework | Scrap | Waive

  datatype Analysis = Analysis(inspectionId: nat, batchId: nat, disposition: Disposition)

  /** The whole database. `nextId` numbers projects, requirements, parts, lists and steps. */
  datatype State = State(plans: map<nat, Plan>, batches: seq<Batch>, positions: map<nat, Position>,
                         events: seq<StageEvent>, violations: seq<Violation>, issuances: seq<Issuance>,
                         inspections: seq<Inspection>, decisions: seq<Decision>, analyses: seq<Analysis>,
                         nextId: nat)

  const EMPTY := State(map[], [], map[], [], [], [], [], [], [], 0)

  // ---- queries ----

  function FindList(lists: seq<PartsList>, id: nat): (list: Option<PartsList>)
    ensures list.Some? ==> list.value in lists && list.value.id == id
    ensures list.None? ==> forall l :: l in lists ==> l.id != id
  {
    if lists == [] then None
    else if lists[0].id == id then Some(lists[0])
    else
      assert lists == [lists[0]] + lists[1..];
      FindList(lists[1..], id)
  }

  function FindPart(parts: seq<Part>, id: nat): (part: Option<Part>)
    ensures part.Some? ==> part.value in parts && part.value.id == id
    ensures part.None? ==> forall p :: p in parts ==> p.id != id
  {
    if parts == [] then None
    else if parts[0].id == id then Some(parts[0])
    else
      assert parts == [parts[0]] + parts[1..];
      FindPart(parts[1..], id)
  }

  /** The steps of the version the lot cites; none when that version is missing. */
  function CitedSteps(plan: Plan): seq<RoutingStep> {
    match FindList(plan.lists, plan.lot.partsListId)
    case Some(list) => list.steps
    case None => []
  }

  /** The route of a pack: its own part's rows in the version its lot cites. */
  function RouteOf(s: State, b: nat): seq<RoutingStep>
    requires b < |s.batches| && s.batches[b].projectId in s.plans
  {
    Route(CitedSteps(s.plans[s.batches[b].projectId]), s.batches[b].partId)
  }

  /** The newest inspection of a pack at a place. */
  function LatestInspection(inspections: seq<Inspection>, b: nat, place: Place): (i: Option<nat>)
    ensures i.Some? ==> i.value < |inspections| && inspections[i.value].batchId == b && inspections[i.value].place == place
  {
    if inspections == [] then None
    else
      var last := |inspections| - 1;
      if inspections[last].batchId == b && inspections[last].place == place then Some(last)
      else LatestInspection(inspections[..last], b, place)
  }

  /** The newest verdict of an inspection. */
  function LatestVerdict(decisions: seq<Decision>, inspectionId: nat): Option<Verdict> {
    if decisions == [] then None
    else
      var last := |decisions| - 1;
      if decisions[last].inspectionId == inspectionId then Some(decisions[last].verdict)
      else LatestVerdict(decisions[..last], inspectionId)
  }

  /** The newest defect analysis of a pack. */
  function LatestDisposition(analyses: seq<Analysis>, b: nat): Option<Disposition> {
    if analyses == [] then None
    else
      var last := |analyses| - 1;
      if analyses[last].batchId == b then Some(analyses[last].disposition)
      else LatestDisposition(analyses[..last], b)
  }

  /** The verdict covering a pack at a place: the newest one of its newest inspection there. */
  function GateVerdict(inspections: seq<Inspection>, decisions: seq<Decision>, b: nat, place: Place): Option<Verdict> {
    match LatestInspection(inspections, b, place)
    case Some(i) => LatestVerdict(decisions, i)
    case None => None
  }

  predicate Terminal(status: BatchStatus) {
    status == Closed || status == Scrapped
  }
}
