/** Runs of the system: any commands, by any subject, in any order. */
module Runs {
  import opened Common
  import opened Routes
  import opened Tables
  import opened FloorCommands
  import opened PlanCommands

  datatype Command =
    | ProjectCreate(catalog: Catalog, code: string, name: string, product: Option<string>,
                    batchSize: Option<nat>, lotCode: Option<string>, rows: seq<ModelQuantity>)
    | ProjectPatch(catalog: Catalog, p: nat, version: nat, newName: Option<string>,
                   newProduct: Option<Option<string>>, newBatchSize: Option<nat>)
    | RequirementsReplace(catalog: Catalog, p: nat, version: nat, rows: seq<ModelQuantity>)
    | RouteVersionCreate(catalog: Catalog, p: nat, version: nat, steps: seq<StepInput>)
    | CycleTimesOverride(p: nat, partId: nat, version: nat, times: Option<CycleTimes>)
    | PartRemove(p: nat, partId: nat, version: nat)
    | ProjectDelete(p: nat, ifMatch: Option<nat>)
    | ProjectRelease(p: nat, version: nat, before: (string, string) -> bool)
    | ProjectComplete(p: nat, version: nat)
    | BatchCreate(p: nat, partId: nat, code: string, quantity: nat, packSize: nat, place: Place)
    | StageEventRecord(scan: Scan)
    | InspectionCreate(b: nat, place: Place)
    | DecisionCreate(i: nat, verdict: Verdict, version: nat)
    | AnalysisCreate(i: nat, disposition: Disposition)
    | BatchClose(b: nat)

  /** What one command does. */
  function Apply(s: State, c: Command): Result<State> {
    match c
    case ProjectCreate(catalog, code, name, product, batchSize, lotCode, rows) =>
      CreateProject(s, catalog, code, name, product, batchSize, lotCode, rows)
    case ProjectPatch(catalog, p, version, name, product, batchSize) =>
      PatchProject(s, catalog, p, version, name, product, batchSize)
    case RequirementsReplace(catalog, p, version, rows) => ReplaceRequirements(s, catalog, p, version, rows)
    case RouteVersionCreate(catalog, p, version, steps) => CreateRouteVersion(s, catalog, p, version, steps)
    case CycleTimesOverride(p, partId, version, times) => OverrideCycleTimes(s, p, partId, version, times)
    case PartRemove(p, partId, version) => RemovePart(s, p, partId, version)
    case ProjectDelete(p, ifMatch) => DeleteProject(s, p, ifMatch)
    case ProjectRelease(p, version, before) => ReleaseProject(s, p, version, before)
    case ProjectComplete(p, version) => CompleteProject(s, p, version)
    case BatchCreate(p, partId, code, quantity, packSize, place) =>
      CreateBatch(s, p, partId, code, quantity, packSize, place)
    case StageEventRecord(scan) => RecordScan(s, scan)
    case InspectionCreate(b, place) => CreateInspection(s, b, place)
    case DecisionCreate(i, verdict, version) => Decide(s, i, verdict, version)
    case AnalysisCreate(i, disposition) => Analyse(s, i, disposition)
    case BatchClose(b) => CloseBatch(s, b)
  }

  /** A command commits its whole effect or leaves every table as it was. */
  function Step(s: State, c: Command): State {
    match Apply(s, c)
    case Ok(t) => t
    case Err(_) => s
  }

  function Run(s: State, commands: seq<Command>): State
    decreases |commands|
  {
    if commands == [] then s else Run(Step(s, commands[0]), commands[1..])
  }

  /** What a run is assumed to respect: a draft that has packs gets no new route version, and no
      stage row is named like the pre-floor marker. */
  ghost predicate Allowed(s: State, c: Command) {
    match c
    case ProjectCreate(catalog, _, _, _, _, _, _) => FloorStagesOnly(catalog)
    case RequirementsReplace(catalog, _, _, _) => FloorStagesOnly(catalog)
    case RouteVersionCreate(catalog, p, _, _) =>
      FloorStagesOnly(catalog) && (p in s.plans && s.plans[p].status == Draft ==> !Referenced(s, p))
    case _ => true
  }

  ghost predicate AllowedRun(s: State, commands: seq<Command>)
    decreases |commands|
  {
    commands == [] || (Allowed(s, commands[0]) && AllowedRun(Step(s, commands[0]), commands[1..]))
  }

  lemma {:induction false} RunAppend(s: State, a: seq<Command>, b: seq<Command>)
    ensures Run(s, a + b) == Run(Run(s, a), b)
    ensures AllowedRun(s, a + b) <==> AllowedRun(s, a) && AllowedRun(Run(s, a), b)
    decreases |a|
  {
    if a == [] {
      assert a + b == b;
    } else {
      assert (a + b)[1..] == a[1..] + b;
      RunAppend(Step(s, a[0]), a[1..], b);
    }
  }
}
