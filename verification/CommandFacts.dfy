/** What single commands mean for what is read afterwards: gates, evidence, times, routes. */
module CommandFacts {
  import opened Common
  import opened Routes
  import opened Tables
  import opened FloorCommands
  import opened PlanCommands
  import opened FloorInvariant
  import opened FloorSteps
  import opened PlanInvariant
  import opened PlanSteps
  import opened Production
  import opened Finishing

  // ---- gates ----

  ghost predicate NewestInspection(inspections: seq<Inspection>, b: nat, place: Place, i: nat) {
    && i < |inspections| && inspections[i].batchId == b && inspections[i].place == place
    && forall j :: i < j < |inspections| ==> inspections[j].batchId != b || inspections[j].place != place
  }

  ghost predicate NewestVerdict(decisions: seq<Decision>, i: nat, d: nat) {
    && d < |decisions| && decisions[d].inspectionId == i
    && forall j :: d < j < |decisions| ==> decisions[j].inspectionId != i
  }

  /** The newest verdict of the newest inspection of the pack at the place is a pass. */
  ghost predicate Cleared(inspections: seq<Inspection>, decisions: seq<Decision>, b: nat, place: Place) {
    exists i: nat, d: nat :: NewestInspection(inspections, b, place, i) && NewestVerdict(decisions, i, d) && decisions[d].verdict == Passed
  }

  lemma {:induction false} LatestInspectionIs(inspections: seq<Inspection>, b: nat, place: Place, i: nat)
    ensures LatestInspection(inspections, b, place) == Some(i) <==> NewestInspection(inspections, b, place, i)
  {
    if inspections != [] {
      var last := |inspections| - 1;
      LatestInspectionIs(inspections[..last], b, place, i);
    }
  }

  lemma {:induction false} LatestVerdictIs(decisions: seq<Decision>, i: nat, d: nat)
    requires NewestVerdict(decisions, i, d)
    ensures LatestVerdict(decisions, i) == Some(decisions[d].verdict)
  {
    var last := |decisions| - 1;
    if d < last {
      LatestVerdictIs(decisions[..last], i, d);
    }
  }

  lemma {:induction false} VerdictHasRow(decisions: seq<Decision>, i: nat) returns (d: nat)
    requires LatestVerdict(decisions, i).Some?
    ensures NewestVerdict(decisions, i, d)
  {
    d := |decisions| - 1;
    if decisions[d].inspectionId != i {
      d := VerdictHasRow(decisions[..|decisions| - 1], i);
    }
  }

  lemma ClearedIs(inspections: seq<Inspection>, decisions: seq<Decision>, b: nat, place: Place)
    ensures Cleared(inspections, decisions, b, place) <==> GateVerdict(inspections, decisions, b, place) == Some(Passed)
  {
    if GateVerdict(inspections, decisions, b, place) == Some(Passed) {
      var i := LatestInspection(inspections, b, place).value;
      LatestInspectionIs(inspections, b, place, i);
      var d := VerdictHasRow(decisions, i);
      LatestVerdictIs(decisions, i, d);
    }
    if i: nat, d: nat :| NewestInspection(inspections, b, place, i) && NewestVerdict(decisions, i, d) && decisions[d].verdict == Passed {
      LatestInspectionIs(inspections, b, place, i);
      LatestVerdictIs(decisions, i, d);
    }
  }

  /** After its first hop a pack's next hop is open exactly when it is cleared where it stands. */
  lemma HopOpensExactly(s: State, b: nat)
    requires b < |s.batches| && BatchInv(s, b) && AcceptedOf(s.events, b) != []
    ensures HopPassed(s, b, RouteOf(s, b)) <==> Cleared(s.inspections, s.decisions, b, s.batches[b].place)
  {
    SourceOf(s, b);
    ClearedIs(s.inspections, s.decisions, b, s.batches[b].place);
  }

  /** The context of a scan is the pack's own next step. */
  lemma ContextExactly(s: State, b: nat)
    requires b < |s.batches| && BatchInv(s, b)
    ensures RouteContext(s, b).Ok? <==> |AcceptedOf(s.events, b)| < |RouteOf(s, b)|
    ensures RouteContext(s, b).Ok? ==> RouteContext(s, b).value == Context(RouteOf(s, b), RouteOf(s, b)[|AcceptedOf(s.events, b)|])
  {
    ContextOf(s, b);
    if RouteOf(s, b) != [] {
      CitedExists(s, b);
    }
  }

  // ---- quality ----

  /** A new inspection closes the gate of its pack and place, and no other. */
  lemma InspectionCloses(s: State, b: nat, place: Place, other: nat, elsewhere: Place)
    requires TablesInv(s) && CreateInspection(s, b, place).Ok?
    ensures var t := CreateInspection(s, b, place).value;
            GateVerdict(t.inspections, t.decisions, other, elsewhere)
            == if other == b && elsewhere == place then None else GateVerdict(s.inspections, s.decisions, other, elsewhere)
  {
    var t := CreateInspection(s, b, place).value;
    assert t.inspections[..|s.inspections|] == s.inspections;
    if other == b && elsewhere == place {
      NoVerdictYet(s.decisions, |s.inspections|);
    }
  }

  lemma {:induction false} NoVerdictYet(decisions: seq<Decision>, i: nat)
    requires forall d :: 0 <= d < |decisions| ==> decisions[d].inspectionId != i
    ensures LatestVerdict(decisions, i).None?
  {
    if decisions != [] {
      NoVerdictYet(decisions[..|decisions| - 1], i);
    }
  }

  /** A verdict is its inspection's newest, and decides the gate exactly when the inspection is
      the newest of its pack and place. */
  lemma VerdictCounts(s: State, i: nat, verdict: Verdict, version: nat)
    requires Decide(s, i, verdict, version).Ok?
    ensures var t, row := Decide(s, i, verdict, version).value, s.inspections[i];
            && LatestVerdict(t.decisions, i) == Some(verdict)
            && (forall j :: j != i ==> LatestVerdict(t.decisions, j) == LatestVerdict(s.decisions, j))
            && (LatestInspection(s.inspections, row.batchId, row.place) == Some(i)
                ==> GateVerdict(t.inspections, t.decisions, row.batchId, row.place) == Some(verdict))
            && (forall b, place :: LatestInspection(s.inspections, b, place) != Some(i) ==>
                  GateVerdict(t.inspections, t.decisions, b, place) == GateVerdict(s.inspections, s.decisions, b, place))
  {
    var t := Decide(s, i, verdict, version).value;
    assert t.decisions[..|s.decisions|] == s.decisions;
    forall b, place ensures LatestInspection(t.inspections, b, place) == LatestInspection(s.inspections, b, place) {
      SettledStillLatest(s.inspections, i, t.inspections[i], b, place);
    }
  }

  /** A disposition is its pack's newest, and settles the pack: closed to the floor when scrapped,
      back on it when waived, still held when reworked. */
  lemma DispositionCounts(s: State, i: nat, disposition: Disposition)
    requires Analyse(s, i, disposition).Ok?
    ensures var t, b := Analyse(s, i, disposition).value, s.inspections[i].batchId;
            && b < |s.batches| && |t.batches| == |s.batches|
            && LatestDisposition(t.analyses, b) == Some(disposition)
            && (Terminal(t.batches[b].status) <==> disposition == Scrap)
            && (t.batches[b].status == Active <==> disposition == Waive)
            && (t.batches[b].status == Held <==> disposition == Rework)
            && Analyse(t, i, disposition) == Err(Conflict)
  {
    var t, b := Analyse(s, i, disposition).value, s.inspections[i].batchId;
    AppendAnalysis(s.analyses, Analysis(i, b, disposition), b);
    assert t.analyses[|s.analyses|].inspectionId == i;
  }

  // ---- plans ----

  ghost predicate DistinctPackCodes(batches: seq<Batch>) {
    forall i, j :: 0 <= i < j < |batches| ==> batches[i].code != batches[j].code
  }

  /** The time of a step: the override's where it names the step properly, else the catalog's. */
  predicate Resolves(part: Part, was: Part, times: Option<CycleTimes>, place: Place) {
    ResolveTime(part, place) == if times.Some? && StepTime(times.value, place).Some? then StepTime(times.value, place)
                                else StepTime(was.planned, place)
  }

  ghost predicate Retimed(was: Part, part: Part, times: Option<CycleTimes>) {
    was.id == part.id && forall place :: Resolves(part, was, times, place)
  }

  /** An override decides a step's time where it names the step properly; elsewhere the
      catalog's time stands. No other part changes. */
  ghost predicate Overridden(before: seq<Part>, after: seq<Part>, partId: nat, times: Option<CycleTimes>) {
    forall part :: part in after ==>
      if part.id != partId then part in before else exists was :: was in before && Retimed(was, part, times)
  }

  lemma OverrideResolves(s: State, p: nat, partId: nat, version: nat, times: Option<CycleTimes>)
    requires OverrideCycleTimes(s, p, partId, version, times).Ok?
    ensures Overridden(s.plans[p].parts, OverrideCycleTimes(s, p, partId, version, times).value.plans[p].parts, partId, times)
  {
    var plan := s.plans[p];
    var found := FindPart(plan.parts, partId).value;
    var parts := OverrideCycleTimes(s, p, partId, version, times).value.plans[p].parts;
    forall part | part in parts
      ensures if part.id != partId then part in plan.parts else exists was :: was in plan.parts && Retimed(was, part, times)
    {
      var k :| 0 <= k < |parts| && parts[k] == part;
      if part.id == partId { assert Retimed(found, part, times); }
    }
  }

  /** Removing a part clears its steps from every version and leaves every other part's route. */
  lemma RemovalClears(s: State, p: nat, partId: nat, version: nat, k: nat, other: nat)
    requires RemovePart(s, p, partId, version).Ok? && k < |s.plans[p].lists|
    ensures var lists := RemovePart(s, p, partId, version).value.plans[p].lists;
            && |lists| == |s.plans[p].lists| && lists[k].id == s.plans[p].lists[k].id
            && Route(lists[k].steps, other) == if other == partId then [] else Route(s.plans[p].lists[k].steps, other)
  {
    var steps := s.plans[p].lists[k].steps;
    if other == partId {
      WithoutPartNone(steps, partId);
    } else {
      WithoutPartOthers(steps, partId, other);
    }
  }

  lemma {:induction false} WithoutPartNone(steps: seq<RoutingStep>, partId: nat)
    ensures OfPart(WithoutPart(steps, partId), partId) == []
  {
    if steps != [] {
      WithoutPartNone(steps[1..], partId);
    }
  }

  /** A new version is numbered one above the highest, is the one cited, and holds exactly the
      steps given. */
  lemma VersionCited(s: State, catalog: Catalog, p: nat, version: nat, steps: seq<StepInput>)
    requires PlansInv(s) && CreateRouteVersion(s, catalog, p, version, steps).Ok? && FloorStagesOnly(catalog)
    ensures var plan, cited := CreateRouteVersion(s, catalog, p, version, steps).value.plans[p],
                               CitedSteps(CreateRouteVersion(s, catalog, p, version, steps).value.plans[p]);
            && plan.lot.partsListVersion == HighestVersion(plan.lists) == HighestVersion(s.plans[p].lists) + 1
            && |cited| == |steps| && WellFormedSteps(cited)
            && forall i :: 0 <= i < |steps| ==>
                 cited[i].partId == steps[i].partId && cited[i].place == steps[i].place && cited[i].stepOrder == steps[i].stepOrder
  {
    hide CheckSteps, PlansInv;
    PlanHolds(s, p);
    var t := CreateRouteVersion(s, catalog, p, version, steps).value;
    RouteVersionKeepsPlans(s, catalog, p, version, steps);
    PlanHolds(t, p);
    CitedIsHighest(t.plans[p], t.nextId);
    HighestIsLast(t.plans[p].lists);
  }

  /** The part codes a product structure names, in order. */
  function CodesOf(parts: seq<ModelPart>): seq<string> {
    if parts == [] then [] else [parts[0].code] + CodesOf(parts[1..])
  }

  function StructureCodes(catalog: Catalog, rows: seq<ModelQuantity>): seq<string> {
    if rows == [] then []
    else (if rows[0].modelId in catalog.models then CodesOf(catalog.models[rows[0].modelId].parts) else [])
         + StructureCodes(catalog, rows[1..])
  }

  function PartCodes(parts: seq<Part>): seq<string> {
    seq(|parts|, i requires 0 <= i < |parts| => parts[i].code)
  }

  lemma {:induction false} PartRowsCodes(parts: seq<ModelPart>, requirementId: nat, catalog: Catalog, id: nat)
    ensures PartCodes(PartRows(parts, requirementId, catalog, id).parts) == CodesOf(parts)
    decreases |parts|
  {
    if parts != [] {
      var steps := StepRows(parts[0].routing, 0, id, catalog, id + 1);
      PartRowsCodes(parts[1..], requirementId, catalog, id + 1 + |steps|);
      var rest := PartRows(parts[1..], requirementId, catalog, id + 1 + |steps|);
      var all := PartRows(parts, requirementId, catalog, id).parts;
      assert all == [all[0]] + rest.parts && PartCodes(all) == [all[0].code] + PartCodes(rest.parts);
    }
  }

  lemma {:induction false} ModelRowsCodes(rows: seq<ModelQuantity>, first: nat, catalog: Catalog, id: nat)
    ensures PartCodes(ModelRows(RequirementRows(rows, first), catalog, id).parts) == StructureCodes(catalog, rows)
    decreases |rows|
  {
    if rows != [] {
      var requirements := RequirementRows(rows, first);
      assert requirements[1..] == RequirementRows(rows[1..], first + 1);
      var model := if rows[0].modelId in catalog.models then catalog.models[rows[0].modelId].parts else [];
      var head := PartRows(model, requirements[0].id, catalog, id);
      PartRowsCodes(model, requirements[0].id, catalog, id);
      ModelRowsCodes(rows[1..], first + 1, catalog, head.nextId);
      var rest := ModelRows(requirements[1..], catalog, head.nextId);
      assert PartCodes(head.parts + rest.parts) == PartCodes(head.parts) + PartCodes(rest.parts);
    }
  }

  /** A new project has one part for every part its models' structures name, in order, and
      plans the total of the quantities asked for. */
  lemma CreatedFromStructure(s: State, catalog: Catalog, code: string, name: string, product: Option<string>,
                             batchSize: Option<nat>, lotCode: Option<string>, rows: seq<ModelQuantity>)
    requires CreateProject(s, catalog, code, name, product, batchSize, lotCode, rows).Ok?
    ensures var t := CreateProject(s, catalog, code, name, product, batchSize, lotCode, rows).value;
            && s.nextId in t.plans && t.plans[s.nextId].status == Draft
            && PartCodes(t.plans[s.nextId].parts) == StructureCodes(catalog, rows)
            && t.plans[s.nextId].lot.requiredQuantity == SumQuantities(rows)
            && |t.plans[s.nextId].requirements| == |rows|
  {
    hide ModelRows, RequirementRows, SumQuantities, Unclashing, CheckModels, StructureCodes, PartCodes;
    RequirementRowsInv(rows, s.nextId + 1);
    ModelRowsCodes(rows, s.nextId + 1, catalog, s.nextId + 1 + |rows|);
  }
}
