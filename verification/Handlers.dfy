/**
 The command handlers as they run: tables updated row by row inside one transaction. Each
 handler is proved against its next-state function, so every guarantee about runs holds of
 the handlers. A handler that answers with a problem has written nothing.
 */
module Handlers {
  import opened Common
  import opened Routes
  import opened Tables
  import opened Minting
  import opened FloorCommands
  import opened PlanCommands
  import opened Runs
  import opened FloorInvariant
  import opened PlanInvariant
  import opened PlanSteps
  import opened Production
  import opened CommandFacts
  import opened Text
  import opened Guarantees
  import opened CommandEffects
  import opened CatalogRows
  import opened ReleasePacks
  import opened ProjectStatus

  /** The command committed exactly the specified state, or refused and wrote nothing. */
  ghost predicate Answers(before: State, specified: Result<State>, after: State, problem: Option<Problem>) {
    match specified
    case Ok(next) => problem == None && after == next
    case Err(p) => problem == Some(p) && after == before
  }

  /** What an answer as specified makes of a command: a step of the system. */
  lemma AnswersStep(before: State, c: Command, after: State, problem: Option<Problem>)
    requires Answers(before, Apply(before, c), after, problem)
    ensures after == Step(before, c) && (problem.None? <==> Apply(before, c).Ok?)
  {
  }

  /** And so it keeps the invariant, when the command is allowed. */
  lemma AnswersKeep(before: State, c: Command, after: State, problem: Option<Problem>)
    requires Answers(before, Apply(before, c), after, problem) && Allowed(before, c)
    ensures Inv(before) ==> Inv(after)
  {
    hide Apply, Step, Allowed, Inv;
    AnswersStep(before, c, after, problem);
    if Inv(before) {
      StepKeeps(before, c);
    }
  }

  /** What a committed scan leaves in a reachable database. */
  ghost predicate ScanRecorded(before: State, c: Scan, after: State) {
    && c.batchId < |before.batches| && before.batches[c.batchId].projectId in before.plans
    && |AcceptedOf(before.events, c.batchId)| < |RouteOf(before, c.batchId)|
    && ScanLeaves(before, c, after)
  }

  lemma ScanAnswered(before: State, c: Scan, after: State)
    requires Answers(before, RecordScan(before, c), after, None)
    ensures Reachable(before) ==> ScanRecorded(before, c, after)
  {
    hide Reachable, RecordScan, ScanLeaves;
    if Reachable(before) {
      ScanWrites(before, c);
    }
  }

  lemma ReplacementAnswered(before: State, catalog: Catalog, p: nat, version: nat, rows: seq<ModelQuantity>, after: State)
    requires Answers(before, ReplaceRequirements(before, catalog, p, version, rows), after, None)
    ensures Reachable(before) ==> p in before.plans && ReplacementLeaves(before, catalog, p, rows, after)
  {
    hide Reachable, ReplaceRequirements, ReplacementLeaves;
    if Reachable(before) {
      ReplacementWrites(before, catalog, p, version, rows);
    }
  }

  lemma ReleaseAnswered(before: State, p: nat, version: nat, order: (string, string) -> bool, after: State)
    requires Answers(before, ReleaseProject(before, p, version, order), after, None)
    ensures p in before.plans && ReleaseLeaves(before, p, after) && |before.batches| <= |after.batches|
    ensures Reachable(before) ==> PacksMinted(before, p, after)
  {
    hide Reachable, ReleaseProject, PacksMinted, ReleaseLeaves;
    ReleaseWrites(before, p, version, order);
    ReleaseGrows(before, p, version, order);
    if Reachable(before) {
      AllPacksMinted(before, p, version, order);
    }
  }

  lemma DecideKeepsInv(before: State, i: nat, verdict: Verdict, version: nat, after: State, problem: Option<Problem>)
    requires Answers(before, Decide(before, i, verdict, version), after, problem)
    ensures Inv(before) ==> Inv(after)
  {
    hide Inv;
    AnswersKeep(before, DecisionCreate(i, verdict, version), after, problem);
  }

  lemma AnalyseKeepsInv(before: State, i: nat, disposition: Disposition, after: State, problem: Option<Problem>)
    requires Answers(before, Analyse(before, i, disposition), after, problem)
    ensures Inv(before) ==> Inv(after)
  {
    hide Inv;
    AnswersKeep(before, AnalysisCreate(i, disposition), after, problem);
  }

  lemma BatchKeepsInv(before: State, p: nat, partId: nat, code: string, quantity: nat, packSize: nat, place: Place, after: State, problem: Option<Problem>)
    requires Answers(before, CreateBatch(before, p, partId, code, quantity, packSize, place), after, problem)
    ensures Inv(before) ==> Inv(after)
  {
    hide Inv;
    AnswersKeep(before, BatchCreate(p, partId, code, quantity, packSize, place), after, problem);
  }

  lemma InspectionKeepsInv(before: State, b: nat, place: Place, after: State, problem: Option<Problem>)
    requires Answers(before, CreateInspection(before, b, place), after, problem)
    ensures Inv(before) ==> Inv(after)
  {
    hide Inv;
    AnswersKeep(before, InspectionCreate(b, place), after, problem);
  }

  lemma KnownPack(s: State, b: nat)
    requires RouteContext(s, b).Ok?
    ensures b < |s.batches|
  {
  }

  lemma CreateAllowed(s: State, c: Command)
    requires c.CycleTimesOverride? || c.PartRemove? || c.ProjectDelete?
    ensures Allowed(s, c)
  {
  }

  lemma NewPackUnscanned(s: State)
    requires Inv(s)
    ensures AcceptedOf(s.events, |s.batches|) == []
  {
    InvTables(s);
    NoneOfNew(s.events, |s.batches|);
  }

  lemma PartStep(parts: seq<ModelPart>, i: nat, requirementId: nat, catalog: Catalog, done: Snapshot)
    requires i < |parts|
    ensures var steps := StepRows(parts[i].routing, 0, done.nextId, catalog, done.nextId + 1);
            var more := Snapshot(done.parts + [Part(done.nextId, parts[i].code, requirementId, parts[i].planned, None, 1)],
                                 done.steps + steps, done.nextId + 1 + |steps|);
            Followed(more, PartRows(parts[i + 1..], requirementId, catalog, more.nextId))
            == Followed(done, PartRows(parts[i..], requirementId, catalog, done.nextId))
  {
    hide StepRows;
    assert parts[i..][0] == parts[i] && parts[i..][1..] == parts[i + 1..];
  }

  /** Snapshots taken one after the other. */
  function Followed(a: Snapshot, b: Snapshot): Snapshot {
    Snapshot(a.parts + b.parts, a.steps + b.steps, b.nextId)
  }

  /** The checks of a version's references, in the order they are made. */
  function ReferencesRefused(plan: Plan, catalog: Catalog, steps: seq<StepInput>): (refused: Option<Problem>)
    ensures CheckSteps(plan, catalog, steps) ==
            if refused.Some? then refused
            else if exists i, j :: 0 <= i < j < |steps| && steps[i].partId == steps[j].partId
                      && (steps[i].place == steps[j].place || steps[i].stepOrder == steps[j].stepOrder) then Some(Conflict)
            else None
  {
    if exists i :: 0 <= i < |steps| && FindPart(plan.parts, steps[i].partId).None? then Some(NotFound)
    else if exists i :: 0 <= i < |steps| && steps[i].place.stageId !in catalog.stages then Some(NotFound)
    else if exists i :: 0 <= i < |steps| && steps[i].place.subStageId.Some?
                        && steps[i].place.subStageId.value !in catalog.subStages then Some(NotFound)
    else if exists i :: 0 <= i < |steps| && steps[i].place.subStageId.Some?
                        && (steps[i].place.subStageId.value, steps[i].place.stageId) !in catalog.eligible then Some(Conflict)
    else None
  }

  lemma VersionAnswers(s: State, catalog: Catalog, p: nat, version: nat, steps: seq<StepInput>)
    requires Inv(s) && FloorStagesOnly(catalog) && CreateRouteVersion(s, catalog, p, version, steps).Ok?
    ensures var t := CreateRouteVersion(s, catalog, p, version, steps).value;
            && p in t.plans && p in s.plans && PlansInv(t)
            && t.plans[p].lot.partsListVersion == HighestVersion(t.plans[p].lists) == HighestVersion(s.plans[p].lists) + 1
            && |CitedSteps(t.plans[p])| == |steps| && WellFormedSteps(CitedSteps(t.plans[p]))
            && forall i :: 0 <= i < |steps| ==>
                 && CitedSteps(t.plans[p])[i].partId == steps[i].partId && CitedSteps(t.plans[p])[i].place == steps[i].place
                 && CitedSteps(t.plans[p])[i].stepOrder == steps[i].stepOrder
  {
    hide CheckSteps, PlanInv;
    VersionCited(s, catalog, p, version, steps);
    RouteVersionKeepsPlans(s, catalog, p, version, steps);
  }

  lemma MintRowsSnoc(plan: Plan, p: nat, part: Part, trays: seq<nat>, q: nat, tray: nat, first: nat, seriesCount: nat,
                     sequence: nat)
    ensures MintRows(plan, p, part, trays + [q], tray, first, seriesCount, sequence)
         == MintRows(plan, p, part, trays, tray, first, seriesCount, sequence)
            + [MintedBatch(plan, p, part, q, tray, first + |trays|, seriesCount, sequence + 1 + |trays|)]
  {
  }

  lemma TraysStep(done: seq<nat>, left: nat, tray: nat, series: nat, seriesCount: nat)
    requires tray > 0 && series <= seriesCount && left > 0
    ensures (done + [Min(tray, left)]) + Trays(left - Min(tray, left), tray, series + 1, seriesCount)
         == done + Trays(left, tray, series, seriesCount)
  {
  }

  lemma PacksNumbered(plan: Plan, p: nat, part: Part, tray: nat, existing: seq<Batch>, sequence: nat)
    requires tray > 0
    ensures FindRequirement(plan.requirements, part.requirementId).Some? ==>
              exists count: nat :: NumberedPacks(MintPart(plan, p, part, tray, existing, sequence), plan, p, part, tray, existing, count)
  {
    hide MintPart, HoldsIn, PartPacks;
    if FindRequirement(plan.requirements, part.requirementId).Some? {
      var r := FindRequirement(plan.requirements, part.requirementId).value.requiredQuantity;
      MintPartPacks(plan, p, part, tray, existing, sequence);
      SeriesHolds(r, tray);
      assert NumberedPacks(MintPart(plan, p, part, tray, existing, sequence), plan, p, part, tray, existing, SeriesCount(r, tray));
    }
  }

  /** A part's new packs are numbered on from those there were, of the count that holds its requirement. */
  ghost predicate NumberedPacks(minted: seq<Batch>, plan: Plan, p: nat, part: Part, tray: nat, existing: seq<Batch>, count: nat)
    requires tray > 0 && FindRequirement(plan.requirements, part.requirementId).Some?
  {
    var r := FindRequirement(plan.requirements, part.requirementId).value.requiredQuantity;
    HoldsIn(r, tray, count) && PartPacks(minted, PacksOf(existing, p, part.id), p, part, r, tray, count, Planned)
  }

  /** The packs of one minting run through the parts in order, coded on from the packs there were. */
  ghost predicate CodedInOrder(minted: seq<Batch>, lotCode: string, p: nat, parts: seq<Part>, existing: seq<Batch>) {
    && PartByPart(minted, parts)
    && forall i :: 0 <= i < |minted| ==> minted[i].code == lotCode + "-B" + Padded(|PacksIn(existing, p)| + 1 + i)
  }

  lemma PacksCoded(plan: Plan, p: nat, parts: seq<Part>, tray: nat, existing: seq<Batch>)
    requires tray > 0
    ensures CodedInOrder(MintParts(plan, p, parts, tray, existing, InProject(existing, p)), plan.lot.code, p, parts, existing)
  {
    hide MintParts, PartByPart;
    MintedPartByPart(plan, p, parts, tray, existing, InProject(existing, p));
    MintedCodes(plan, p, parts, tray, existing, InProject(existing, p));
    ProjectCounted(existing, p);
  }

  lemma OneMorePart(plan: Plan, p: nat, parts: seq<Part>, i: nat, tray: nat, existing: seq<Batch>, minted: seq<Batch>,
                    more: seq<Batch>, sequence: nat)
    requires tray > 0 && i < |parts| && more == MintPart(plan, p, parts[i], tray, existing + minted, sequence)
    ensures minted + MintParts(plan, p, parts[i..], tray, existing + minted, sequence)
         == (minted + more) + MintParts(plan, p, parts[i + 1..], tray, existing + (minted + more), sequence + |more|)
  {
    hide MintPart;
    assert parts[i..][1..] == parts[i + 1..];
    assert (existing + minted) + more == existing + (minted + more);
    var rest := MintParts(plan, p, parts[i + 1..], tray, existing + (minted + more), sequence + |more|);
    assert minted + (more + rest) == (minted + more) + rest;
  }

  lemma NoMoreParts(plan: Plan, p: nat, tray: nat, existing: seq<Batch>, sequence: nat)
    requires tray > 0
    ensures MintParts(plan, p, [], tray, existing, sequence) == []
  {
  }

  lemma OneMoreRequirement(done: seq<Requirement>, rows: seq<ModelQuantity>, i: nat, id: nat)
    requires i < |rows|
    ensures done + RequirementRows(rows[i..], id + i)
         == (done + [Requirement(id + i, rows[i].modelId, rows[i].requiredQuantity)]) + RequirementRows(rows[i + 1..], id + (i + 1))
  {
    assert rows[i..][0] == rows[i] && rows[i..][1..] == rows[i + 1..];
  }

  lemma NoMoreRequirements(id: nat)
    ensures RequirementRows([], id) == []
  {
  }

  lemma NoRows(plan: Plan, p: nat, part: Part, tray: nat, first: nat, seriesCount: nat, sequence: nat)
    ensures MintRows(plan, p, part, [], tray, first, seriesCount, sequence) == []
  {
  }

  class Database {
    var plans: map<nat, Plan>
    var batches: seq<Batch>
    var positions: map<nat, Position>
    var events: seq<StageEvent>
    var violations: seq<Violation>
    var issuances: seq<Issuance>
    var inspections: seq<Inspection>
    var decisions: seq<Decision>
    var analyses: seq<Analysis>
    var nextId: nat

    function Now(): State
      reads this
    {
      State(plans, batches, positions, events, violations, issuances, inspections, decisions, analyses, nextId)
    }

    constructor ()
      ensures Now() == EMPTY
    {
      plans, batches, positions, events, violations := map[], [], map[], [], [];
      issuances, inspections, decisions, analyses, nextId := [], [], [], [], 0;
    }

    // ---- floor ----

    /** The pack's route and next step, or why there is none: the next step is the one after the
        pack's accepted scans. */
    method BatchRouteContext(b: nat) returns (context: Result<Context>)
      ensures context == RouteContext(Now(), b)
      ensures b < |batches| && BatchInv(Now(), b) ==>
                (context.Ok? <==> |AcceptedOf(events, b)| < |RouteOf(Now(), b)|)
      ensures b < |batches| && BatchInv(Now(), b) && context.Ok? ==>
                context.value == Context(RouteOf(Now(), b), RouteOf(Now(), b)[|AcceptedOf(events, b)|])
    {
      hide BatchInv, AcceptedOf, Ordered, FirstBeyond;
      if b < |batches| && BatchInv(Now(), b) {
        ContextExactly(Now(), b);
      }
      if b >= |batches| || batches[b].projectId !in plans { return Err(NotFound); }
      var batch, plan := batches[b], plans[batches[b].projectId];
      var list := FindList(plan.lists, plan.lot.partsListId);
      if list.None? { return Err(Conflict); }
      var route := OfPart(Ordered(list.value.steps), batch.partId);
      if route == [] { return Err(Conflict); }
      var current := if b in positions then positions[b].routeStepId else None;
      var currentIndex := if current.Some? then IndexOfStep(route, current.value) else -1;
      var expected := FirstBeyond(route, if currentIndex < 0 then -1 else route[currentIndex].stepOrder);
      if expected.None? { return Err(Conflict); }
      return Ok(Context(route, expected.value));
    }

    /** The newest inspection of a pack at a place, looked up from the newest row back. */
    method InspectionAt(b: nat, place: Place) returns (i: Option<nat>)
      ensures i == LatestInspection(inspections, b, place)
      ensures i.Some? ==> NewestInspection(inspections, b, place, i.value)
    {
      var n := |inspections|;
      assert inspections[..n] == inspections;
      while n > 0
        invariant n <= |inspections|
        invariant LatestInspection(inspections[..n], b, place) == LatestInspection(inspections, b, place)
        invariant forall j :: n <= j < |inspections| ==> inspections[j].batchId != b || inspections[j].place != place
      {
        assert inspections[..n][..n - 1] == inspections[..n - 1];
        if inspections[n - 1].batchId == b && inspections[n - 1].place == place {
          return Some(n - 1);
        }
        n := n - 1;
      }
      return None;
    }

    /** The newest verdict of an inspection, looked up from the newest row back. */
    method VerdictOf(i: nat) returns (verdict: Option<Verdict>)
      ensures verdict == LatestVerdict(decisions, i)
      ensures verdict.Some? ==> exists d: nat :: NewestVerdict(decisions, i, d) && decisions[d].verdict == verdict.value
    {
      var n := |decisions|;
      assert decisions[..n] == decisions;
      while n > 0
        invariant n <= |decisions|
        invariant LatestVerdict(decisions[..n], i) == LatestVerdict(decisions, i)
        invariant forall j :: n <= j < |decisions| ==> decisions[j].inspectionId != i
      {
        assert decisions[..n][..n - 1] == decisions[..n - 1];
        if decisions[n - 1].inspectionId == i {
          assert NewestVerdict(decisions, i, n - 1);
          return Some(decisions[n - 1].verdict);
        }
        n := n - 1;
      }
      return None;
    }

    /** Whether the source step's place is cleared: after a first hop, the place the pack stands at. */
    method HopGate(b: nat, route: seq<RoutingStep>) returns (open: bool)
      requires b < |batches|
      ensures open == HopPassed(Now(), b, route)
      ensures BatchInv(Now(), b) && AcceptedOf(events, b) != [] && route == RouteOf(Now(), b) ==>
                (open <==> Cleared(inspections, decisions, b, batches[b].place))
    {
      hide BatchInv, AcceptedOf, Cleared, LatestInspection, LatestVerdict;
      if BatchInv(Now(), b) && AcceptedOf(events, b) != [] {
        HopOpensExactly(Now(), b);
      }
      var byId := -1;
      if b in positions && positions[b].routeStepId.Some? {
        byId := IndexOfStep(route, positions[b].routeStepId.value);
      }
      var source := if byId >= 0 then Some(route[byId]) else FirstAt(route, Standpoint(Now(), b));
      if source.None? { return false; }
      var inspection := InspectionAt(b, source.value.place);
      if inspection.None? { return false; }
      var verdict := VerdictOf(inspection.value);
      return verdict.Some? && verdict.value == Passed;
    }

    method StageEventRecord(c: Scan) returns (problem: Option<Problem>)
      modifies this
      ensures Answers(old(Now()), RecordScan(old(Now()), c), Now(), problem)
      ensures problem.None? && Reachable(old(Now())) ==> ScanRecorded(old(Now()), c, Now())
    {
      hide Reachable, ScanRecorded;
      hide RouteContext;
      hide HopPassed;
      var context := BatchRouteContext(c.batchId);
      if context.Err? { return Some(context.problem); }
      var b, route, expected := c.batchId, context.value.route, context.value.expected;
      KnownPack(Now(), b);
      var batch := batches[b];
      if batch.status == Closed || batch.status == Scrapped { return Some(Conflict); }
      if batch.status == Held { return Some(Conflict); }
      var accepted := expected.place == c.place;
      if c.partId.Some? && c.partId.value != batch.partId { return Some(Conflict); }
      var eventId := |events|;
      var event := StageEvent(b, c.place, batch.partId, accepted, if accepted then Some(expected.id) else None);
      if accepted {
        var preRoute := Standpoint(Now(), b).stageId == PRE_FLOOR;
        if preRoute {
          var released := if c.quantity.Some? then c.quantity.value else batch.plannedQuantity;
          issuances := issuances + [Issuance(b, expected.place, released)];
        } else {
          var open := HopGate(b, route);
          if !open { return Some(Conflict); }
        }
        events := events + [event];
        batches := batches[b := batch.(place := c.place, rowVersion := batch.rowVersion + 1)];
        positions := positions[b := Position(c.place, Some(expected.id), Some(eventId))];
      } else {
        events := events + [event];
        violations := violations + [Violation(eventId, b, c.place, route)];
      }
      ScanAnswered(old(Now()), c, Now());
      return None;
    }

    /** Whether a batch code is taken. */
    method CodeTaken(code: string) returns (taken: bool)
      ensures taken <==> exists i :: 0 <= i < |batches| && batches[i].code == code
    {
      var i := 0;
      while i < |batches|
        invariant 0 <= i <= |batches|
        invariant forall j :: 0 <= j < i ==> batches[j].code != code
      {
        if batches[i].code == code { return true; }
        i := i + 1;
      }
      return false;
    }

    /** A new pack is planned and unscanned, batch codes stay distinct, and the invariant holds on. */
    method BatchCreate(projectId: nat, partId: nat, code: string, quantity: nat, packSize: nat, place: Place)
      returns (problem: Option<Problem>)
      modifies this
      ensures Answers(old(Now()), CreateBatch(old(Now()), projectId, partId, code, quantity, packSize, place), Now(), problem)
      ensures Inv(old(Now())) ==> Inv(Now())
      ensures DistinctPackCodes(old(batches)) ==> DistinctPackCodes(batches)
      ensures problem.None? && Inv(old(Now())) ==>
                |batches| == |old(batches)| + 1 && AcceptedOf(events, |old(batches)|) == [] && batches[|old(batches)|].status == Planned
    {
      hide Inv, Allowed, AcceptedOf;
      ghost var before := Now();
      if projectId !in plans {
        problem := Some(NotFound);
      } else {
        var part := FindPart(plans[projectId].parts, partId);
        var taken := CodeTaken(code);
        if part.None? {
          problem := Some(NotFound);
        } else if taken {
          problem := Some(Conflict);
        } else {
          var id := |batches|;
          batches := batches + [Batch(code, projectId, partId, quantity, packSize, part.value.requirementId, None, place, Planned, 1)];
          positions := positions[id := Position(place, None, None)];
          problem := None;
          if Inv(before) {
            NewPackUnscanned(before);
          }
        }
      }
      BatchKeepsInv(before, projectId, partId, code, quantity, packSize, place, Now(), problem);
    }

    /** A new inspection closes the gate of its own pack and place until it is decided. */
    method InspectionCreate(b: nat, place: Place) returns (problem: Option<Problem>)
      modifies this
      ensures Answers(old(Now()), CreateInspection(old(Now()), b, place), Now(), problem)
      ensures Inv(old(Now())) ==> Inv(Now())
      ensures problem.None? && Inv(old(Now())) ==>
                forall other, elsewhere :: GateVerdict(inspections, decisions, other, elsewhere)
                  == if other == b && elsewhere == place then None
                     else GateVerdict(old(inspections), old(decisions), other, elsewhere)
    {
      hide Inv, Allowed, GateVerdict;
      ghost var before := Now();
      if b >= |batches| {
        problem := Some(NotFound);
      } else {
        inspections := inspections + [Inspection(b, place, Open, 1)];
        problem := None;
        if Inv(before) {
          InvTables(before);
          forall other, elsewhere {
            InspectionCloses(before, b, place, other, elsewhere);
          }
        }
      }
      InspectionKeepsInv(before, b, place, Now(), problem);
    }

    /** A verdict becomes its inspection's newest, decides the gate where that inspection is the
        newest, and holds the pack unless it is a pass; it moves no pack. */
    method QualityDecisionCreate(i: nat, verdict: Verdict, expectedVersion: nat) returns (problem: Option<Problem>)
      modifies this
      ensures Answers(old(Now()), Decide(old(Now()), i, verdict, expectedVersion), Now(), problem)
      ensures Inv(old(Now())) ==> Inv(Now())
      ensures problem.None? ==>
                && i < |old(inspections)| && LatestVerdict(decisions, i) == Some(verdict)
                && (LatestInspection(old(inspections), old(inspections)[i].batchId, old(inspections)[i].place) == Some(i) ==>
                      GateVerdict(inspections, decisions, old(inspections)[i].batchId, old(inspections)[i].place) == Some(verdict))
                && (forall b, place :: LatestInspection(old(inspections), b, place) != Some(i) ==>
                      GateVerdict(inspections, decisions, b, place) == GateVerdict(old(inspections), old(decisions), b, place))
      ensures problem.None? ==>
                && events == old(events) && positions == old(positions) && |batches| == |old(batches)|
                && forall b :: 0 <= b < |batches| ==> batches[b].place == old(batches)[b].place
    {
      hide Inv, Allowed, GateVerdict, LatestVerdict, LatestInspection;
      ghost var before := Now();
      if i >= |inspections| || inspections[i].batchId >= |batches| {
        problem := Some(NotFound);
      } else {
        var inspection := inspections[i];
        if inspection.rowVersion != expectedVersion {
          problem := Some(StaleVersion);
        } else if inspection.status == Finished || inspection.status == Cancelled {
          problem := Some(Conflict);
        } else {
          decisions := decisions + [Decision(i, verdict)];
          var settled := if verdict == Hold then InProgress else Finished;
          inspections := inspections[i := inspection.(status := settled, rowVersion := inspection.rowVersion + 1)];
          if verdict != Passed {
            var batch := batches[inspection.batchId];
            batches := batches[inspection.batchId := batch.(status := Held, rowVersion := batch.rowVersion + 1)];
          }
          problem := None;
          VerdictCounts(before, i, verdict, expectedVersion);
        }
      }
      DecideKeepsInv(before, i, verdict, expectedVersion, Now(), problem);
    }

    /** Whether an inspection has been analysed. */
    method Analysed(i: nat) returns (analysed: bool)
      ensures analysed <==> exists a :: 0 <= a < |analyses| && analyses[a].inspectionId == i
    {
      var a := 0;
      while a < |analyses|
        invariant 0 <= a <= |analyses|
        invariant forall j :: 0 <= j < a ==> analyses[j].inspectionId != i
      {
        if analyses[a].inspectionId == i { return true; }
        a := a + 1;
      }
      return false;
    }

    /** A disposition becomes its pack's newest: SCRAP ends the pack, WAIVE returns it to the
        floor, REWORK leaves it held; and an inspection is analysed at most once. */
    method DefectAnalysisCreate(i: nat, disposition: Disposition) returns (problem: Option<Problem>)
      modifies this
      ensures Answers(old(Now()), Analyse(old(Now()), i, disposition), Now(), problem)
      ensures Inv(old(Now())) ==> Inv(Now())
      ensures problem.None? ==>
                && i < |inspections| && inspections[i].batchId < |batches|
                && var b := inspections[i].batchId;
                   && LatestDisposition(analyses, b) == Some(disposition)
                   && (Terminal(batches[b].status) <==> disposition == Scrap)
                   && (batches[b].status == Active <==> disposition == Waive)
                   && (batches[b].status == Held <==> disposition == Rework)
                   && Analyse(Now(), i, disposition) == Err(Conflict)
    {
      hide Inv, Allowed, LatestVerdict, LatestDisposition;
      ghost var before := Now();
      var analysed := Analysed(i);
      if i >= |inspections| {
        problem := Some(NotFound);
      } else {
        var latest := VerdictOf(i);
        var b := inspections[i].batchId;
        if latest.None? || latest.value == Passed {
          problem := Some(Conflict);
        } else if analysed {
          problem := Some(Conflict);
        } else if b >= |batches| {
          problem := Some(NotFound);
        } else if batches[b].status == Closed || batches[b].status == Scrapped {
          problem := Some(Conflict);
        } else {
          analyses := analyses + [Analysis(i, b, disposition)];
          var batch := batches[b];
          var status := if disposition == Scrap then Scrapped else if disposition == Waive then Active else Held;
          batches := batches[b := batch.(status := status, rowVersion := batch.rowVersion + 1)];
          problem := None;
          DispositionCounts(before, i, disposition);
        }
      }
      AnalyseKeepsInv(before, i, disposition, Now(), problem);
    }

    method BatchClosure(b: nat) returns (problem: Option<Problem>)
      modifies this
      ensures Answers(old(Now()), CloseBatch(old(Now()), b), Now(), problem)
    {
      if b >= |batches| || batches[b].projectId !in plans { return Some(NotFound); }
      var batch := batches[b];
      if batch.status == Closed || batch.status == Scrapped { return Some(Conflict); }
      if batch.status != Active { return Some(Conflict); }
      var route := Route(CitedSteps(plans[batch.projectId]), batch.partId);
      if route == [] { return Some(Conflict); }
      var current := if b in positions then positions[b].routeStepId else None;
      var currentIndex := if current.Some? then IndexOfStep(route, current.value) else -1;
      var threshold := if currentIndex < 0 then -1 else route[currentIndex].stepOrder;
      if exists k :: 0 <= k < |route| && route[k].stepOrder > threshold { return Some(Conflict); }
      var verdict := if currentIndex < 0 then None else GateVerdict(inspections, decisions, b, route[currentIndex].place);
      if verdict != Some(Passed) { return Some(Conflict); }
      batches := batches[b := batch.(status := Closed, rowVersion := batch.rowVersion + 1)];
      return None;
    }

    // ---- planning ----

    /** One requirement row per model asked for. */
    method RequirementLoop(rows: seq<ModelQuantity>, id: nat) returns (requirements: seq<Requirement>)
      ensures requirements == RequirementRows(rows, id)
    {
      hide RequirementRows;
      requirements := [];
      var i := 0;
      assert rows[0..] == rows;
      while i < |rows|
        invariant 0 <= i <= |rows| && |requirements| == i
        invariant requirements + RequirementRows(rows[i..], id + i) == RequirementRows(rows, id)
      {
        OneMoreRequirement(requirements, rows, i, id);
        requirements := requirements + [Requirement(id + i, rows[i].modelId, rows[i].requiredQuantity)];
        i := i + 1;
      }
      assert rows[i..] == [];
      NoMoreRequirements(id + i);
    }

    /** The route rows of one part: stored entries read in turn, the unusable ones skipped. */
    method StepLoop(raw: seq<RawStep>, partId: nat, catalog: Catalog, id: nat) returns (steps: seq<RoutingStep>)
      ensures steps == StepRows(raw, 0, partId, catalog, id)
    {
      steps := [];
      var i := 0;
      assert raw[0..] == raw;
      while i < |raw|
        invariant 0 <= i <= |raw|
        invariant steps + StepRows(raw[i..], i, partId, catalog, id + |steps|) == StepRows(raw, 0, partId, catalog, id)
      {
        hide KeepsStep, StepOrder;
        assert raw[i..][0] == raw[i] && raw[i..][1..] == raw[i + 1..];
        if KeepsStep(raw[i], catalog) {
          var step := RoutingStep(id + |steps|, partId, Place(raw[i].stageId.value, raw[i].subStageId), StepOrder(raw[i], i));
          steps := steps + [step];
        }
        i := i + 1;
      }
      assert raw[i..] == [];
    }

    /** One part and its route rows per part of a model's structure. */
    method PartLoop(parts: seq<ModelPart>, requirementId: nat, catalog: Catalog, id: nat) returns (snapshot: Snapshot)
      ensures snapshot == PartRows(parts, requirementId, catalog, id)
    {
      hide StepRows;
      snapshot := Snapshot([], [], id);
      var i := 0;
      assert parts[0..] == parts;
      while i < |parts|
        invariant 0 <= i <= |parts|
        invariant Followed(snapshot, PartRows(parts[i..], requirementId, catalog, snapshot.nextId)) == PartRows(parts, requirementId, catalog, id)
      {
        hide PartRows;
        var partId := snapshot.nextId;
        var steps := StepLoop(parts[i].routing, partId, catalog, partId + 1);
        PartStep(parts, i, requirementId, catalog, snapshot);
        snapshot := Snapshot(snapshot.parts + [Part(partId, parts[i].code, requirementId, parts[i].planned, None, 1)],
                             snapshot.steps + steps, partId + 1 + |steps|);
        i := i + 1;
      }
      assert parts[i..] == [];
    }

    /** The snapshot of all models' structures, requirement by requirement. */
    method SnapshotLoop(requirements: seq<Requirement>, catalog: Catalog, id: nat) returns (snapshot: Snapshot)
      ensures snapshot == ModelRows(requirements, catalog, id)
    {
      hide PartRows;
      snapshot := Snapshot([], [], id);
      var i := 0;
      assert requirements[0..] == requirements;
      while i < |requirements|
        invariant 0 <= i <= |requirements|
        invariant Followed(snapshot, ModelRows(requirements[i..], catalog, snapshot.nextId)) == ModelRows(requirements, catalog, id)
      {
        var row := requirements[i];
        var parts := if row.modelId in catalog.models then catalog.models[row.modelId].parts else [];
        var more := PartLoop(parts, row.id, catalog, snapshot.nextId);
        assert requirements[i..][0] == row && requirements[i..][1..] == requirements[i + 1..];
        snapshot := Followed(snapshot, more);
        i := i + 1;
      }
      assert requirements[i..] == [];
    }

    /** The rows a plan gets from the catalog. */
    method RebuildFrom(plan: Plan, catalog: Catalog, rows: seq<ModelQuantity>, id: nat) returns (rebuilt: Plan)
      ensures rebuilt == Rebuilt(plan, catalog, rows, id)
    {
      var requirements := RequirementLoop(rows, id);
      var snapshot := SnapshotLoop(requirements, catalog, id + |rows|);
      var list := PartsList(snapshot.nextId, 1, snapshot.steps);
      rebuilt := plan.(requirements := requirements, parts := snapshot.parts, lists := [list]);
      rebuilt := rebuilt.(lot := plan.lot.(partsListId := list.id, partsListVersion := 1, requiredQuantity := SumQuantities(rows)));
      rebuilt := rebuilt.(rowVersion := plan.rowVersion + 1);
    }

    /** A committed project has one part for every part its models' structures name, in order, and
        plans the total asked for; with floor stages only, the invariant holds on. */
    method ProjectCreate(catalog: Catalog, code: string, name: string, product: Option<string>,
                         batchSize: Option<nat>, lotCode: Option<string>, rows: seq<ModelQuantity>)
      returns (problem: Option<Problem>)
      modifies this
      ensures Answers(old(Now()), CreateProject(old(Now()), catalog, code, name, product, batchSize, lotCode, rows), Now(), problem)
      ensures FloorStagesOnly(catalog) && Inv(old(Now())) ==> Inv(Now())
      ensures problem.None? ==>
                && old(nextId) in plans && PartCodes(plans[old(nextId)].parts) == StructureCodes(catalog, rows)
                && plans[old(nextId)].lot.requiredQuantity == SumQuantities(rows)
                && |plans[old(nextId)].requirements| == |rows|
    {
      hide CheckModels, Rebuilt, Unclashing, Inv, SumQuantities, PartCodes, StructureCodes, BlankPlan;
      ghost var before := Now();
      if product.Some? && product.value !in catalog.products {
        problem := Some(NotFound);
      } else {
        problem := CheckModels(catalog, product, rows);
        if problem.None? {
          var plan := RebuildFrom(BlankPlan(code, name, product, batchSize, lotCode), catalog, rows, nextId + 1);
          if !Unclashing(plan) {
            problem := Some(Conflict);
          } else {
            plans := plans[nextId := plan];
            nextId := plan.lot.partsListId + 1;
            CreatedFromStructure(before, catalog, code, name, product, batchSize, lotCode, rows);
          }
        }
      }
      if FloorStagesOnly(catalog) {
        AnswersKeep(before, Command.ProjectCreate(catalog, code, name, product, batchSize, lotCode, rows), Now(), problem);
      }
    }

    method ProjectPatch(catalog: Catalog, p: nat, expectedVersion: nat, name: Option<string>,
                        product: Option<Option<string>>, batchSize: Option<nat>)
      returns (problem: Option<Problem>)
      modifies this
      ensures Answers(old(Now()), PatchProject(old(Now()), catalog, p, expectedVersion, name, product, batchSize), Now(), problem)
    {
      if p !in plans { return Some(NotFound); }
      if plans[p].rowVersion != expectedVersion { return Some(StaleVersion); }
      if plans[p].status != Draft { return Some(Conflict); }
      if product.Some? && product.value.Some? && product.value.value !in catalog.products { return Some(NotFound); }
      var plan := plans[p];
      if batchSize.Some? {
        plan := plan.(trayQuantity := batchSize.value);
        plan := plan.(lot := plan.lot.(labelPackSize := batchSize.value));
      }
      plan := plan.(rowVersion := plan.rowVersion + 1);
      if product.Some? {
        plan := plan.(product := product.value);
      }
      if name.Some? {
        plan := plan.(name := name.value);
        plan := plan.(lot := plan.lot.(name := name.value));
      }
      plans := plans[p := plan];
      return None;
    }

    /** Each prior requirement takes its new quantity in place. */
    method RequantifyLoop(prior: seq<Requirement>, rows: seq<ModelQuantity>) returns (requirements: seq<Requirement>)
      ensures requirements == Requantified(prior, rows)
    {
      requirements := prior;
      var i := 0;
      assert requirements[..0] + Requantified(requirements[0..], rows) == Requantified(prior, rows) by {
        assert requirements[0..] == prior;
      }
      while i < |requirements|
        invariant 0 <= i <= |requirements| == |prior|
        invariant requirements[..i] + Requantified(requirements[i..], rows) == Requantified(prior, rows)
      {
        var row := requirements[i];
        assert requirements[i..][1..] == requirements[i + 1..];
        var updated := row.(requiredQuantity := QuantityFor(rows, row.modelId, row.requiredQuantity));
        assert requirements[i := updated][..i + 1] == requirements[..i] + [updated];
        assert requirements[i := updated][i + 1..] == requirements[i + 1..];
        requirements := requirements[i := updated];
        i := i + 1;
      }
      assert requirements[..i] == requirements && requirements[i..] == [];
    }

    method ModelRequirementsReplace(catalog: Catalog, p: nat, expectedVersion: nat, rows: seq<ModelQuantity>)
      returns (problem: Option<Problem>)
      modifies this
      ensures Answers(old(Now()), ReplaceRequirements(old(Now()), catalog, p, expectedVersion, rows), Now(), problem)
      ensures problem.None? && Reachable(old(Now())) ==>
                p in old(plans) && ReplacementLeaves(old(Now()), catalog, p, rows, Now())
    {
      hide Reachable, ReplacementLeaves;
      hide CheckModels;
      hide Rebuilt;
      hide Unclashing;
      if p !in plans { return Some(NotFound); }
      var plan := plans[p];
      if plan.rowVersion != expectedVersion { return Some(StaleVersion); }
      if plan.status != Draft { return Some(Conflict); }
      var refused := CheckModels(catalog, plan.product, rows);
      if refused.Some? { return refused; }
      if SameModelSet(plan.requirements, rows) {
        if plan.lists == [] { return Some(Conflict); }
        var requirements := RequantifyLoop(plan.requirements, rows);
        plan := plan.(requirements := requirements);
        plan := plan.(lot := plan.lot.(requiredQuantity := SumQuantities(rows)));
        plans := plans[p := plan.(rowVersion := plan.rowVersion + 1)];
        ReplacementAnswered(old(Now()), catalog, p, expectedVersion, rows, Now());
        return None;
      }
      if exists b :: 0 <= b < |batches| && batches[b].projectId == p { return Some(Unhandled); }
      var rebuilt := RebuildFrom(plan, catalog, rows, nextId);
      if !Unclashing(rebuilt) { return Some(Conflict); }
      plans := plans[p := rebuilt];
      nextId := rebuilt.lot.partsListId + 1;
      ReplacementAnswered(old(Now()), catalog, p, expectedVersion, rows, Now());
      return None;
    }

    /** Whether a part repeats a place or an order, found with sets of what has been seen. */
    method Repeats(steps: seq<StepInput>) returns (repeats: bool)
      ensures repeats <==> exists i, j :: 0 <= i < j < |steps| && steps[i].partId == steps[j].partId
                             && (steps[i].place == steps[j].place || steps[i].stepOrder == steps[j].stepOrder)
    {
      var identities: set<(nat, Place)>, orders: set<(nat, int)> := {}, {};
      var k := 0;
      while k < |steps|
        invariant 0 <= k <= |steps|
        invariant forall x :: x in identities <==> exists i :: 0 <= i < k && x == (steps[i].partId, steps[i].place)
        invariant forall x :: x in orders <==> exists i :: 0 <= i < k && x == (steps[i].partId, steps[i].stepOrder)
        invariant forall i, j :: 0 <= i < j < k && steps[i].partId == steps[j].partId ==>
                    steps[i].place != steps[j].place && steps[i].stepOrder != steps[j].stepOrder
      {
        var identity, order := (steps[k].partId, steps[k].place), (steps[k].partId, steps[k].stepOrder);
        if identity in identities || order in orders { return true; }
        identities := identities + {identity};
        orders := orders + {order};
        k := k + 1;
      }
      return false;
    }

    /** The rows of a new version. */
    method InputLoop(steps: seq<StepInput>, id: nat) returns (rows: seq<RoutingStep>)
      ensures rows == InputRows(steps, id)
    {
      rows := [];
      var i := 0;
      while i < |steps|
        invariant 0 <= i <= |steps| && |rows| == i
        invariant forall k :: 0 <= k < i ==> rows[k] == RoutingStep(id + k, steps[k].partId, steps[k].place, steps[k].stepOrder)
      {
        rows := rows + [RoutingStep(id + i, steps[i].partId, steps[i].place, steps[i].stepOrder)];
        i := i + 1;
      }
    }

    /** The new version is numbered one above the highest, is the one cited, and holds exactly the
        steps given. */
    method PartsListVersionCreate(catalog: Catalog, p: nat, expectedVersion: nat, steps: seq<StepInput>)
      returns (problem: Option<Problem>)
      modifies this
      ensures Answers(old(Now()), CreateRouteVersion(old(Now()), catalog, p, expectedVersion, steps), Now(), problem)
      ensures problem.None? && Inv(old(Now())) && FloorStagesOnly(catalog) ==>
                && p in plans && p in old(plans) && PlansInv(Now())
                && plans[p].lot.partsListVersion == HighestVersion(plans[p].lists) == HighestVersion(old(plans)[p].lists) + 1
                && |CitedSteps(plans[p])| == |steps| && WellFormedSteps(CitedSteps(plans[p]))
                && forall i :: 0 <= i < |steps| ==>
                     && CitedSteps(plans[p])[i].partId == steps[i].partId && CitedSteps(plans[p])[i].place == steps[i].place
                     && CitedSteps(plans[p])[i].stepOrder == steps[i].stepOrder
    {
      hide Inv, PlansInv, CitedSteps, HighestVersion;
      ghost var before := Now();
      if exists i :: 0 <= i < |steps| && steps[i].stepOrder < 1 { return Some(Malformed); }
      if p !in plans { return Some(NotFound); }
      var plan := plans[p];
      if plan.rowVersion != expectedVersion { return Some(StaleVersion); }
      if plan.status != Draft { return Some(Conflict); }
      var refused := ReferencesRefused(plan, catalog, steps);
      if refused.Some? { return refused; }
      var repeats := Repeats(steps);
      if repeats { return Some(Conflict); }
      var rows := InputLoop(steps, nextId);
      var list := PartsList(nextId + |steps|, HighestVersion(plan.lists) + 1, rows);
      plan := plan.(lists := plan.lists + [list]);
      plan := plan.(lot := plan.lot.(partsListId := list.id, partsListVersion := list.version));
      plans := plans[p := plan.(rowVersion := plan.rowVersion + 1)];
      nextId := nextId + |steps| + 1;
      if Inv(before) && FloorStagesOnly(catalog) {
        VersionAnswers(before, catalog, p, expectedVersion, steps);
      }
      return None;
    }

    /** The row with the part's id takes its new value. */
    method UpdateLoop(parts: seq<Part>, part: Part) returns (updated: seq<Part>)
      ensures updated == UpdatePart(parts, part)
    {
      updated := [];
      var i := 0;
      while i < |parts|
        invariant 0 <= i <= |parts| && |updated| == i
        invariant forall k :: 0 <= k < i ==> updated[k] == if parts[k].id == part.id then part else parts[k]
      {
        updated := updated + [if parts[i].id == part.id then part else parts[i]];
        i := i + 1;
      }
    }

    /** The override of a part decides the times of the steps it names properly; the catalog's
        times stand for all others, and for every other part. */
    method PartCycleTimesOverride(p: nat, partId: nat, expectedVersion: nat, times: Option<CycleTimes>)
      returns (problem: Option<Problem>)
      modifies this
      ensures Answers(old(Now()), OverrideCycleTimes(old(Now()), p, partId, expectedVersion, times), Now(), problem)
      ensures Inv(old(Now())) ==> Inv(Now())
      ensures problem.None? ==>
                p in plans && p in old(plans) && Overridden(old(plans)[p].parts, plans[p].parts, partId, times)
    {
      hide Inv, Allowed, Overridden;
      ghost var before := Now();
      if p !in plans {
        problem := Some(NotFound);
      } else {
        var plan := plans[p];
        var part := FindPart(plan.parts, partId);
        if part.None? {
          problem := Some(NotFound);
        } else if plan.status != Draft {
          problem := Some(Conflict);
        } else if part.value.rowVersion != expectedVersion {
          problem := Some(StaleVersion);
        } else {
          var updated := part.value.(override := times, rowVersion := part.value.rowVersion + 1);
          var parts := UpdateLoop(plan.parts, updated);
          plans := plans[p := plan.(parts := parts)];
          problem := None;
          OverrideResolves(before, p, partId, expectedVersion, times);
        }
      }
      CreateAllowed(before, Command.CycleTimesOverride(p, partId, expectedVersion, times));
      AnswersKeep(before, Command.CycleTimesOverride(p, partId, expectedVersion, times), Now(), problem);
    }

    /** Removing a part clears its route from every version and leaves every other part's. */
    method ProjectPartRemove(p: nat, partId: nat, expectedVersion: nat) returns (problem: Option<Problem>)
      modifies this
      ensures Answers(old(Now()), RemovePart(old(Now()), p, partId, expectedVersion), Now(), problem)
      ensures Inv(old(Now())) ==> Inv(Now())
      ensures problem.None? ==>
                && p in plans && p in old(plans) && |plans[p].lists| == |old(plans)[p].lists|
                && forall k, other :: 0 <= k < |plans[p].lists| ==>
                     Route(plans[p].lists[k].steps, other) == if other == partId then [] else Route(old(plans)[p].lists[k].steps, other)
    {
      hide Inv, Allowed, WithoutPart, Route;
      ghost var before := Now();
      if p !in plans {
        problem := Some(NotFound);
      } else {
        var plan := plans[p];
        if plan.rowVersion != expectedVersion {
          problem := Some(StaleVersion);
        } else if plan.status != Draft {
          problem := Some(Conflict);
        } else if FindPart(plan.parts, partId).None? {
          problem := Some(NotFound);
        } else if exists b :: 0 <= b < |batches| && batches[b].partId == partId {
          problem := Some(Conflict);
        } else {
          plan := plan.(lists := StripLists(plan.lists, partId));
          plan := plan.(parts := DropPart(plan.parts, partId));
          plans := plans[p := plan.(rowVersion := plan.rowVersion + 1)];
          problem := None;
          forall k: nat, other | k < |plans[p].lists| {
            RemovalClears(before, p, partId, expectedVersion, k, other);
          }
        }
      }
      CreateAllowed(before, Command.PartRemove(p, partId, expectedVersion));
      AnswersKeep(before, Command.PartRemove(p, partId, expectedVersion), Now(), problem);
    }

    /** A deleted draft leaves nothing that refers to it. */
    method ProjectDraftDelete(p: nat, expectedVersion: Option<nat>) returns (problem: Option<Problem>)
      modifies this
      ensures Answers(old(Now()), DeleteProject(old(Now()), p, expectedVersion), Now(), problem)
      ensures Inv(old(Now())) ==> Inv(Now())
      ensures problem.None? ==>
                && p !in plans && (forall b :: 0 <= b < |batches| ==> batches[b].projectId != p)
                && forall q :: q in old(plans) && q != p ==> q in plans && plans[q] == old(plans)[q]
    {
      hide Inv, Allowed;
      ghost var before := Now();
      var inUse := InUse(p);
      if p !in plans {
        problem := Some(NotFound);
      } else if expectedVersion.Some? && plans[p].rowVersion != expectedVersion.value {
        problem := Some(StaleVersion);
      } else if plans[p].status != Draft {
        problem := Some(Conflict);
      } else if inUse {
        problem := Some(Conflict);
      } else {
        plans := plans - {p};
        problem := None;
      }
      CreateAllowed(before, Command.ProjectDelete(p, expectedVersion));
      AnswersKeep(before, Command.ProjectDelete(p, expectedVersion), Now(), problem);
    }

    /** Whether any pack belongs to a project. */
    method InUse(p: nat) returns (used: bool)
      ensures used <==> Referenced(Now(), p)
    {
      var b := 0;
      while b < |batches|
        invariant 0 <= b <= |batches|
        invariant forall k :: 0 <= k < b ==> batches[k].projectId != p
      {
        if batches[b].projectId == p { return true; }
        b := b + 1;
      }
      return false;
    }

    /** The packs of one part, minted tray by tray while quantity and series numbers last. */
    method MintPartLoop(plan: Plan, p: nat, part: Part, tray: nat, existing: seq<Batch>, globalSequence: nat)
      returns (minted: seq<Batch>)
      requires tray > 0
      ensures minted == MintPart(plan, p, part, tray, existing, globalSequence)
      ensures FindRequirement(plan.requirements, part.requirementId).Some? ==>
                exists count: nat :: NumberedPacks(minted, plan, p, part, tray, existing, count)
    {
      hide NumberedPacks, MintRows, MintedBatch;
      minted := [];
      var requirement := FindRequirement(plan.requirements, part.requirementId);
      if requirement.Some? {
        var required := requirement.value.requiredQuantity;
        var seriesCount := SeriesCount(required, tray);
        ghost var total := LeftToPlan(required, SumPlanned(existing, p, part.id));
        var left := LeftToPlan(required, SumPlanned(existing, p, part.id));
        var first := CountPlanned(existing, p, part.id) + 1;
        var series := first;
        ghost var trays: seq<nat> := [];
        NoRows(plan, p, part, tray, first, seriesCount, globalSequence);
        while series <= seriesCount && left > 0
          invariant first <= series && |trays| == |minted| == series - first
          invariant trays + Trays(left, tray, series, seriesCount) == Trays(total, tray, first, seriesCount)
          invariant minted == MintRows(plan, p, part, trays, tray, first, seriesCount, globalSequence)
          decreases left
        {
          var quantity := Min(tray, left);
          left := left - quantity;
          var batch := MintedBatch(plan, p, part, quantity, tray, series, seriesCount, globalSequence + 1 + |minted|);
          MintRowsSnoc(plan, p, part, trays, quantity, tray, first, seriesCount, globalSequence);
          TraysStep(trays, left + quantity, tray, series, seriesCount);
          minted := minted + [batch];
          trays := trays + [quantity];
          series := series + 1;
        }
        assert trays == Trays(total, tray, first, seriesCount);
      }
      PacksNumbered(plan, p, part, tray, existing, globalSequence);
    }

    /** The packs of every part in turn, numbered through the lot. */
    method MintLoop(plan: Plan, p: nat, parts: seq<Part>, tray: nat, existing: seq<Batch>) returns (minted: seq<Batch>)
      requires tray > 0
      ensures minted == MintParts(plan, p, parts, tray, existing, InProject(existing, p))
      ensures CodedInOrder(minted, plan.lot.code, p, parts, existing)
    {
      hide MintPart, MintParts, CodedInOrder, NumberedPacks;
      minted := [];
      var globalSequence: nat := InProject(existing, p);
      var i := 0;
      assert parts[0..] == parts;
      assert existing + minted == existing;
      while i < |parts|
        invariant 0 <= i <= |parts|
        invariant minted + MintParts(plan, p, parts[i..], tray, existing + minted, globalSequence)
               == MintParts(plan, p, parts, tray, existing, InProject(existing, p))
      {
        var more := MintPartLoop(plan, p, parts[i], tray, existing + minted, globalSequence);
        OneMorePart(plan, p, parts, i, tray, existing, minted, more, globalSequence);
        minted := minted + more;
        globalSequence := globalSequence + |more|;
        i := i + 1;
      }
      assert parts[i..] == [];
      NoMoreParts(plan, p, tray, existing + minted, globalSequence);
      PacksCoded(plan, p, parts, tray, existing);
    }

    method ProjectRelease(p: nat, expectedVersion: nat, before: (string, string) -> bool) returns (problem: Option<Problem>)
      modifies this
      ensures Answers(old(Now()), ReleaseProject(old(Now()), p, expectedVersion, before), Now(), problem)
      ensures problem.None? ==> p in old(plans) && ReleaseLeaves(old(Now()), p, Now()) && |old(batches)| <= |batches|
      ensures problem.None? && Reachable(old(Now())) ==> PacksMinted(old(Now()), p, Now())
    {
      hide Reachable, ReleaseLeaves, PacksMinted;
      hide CheckRelease;
      hide MintParts;
      hide CodesFree;
      if p !in plans { return Some(NotFound); }
      var plan := plans[p];
      if plan.rowVersion != expectedVersion { return Some(StaleVersion); }
      var refused := CheckRelease(plan);
      if refused.Some? { return refused; }
      var minted := MintLoop(plan, p, SortParts(plan.parts, before), TraySize(plan), batches);
      if !CodesFree(minted, batches) { return Some(Conflict); }
      positions := PlacePositions(positions, |batches|, |minted|);
      batches := batches + minted;
      plans := plans[p := plan.(status := Released, rowVersion := plan.rowVersion + 1)];
      batches := Activate(batches, p);
      ReleaseAnswered(old(Now()), p, expectedVersion, before, Now());
      return None;
    }

    method ProjectComplete(p: nat, expectedVersion: nat) returns (problem: Option<Problem>)
      modifies this
      ensures Answers(old(Now()), CompleteProject(old(Now()), p, expectedVersion), Now(), problem)
      ensures problem.None? ==> p in old(plans) && old(plans)[p].status == Released && old(plans)[p].rowVersion == expectedVersion
      ensures problem.None? ==>
                Now() == old(Now()).(plans := old(plans)[p := old(plans)[p].(status := Completed, rowVersion := expectedVersion + 1)])
    {
      if p !in plans { return Some(NotFound); }
      var plan := plans[p];
      if plan.rowVersion != expectedVersion { return Some(StaleVersion); }
      if plan.status != Released { return Some(Conflict); }
      if !exists b :: 0 <= b < |batches| && batches[b].projectId == p { return Some(Conflict); }
      var b := 0;
      var unresolved := false;
      while b < |batches|
        invariant 0 <= b <= |batches|
        invariant unresolved <==> exists k :: 0 <= k < b && batches[k].projectId == p && !BatchResolved(Now(), k)
      {
        if batches[b].projectId == p {
          var closed := batches[b].status == Closed;
          var scrapped := batches[b].status == Scrapped && LatestDisposition(analyses, b) == Some(Scrap);
          if !closed && !scrapped {
            assert !BatchResolved(Now(), b);
            unresolved := true;
          }
        }
        b := b + 1;
      }
      if unresolved { return Some(Conflict); }
      plans := plans[p := plan.(status := Completed, rowVersion := plan.rowVersion + 1)];
      CompletionWrites(old(Now()), p, expectedVersion);
      return None;
    }
  }
}
