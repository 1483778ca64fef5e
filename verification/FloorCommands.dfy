/**
 The floor commands as next-state functions: scans, inspections, verdicts, defect
 analyses, hand-made packs and the Finish Goods closure. A command either commits a
 whole new state or answers with a problem and leaves the tables as they were.
 */
module FloorCommands {
  import opened Common
  import opened Routes
  import opened Tables

  datatype Context = Context(route: seq<RoutingStep>, expected: RoutingStep)

  /** What a scan needs before it can be judged: the pack's route and its next step. */
  function RouteContext(s: State, b: nat): Result<Context> {
    if b >= |s.batches| || s.batches[b].projectId !in s.plans then Err(NotFound)
    else
      var plan := s.plans[s.batches[b].projectId];
      match FindList(plan.lists, plan.lot.partsListId)
      case None => Err(Conflict)
      case Some(list) =>
        var route := OfPart(Ordered(list.steps), s.batches[b].partId);
        if route == [] then Err(Conflict)
        else
          var current := if b in s.positions then s.positions[b].routeStepId else None;
          match FirstBeyond(route, Threshold(route, current))
          case None => Err(Conflict)
          case Some(expected) => Ok(Context(route, expected))
  }

  /** Where the pack stands now, read from the projection with the batch row as fallback. */
  function Standpoint(s: State, b: nat): Place
    requires b < |s.batches|
  {
    var row := s.batches[b].place;
    if b in s.positions then
      var seen := s.positions[b].place;
      Place(seen.stageId, if seen.subStageId.Some? then seen.subStageId else row.subStageId)
    else row
  }

  function FirstAt(steps: seq<RoutingStep>, place: Place): (step: Option<RoutingStep>)
    ensures step.Some? ==> step.value in steps && step.value.place == place
    ensures step.None? ==> forall x :: x in steps ==> x.place != place
  {
    if steps == [] then None
    else if steps[0].place == place then Some(steps[0])
    else
      assert steps == [steps[0]] + steps[1..];
      FirstAt(steps[1..], place)
  }

  /** The step whose verdict guards the next hop: by step id, else by place. */
  function SourceStep(s: State, b: nat, route: seq<RoutingStep>): Option<RoutingStep>
    requires b < |s.batches|
  {
    var byId := if b in s.positions && s.positions[b].routeStepId.Some?
                then IndexOfStep(route, s.positions[b].routeStepId.value) else -1;
    if byId >= 0 then Some(route[byId]) else FirstAt(route, Standpoint(s, b))
  }

  predicate HopPassed(s: State, b: nat, route: seq<RoutingStep>)
    requires b < |s.batches|
  {
    var source := SourceStep(s, b, route);
    source.Some? && GateVerdict(s.inspections, s.decisions, b, source.value.place) == Some(Passed)
  }

  datatype Scan = Scan(batchId: nat, place: Place, partId: Option<nat>, quantity: Option<nat>)

  /** The tables after an accepted scan at the expected step. */
  function Advance(s: State, b: nat, expected: RoutingStep): State
    requires b < |s.batches|
  {
    var batch := s.batches[b];
    s.(events := s.events + [StageEvent(b, expected.place, batch.partId, true, Some(expected.id))],
       batches := s.batches[b := batch.(place := expected.place, rowVersion := batch.rowVersion + 1)],
       positions := s.positions[b := Position(expected.place, Some(expected.id), Some(|s.events|))])
  }

  function Issue(s: State, b: nat, expected: RoutingStep, quantity: Option<nat>): State
    requires b < |s.batches|
  {
    var q := if quantity.Some? then quantity.value else s.batches[b].plannedQuantity;
    s.(issuances := s.issuances + [Issuance(b, expected.place, q)])
  }

  /** The tables after a scan at any other place: a blocked event and its violation. */
  function Block(s: State, c: Scan, route: seq<RoutingStep>): State
    requires c.batchId < |s.batches|
  {
    s.(events := s.events + [StageEvent(c.batchId, c.place, s.batches[c.batchId].partId, false, None)],
       violations := s.violations + [Violation(|s.events|, c.batchId, c.place, route)])
  }

  function RecordScan(s: State, c: Scan): Result<State> {
    match RouteContext(s, c.batchId)
    case Err(p) => Err(p)
    case Ok(context) =>
      var b := c.batchId;
      var batch := s.batches[b];
      if Terminal(batch.status) then Err(Conflict)
      else if batch.status == Held then Err(Conflict)
      else if c.partId.Some? && c.partId.value != batch.partId then Err(Conflict)
      else if context.expected.place != c.place then Ok(Block(s, c, context.route))
      else if Standpoint(s, b).stageId == PRE_FLOOR then
        Ok(Advance(Issue(s, b, context.expected, c.quantity), b, context.expected))
      else if HopPassed(s, b, context.route) then Ok(Advance(s, b, context.expected))
      else Err(Conflict)
  }

  /** A pack created by hand. Nothing checks that its project has been released. */
  function CreateBatch(s: State, projectId: nat, partId: nat, code: string, quantity: nat, packSize: nat, place: Place)
    : Result<State>
  {
    if projectId !in s.plans then Err(NotFound)
    else
      match FindPart(s.plans[projectId].parts, partId)
      case None => Err(NotFound)
      case Some(part) =>
        if exists i :: 0 <= i < |s.batches| && s.batches[i].code == code then Err(Conflict)
        else
          var b := |s.batches|;
          var batch := Batch(code, projectId, partId, quantity, packSize, part.requirementId, None, place, Planned, 1);
          Ok(s.(batches := s.batches + [batch], positions := s.positions[b := Position(place, None, None)]))
  }

  function CreateInspection(s: State, b: nat, place: Place): Result<State> {
    if b >= |s.batches| then Err(NotFound)
    else Ok(s.(inspections := s.inspections + [Inspection(b, place, Open, 1)]))
  }

  function WithStatus(s: State, b: nat, status: BatchStatus): State
    requires b < |s.batches|
  {
    var batch := s.batches[b];
    s.(batches := s.batches[b := batch.(status := status, rowVersion := batch.rowVersion + 1)])
  }

  /** A verdict: it moves no pack, and anything but a pass quarantines it. */
  function Decide(s: State, i: nat, verdict: Verdict, expectedVersion: nat): Result<State> {
    if i >= |s.inspections| || s.inspections[i].batchId >= |s.batches| then Err(NotFound)
    else
      var inspection := s.inspections[i];
      if inspection.rowVersion != expectedVersion then Err(StaleVersion)
      else if inspection.status == Finished || inspection.status == Cancelled then Err(Conflict)
      else
        var settled := inspection.(status := if verdict == Hold then InProgress else Finished,
                                   rowVersion := inspection.rowVersion + 1);
        var t := s.(decisions := s.decisions + [Decision(i, verdict)], inspections := s.inspections[i := settled]);
        Ok(if verdict == Passed then t else WithStatus(t, inspection.batchId, Held))
  }

  function StatusAfter(disposition: Disposition): BatchStatus {
    match disposition
    case Scrap => Scrapped
    case Waive => Active
    case Rework => Held
  }

  /** Production's disposition of a non-passing verdict. */
  function Analyse(s: State, i: nat, disposition: Disposition): Result<State> {
    if i >= |s.inspections| then Err(NotFound)
    else
      var latest := LatestVerdict(s.decisions, i);
      if latest.None? || latest == Some(Passed) then Err(Conflict)
      else if exists a :: 0 <= a < |s.analyses| && s.analyses[a].inspectionId == i then Err(Conflict)
      else
        var b := s.inspections[i].batchId;
        if b >= |s.batches| then Err(NotFound)
        else if Terminal(s.batches[b].status) then Err(Conflict)
        else
          var t := s.(analyses := s.analyses + [Analysis(i, b, disposition)]);
          Ok(WithStatus(t, b, StatusAfter(disposition)))
  }

  /** Finish Goods: an active pack, its route complete, the final hop passed. */
  function CloseBatch(s: State, b: nat): Result<State> {
    if b >= |s.batches| || s.batches[b].projectId !in s.plans then Err(NotFound)
    else if Terminal(s.batches[b].status) then Err(Conflict)
    else if s.batches[b].status != Active then Err(Conflict)
    else
      var route := RouteOf(s, b);
      var current := if b in s.positions then s.positions[b].routeStepId else None;
      if route == [] then Err(Conflict)
      else if !RouteCompleted(route, current) then Err(Conflict)
      else
        var i := if current.Some? then IndexOfStep(route, current.value) else -1;
        if i >= 0 && GateVerdict(s.inspections, s.decisions, b, route[i].place) == Some(Passed)
        then Ok(WithStatus(s, b, Closed))
        else Err(Conflict)
  }
}
