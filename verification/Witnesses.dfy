/**
 Concrete allowed runs. They reach the states in which what one might expect of the floor does
 not hold: a closed pack that is held again, a closed pack left behind by a new route version,
 and packs that the read side shows differently from what a scan would do.
 */
module Witnesses {
  import opened Common
  import opened Routes
  import opened Tables
  import opened Text
  import opened FloorCommands
  import opened PlanCommands
  import opened Runs
  import opened FloorInvariant
  import opened Production
  import opened ReadGate
  import opened Guarantees

  const FLOOR := Place("S", None)
  const GATE := Place(PRE_FLOOR, None)
  const CATALOG := Catalog({}, map["m" := Model("", [ModelPart("a", map[], [RawStep(Some("S"), None, None)])])], {"S"}, {}, {})
  const STEP := RoutingStep(3, 2, FLOOR, 1)
  const PLAN := Plan(Draft, 1, "P", "P", None, 200, [Requirement(1, "m", 1)], [Part(2, "a", 1, map[], None, 1)],
                     [PartsList(4, 1, [STEP])], Lot("P-L1", "P", 4, 1, 1, 200))

  function Pack(place: Place, status: BatchStatus, rowVersion: nat): Batch {
    Batch("B", 0, 2, 1, 1, 1, None, place, status, rowVersion)
  }

  const DRAFTED := EMPTY.(plans := map[0 := PLAN], nextId := 5)

  // ---- a draft with one part, whose route has one step ----

  lemma CreatesRows()
    ensures Rebuilt(BlankPlan("P", "P", None, None, None), CATALOG, [ModelQuantity("m", 1)], 1) == PLAN
  {
    var requirements := RequirementRows([ModelQuantity("m", 1)], 1);
    assert RequirementRows([ModelQuantity("m", 1)][1..], 2) == [];
    assert requirements == [Requirement(1, "m", 1)];
    var raw := [RawStep(Some("S"), None, None)];
    assert Trim("S") == "S";
    assert StepRows(raw[1..], 1, 2, CATALOG, 4) == [];
    assert StepRows(raw, 0, 2, CATALOG, 3) == [STEP];
    var parts := [ModelPart("a", map[], raw)];
    assert PartRows(parts[1..], 1, CATALOG, 4) == Snapshot([], [], 4);
    assert PartRows(parts, 1, CATALOG, 2) == Snapshot(PLAN.parts, [STEP], 4);
    assert ModelRows(requirements[1..], CATALOG, 4) == Snapshot([], [], 4);
    assert ModelRows(requirements, CATALOG, 2) == Snapshot(PLAN.parts, [STEP], 4);
    assert SumQuantities([ModelQuantity("m", 1)][1..]) == 0;
  }

  lemma Drafted()
    ensures Reachable(DRAFTED)
  {
    hide Rebuilt, Reachable;
    CreatesRows();
    assert CitedSteps(PLAN) == [STEP];
    var c := ProjectCreate(CATALOG, "P", "P", None, None, None, [ModelQuantity("m", 1)]);
    assert Step(EMPTY, c) == DRAFTED;
    ReachableEmpty();
    ReachableStep(EMPTY, c);
  }

  lemma RouteIs(s: State)
    requires s.plans == DRAFTED.plans && |s.batches| == 1 && s.batches[0].projectId == 0 && s.batches[0].partId == 2
    ensures CitedSteps(PLAN) == [STEP] && OfPart(Ordered([STEP]), 2) == [STEP] && RouteOf(s, 0) == [STEP]
  {
    assert FindList(PLAN.lists, 4) == Some(PartsList(4, 1, [STEP]));
    assert [STEP][1..] == [];
    assert Ordered([STEP]) == [STEP];
    assert OfPart([STEP], 2) == [STEP];
  }

  /** A pack made by hand at a place, before anything else happens to it. */
  function Made(place: Place): State {
    DRAFTED.(batches := [Pack(place, Planned, 1)], positions := map[0 := Position(place, None, None)])
  }

  lemma MadeReachable(place: Place)
    ensures Reachable(Made(place))
  {
    hide Reachable;
    Drafted();
    var c := BatchCreate(0, 2, "B", 1, 1, place);
    assert FindPart(PLAN.parts, 2) == Some(PLAN.parts[0]);
    assert Step(DRAFTED, c) == Made(place);
    ReachableStep(DRAFTED, c);
  }

  /** Held by one inspection at its place and waived: active. */
  function Waived(s: State): State
    requires |s.batches| == 1
  {
    var pack := s.batches[0];
    s.(batches := [pack.(status := Active, rowVersion := pack.rowVersion + 2)],
       inspections := [Inspection(0, FLOOR, InProgress, 2)], decisions := [Decision(0, Hold)],
       analyses := [Analysis(0, 0, Waive)])
  }

  ghost predicate Fresh(s: State) {
    && Reachable(s) && |s.batches| == 1 && !Terminal(s.batches[0].status)
    && s.inspections == [] && s.decisions == [] && s.analyses == []
  }

  lemma WaivedReachable(s: State)
    requires Fresh(s)
    ensures Reachable(Waived(s))
  {
    hide Reachable, Step;
    ReachableStep(s, InspectionCreate(0, FLOOR));
    ReachableStep(Step(s, InspectionCreate(0, FLOOR)), DecisionCreate(0, Hold, 1));
    HeldStep(s);
    ReachableStep(OnHold(s), AnalysisCreate(0, Waive));
    WaivedStep(s);
  }

  function OnHold(s: State): State
    requires |s.batches| == 1
  {
    var pack := s.batches[0];
    s.(batches := [pack.(status := Held, rowVersion := pack.rowVersion + 1)],
       inspections := [Inspection(0, FLOOR, InProgress, 2)], decisions := [Decision(0, Hold)])
  }

  lemma HeldStep(s: State)
    requires |s.batches| == 1 && s.inspections == [] && s.decisions == []
    ensures Step(Step(s, InspectionCreate(0, FLOOR)), DecisionCreate(0, Hold, 1)) == OnHold(s)
  {
  }

  lemma WaivedStep(s: State)
    requires |s.batches| == 1 && s.analyses == []
    ensures Step(OnHold(s), AnalysisCreate(0, Waive)) == Waived(s)
  {
    assert LatestVerdict(OnHold(s).decisions, 0) == Some(Hold);
  }

  /** Then passed by a second inspection. */
  function Passing(s: State): State
    requires |s.batches| == 1
  {
    Waived(s).(inspections := [Inspection(0, FLOOR, InProgress, 2), Inspection(0, FLOOR, Finished, 2)],
               decisions := [Decision(0, Hold), Decision(1, Passed)])
  }

  lemma PassingReachable(s: State)
    requires Fresh(s)
    ensures Reachable(Passing(s)) && GateVerdict(Passing(s).inspections, Passing(s).decisions, 0, FLOOR) == Some(Passed)
  {
    hide Reachable;
    WaivedReachable(s);
    var t := Waived(s);
    var inspected := Step(t, InspectionCreate(0, FLOOR));
    assert inspected.inspections == [Inspection(0, FLOOR, InProgress, 2), Inspection(0, FLOOR, Open, 1)];
    ReachableStep(t, InspectionCreate(0, FLOOR));
    ReachableStep(inspected, DecisionCreate(1, Passed, 1));
    assert Step(inspected, DecisionCreate(1, Passed, 1)) == Passing(s);
    assert LatestInspection(Passing(s).inspections, 0, FLOOR) == Some(1);
    assert LatestVerdict(Passing(s).decisions, 1) == Some(Passed);
  }

  // ---- a closed pack ----

  const FIRST := StageEvent(0, FLOOR, 2, true, Some(3))

  const SCANNED := Made(GATE).(batches := [Pack(FLOOR, Planned, 2)], positions := map[0 := Position(FLOOR, Some(3), Some(0))],
                               events := [FIRST], issuances := [Issuance(0, FLOOR, 1)])

  const CLOSED := Passing(SCANNED).(batches := [Pack(FLOOR, Closed, 5)])

  lemma ClosedReachable()
    ensures Reachable(CLOSED)
  {
    hide Reachable;
    MadeReachable(GATE);
    var scan := StageEventRecord(Scan(0, FLOOR, None, None));
    RouteIs(Made(GATE));
    assert FirstBeyond([STEP], -1) == Some(STEP);
    assert Step(Made(GATE), scan) == SCANNED;
    ReachableStep(Made(GATE), scan);
    PassingReachable(SCANNED);
    RouteIs(Passing(SCANNED));
    assert IndexOfStep([STEP], 3) == 0;
    assert Step(Passing(SCANNED), BatchClose(0)) == CLOSED;
    ReachableStep(Passing(SCANNED), BatchClose(0));
  }

  /** CLOSED is left: a pack closed by an allowed run is held by a failing verdict on the
      inspection that a HOLD had left in progress. */
  lemma ClosedIsReopened()
    ensures Reachable(CLOSED) && CLOSED.batches[0].status == Closed
    ensures Reopens(CLOSED, DecisionCreate(0, Failed, 2), 0)
    ensures Step(CLOSED, DecisionCreate(0, Failed, 2)).batches[0].status == Held
  {
    ClosedReachable();
    hide Reachable;
    ReopensExactly(CLOSED, DecisionCreate(0, Failed, 2), 0);
  }

  /** A new route version on a draft that has packs: the closed pack's scan is no step of its route. */
  lemma DraftPackBreaksSafety()
    ensures Reachable(CLOSED) && CLOSED.batches[0].status == Closed
    ensures var t := Step(CLOSED, RouteVersionCreate(CATALOG, 0, 1, []));
            && |t.batches| == 1 && t.batches[0].status == Closed && t.batches[0].projectId in t.plans
            && RouteOf(t, 0) == [] && |AcceptedOf(t.events, 0)| == 1
  {
    ClosedReachable();
    hide Reachable;
    var t := Step(CLOSED, RouteVersionCreate(CATALOG, 0, 1, []));
    assert HighestVersion([PartsList(4, 1, [STEP])]) == 1;
    assert t.plans[0].lists == [PartsList(4, 1, [STEP]), PartsList(5, 2, [])];
    assert FindList(t.plans[0].lists, 5) == Some(PartsList(5, 2, []));
    assert CitedSteps(t.plans[0]) == [];
    assert AcceptedOf([FIRST], 0) == [FIRST];
  }

  // ---- packs read differently ----

  /** A planned pack on the pre-floor is shown as blocked although its scan would be accepted. */
  lemma PlannedReadsBlocked()
    ensures Reachable(Made(GATE)) && RouteOf(Made(GATE), 0) == [STEP]
    ensures Indexes(map[], Made(GATE).inspections, Made(GATE).decisions)
    ensures OpenWhilePlanned(Made(GATE), 0) && QcGate(Made(GATE), 0, map[]) == Blocked
    ensures WouldAdvance(Made(GATE), 0, FLOOR, None)
  {
    MadeReachable(GATE);
    RouteIs(Made(GATE));
    NothingInspected();
    ReadGateExactly(Made(GATE), 0, map[], None);
    ReachablePack(Made(GATE), 0);
    AdvancesExactly(Made(GATE), 0, FLOOR, None);
  }

  lemma NothingInspected()
    ensures Indexes(map[], [], [])
  {
  }

  /** A pack made at the one step of its route, held, waived and passed there: shown as complete
      although its first scan would be accepted. */
  lemma WaitingReadsComplete(gate: GateIndex)
    requires Indexes(gate, Passing(Made(FLOOR)).inspections, Passing(Made(FLOOR)).decisions)
    ensures Reachable(Passing(Made(FLOOR))) && RouteOf(Passing(Made(FLOOR)), 0) == [STEP]
    ensures ReadAtTheEnd(Passing(Made(FLOOR)), 0) && QcGate(Passing(Made(FLOOR)), 0, gate) == Complete
    ensures WouldAdvance(Passing(Made(FLOOR)), 0, FLOOR, None)
  {
    var s := Passing(Made(FLOOR));
    MadeReachable(FLOOR);
    PassingReachable(Made(FLOOR));
    hide Reachable;
    RouteIs(s);
    ReachablePack(s, 0);
    assert FirstAt([STEP], FLOOR) == Some(STEP);
    UnscannedHop(s, 0);
    AdvancesExactly(s, 0, FLOOR, None);
    GateUnscanned(s, 0, gate);
  }
}
