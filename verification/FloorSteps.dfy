/** Every floor command keeps the invariant of every pack. */
module FloorSteps {
  import opened Common
  import opened Routes
  import opened Tables
  import opened FloorCommands
  import opened FloorInvariant

  // ---- what a scan sees ----

  /** The scan's route context reads the pack's route and its position's next step. */
  lemma ContextOf(s: State, b: nat)
    requires b < |s.batches| && BatchInv(s, b)
    ensures var route := RouteOf(s, b);
            var k := |AcceptedOf(s.events, b)|;
            RouteContext(s, b)
            == if k < |route| && FindList(s.plans[s.batches[b].projectId].lists,
                                         s.plans[s.batches[b].projectId].lot.partsListId).Some?
               then Ok(Context(route, route[k])) else Err(Conflict)
  {
    var plan := s.plans[s.batches[b].projectId];
    var list := FindList(plan.lists, plan.lot.partsListId);
    if list.Some? {
      FilterThenOrder(list.value.steps, s.batches[b].partId);
      NextAfterPrefix(RouteOf(s, b), |AcceptedOf(s.events, b)|);
    }
  }

  /** A nonempty route means the cited version exists. */
  lemma CitedExists(s: State, b: nat)
    requires b < |s.batches| && s.batches[b].projectId in s.plans && RouteOf(s, b) != []
    ensures FindList(s.plans[s.batches[b].projectId].lists, s.plans[s.batches[b].projectId].lot.partsListId).Some?
  {
  }

  lemma StandpointOf(s: State, b: nat)
    requires b < |s.batches| && BatchInv(s, b)
    ensures Standpoint(s, b) == s.batches[b].place
  {
  }

  /** After a first hop, the verdict asked for is the one at the step just left. */
  lemma SourceOf(s: State, b: nat)
    requires b < |s.batches| && BatchInv(s, b) && AcceptedOf(s.events, b) != []
    ensures SourceStep(s, b, RouteOf(s, b)) == Some(RouteOf(s, b)[|AcceptedOf(s.events, b)| - 1])
  {
    var route, k := RouteOf(s, b), |AcceptedOf(s.events, b)|;
    var i := IndexOfStep(route, route[k - 1].id);
    assert i == k - 1;
  }

  // ---- scans ----

  lemma AdvanceKeepsOthers(s: State, b: nat, expected: RoutingStep, other: nat)
    requires b < |s.batches| && other < |s.batches| && other != b
    requires BatchInv(s, other)
    ensures BatchInv(Advance(s, b, expected), other)
  {
    var t := Advance(s, b, expected);
    AppendEvent(s.events, t.events[|s.events|], other);
    Frame(s, t, other);
  }

  lemma IssueKeeps(s: State, b: nat, expected: RoutingStep, quantity: Option<nat>, other: nat)
    requires b < |s.batches| && other < |s.batches| && other != b
    requires BatchInv(s, other)
    ensures BatchInv(Issue(s, b, expected, quantity), other)
  {
    var t := Issue(s, b, expected, quantity);
    AppendIssuance(s.issuances, t.issuances[|s.issuances|], other);
    Frame(s, t, other);
  }

  lemma TrackedAdvances(batch: Batch, position: Position, accepted: seq<StageEvent>, last: Option<nat>,
                        route: seq<RoutingStep>, e: StageEvent, n: nat)
    requires Tracked(batch, position, accepted, last, route) && |accepted| < |route|
    requires e.routeStepId == Some(route[|accepted|].id) && e.place == route[|accepted|].place
    ensures Tracked(batch.(place := e.place, rowVersion := batch.rowVersion + 1),
                    Position(e.place, e.routeStepId, Some(n)), accepted + [e], Some(n), route)
  {
  }

  lemma GatedAdvances(inspections: seq<Inspection>, decisions: seq<Decision>, b: nat, batch: Batch, taken: nat,
                      route: seq<RoutingStep>, moved: Batch)
    requires Gated(inspections, decisions, b, batch, taken, route) && taken < |route|
    requires taken > 0 ==> PassedAt(inspections, decisions, b, route[taken - 1].place)
    requires moved.status == batch.status != Closed
    ensures Gated(inspections, decisions, b, moved, taken + 1, route)
  {
  }

  /** The scanned pack itself: one more step of its route, taken with the verdict it needs.
      `u` is the state with the issue already posted when the pack leaves the pre-floor. */
  lemma AdvanceKeepsOwn(s: State, u: State, b: nat, e: StageEvent)
    requires b < |s.batches| && BatchInv(s, b) && s.batches[b].status != Closed
    requires |AcceptedOf(s.events, b)| < |RouteOf(s, b)|
    requires u == s.(issuances := u.issuances)
    requires Counted(s.batches[b], |AcceptedOf(s.events, b)| + 1, Issued(u.issuances, b))
    requires |AcceptedOf(s.events, b)| > 0 ==>
               PassedAt(s.inspections, s.decisions, b, RouteOf(s, b)[|AcceptedOf(s.events, b)| - 1].place)
    requires var step := RouteOf(s, b)[|AcceptedOf(s.events, b)|];
             e == StageEvent(b, step.place, s.batches[b].partId, true, Some(step.id))
    ensures BatchInv(Advance(u, b, RouteOf(s, b)[|AcceptedOf(s.events, b)|]), b)
  {
    var route, accepted := RouteOf(s, b), AcceptedOf(s.events, b);
    var t := Advance(u, b, route[|accepted|]);
    AppendEvent(s.events, e, b);
    TrackedAdvances(s.batches[b], s.positions[b], accepted, LastAccepted(s.events, b), route, e, |s.events|);
    GatedAdvances(s.inspections, s.decisions, b, s.batches[b], |accepted|, route, t.batches[b]);
    assert RouteOf(t, b) == route;
  }

  lemma BlockKeeps(s: State, c: Scan, route: seq<RoutingStep>, other: nat)
    requires c.batchId < |s.batches| && other < |s.batches| && BatchInv(s, other)
    ensures BatchInv(Block(s, c, route), other)
  {
    var t := Block(s, c, route);
    AppendEvent(s.events, t.events[|s.events|], other);
    Frame(s, t, other);
  }

  lemma AdvanceKeepsTables(s: State, b: nat, expected: RoutingStep)
    requires b < |s.batches| && TablesInv(s)
    ensures TablesInv(Advance(s, b, expected))
  {
    hide ViolationEvents, BlockedIds;
    var t := Advance(s, b, expected);
    AppendBlocked(s.events, t.events[|s.events|]);
  }

  lemma BlockKeepsTables(s: State, c: Scan, route: seq<RoutingStep>)
    requires c.batchId < |s.batches| && TablesInv(s)
    ensures TablesInv(Block(s, c, route))
  {
    hide ViolationEvents, BlockedIds;
    var t := Block(s, c, route);
    AppendBlocked(s.events, t.events[|s.events|]);
    AppendViolation(s.violations, t.violations[|s.violations|]);
  }

  lemma AppendViolation(violations: seq<Violation>, v: Violation)
    ensures ViolationEvents(violations + [v]) == ViolationEvents(violations) + [v.eventId]
  {
  }

  /** A hop that passes its gate was passed at the step the pack is leaving. */
  lemma HopEvidence(s: State, b: nat)
    requires b < |s.batches| && BatchInv(s, b) && AcceptedOf(s.events, b) != []
    requires HopPassed(s, b, RouteOf(s, b))
    ensures PassedAt(s.inspections, s.decisions, b, RouteOf(s, b)[|AcceptedOf(s.events, b)| - 1].place)
  {
    SourceOf(s, b);
    GateMeansPassed(s.inspections, s.decisions, b, RouteOf(s, b)[|AcceptedOf(s.events, b)| - 1].place);
  }

  /** The outcome of a scan that commits, in terms of the pack's route and history. */
  function ScanOutcome(s: State, c: Scan, route: seq<RoutingStep>, k: nat): State
    requires c.batchId < |s.batches| && k < |route|
  {
    if c.place != route[k].place then Block(s, c, route)
    else if s.batches[c.batchId].place.stageId == PRE_FLOOR then
      Advance(Issue(s, c.batchId, route[k], c.quantity), c.batchId, route[k])
    else Advance(s, c.batchId, route[k])
  }

  lemma AcceptedScan(s: State, c: Scan)
    requires c.batchId < |s.batches| && BatchInv(s, c.batchId)
    requires RecordScan(s, c).Ok?
    ensures |AcceptedOf(s.events, c.batchId)| < |RouteOf(s, c.batchId)|
    ensures !Terminal(s.batches[c.batchId].status) && s.batches[c.batchId].status != Held
    ensures RecordScan(s, c) == Ok(ScanOutcome(s, c, RouteOf(s, c.batchId), |AcceptedOf(s.events, c.batchId)|))
    ensures (&& c.place == RouteOf(s, c.batchId)[|AcceptedOf(s.events, c.batchId)|].place
             && s.batches[c.batchId].place.stageId != PRE_FLOOR)
            ==> HopPassed(s, c.batchId, RouteOf(s, c.batchId))
  {
    ContextOf(s, c.batchId);
    StandpointOf(s, c.batchId);
  }

  lemma IssuedAdvance(s: State, b: nat, quantity: Option<nat>)
    requires b < |s.batches| && BatchInv(s, b) && s.batches[b].status != Closed
    requires |AcceptedOf(s.events, b)| < |RouteOf(s, b)| && s.batches[b].place.stageId == PRE_FLOOR
    ensures var step := RouteOf(s, b)[|AcceptedOf(s.events, b)|];
            BatchInv(Advance(Issue(s, b, step, quantity), b, step), b)
  {
    var step := RouteOf(s, b)[|AcceptedOf(s.events, b)|];
    var u := Issue(s, b, step, quantity);
    AppendIssuance(s.issuances, u.issuances[|s.issuances|], b);
    AdvanceKeepsOwn(s, u, b, StageEvent(b, step.place, s.batches[b].partId, true, Some(step.id)));
  }

  lemma PlainAdvance(s: State, b: nat)
    requires b < |s.batches| && BatchInv(s, b) && s.batches[b].status != Closed
    requires |AcceptedOf(s.events, b)| < |RouteOf(s, b)| && s.batches[b].place.stageId != PRE_FLOOR
    requires HopPassed(s, b, RouteOf(s, b))
    ensures BatchInv(Advance(s, b, RouteOf(s, b)[|AcceptedOf(s.events, b)|]), b)
  {
    var step := RouteOf(s, b)[|AcceptedOf(s.events, b)|];
    if AcceptedOf(s.events, b) != [] {
      HopEvidence(s, b);
    }
    AdvanceKeepsOwn(s, s, b, StageEvent(b, step.place, s.batches[b].partId, true, Some(step.id)));
  }

  lemma OutcomeKeepsTables(s: State, c: Scan, route: seq<RoutingStep>, k: nat)
    requires TablesInv(s) && c.batchId < |s.batches| && k < |route|
    ensures TablesInv(ScanOutcome(s, c, route, k))
  {
    if c.place != route[k].place {
      BlockKeepsTables(s, c, route);
    } else if s.batches[c.batchId].place.stageId == PRE_FLOOR {
      AdvanceKeepsTables(Issue(s, c.batchId, route[k], c.quantity), c.batchId, route[k]);
    } else {
      AdvanceKeepsTables(s, c.batchId, route[k]);
    }
  }

  lemma OutcomeKeepsOthers(s: State, c: Scan, route: seq<RoutingStep>, k: nat, other: nat)
    requires c.batchId < |s.batches| && k < |route| && other < |s.batches| && other != c.batchId && BatchInv(s, other)
    ensures BatchInv(ScanOutcome(s, c, route, k), other)
  {
    if c.place != route[k].place {
      BlockKeeps(s, c, route, other);
    } else if s.batches[c.batchId].place.stageId == PRE_FLOOR {
      IssueKeeps(s, c.batchId, route[k], c.quantity, other);
      AdvanceKeepsOthers(Issue(s, c.batchId, route[k], c.quantity), c.batchId, route[k], other);
    } else {
      AdvanceKeepsOthers(s, c.batchId, route[k], other);
    }
  }

  lemma OutcomeKeepsOwn(s: State, c: Scan)
    requires c.batchId < |s.batches| && BatchInv(s, c.batchId) && RecordScan(s, c).Ok?
    ensures BatchInv(RecordScan(s, c).value, c.batchId)
  {
    hide BatchInv;
    var b := c.batchId;
    var route, k := RouteOf(s, b), |AcceptedOf(s.events, b)|;
    AcceptedScan(s, c);
    if c.place != route[k].place {
      BlockKeeps(s, c, route, b);
    } else if s.batches[b].place.stageId == PRE_FLOOR {
      IssuedAdvance(s, b, c.quantity);
    } else {
      PlainAdvance(s, b);
    }
  }

  lemma ScanKeeps(s: State, c: Scan)
    requires FloorInv(s) && RecordScan(s, c).Ok?
    ensures FloorInv(RecordScan(s, c).value)
  {
    hide BatchInv;
    hide TablesInv;
    var route, k := RouteOf(s, c.batchId), |AcceptedOf(s.events, c.batchId)|;
    AcceptedScan(s, c);
    var t := ScanOutcome(s, c, route, k);
    OutcomeKeepsTables(s, c, route, k);
    forall other | 0 <= other < |t.batches| ensures BatchInv(t, other) {
      if other == c.batchId {
        OutcomeKeepsOwn(s, c);
      } else {
        OutcomeKeepsOthers(s, c, route, k, other);
      }
    }
  }

  // ---- packs created by hand ----

  lemma CreatedPack(s: State, t: State, n: nat)
    requires TablesInv(s) && n == |s.batches| < |t.batches|
    requires t == s.(batches := t.batches, positions := t.positions)
    requires t.batches[n].projectId in s.plans
    requires WellFormedSteps(CitedSteps(s.plans[t.batches[n].projectId]))
    requires t.batches[n].series.None? && t.batches[n].status == Planned
    requires n in t.positions && t.positions[n] == Position(t.batches[n].place, None, None)
    ensures BatchInv(t, n)
  {
    NoneOfNew(s.events, n);
    NoneIssued(s.issuances, n);
    RouteWellFormed(CitedSteps(s.plans[t.batches[n].projectId]), t.batches[n].partId);
  }

  lemma CreateKeeps(s: State, p: nat, partId: nat, code: string, quantity: nat, packSize: nat, place: Place)
    requires FloorInv(s) && CreateBatch(s, p, partId, code, quantity, packSize, place).Ok?
    requires WellFormedSteps(CitedSteps(s.plans[p]))
    ensures FloorInv(CreateBatch(s, p, partId, code, quantity, packSize, place).value)
  {
    var t := CreateBatch(s, p, partId, code, quantity, packSize, place).value;
    var n := |s.batches|;
    forall b | 0 <= b < |t.batches| ensures BatchInv(t, b) {
      if b < n {
        Frame(s, t, b);
      } else {
        CreatedPack(s, t, n);
      }
    }
  }

  // ---- quality ----

  lemma InspectionKeeps(s: State, b: nat, place: Place)
    requires FloorInv(s) && CreateInspection(s, b, place).Ok?
    ensures FloorInv(CreateInspection(s, b, place).value)
  {
    var t := CreateInspection(s, b, place).value;
    forall other | 0 <= other < |t.batches| ensures BatchInv(t, other) {
      Frame(s, t, other);
    }
  }

  /** A status change that does not close: the pack's history is untouched. */
  lemma StatusKeeps(s: State, b: nat, status: BatchStatus)
    requires b < |s.batches| && BatchInv(s, b)
    requires status == Held || status == Active || (status == Scrapped && LatestDisposition(s.analyses, b) == Some(Scrap))
    ensures BatchInv(WithStatus(s, b, status), b)
  {
    var t := WithStatus(s, b, status);
    assert RouteOf(t, b) == RouteOf(s, b);
  }

  lemma StatusKeepsOthers(s: State, b: nat, status: BatchStatus, other: nat)
    requires b < |s.batches| && other < |s.batches| && other != b && BatchInv(s, other)
    ensures BatchInv(WithStatus(s, b, status), other)
  {
    Frame(s, WithStatus(s, b, status), other);
  }

  function Recorded(s: State, i: nat, verdict: Verdict): State
    requires i < |s.inspections|
  {
    var row := s.inspections[i];
    s.(decisions := s.decisions + [Decision(i, verdict)],
       inspections := s.inspections[i := row.(status := if verdict == Hold then InProgress else Finished,
                                              rowVersion := row.rowVersion + 1)])
  }

  lemma RecordedKeeps(s: State, i: nat, verdict: Verdict)
    requires FloorInv(s) && i < |s.inspections|
    ensures FloorInv(Recorded(s, i, verdict))
  {
    var u := Recorded(s, i, verdict);
    assert Kept(s.inspections, s.decisions, u.inspections, u.decisions);
    forall other | 0 <= other < |u.batches| ensures BatchInv(u, other) {
      Frame(s, u, other);
    }
  }

  lemma DecideKeeps(s: State, i: nat, verdict: Verdict, version: nat)
    requires FloorInv(s) && Decide(s, i, verdict, version).Ok?
    ensures FloorInv(Decide(s, i, verdict, version).value)
  {
    var u := Recorded(s, i, verdict);
    var b := s.inspections[i].batchId;
    RecordedKeeps(s, i, verdict);
    if verdict != Passed {
      forall other | 0 <= other < |u.batches| ensures BatchInv(WithStatus(u, b, Held), other) {
        if other == b {
          StatusKeeps(u, other, Held);
        } else {
          StatusKeepsOthers(u, b, Held, other);
        }
      }
    }
  }

  /** The analysed pack itself: scrapped exactly with a SCRAP disposition on record. */
  lemma AnalysedKeeps(s: State, a: Analysis)
    requires a.batchId < |s.batches| && BatchInv(s, a.batchId) && !Terminal(s.batches[a.batchId].status)
    ensures BatchInv(WithStatus(s.(analyses := s.analyses + [a]), a.batchId, StatusAfter(a.disposition)), a.batchId)
  {
    var u := s.(analyses := s.analyses + [a]);
    AppendAnalysis(s.analyses, a, a.batchId);
    assert RouteOf(u, a.batchId) == RouteOf(s, a.batchId);
    assert BatchInv(u, a.batchId);
    StatusKeeps(u, a.batchId, StatusAfter(a.disposition));
  }

  lemma AnalyseKeeps(s: State, i: nat, disposition: Disposition)
    requires FloorInv(s) && Analyse(s, i, disposition).Ok?
    ensures FloorInv(Analyse(s, i, disposition).value)
  {
    var b := s.inspections[i].batchId;
    var a := Analysis(i, b, disposition);
    var u := s.(analyses := s.analyses + [a]);
    var t := Analyse(s, i, disposition).value;
    forall other | 0 <= other < |t.batches| ensures BatchInv(t, other) {
      if other == b {
        AnalysedKeeps(s, a);
      } else {
        AppendAnalysis(s.analyses, a, other);
        Frame(s, u, other);
        StatusKeepsOthers(u, b, StatusAfter(disposition), other);
      }
    }
  }

  // ---- Finish Goods ----

  /** What a closure has seen: the whole route taken and the final hop passed. */
  lemma ClosureSeen(s: State, b: nat)
    requires b < |s.batches| && BatchInv(s, b) && CloseBatch(s, b).Ok?
    ensures CloseBatch(s, b) == Ok(WithStatus(s, b, Closed))
    ensures s.batches[b].status == Active
    ensures |AcceptedOf(s.events, b)| == |RouteOf(s, b)| > 0
    ensures PassedAt(s.inspections, s.decisions, b, RouteOf(s, b)[|RouteOf(s, b)| - 1].place)
  {
    var route, k := RouteOf(s, b), |AcceptedOf(s.events, b)|;
    NextAfterPrefix(route, k);
    assert k == |route|;
    var i := IndexOfStep(route, route[k - 1].id);
    assert i == k - 1;
    GateMeansPassed(s.inspections, s.decisions, b, route[i].place);
  }

  lemma CloseKeeps(s: State, b: nat)
    requires FloorInv(s) && CloseBatch(s, b).Ok?
    ensures FloorInv(CloseBatch(s, b).value)
  {
    assert b < |s.batches|;
    ClosureSeen(s, b);
    var t := WithStatus(s, b, Closed);
    forall other | 0 <= other < |t.batches| ensures BatchInv(t, other) {
      if other == b {
        assert RouteOf(t, b) == RouteOf(s, b);
      } else {
        StatusKeepsOthers(s, b, Closed, other);
      }
    }
  }
}
