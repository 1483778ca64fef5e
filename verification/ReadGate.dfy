/** The read side's gate index and per-pack gate, and why they agree with the commands. */
module ReadGate {
  import opened Common
  import opened Routes
  import opened Tables
  import opened FloorCommands
  import opened FloorInvariant
  import opened FloorSteps
  import opened Production

  type GateIndex = map<(nat, Place), Option<Verdict>>

  /** The index holds, for every pack and place ever inspected, the newest inspection's verdict. */
  ghost predicate Indexes(gate: GateIndex, inspections: seq<Inspection>, decisions: seq<Decision>) {
    forall b: nat, place: Place ::
      match LatestInspection(inspections, b, place)
      case None => (b, place) !in gate
      case Some(i) => (b, place) in gate && gate[(b, place)] == LatestVerdict(decisions, i)
  }

  /** Inspections are read newest first and only the first one per pack and place is kept. */
  method BuildGateIndex(inspections: seq<Inspection>, decisions: seq<Decision>) returns (gate: GateIndex)
    ensures Indexes(gate, inspections, decisions)
  {
    gate := map[];
    var n := |inspections|;
    assert inspections[..n] == inspections;
    while n > 0
      invariant 0 <= n <= |inspections|
      invariant forall b: nat, place: Place ::
        if (b, place) in gate then
          var i := LatestInspection(inspections, b, place);
          i.Some? && gate[(b, place)] == LatestVerdict(decisions, i.value)
        else LatestInspection(inspections, b, place) == LatestInspection(inspections[..n], b, place)
    {
      n := n - 1;
      var key := (inspections[n].batchId, inspections[n].place);
      assert inspections[..n + 1][..n] == inspections[..n];
      if key !in gate {
        assert LatestInspection(inspections, key.0, key.1) == Some(n);
        gate := gate[key := LatestVerdict(decisions, n)];
      }
    }
  }

  datatype Gate = Blocked | Release | Complete | Pending | Pass | OnHold

  /** The gate shown for a pack's next hop. */
  function QcGate(s: State, b: nat, gate: GateIndex): Gate
    requires b < |s.batches| && b in s.positions && s.batches[b].projectId in s.plans
  {
    var position := s.positions[b];
    if s.batches[b].status != Active then Blocked
    else if position.place.stageId == PRE_FLOOR then Release
    else
      var steps := RouteOf(s, b);
      if steps == [] then Blocked
      else
        var current := if position.routeStepId.Some? then
                         (var i := IndexOfStep(steps, position.routeStepId.value); if i >= 0 then Some(steps[i]) else None)
                       else FirstAt(steps, position.place);
        match current
        case None => Blocked
        case Some(step) =>
          if FirstBeyond(steps, step.stepOrder).None? then Complete
          else if (b, step.place) !in gate || gate[(b, step.place)].None? then Pending
          else if gate[(b, step.place)] == Some(Passed) then Pass else OnHold
  }

  /** A stage event at the place would be recorded as accepted. */
  ghost predicate WouldAdvance(s: State, b: nat, place: Place, quantity: Option<nat>) {
    var r := RecordScan(s, Scan(b, place, None, quantity));
    r.Ok? && AcceptedOf(r.value.events, b) != AcceptedOf(s.events, b)
  }

  lemma AdvanceShows(s: State, b: nat, step: RoutingStep)
    requires b < |s.batches|
    ensures AcceptedOf(Advance(s, b, step).events, b)
         == AcceptedOf(s.events, b) + [StageEvent(b, step.place, s.batches[b].partId, true, Some(step.id))]
  {
    AppendEvent(s.events, StageEvent(b, step.place, s.batches[b].partId, true, Some(step.id)), b);
  }

  lemma BlockShows(s: State, c: Scan, route: seq<RoutingStep>)
    requires c.batchId < |s.batches|
    ensures AcceptedOf(Block(s, c, route).events, c.batchId) == AcceptedOf(s.events, c.batchId)
  {
    AppendEvent(s.events, StageEvent(c.batchId, c.place, s.batches[c.batchId].partId, false, None), c.batchId);
  }

  lemma ScanOkExactly(s: State, c: Scan)
    requires c.batchId < |s.batches| && BatchInv(s, c.batchId) && c.partId.None?
    ensures var k, route, batch := |AcceptedOf(s.events, c.batchId)|, RouteOf(s, c.batchId), s.batches[c.batchId];
            RecordScan(s, c).Ok?
            <==> && k < |route| && (batch.status == Active || batch.status == Planned)
                 && (c.place != route[k].place || batch.place.stageId == PRE_FLOOR || HopPassed(s, c.batchId, route))
  {
    ContextOf(s, c.batchId);
    StandpointOf(s, c.batchId);
    if RouteOf(s, c.batchId) != [] {
      CitedExists(s, c.batchId);
    }
  }

  lemma OutcomeShows(s: State, c: Scan, route: seq<RoutingStep>, k: nat)
    requires c.batchId < |s.batches| && k < |route|
    ensures AcceptedOf(ScanOutcome(s, c, route, k).events, c.batchId) != AcceptedOf(s.events, c.batchId)
       <==> c.place == route[k].place
  {
    if c.place != route[k].place {
      BlockShows(s, c, route);
    } else {
      AdvanceShows(s, c.batchId, route[k]);
      AdvanceShows(Issue(s, c.batchId, route[k], c.quantity), c.batchId, route[k]);
    }
  }

  /** A scan commits as accepted exactly at the next step of a live pack whose hop is open. */
  lemma AdvancesExactly(s: State, b: nat, place: Place, quantity: Option<nat>)
    requires b < |s.batches| && BatchInv(s, b)
    ensures var k, route := |AcceptedOf(s.events, b)|, RouteOf(s, b);
            WouldAdvance(s, b, place, quantity)
            <==> && k < |route| && place == route[k].place
                 && (s.batches[b].status == Active || s.batches[b].status == Planned)
                 && (s.batches[b].place.stageId == PRE_FLOOR || HopPassed(s, b, route))
  {
    hide RecordScan;
    hide ScanOutcome;
    var c := Scan(b, place, None, quantity);
    ScanOkExactly(s, c);
    if RecordScan(s, c).Ok? {
      AcceptedScan(s, c);
      OutcomeShows(s, c, RouteOf(s, b), |AcceptedOf(s.events, b)|);
    }
  }

  /** What the read gate says of a pack that has taken `k` steps. */
  lemma GateAfterSteps(s: State, b: nat, gate: GateIndex)
    requires b < |s.batches| && BatchInv(s, b) && Indexes(gate, s.inspections, s.decisions)
    requires s.batches[b].status == Active && s.batches[b].place.stageId != PRE_FLOOR
    requires AcceptedOf(s.events, b) != []
    ensures var k, route := |AcceptedOf(s.events, b)|, RouteOf(s, b);
            && (QcGate(s, b, gate) == Complete <==> k == |route|)
            && (QcGate(s, b, gate) == Pass <==> k < |route| && HopPassed(s, b, route))
            && QcGate(s, b, gate) != Release
  {
    var k, route := |AcceptedOf(s.events, b)|, RouteOf(s, b);
    SourceOf(s, b);
    NextAfterPrefix(route, k);
    var i := IndexOfStep(route, route[k - 1].id);
    assert i == k - 1;
    assert LatestInspection(s.inspections, b, route[k - 1].place).None? ==> (b, route[k - 1].place) !in gate;
  }

  /** A planned pack the next scan would move; the read side shows only active packs as open. */
  ghost predicate OpenWhilePlanned(s: State, b: nat)
    requires b < |s.batches| && s.batches[b].projectId in s.plans
  {
    && s.batches[b].status == Planned && |AcceptedOf(s.events, b)| < |RouteOf(s, b)|
    && (s.batches[b].place.stageId == PRE_FLOOR || HopPassed(s, b, RouteOf(s, b)))
  }

  /** An unscanned active pack off the pre-floor, at a place its route first names in its last
      step: read as standing on that step, while its first scan is still expected. */
  ghost predicate ReadAtTheEnd(s: State, b: nat)
    requires b < |s.batches| && s.batches[b].projectId in s.plans && RouteOf(s, b) != []
  {
    && s.batches[b].status == Active && AcceptedOf(s.events, b) == []
    && s.batches[b].place.stageId != PRE_FLOOR
    && FirstAt(RouteOf(s, b), s.batches[b].place) == Some(RouteOf(s, b)[|RouteOf(s, b)| - 1])
  }

  /** What the read gate says of an unscanned active pack off the pre-floor: it goes by the place. */
  lemma GateUnscanned(s: State, b: nat, gate: GateIndex)
    requires b < |s.batches| && BatchInv(s, b) && Indexes(gate, s.inspections, s.decisions)
    requires s.batches[b].status == Active && s.batches[b].place.stageId != PRE_FLOOR
    requires AcceptedOf(s.events, b) == [] && RouteOf(s, b) != []
    ensures QcGate(s, b, gate) == Complete <==> ReadAtTheEnd(s, b)
    ensures QcGate(s, b, gate) == Pass <==> HopPassed(s, b, RouteOf(s, b)) && !ReadAtTheEnd(s, b)
    ensures QcGate(s, b, gate) != Release
  {
    hide BatchInv, HopPassed, Indexes, FirstAt, FirstBeyond;
    Unscanned(s, b);
    UnscannedHop(s, b);
    var route, place := RouteOf(s, b), s.batches[b].place;
    GateReads(s, b, gate, place);
    var at := FirstAt(route, place);
    if at.Some? {
      var i :| 0 <= i < |route| && route[i] == at.value;
      LastHasNoNext(route, i);
    }
  }

  lemma Unscanned(s: State, b: nat)
    requires b < |s.batches| && BatchInv(s, b) && AcceptedOf(s.events, b) == []
    ensures s.batches[b].projectId in s.plans
    ensures b in s.positions && s.positions[b] == Position(s.batches[b].place, None, LastAccepted(s.events, b))
    ensures WellFormedRoute(RouteOf(s, b))
  {
  }

  lemma UnscannedHop(s: State, b: nat)
    requires b < |s.batches| && BatchInv(s, b) && AcceptedOf(s.events, b) == []
    ensures var at := FirstAt(RouteOf(s, b), s.batches[b].place);
            HopPassed(s, b, RouteOf(s, b))
            <==> at.Some? && GateVerdict(s.inspections, s.decisions, b, s.batches[b].place) == Some(Passed)
  {
    hide GateVerdict;
    Unscanned(s, b);
    StandpointOf(s, b);
  }

  lemma GateReads(s: State, b: nat, gate: GateIndex, place: Place)
    requires Indexes(gate, s.inspections, s.decisions)
    ensures (b, place) in gate && gate[(b, place)] == Some(Passed)
       <==> GateVerdict(s.inspections, s.decisions, b, place) == Some(Passed)
  {
  }

  lemma LastHasNoNext(route: seq<RoutingStep>, i: nat)
    requires WellFormedRoute(route) && i < |route|
    ensures FirstBeyond(route, route[i].stepOrder).None? <==> route[i] == route[|route| - 1]
  {
    if i < |route| - 1 {
      assert route[i].stepOrder < route[|route| - 1].stepOrder;
    }
  }

  /**
   Read gate against write gate, for every reachable pack with a route. The gate opens exactly
   when the scan at the next step would be accepted, except for a planned pack that could be
   scanned and for an unscanned pack read at the end of its route with its hop passed; and it
   completes exactly when an active pack has no next step, except for packs read at the end.
   */
  lemma ReadGateExactly(s: State, b: nat, gate: GateIndex, quantity: Option<nat>)
    requires Reachable(s) && b < |s.batches|
    requires Indexes(gate, s.inspections, s.decisions)
    ensures b in s.positions && s.batches[b].projectId in s.plans
    ensures RouteOf(s, b) != [] ==>
              var k, route := |AcceptedOf(s.events, b)|, RouteOf(s, b);
              var shown := QcGate(s, b, gate) == Release || QcGate(s, b, gate) == Pass;
              && (forall place :: WouldAdvance(s, b, place, quantity) ==> k < |route| && place == route[k].place)
              && ((shown <==> k < |route| && WouldAdvance(s, b, route[k].place, quantity))
                  <==> !OpenWhilePlanned(s, b) && !(ReadAtTheEnd(s, b) && HopPassed(s, b, route)))
              && ((QcGate(s, b, gate) == Complete
                   <==> s.batches[b].status == Active && NextExpected(route, s.positions[b].routeStepId).None?)
                  <==> !ReadAtTheEnd(s, b))
  {
    hide WouldAdvance, HopPassed;
    ReachablePack(s, b);
    var k, route := |AcceptedOf(s.events, b)|, RouteOf(s, b);
    forall place ensures WouldAdvance(s, b, place, quantity) ==> k < |route| && place == route[k].place {
      AdvancesExactly(s, b, place, quantity);
    }
    NextAfterPrefix(route, k);
    if k < |route| {
      AdvancesExactly(s, b, route[k].place, quantity);
    }
    if s.batches[b].status == Active && s.batches[b].place.stageId != PRE_FLOOR && route != [] {
      if k > 0 {
        GateAfterSteps(s, b, gate);
      } else {
        GateUnscanned(s, b, gate);
      }
    }
  }

  /** Packs minted at release fall under neither exception: the two gates simply agree. */
  lemma ReadGateAgrees(s: State, b: nat, gate: GateIndex, quantity: Option<nat>)
    requires Reachable(s) && b < |s.batches|
    requires s.batches[b].series.Some?
    requires Indexes(gate, s.inspections, s.decisions)
    ensures b in s.positions && s.batches[b].projectId in s.plans
    ensures RouteOf(s, b) != [] ==>
              var k, route := |AcceptedOf(s.events, b)|, RouteOf(s, b);
              && (QcGate(s, b, gate) == Release || QcGate(s, b, gate) == Pass
                  <==> exists place :: WouldAdvance(s, b, place, quantity))
              && (QcGate(s, b, gate) == Complete
                  <==> s.batches[b].status == Active && NextExpected(route, s.positions[b].routeStepId).None?)
  {
    hide WouldAdvance;
    ReachablePack(s, b);
    ReadGateExactly(s, b, gate, quantity);
  }
}
