/** Which packs can still be closed into Finish Goods, and by how short a run. */
module Finishing {
  import opened Common
  import opened Routes
  import opened Tables
  import opened FloorCommands
  import opened PlanCommands
  import opened Runs
  import opened FloorInvariant
  import opened FloorSteps
  import opened Production

  ghost predicate ClosesBy(s: State, commands: seq<Command>, b: nat) {
    && AllowedRun(s, commands)
    && b < |Run(s, commands).batches|
    && Run(s, commands).batches[b].status == Closed
  }

  /** The pack stands on the pre-floor, on its route, or at a place its route names. */
  ghost predicate Anchored(s: State, b: nat)
    requires b < |s.batches| && s.batches[b].projectId in s.plans
  {
    || AcceptedOf(s.events, b) != []
    || s.batches[b].place.stageId == PRE_FLOOR
    || exists i :: 0 <= i < |RouteOf(s, b)| && RouteOf(s, b)[i].place == s.batches[b].place
  }

  // ---- building blocks ----

  lemma RunOne(s: State, c: Command)
    ensures Run(s, [c]) == Step(s, c)
    ensures AllowedRun(s, [c]) <==> Allowed(s, c)
  {
    assert [c][1..] == [];
    assert Run(Step(s, c), []) == Step(s, c);
  }

  lemma RunTwo(s: State, c: Command, d: Command)
    ensures Run(s, [c, d]) == Step(Step(s, c), d)
    ensures AllowedRun(s, [c, d]) <==> Allowed(s, c) && Allowed(Step(s, c), d)
  {
    assert [c, d] == [c] + [d];
    RunAppend(s, [c], [d]);
    RunOne(s, c);
    RunOne(Step(s, c), d);
  }

  /** What an inspection and its verdict leave alone: everything but quality rows and status. */
  ghost predicate SameFloor(s: State, t: State, b: nat) {
    && t.plans == s.plans && t.positions == s.positions && t.events == s.events && t.issuances == s.issuances
    && |t.batches| == |s.batches| && b < |s.batches|
    && t.batches[b] == s.batches[b].(status := t.batches[b].status, rowVersion := t.batches[b].rowVersion)
  }

  lemma NewInspectionIsLatest(inspections: seq<Inspection>, i: Inspection)
    ensures LatestInspection(inspections + [i], i.batchId, i.place) == Some(|inspections|)
  {
  }

  lemma NewVerdictIsLatest(decisions: seq<Decision>, d: Decision)
    ensures LatestVerdict(decisions + [d], d.inspectionId) == Some(d.verdict)
  {
  }

  lemma {:induction false} SettledStillLatest(inspections: seq<Inspection>, i: nat, row: Inspection, b: nat, place: Place)
    requires i < |inspections| && row.batchId == inspections[i].batchId && row.place == inspections[i].place
    ensures LatestInspection(inspections[i := row], b, place) == LatestInspection(inspections, b, place)
  {
    var last := |inspections| - 1;
    if i < last {
      assert inspections[i := row][..last] == inspections[..last][i := row];
      SettledStillLatest(inspections[..last], i, row, b, place);
    } else {
      assert inspections[i := row][..last] == inspections[..last];
    }
  }

  /** A fresh inspection passed: the place's gate opens and nothing else moves. */
  lemma InspectAndPass(s: State, b: nat, place: Place) returns (commands: seq<Command>)
    requires Inv(s) && b < |s.batches|
    ensures AllowedRun(s, commands) && |commands| == 2
    ensures var t := Run(s, commands);
            Inv(t) && SameFloor(s, t, b) && t.batches == s.batches
            && GateVerdict(t.inspections, t.decisions, b, place) == Some(Passed)
  {
    hide Inv;
    var n := |s.inspections|;
    commands := [InspectionCreate(b, place), DecisionCreate(n, Passed, 1)];
    RunTwo(s, commands[0], commands[1]);
    var u := Step(s, commands[0]);
    NewInspectionIsLatest(s.inspections, Inspection(b, place, Open, 1));
    SettledStillLatest(u.inspections, n, Inspection(b, place, Finished, 2), b, place);
    NewVerdictIsLatest(s.decisions, Decision(n, Passed));
    RunKeeps(s, commands);
  }

  lemma HoldIt(s: State, b: nat, place: Place) returns (commands: seq<Command>)
    requires Inv(s) && b < |s.batches|
    ensures AllowedRun(s, commands) && |commands| == 2
    ensures var t := Run(s, commands);
            && Inv(t) && SameFloor(s, t, b) && t.batches[b].status == Held
            && |t.inspections| == |s.inspections| + 1 && t.inspections[|s.inspections|].batchId == b
            && LatestVerdict(t.decisions, |s.inspections|) == Some(Hold)
            && t.analyses == s.analyses
  {
    hide Inv;
    var n := |s.inspections|;
    commands := [InspectionCreate(b, place), DecisionCreate(n, Hold, 1)];
    RunTwo(s, commands[0], commands[1]);
    NewVerdictIsLatest(s.decisions, Decision(n, Hold));
    RunKeeps(s, commands);
  }

  /** Any pack at all, closed and scrapped ones included, can be made active again: a verdict
      holds it whatever its status, and a WAIVE lifts the hold. */
  lemma Revive(s: State, b: nat) returns (commands: seq<Command>)
    requires Inv(s) && b < |s.batches|
    ensures AllowedRun(s, commands) && |commands| == 3
    ensures var t := Run(s, commands);
            Inv(t) && SameFloor(s, t, b) && t.batches[b].status == Active
  {
    hide Inv;
    var held := HoldIt(s, b, s.batches[b].place);
    var t := Run(s, held);
    var c := AnalysisCreate(|s.inspections|, Waive);
    InvTables(s);
    NotYetAnalysed(s, |s.inspections|);
    RunOne(t, c);
    RunAppend(s, held, [c]);
    commands := held + [c];
    RunKeeps(s, commands);
  }

  lemma NotYetAnalysed(s: State, n: nat)
    requires TablesInv(s) && |s.inspections| <= n
    ensures !exists a :: 0 <= a < |s.analyses| && s.analyses[a].inspectionId == n
  {
  }

  /** A scan at the next step commits when the hop is open. */
  lemma ScanCommits(s: State, b: nat)
    requires b < |s.batches| && BatchInv(s, b) && s.batches[b].status == Active
    requires |AcceptedOf(s.events, b)| < |RouteOf(s, b)|
    requires s.batches[b].place.stageId == PRE_FLOOR || HopPassed(s, b, RouteOf(s, b))
    ensures var route, k := RouteOf(s, b), |AcceptedOf(s.events, b)|;
            var c := Scan(b, route[k].place, None, None);
            RecordScan(s, c) == Ok(ScanOutcome(s, c, route, k))
  {
    CitedExists(s, b);
    ContextOf(s, b);
    StandpointOf(s, b);
  }

  /** One hop taken: one more accepted scan, the pack still active and on its route. */
  ghost predicate TookHop(s: State, t: State, b: nat)
    requires b < |s.batches| && s.batches[b].projectId in s.plans
  {
    && b < |t.batches| && t.batches[b].projectId in t.plans
    && RouteOf(t, b) == RouteOf(s, b)
    && |AcceptedOf(t.events, b)| == |AcceptedOf(s.events, b)| + 1
    && t.batches[b].status == Active
  }

  lemma ScanTakesHop(s: State, b: nat) returns (c: Command)
    requires Inv(s) && b < |s.batches| && s.batches[b].projectId in s.plans && s.batches[b].status == Active
    requires |AcceptedOf(s.events, b)| < |RouteOf(s, b)|
    requires s.batches[b].place.stageId == PRE_FLOOR || HopPassed(s, b, RouteOf(s, b))
    ensures Allowed(s, c) && TookHop(s, Step(s, c), b)
  {
    hide Inv, BatchInv, Apply, RecordScan, HopPassed;
    InvPack(s, b);
    var route, k := RouteOf(s, b), |AcceptedOf(s.events, b)|;
    var scan := Scan(b, route[k].place, None, None);
    ScanCommits(s, b);
    ScanApplies(s, StageEventRecord(scan));
    AppendEvent(s.events, StageEvent(b, route[k].place, s.batches[b].partId, true, Some(route[k].id)), b);
    c := StageEventRecord(scan);
  }

  /** The verdict that opens the next hop of an anchored pack is the one at its own place. */
  lemma OwnPlaceOpens(s: State, b: nat)
    requires b < |s.batches| && BatchInv(s, b) && Anchored(s, b) && s.batches[b].place.stageId != PRE_FLOOR
    requires GateVerdict(s.inspections, s.decisions, b, s.batches[b].place) == Some(Passed)
    ensures HopPassed(s, b, RouteOf(s, b))
  {
    StandpointOf(s, b);
    if AcceptedOf(s.events, b) != [] {
      SourceOf(s, b);
    } else {
      var i :| 0 <= i < |RouteOf(s, b)| && RouteOf(s, b)[i].place == s.batches[b].place;
      assert RouteOf(s, b)[i] in RouteOf(s, b);
    }
  }

  lemma OneHop(s: State, b: nat) returns (commands: seq<Command>)
    requires Inv(s) && b < |s.batches| && s.batches[b].projectId in s.plans && s.batches[b].status == Active
    requires Anchored(s, b) && |AcceptedOf(s.events, b)| < |RouteOf(s, b)|
    ensures AllowedRun(s, commands) && |commands| <= 3
    ensures Inv(Run(s, commands)) && TookHop(s, Run(s, commands), b)
  {
    hide Inv;
    hide BatchInv;
    if s.batches[b].place.stageId == PRE_FLOOR {
      var c := ScanTakesHop(s, b);
      RunOne(s, c);
      commands := [c];
    } else {
      var pass := InspectAndPass(s, b, s.batches[b].place);
      var t := Run(s, pass);
      InvPack(t, b);
      assert RouteOf(t, b) == RouteOf(s, b);
      assert Anchored(t, b);
      OwnPlaceOpens(t, b);
      var c := ScanTakesHop(t, b);
      RunOne(t, c);
      RunAppend(s, pass, [c]);
      commands := pass + [c];
    }
    RunKeeps(s, commands);
  }

  lemma ClosureCommits(s: State, b: nat)
    requires b < |s.batches| && BatchInv(s, b) && s.batches[b].status == Active
    requires |AcceptedOf(s.events, b)| == |RouteOf(s, b)| > 0
    requires GateVerdict(s.inspections, s.decisions, b, s.batches[b].place) == Some(Passed)
    ensures CloseBatch(s, b) == Ok(WithStatus(s, b, Closed))
  {
    var route, k := RouteOf(s, b), |AcceptedOf(s.events, b)|;
    NextAfterPrefix(route, k);
    var i := IndexOfStep(route, route[k - 1].id);
    assert i == k - 1;
  }

  /** A pack at the end of its route: one pass and the closure. */
  lemma CloseOut(s: State, b: nat) returns (commands: seq<Command>)
    requires Inv(s) && b < |s.batches| && s.batches[b].projectId in s.plans && s.batches[b].status == Active
    requires |AcceptedOf(s.events, b)| == |RouteOf(s, b)| > 0
    ensures ClosesBy(s, commands, b) && |commands| == 3
  {
    hide Inv;
    hide BatchInv;
    var pass := InspectAndPass(s, b, s.batches[b].place);
    var t := Run(s, pass);
    assert RouteOf(t, b) == RouteOf(s, b);
    InvPack(t, b);
    ClosureCommits(t, b);
    RunOne(t, BatchClose(b));
    RunAppend(s, pass, [BatchClose(b)]);
    commands := pass + [BatchClose(b)];
  }

  /** From anywhere on its route an active pack reaches closure in three commands a step. */
  lemma {:induction false} FinishActive(s: State, b: nat) returns (commands: seq<Command>)
    requires Inv(s) && b < |s.batches| && s.batches[b].projectId in s.plans && s.batches[b].status == Active
    requires RouteOf(s, b) != [] && Anchored(s, b)
    ensures ClosesBy(s, commands, b)
    ensures |commands| <= 3 * (|RouteOf(s, b)| - |AcceptedOf(s.events, b)|) + 3
    decreases |RouteOf(s, b)| - |AcceptedOf(s.events, b)|
  {
    hide Inv;
    InvPack(s, b);
    if |AcceptedOf(s.events, b)| == |RouteOf(s, b)| {
      commands := CloseOut(s, b);
    } else {
      var hop := OneHop(s, b);
      var t := Run(s, hop);
      var rest := FinishActive(t, b);
      RunAppend(s, hop, rest);
      commands := hop + rest;
    }
  }

  // ---- packs that can never be closed ----

  /** A pack that no scan can ever move. */
  ghost predicate Stuck(s: State, b: nat) {
    && b < |s.batches| && s.batches[b].projectId in s.plans && !Anchored(s, b)
  }

  lemma StuckHop(s: State, b: nat)
    requires Stuck(s, b) && BatchInv(s, b)
    ensures !HopPassed(s, b, RouteOf(s, b))
  {
    StandpointOf(s, b);
    assert FirstAt(RouteOf(s, b), s.batches[b].place).None?;
  }

  lemma OutcomeIdentity(s: State, c: Scan, route: seq<RoutingStep>, k: nat, b: nat)
    requires c.batchId < |s.batches| && k < |route| && b < |s.batches|
    ensures var t := ScanOutcome(s, c, route, k);
            && t.plans == s.plans && |t.batches| == |s.batches| && |t.events| == |s.events| + 1
            && t.batches[b].projectId == s.batches[b].projectId && t.batches[b].partId == s.batches[b].partId
            && t.events == s.events + [t.events[|s.events|]] && t.events[|s.events|].batchId == c.batchId
            && (b != c.batchId || c.place != route[k].place ==> t.batches[b] == s.batches[b])
            && (c.place != route[k].place ==> !t.events[|s.events|].accepted)
  {
  }

  lemma StuckScan(s: State, c: Scan, b: nat)
    requires Inv(s) && Stuck(s, b) && RecordScan(s, c).Ok?
    ensures var t := RecordScan(s, c).value;
            && AcceptedOf(t.events, b) == AcceptedOf(s.events, b) && t.plans == s.plans
            && b < |t.batches| && t.batches[b] == s.batches[b]
  {
    hide Inv;
    hide BatchInv;
    InvPack(s, b);
    InvPack(s, c.batchId);
    AcceptedScan(s, c);
    StuckHop(s, b);
    var t := RecordScan(s, c).value;
    OutcomeIdentity(s, c, RouteOf(s, c.batchId), |AcceptedOf(s.events, c.batchId)|, b);
    AppendEvent(s.events, t.events[|s.events|], b);
  }

  /** No other command moves a pack or adds to its accepted scans. */
  ghost predicate PackKept(s: State, t: State, b: nat) {
    && b < |s.batches| && b < |t.batches| && t.events == s.events
    && t.batches[b].place == s.batches[b].place && t.batches[b].projectId == s.batches[b].projectId
    && t.batches[b].partId == s.batches[b].partId
  }

  lemma QualityKeepsPacks(s: State, c: Command, b: nat)
    requires b < |s.batches| && Apply(s, c).Ok?
    requires c.BatchCreate? || c.InspectionCreate? || c.DecisionCreate? || c.AnalysisCreate? || c.BatchClose?
    ensures PackKept(s, Apply(s, c).value, b)
  {
  }

  lemma ReleaseKeepsPacks(s: State, p: nat, version: nat, before: (string, string) -> bool, b: nat)
    requires b < |s.batches| && ReleaseProject(s, p, version, before).Ok?
    ensures PackKept(s, ReleaseProject(s, p, version, before).value, b)
    ensures RoutesKept(s, ReleaseProject(s, p, version, before).value)
  {
    var t := ReleaseProject(s, p, version, before).value;
    assert CitedSteps(t.plans[p]) == CitedSteps(s.plans[p]);
  }

  lemma SameRoute(s: State, t: State, b: nat)
    requires b < |s.batches| && b < |t.batches| && BatchInv(s, b) && RoutesKept(s, t)
    requires t.batches[b].projectId == s.batches[b].projectId && t.batches[b].partId == s.batches[b].partId
    ensures t.batches[b].projectId in t.plans && RouteOf(t, b) == RouteOf(s, b)
  {
  }

  /** Apart from a scan, no command adds to a pack's history or changes its route. */
  lemma OtherStep(s: State, c: Command, b: nat)
    requires Inv(s) && Allowed(s, c) && b < |s.batches| && Apply(s, c).Ok? && !c.StageEventRecord?
    ensures PackKept(s, Apply(s, c).value, b) && RoutesKept(s, Apply(s, c).value)
  {
    if c.BatchCreate? || c.InspectionCreate? || c.DecisionCreate? || c.AnalysisCreate? || c.BatchClose? {
      QualityKeepsPacks(s, c, b);
      FloorCommandLeavesPlans(s, c);
    } else if c.ProjectRelease? {
      ReleaseKeepsPacks(s, c.p, c.version, c.before, b);
    } else {
      PlanCommandLeavesFloor(s, c);
    }
  }

  /** A stuck pack stays stuck through every command. */
  lemma StuckStep(s: State, c: Command, b: nat)
    requires Inv(s) && Allowed(s, c) && Stuck(s, b)
    ensures Stuck(Step(s, c), b)
  {
    hide Inv;
    InvPack(s, b);
    if Apply(s, c).Ok? {
      if c.StageEventRecord? {
        StuckScan(s, c.scan, b);
      } else {
        OtherStep(s, c, b);
      }
      SameRoute(s, Apply(s, c).value, b);
    }
  }

  lemma {:induction false} StuckForever(s: State, commands: seq<Command>, b: nat)
    requires Inv(s) && Stuck(s, b) && AllowedRun(s, commands)
    ensures Inv(Run(s, commands)) && Stuck(Run(s, commands), b)
    decreases |commands|
  {
    hide Inv;
    if commands != [] {
      StuckStep(s, commands[0], b);
      StepKeeps(s, commands[0]);
      StuckForever(Step(s, commands[0]), commands[1..], b);
    }
  }

  lemma {:induction false} EmptyRouteForever(s: State, commands: seq<Command>, b: nat)
    requires Inv(s) && b < |s.batches| && s.batches[b].projectId in s.plans && RouteOf(s, b) == []
    requires AllowedRun(s, commands)
    ensures Inv(Run(s, commands)) && b < |Run(s, commands).batches|
            && Run(s, commands).batches[b].projectId in Run(s, commands).plans && RouteOf(Run(s, commands), b) == []
    decreases |commands|
  {
    hide Inv;
    if commands != [] {
      var t := Step(s, commands[0]);
      StepKeeps(s, commands[0]);
      StepKeepsRoute(s, commands[0], b);
      EmptyRouteForever(t, commands[1..], b);
    }
  }

  /** A pack's route never changes. */
  lemma StepKeepsRoute(s: State, c: Command, b: nat)
    requires Inv(s) && Allowed(s, c) && b < |s.batches| && s.batches[b].projectId in s.plans
    ensures b < |Step(s, c).batches| && Step(s, c).batches[b].projectId in Step(s, c).plans
    ensures RouteOf(Step(s, c), b) == RouteOf(s, b)
  {
    hide Inv;
    hide BatchInv;
    if Apply(s, c).Ok? {
      InvPack(s, b);
      if c.StageEventRecord? {
        ScanKeepsIdentity(s, c.scan, b);
      } else {
        OtherStep(s, c, b);
      }
      SameRoute(s, Apply(s, c).value, b);
    }
  }

  lemma ScanKeepsIdentity(s: State, c: Scan, b: nat)
    requires Inv(s) && b < |s.batches| && RecordScan(s, c).Ok?
    ensures var t := RecordScan(s, c).value;
            && t.plans == s.plans && |t.batches| == |s.batches|
            && t.batches[b].projectId == s.batches[b].projectId && t.batches[b].partId == s.batches[b].partId
  {
    hide Inv;
    hide BatchInv;
    InvPack(s, c.batchId);
    AcceptedScan(s, c);
    OutcomeIdentity(s, c, RouteOf(s, c.batchId), |AcceptedOf(s.events, c.batchId)|, b);
  }

  /** A pack of any status can still be closed into Finish Goods exactly when it has a route
      and stands on the pre-floor, on its route or at a place the route names; then a run of
      at most six commands plus three per remaining step does it. */
  lemma CanFinishExactly(s: State, b: nat)
    requires Reachable(s) && b < |s.batches|
    ensures s.batches[b].projectId in s.plans
    ensures (exists commands :: ClosesBy(s, commands, b)) <==> RouteOf(s, b) != [] && Anchored(s, b)
    ensures (exists commands :: ClosesBy(s, commands, b))
            ==> exists commands :: ClosesBy(s, commands, b)
                  && |commands| <= 3 * (|RouteOf(s, b)| - |AcceptedOf(s.events, b)|) + 6
  {
    hide Inv;
    ReachableInv(s);
    InvPack(s, b);
    if RouteOf(s, b) != [] && Anchored(s, b) {
      var revive := Revive(s, b);
      var t := Run(s, revive);
      var rest := FinishActive(t, b);
      RunAppend(s, revive, rest);
      assert ClosesBy(s, revive + rest, b);
    } else {
      forall commands ensures !ClosesBy(s, commands, b) {
        NeverCloses(s, commands, b);
      }
    }
  }

  lemma NeverCloses(s: State, commands: seq<Command>, b: nat)
    requires Inv(s) && b < |s.batches| && s.batches[b].projectId in s.plans
    requires RouteOf(s, b) == [] || !Anchored(s, b)
    ensures !ClosesBy(s, commands, b)
  {
    hide Inv;
    if AllowedRun(s, commands) {
      if RouteOf(s, b) == [] {
        EmptyRouteForever(s, commands, b);
      } else {
        StuckForever(s, commands, b);
      }
      InvPack(Run(s, commands), b);
    }
  }
}
