/** The guarantees of the production run, for every state any allowed run reaches. */
module Guarantees {
  import opened Common
  import opened Routes
  import opened Tables
  import opened Minting
  import opened FloorCommands
  import opened PlanCommands
  import opened Runs
  import opened FloorInvariant
  import opened PlanInvariant
  import opened Production
  import opened FloorSteps
  import opened Finishing

  // ---- Finish Goods ----

  /** Finish-Goods safety: a closed pack has one accepted scan for every step of its route, in
      step order, and was passed at every step's place. */
  lemma FinishGoodsSafety(s: State, b: nat)
    requires Reachable(s) && b < |s.batches| && s.batches[b].status == Closed
    ensures s.batches[b].projectId in s.plans && RouteOf(s, b) != []
    ensures var accepted, route := AcceptedOf(s.events, b), RouteOf(s, b);
            && |accepted| == |route|
            && (forall i :: 0 <= i < |route| ==> accepted[i].routeStepId == Some(route[i].id) && accepted[i].place == route[i].place)
            && (forall i, j :: 0 <= i < j < |route| ==> route[i].stepOrder < route[j].stepOrder && route[i].id != route[j].id)
            && forall i :: 0 <= i < |route| ==> PassedAt(s.inspections, s.decisions, b, route[i].place)
  {
    ReachablePack(s, b);
    var route := RouteOf(s, b);
    forall i | 0 <= i < |route| ensures PassedAt(s.inspections, s.decisions, b, route[i].place) {
      if i == |route| - 1 {
        assert PassedAt(s.inspections, s.decisions, b, route[|AcceptedOf(s.events, b)| - 1].place);
      }
    }
  }

  /** A pack anywhere on its route took every earlier step, none skipped and none repeated,
      and every step but the one it stands at was passed. */
  lemma NoStepSkipped(s: State, b: nat, i: nat)
    requires Reachable(s) && b < |s.batches| && i < |AcceptedOf(s.events, b)|
    ensures s.batches[b].projectId in s.plans && |AcceptedOf(s.events, b)| <= |RouteOf(s, b)|
    ensures AcceptedOf(s.events, b)[i].routeStepId == Some(RouteOf(s, b)[i].id)
    ensures i + 1 < |AcceptedOf(s.events, b)| ==> PassedAt(s.inspections, s.decisions, b, RouteOf(s, b)[i].place)
  {
    ReachablePack(s, b);
  }

  /** The scans of the pack are exactly the steps of its route. */
  ghost predicate ScansMatch(s: State, b: nat)
    requires b < |s.batches| && s.batches[b].projectId in s.plans
  {
    |AcceptedOf(s.events, b)| == |RouteOf(s, b)| && OnRoute(AcceptedOf(s.events, b), RouteOf(s, b))
  }

  lemma ClosedScansMatch(s: State, b: nat)
    requires Inv(s) && b < |s.batches| && s.batches[b].status == Closed
    ensures s.batches[b].projectId in s.plans && ScansMatch(s, b) && RouteOf(s, b) != []
  {
    assert BatchInv(s, b);
  }

  /** The rows of a new version are new: no scan names one. */
  lemma NewVersionIsNew(s: State, catalog: Catalog, p: nat, version: nat, steps: seq<StepInput>, b: nat)
    requires Inv(s) && CreateRouteVersion(s, catalog, p, version, steps).Ok?
    requires b < |s.batches| && s.batches[b].projectId == p && s.batches[b].status == Closed
    ensures var t := CreateRouteVersion(s, catalog, p, version, steps).value;
            p in t.plans && t.batches == s.batches && !ScansMatch(t, b)
  {
    hide Inv;
    hide BatchInv;
    hide CheckSteps;
    hide PlanInv;
    var t := CreateRouteVersion(s, catalog, p, version, steps).value;
    ClosedScansMatch(s, b);
    OldStepsBelow(s, b);
    NewStepsAbove(s, p, steps);
    var plan := WithVersion(s.plans[p], steps, s.nextId);
    assert t.plans[p] == plan;
    var route := RouteOf(t, b);
    if route != [] {
      RouteRows(CitedSteps(plan), s.batches[b].partId, route[0]);
      assert route[0] in route;
      assert AcceptedOf(s.events, b)[0].routeStepId == Some(RouteOf(s, b)[0].id) != Some(route[0].id);
    }
  }

  lemma OldStepsBelow(s: State, b: nat)
    requires Inv(s) && b < |s.batches| && s.batches[b].projectId in s.plans && RouteOf(s, b) != []
    ensures RouteOf(s, b)[0].id < s.nextId
  {
    var plan := s.plans[s.batches[b].projectId];
    PlanHolds(s, s.batches[b].projectId);
    CitedIsHighest(plan, s.nextId);
    var x := RouteOf(s, b)[0];
    assert x in RouteOf(s, b);
    RouteRows(CitedSteps(plan), s.batches[b].partId, x);
    assert StepsBelow(CitedSteps(plan), s.nextId);
    var i :| 0 <= i < |CitedSteps(plan)| && CitedSteps(plan)[i] == x;
  }

  lemma OldListsBelow(s: State, p: nat)
    requires Inv(s) && p in s.plans
    ensures forall i :: 0 <= i < |s.plans[p].lists| ==> s.plans[p].lists[i].id < s.nextId
  {
    PlanHolds(s, p);
  }

  lemma NewStepsAbove(s: State, p: nat, steps: seq<StepInput>)
    requires Inv(s) && p in s.plans
    ensures forall x :: x in CitedSteps(WithVersion(s.plans[p], steps, s.nextId)) ==> x.id >= s.nextId
  {
    hide PlanInv, FloorInv;
    var plan := WithVersion(s.plans[p], steps, s.nextId);
    OldListsBelow(s, p);
    var list := FindList(plan.lists, plan.lot.partsListId);
    assert plan.lists[|plan.lists| - 1] in plan.lists;
    if list.Some? {
      var i :| 0 <= i < |plan.lists| && plan.lists[i] == list.value;
      assert i == |plan.lists| - 1;
    }
  }

  /** A command makes a closed pack's scans stop matching its route exactly when it commits a new
      route version of the pack's project. */
  lemma MismatchExactly(s: State, c: Command, b: nat)
    requires Inv(s) && b < |s.batches| && s.batches[b].status == Closed
    ensures var t := Step(s, c); b < |t.batches| && t.batches[b].projectId in t.plans
    ensures !ScansMatch(Step(s, c), b) <==> c.RouteVersionCreate? && c.p == s.batches[b].projectId && Apply(s, c).Ok?
  {
    hide Inv;
    hide BatchInv;
    hide Allowed;
    ClosedScansMatch(s, b);
    if Apply(s, c).Ok? {
      var t := Apply(s, c).value;
      if c.RouteVersionCreate? && c.p == s.batches[b].projectId {
        NewVersionIsNew(s, c.catalog, c.p, c.version, c.steps, b);
      } else {
        CommandKeepsHistory(s, c, b);
      }
    }
  }

  lemma CommandKeepsHistory(s: State, c: Command, b: nat)
    requires Inv(s) && b < |s.batches| && s.batches[b].status == Closed && Apply(s, c).Ok?
    requires !(c.RouteVersionCreate? && c.p == s.batches[b].projectId)
    ensures var t := Apply(s, c).value;
            && s.batches[b].projectId in s.plans && b < |t.batches| && t.batches[b].projectId in t.plans
            && RouteOf(t, b) == RouteOf(s, b) && AcceptedOf(t.events, b) == AcceptedOf(s.events, b)
  {
    hide Inv;
    hide BatchInv;
    hide Apply;
    hide RecordScan;
    InvPack(s, b);
    PackProject(s, b);
    if IsPlanEdit(c) {
      PlanEditShape(s, c);
      PlanEditKeepsRoute(s, c, b);
    } else if c.ProjectRelease? {
      ReleaseApplies(s, c);
      ReleaseKeepsPacks(s, c.p, c.version, c.before, b);
    } else if c.StageEventRecord? {
      ScanApplies(s, c);
      ScanLeavesClosed(s, c.scan, b);
    } else {
      QualityKeepsPacks(s, c, b);
      FloorCommandLeavesPlans(s, c);
    }
  }

  lemma PackProject(s: State, b: nat)
    requires b < |s.batches| && BatchInv(s, b)
    ensures s.batches[b].projectId in s.plans
  {
  }

  lemma ReleaseApplies(s: State, c: Command)
    requires c.ProjectRelease?
    ensures Apply(s, c) == ReleaseProject(s, c.p, c.version, c.before)
  {
  }

  lemma ScanLeavesClosed(s: State, c: Scan, b: nat)
    requires Inv(s) && b < |s.batches| && s.batches[b].status == Closed && RecordScan(s, c).Ok?
    ensures var t := RecordScan(s, c).value;
            && t.plans == s.plans && |t.batches| == |s.batches|
            && t.batches[b].projectId == s.batches[b].projectId && t.batches[b].partId == s.batches[b].partId
            && AcceptedOf(t.events, b) == AcceptedOf(s.events, b)
  {
    hide Inv;
    hide BatchInv;
    InvPack(s, c.batchId);
    AcceptedScan(s, c);
    ScanKeepsIdentity(s, c, b);
    var t := RecordScan(s, c).value;
    OutcomeIdentity(s, c, RouteOf(s, c.batchId), |AcceptedOf(s.events, c.batchId)|, b);
    AppendEvent(s.events, t.events[|s.events|], b);
  }

  // ---- how final CLOSED is ----

  /** A verdict other than a pass, recorded on an unsettled inspection of the pack. */
  predicate Reopens(s: State, c: Command, b: nat) {
    && c.DecisionCreate? && c.verdict != Passed
    && c.i < |s.inspections| && s.inspections[c.i].batchId == b && s.inspections[c.i].rowVersion == c.version
    && (s.inspections[c.i].status == Open || s.inspections[c.i].status == InProgress)
  }

  /** A closed pack leaves CLOSED by exactly such a verdict, and is then held. */
  lemma ReopensExactly(s: State, c: Command, b: nat)
    requires b < |s.batches| && s.batches[b].status == Closed
    ensures b < |Step(s, c).batches|
    ensures Step(s, c).batches[b].status != Closed <==> Reopens(s, c, b)
    ensures Reopens(s, c, b) ==> Step(s, c).batches[b].status == Held
  {
    hide Apply;
    if Apply(s, c).Ok? {
      if IsPlanEdit(c) {
        PlanEditShape(s, c);
      } else if c.ProjectRelease? {
        ReleaseApplies(s, c);
        ReleaseLeavesClosed(s, c.p, c.version, c.before, b);
      } else if c.StageEventRecord? {
        ScanApplies(s, c);
        ScanLeavesStatus(s, c.scan, b);
      } else {
        QualityReopens(s, c, b);
      }
    } else {
      RefusedVerdict(s, c, b);
    }
  }

  lemma ReleaseLeavesClosed(s: State, p: nat, version: nat, before: (string, string) -> bool, b: nat)
    requires b < |s.batches| && s.batches[b].status == Closed && ReleaseProject(s, p, version, before).Ok?
    ensures var t := ReleaseProject(s, p, version, before).value; b < |t.batches| && t.batches[b] == s.batches[b]
  {
    hide MintParts, CheckRelease, CodesFree;
  }

  lemma ScanLeavesStatus(s: State, c: Scan, b: nat)
    requires b < |s.batches| && s.batches[b].status == Closed && RecordScan(s, c).Ok?
    ensures var t := RecordScan(s, c).value; b < |t.batches| && t.batches[b] == s.batches[b]
  {
    hide HopPassed;
  }

  lemma QualityReopens(s: State, c: Command, b: nat)
    requires b < |s.batches| && s.batches[b].status == Closed && Apply(s, c).Ok?
    requires c.BatchCreate? || c.InspectionCreate? || c.DecisionCreate? || c.AnalysisCreate? || c.BatchClose?
    ensures var t := Apply(s, c).value;
            && b < |t.batches| && (t.batches[b].status != Closed <==> Reopens(s, c, b))
            && (Reopens(s, c, b) ==> t.batches[b].status == Held)
  {
  }

  lemma RefusedVerdict(s: State, c: Command, b: nat)
    requires b < |s.batches| && Apply(s, c).Err?
    ensures !Reopens(s, c, b)
  {
  }

  /** Over runs: the pack is closed in every state exactly when no command of the run reopens it. */
  ghost predicate StaysClosed(s: State, commands: seq<Command>, b: nat)
    decreases |commands|
  {
    && b < |s.batches| && s.batches[b].status == Closed
    && (commands == [] || StaysClosed(Step(s, commands[0]), commands[1..], b))
  }

  predicate NeverReopened(s: State, commands: seq<Command>, b: nat)
    decreases |commands|
  {
    commands == [] || (!Reopens(s, commands[0], b) && NeverReopened(Step(s, commands[0]), commands[1..], b))
  }

  lemma {:induction false} StaysClosedExactly(s: State, commands: seq<Command>, b: nat)
    requires b < |s.batches| && s.batches[b].status == Closed
    ensures StaysClosed(s, commands, b) <==> NeverReopened(s, commands, b)
    decreases |commands|
  {
    hide Reopens, Step;
    if commands != [] {
      ReopensExactly(s, commands[0], b);
      if !Reopens(s, commands[0], b) {
        StaysClosedExactly(Step(s, commands[0]), commands[1..], b);
      }
    }
  }

  // ---- the projection ----

  lemma {:induction false} LastAcceptedIsLast(events: seq<StageEvent>, b: nat)
    ensures LastAccepted(events, b).None? <==> AcceptedOf(events, b) == []
    ensures LastAccepted(events, b).Some? ==>
              && LastAccepted(events, b).value < |events|
              && events[LastAccepted(events, b).value] == AcceptedOf(events, b)[|AcceptedOf(events, b)| - 1]
  {
    if events != [] {
      LastAcceptedIsLast(events[..|events| - 1], b);
    }
  }

  /** The position is the fold of the event log: batch row, projection and last event all
      show the newest accepted scan. */
  lemma PositionIsFold(s: State, b: nat)
    requires Reachable(s) && b < |s.batches| && AcceptedOf(s.events, b) != []
    ensures b in s.positions && s.positions[b].lastEventId.Some? && s.positions[b].lastEventId.value < |s.events|
    ensures var last := s.events[s.positions[b].lastEventId.value];
            && last == AcceptedOf(s.events, b)[|AcceptedOf(s.events, b)| - 1]
            && s.batches[b].place == s.positions[b].place == last.place
            && s.positions[b].routeStepId == last.routeStepId
            && last.batchId == b && last.accepted
  {
    ReachablePack(s, b);
    LastAcceptedIsLast(s.events, b);
    AcceptedAreAccepted(s.events, b);
  }

  lemma {:induction false} AcceptedAreAccepted(events: seq<StageEvent>, b: nat)
    ensures forall i :: 0 <= i < |AcceptedOf(events, b)| ==>
              AcceptedOf(events, b)[i].batchId == b && AcceptedOf(events, b)[i].accepted
  {
    if events != [] {
      AcceptedAreAccepted(events[..|events| - 1], b);
    }
  }

  /** A pack minted at release gets its scan-out issue exactly once, with its first hop. */
  lemma ScanOutOnce(s: State, b: nat)
    requires Reachable(s) && b < |s.batches|
    ensures Issued(s.issuances, b) <= 1
    ensures s.batches[b].series.Some? ==> Issued(s.issuances, b) == if AcceptedOf(s.events, b) == [] then 0 else 1
  {
    ReachablePack(s, b);
  }

  // ---- violations ----

  lemma {:induction false} BlockedIdsExact(events: seq<StageEvent>)
    ensures forall e: nat :: e in BlockedIds(events) <==> e < |events| && !events[e].accepted
    ensures forall i, j :: 0 <= i < j < |BlockedIds(events)| ==> BlockedIds(events)[i] < BlockedIds(events)[j]
  {
    if events != [] {
      BlockedIdsExact(events[..|events| - 1]);
      var before := BlockedIds(events[..|events| - 1]);
      assert forall i :: 0 <= i < |before| ==> before[i] in before;
    }
  }

  /** Every blocked scan has exactly one violation, of the same pack, and every violation has
      its blocked scan. */
  lemma OneViolationPerBlockedScan(s: State)
    requires Reachable(s)
    ensures forall e :: 0 <= e < |s.events| ==>
              (!s.events[e].accepted <==> exists v :: 0 <= v < |s.violations| && s.violations[v].eventId == e)
    ensures forall v, w :: 0 <= v < w < |s.violations| ==> s.violations[v].eventId != s.violations[w].eventId
    ensures forall v :: 0 <= v < |s.violations| ==>
              && s.violations[v].eventId < |s.events|
              && s.violations[v].batchId == s.events[s.violations[v].eventId].batchId
  {
    ReachableInv(s);
    hide Inv;
    InvTables(s);
    BlockedIdsExact(s.events);
    var ids := BlockedIds(s.events);
    assert ids == ViolationEvents(s.violations);
    assert forall v :: 0 <= v < |s.violations| ==> ids[v] == s.violations[v].eventId;
    forall e | 0 <= e < |s.events| && !s.events[e].accepted
      ensures exists v :: 0 <= v < |s.violations| && s.violations[v].eventId == e
    {
      assert e in ids;
      var v :| 0 <= v < |ids| && ids[v] == e;
      assert s.violations[v].eventId == e;
    }
    forall e, v | 0 <= e < |s.events| && 0 <= v < |s.violations| && s.violations[v].eventId == e
      ensures !s.events[e].accepted
    {
      assert ids[v] == e;
    }
  }

  // ---- scrap evidence and completion ----

  /** A scrapped pack's newest analysis is a SCRAP. */
  lemma ScrapEvidence(s: State, b: nat)
    requires Reachable(s) && b < |s.batches| && s.batches[b].status == Scrapped
    ensures LatestDisposition(s.analyses, b) == Some(Scrap)
  {
    ReachablePack(s, b);
  }

  /** What the read side loads of a pack: its verdicts and dispositions, newest first. */
  datatype GuardRow = GuardRow(status: BatchStatus, verdicts: seq<seq<Verdict>>, dispositions: seq<Disposition>)

  function VerdictsOf(decisions: seq<Decision>, i: nat): seq<Verdict> {
    if decisions == [] then []
    else
      var last := decisions[|decisions| - 1];
      (if last.inspectionId == i then [last.verdict] else []) + VerdictsOf(decisions[..|decisions| - 1], i)
  }

  function InspectionsOf(inspections: seq<Inspection>, decisions: seq<Decision>, b: nat): seq<seq<Verdict>> {
    if inspections == [] then []
    else
      var last := |inspections| - 1;
      (if inspections[last].batchId == b then [VerdictsOf(decisions, last)] else [])
      + InspectionsOf(inspections[..last], decisions, b)
  }

  function DispositionsOf(analyses: seq<Analysis>, b: nat): seq<Disposition> {
    if analyses == [] then []
    else
      var last := analyses[|analyses| - 1];
      (if last.batchId == b then [last.disposition] else []) + DispositionsOf(analyses[..|analyses| - 1], b)
  }

  function Newest<T>(rows: seq<T>): seq<T> {
    if rows == [] then [] else [rows[0]]
  }

  /** Full mode: every inspection with every verdict, and the newest disposition. */
  function FullRow(s: State, b: nat): GuardRow
    requires b < |s.batches|
  {
    GuardRow(s.batches[b].status, InspectionsOf(s.inspections, s.decisions, b), Newest(DispositionsOf(s.analyses, b)))
  }

  /** Summary mode: the newest verdict of the newest inspection, and the newest disposition. */
  function SummaryRow(s: State, b: nat): GuardRow
    requires b < |s.batches|
  {
    var inspections := Newest(InspectionsOf(s.inspections, s.decisions, b));
    GuardRow(s.batches[b].status, if inspections == [] then [] else [Newest(inspections[0])], Newest(DispositionsOf(s.analyses, b)))
  }

  function GuardRows(s: State, p: nat, summary: bool, count: nat): seq<GuardRow>
    requires count <= |s.batches|
  {
    if count == 0 then []
    else
      GuardRows(s, p, summary, count - 1)
      + if s.batches[count - 1].projectId == p then [if summary then SummaryRow(s, count - 1) else FullRow(s, count - 1)] else []
  }

  predicate RowTerminal(row: GuardRow) {
    row.status == Closed || (row.status == Scrapped && row.dispositions != [] && row.dispositions[0] == Scrap)
  }

  /** The read side's flag, in either mode. */
  predicate CompletionReady(s: State, p: nat, summary: bool)
    requires p in s.plans
  {
    var rows := GuardRows(s, p, summary, |s.batches|);
    s.plans[p].status == Released && rows != [] && forall i :: 0 <= i < |rows| ==> RowTerminal(rows[i])
  }

  lemma {:induction false} NewestDisposition(analyses: seq<Analysis>, b: nat)
    ensures LatestDisposition(analyses, b) == if DispositionsOf(analyses, b) == [] then None else Some(DispositionsOf(analyses, b)[0])
  {
    if analyses != [] {
      NewestDisposition(analyses[..|analyses| - 1], b);
    }
  }

  lemma {:induction false} RowsTerminal(s: State, p: nat, summary: bool, count: nat)
    requires count <= |s.batches|
    ensures var rows := GuardRows(s, p, summary, count);
            && (rows != [] <==> exists b :: 0 <= b < count && s.batches[b].projectId == p)
            && ((forall i :: 0 <= i < |rows| ==> RowTerminal(rows[i]))
                <==> forall b :: 0 <= b < count && s.batches[b].projectId == p ==> BatchResolved(s, b))
  {
    if count > 0 {
      var b := count - 1;
      RowsTerminal(s, p, summary, b);
      NewestDisposition(s.analyses, b);
      var row := if summary then SummaryRow(s, b) else FullRow(s, b);
      assert RowTerminal(row) <==> BatchResolved(s, b);
      var rows, before := GuardRows(s, p, summary, count), GuardRows(s, p, summary, b);
      if s.batches[b].projectId == p {
        assert rows == before + [row];
        assert (forall i :: 0 <= i < |rows| ==> RowTerminal(rows[i]))
          <==> (forall i :: 0 <= i < |before| ==> RowTerminal(before[i])) && RowTerminal(row) by {
          assert rows[|before|] == row;
          assert forall i :: 0 <= i < |before| ==> rows[i] == before[i];
        }
      } else {
        assert rows == before + [] == before;
      }
    }
  }

  /** In a reachable state the completion command, the read side's flag in both its modes, and the
      plain reading "released, some pack, every pack closed or scrapped" all agree. */
  lemma CompletionAgrees(s: State, p: nat)
    requires Reachable(s) && p in s.plans
    ensures CompleteProject(s, p, s.plans[p].rowVersion).Ok? <==> CompletionReady(s, p, true)
    ensures CompletionReady(s, p, true) <==> CompletionReady(s, p, false)
    ensures CompletionReady(s, p, false)
       <==> && s.plans[p].status == Released
            && (exists b :: 0 <= b < |s.batches| && s.batches[b].projectId == p)
            && forall b :: 0 <= b < |s.batches| && s.batches[b].projectId == p ==> Terminal(s.batches[b].status)
  {
    hide GuardRows;
    RowsTerminal(s, p, true, |s.batches|);
    RowsTerminal(s, p, false, |s.batches|);
    forall b | 0 <= b < |s.batches| && Terminal(s.batches[b].status) ensures BatchResolved(s, b) {
      if s.batches[b].status == Scrapped {
        ScrapEvidence(s, b);
      }
    }
  }

  // ---- released plans ----

  /** Everything about a plan but its status and version. */
  function Blueprint(plan: Plan): Plan {
    plan.(status := Draft, rowVersion := 0)
  }

  lemma StepFreezes(s: State, c: Command, p: nat)
    requires Inv(s) && p in s.plans && s.plans[p].status != Draft
    ensures p in Step(s, c).plans && Step(s, c).plans[p].status != Draft
    ensures Blueprint(Step(s, c).plans[p]) == Blueprint(s.plans[p])
  {
    hide Apply, Inv, Blueprint;
    FreshProject(s);
    if Apply(s, c).Ok? {
      if c.BatchCreate? || c.StageEventRecord? || c.InspectionCreate? || c.DecisionCreate? || c.AnalysisCreate? || c.BatchClose? {
        FloorCommandLeavesPlans(s, c);
      } else if c.ProjectRelease? {
        ReleaseApplies(s, c);
        ReleaseFreezes(s, c.p, c.version, c.before, p);
      } else if c.ProjectComplete? {
        CompletionApplies(s, c);
        CompletionFreezes(s, c.p, c.version, p);
      } else if c.ProjectCreate? || c.ProjectDelete? {
        ProjectEdits(s, c);
      } else if c.RequirementsReplace? || c.RouteVersionCreate? {
        RowsEdit(s, c);
      } else {
        PatchEdits(s, c);
      }
    }
  }

  lemma ReleaseFreezes(s: State, q: nat, version: nat, before: (string, string) -> bool, p: nat)
    requires p in s.plans && s.plans[p].status != Draft && ReleaseProject(s, q, version, before).Ok?
    ensures var t := ReleaseProject(s, q, version, before).value; p in t.plans && t.plans[p] == s.plans[p]
  {
  }

  lemma CompletionFreezes(s: State, q: nat, version: nat, p: nat)
    requires p in s.plans && s.plans[p].status != Draft && CompleteProject(s, q, version).Ok?
    ensures var t := CompleteProject(s, q, version).value;
            p in t.plans && t.plans[p].status != Draft && Blueprint(t.plans[p]) == Blueprint(s.plans[p])
  {
  }

  /** Once released, a project's requirements, parts, cycle times, route versions, lot and
      sizes never change again, whatever commands follow. */
  lemma {:induction false} ReleasedIsFrozen(s: State, commands: seq<Command>, p: nat)
    requires Inv(s) && AllowedRun(s, commands) && p in s.plans && s.plans[p].status != Draft
    ensures p in Run(s, commands).plans && Run(s, commands).plans[p].status != Draft
    ensures Blueprint(Run(s, commands).plans[p]) == Blueprint(s.plans[p])
    decreases |commands|
  {
    hide Inv;
    if commands != [] {
      StepFreezes(s, commands[0], p);
      StepKeeps(s, commands[0]);
      ReleasedIsFrozen(Step(s, commands[0]), commands[1..], p);
    }
  }

  /** A released or completed project has parts, each under one of its requirements, and
      every step of its cited route belongs to a part that resolves a time for it. */
  lemma ReleasedIsTimed(s: State, p: nat, i: nat) returns (part: Part)
    requires Reachable(s) && p in s.plans && s.plans[p].status != Draft
    requires i < |CitedSteps(s.plans[p])|
    ensures part in s.plans[p].parts && part.id == CitedSteps(s.plans[p])[i].partId
    ensures HasRequirement(s.plans[p].requirements, part.requirementId)
    ensures var t := ResolveTime(part, CitedSteps(s.plans[p])[i].place); t.Some? && 1 <= t.value <= 86400
  {
    ReachablePlan(s, p);
    hide Inv;
    var plan := s.plans[p];
    CitedIsHighest(plan, s.nextId);
    var steps := CitedSteps(plan);
    assert StepsOwned(steps, plan.parts);
    assert HasPart(plan.parts, steps[i].partId);
    var j :| 0 <= j < |plan.parts| && plan.parts[j].id == steps[i].partId;
    part := plan.parts[j];
    assert PartTimed(part, steps);
  }

  /** The lot agrees with the plan in every reachable state: its target is the sum of the
      requirements, it cites the highest version with its number, its pack size is the tray
      quantity and its name the project's. */
  lemma LotIsConsistent(s: State, p: nat)
    requires Reachable(s) && p in s.plans
    ensures var plan := s.plans[p];
            && plan.lot.requiredQuantity == SumRequired(plan.requirements)
            && plan.lot.labelPackSize == plan.trayQuantity
            && plan.lot.name == plan.name
            && plan.lot.partsListVersion == HighestVersion(plan.lists)
            && (forall l :: l in plan.lists ==> l.version <= plan.lot.partsListVersion)
            && exists l :: l in plan.lists && l.id == plan.lot.partsListId && l.version == plan.lot.partsListVersion
  {
    ReachablePlan(s, p);
    var plan := s.plans[p];
    HighestIsLast(plan.lists);
    var last := plan.lists[|plan.lists| - 1];
    assert last in plan.lists;
    forall l | l in plan.lists ensures l.version <= plan.lot.partsListVersion {
      var i :| 0 <= i < |plan.lists| && plan.lists[i] == l;
    }
  }

  // ---- release minting ----

  lemma {:induction false} InsertedParts(x: Part, parts: seq<Part>, before: (string, string) -> bool)
    ensures forall y :: y in InsertPart(x, parts, before) <==> y == x || y in parts
    ensures DistinctParts(parts) && (forall i :: 0 <= i < |parts| ==> parts[i].id != x.id)
            ==> DistinctParts(InsertPart(x, parts, before))
  {
    if parts != [] && !before(x.code, parts[0].code) {
      var tail := parts[1..];
      assert parts == [parts[0]] + tail;
      assert forall i :: 0 <= i < |tail| ==> tail[i] == parts[i + 1];
      InsertedParts(x, tail, before);
      var rest := InsertPart(x, tail, before);
      forall j | DistinctParts(parts) && (forall i :: 0 <= i < |parts| ==> parts[i].id != x.id) && 0 <= j < |rest|
        ensures rest[j].id != parts[0].id
      {
        assert rest[j] == x || rest[j] in tail;
      }
    }
  }

  lemma {:induction false} SortedParts(parts: seq<Part>, before: (string, string) -> bool)
    ensures forall y :: y in SortParts(parts, before) <==> y in parts
    ensures DistinctParts(parts) ==> DistinctParts(SortParts(parts, before))
  {
    if parts != [] {
      var last := |parts| - 1;
      var rest := SortParts(parts[..last], before);
      assert parts == parts[..last] + [parts[last]];
      SortedParts(parts[..last], before);
      InsertedParts(parts[last], rest, before);
      forall i | DistinctParts(parts) && 0 <= i < |rest| ensures rest[i].id != parts[last].id {
        assert rest[i] in parts[..last];
      }
    }
  }

  lemma {:induction false} FindsRequirement(requirements: seq<Requirement>, id: nat)
    requires HasRequirement(requirements, id)
    ensures FindRequirement(requirements, id).Some? && FindRequirement(requirements, id).value in requirements
    ensures FindRequirement(requirements, id).value.id == id
  {
    var j :| 0 <= j < |requirements| && requirements[j].id == id;
    if requirements[0].id != id {
      assert requirements[1..][j - 1].id == id;
      FindsRequirement(requirements[1..], id);
    }
  }

  lemma PartRequirement(s: State, p: nat, part: Part)
    requires Reachable(s) && p in s.plans && part in s.plans[p].parts
    ensures HasRequirement(s.plans[p].requirements, part.requirementId) && DistinctParts(s.plans[p].parts)
  {
    ReachablePlan(s, p);
    var j :| 0 <= j < |s.plans[p].parts| && s.plans[p].parts[j] == part;
    assert HasRequirement(s.plans[p].requirements, s.plans[p].parts[j].requirementId);
  }

  /** What a release adds for a part: the trays its remaining quantity asks for. */
  lemma ReleaseAdds(s: State, p: nat, version: nat, before: (string, string) -> bool, part: Part)
    requires Reachable(s) && ReleaseProject(s, p, version, before).Ok?
    requires part in s.plans[p].parts
    ensures FindRequirement(s.plans[p].requirements, part.requirementId).Some?
    ensures var t, plan := ReleaseProject(s, p, version, before).value, s.plans[p];
            var r := FindRequirement(plan.requirements, part.requirementId).value.requiredQuantity;
            var planned, count := SumPlanned(s.batches, p, part.id), CountPlanned(s.batches, p, part.id);
            var trays := Trays(LeftToPlan(r, planned), TraySize(plan), count + 1, SeriesCount(r, TraySize(plan)));
            && SumPlanned(t.batches, p, part.id) == planned + Total(trays)
            && CountPlanned(t.batches, p, part.id) == count + |trays|
  {
    hide MintParts, Trays, ReleaseProject, Reachable, Inv, SumPlanned, CountPlanned, Activate;
    ReleaseHasPlan(s, p, version, before);
    var plan, tray := s.plans[p], TraySize(s.plans[p]);
    var parts := SortParts(plan.parts, before);
    PartRequirement(s, p, part);
    SortedParts(plan.parts, before);
    FindsRequirement(plan.requirements, part.requirementId);
    var k :| 0 <= k < |parts| && parts[k] == part;
    var minted := MintParts(plan, p, parts, tray, s.batches, InProject(s.batches, p));
    MintConserves(plan, p, parts, tray, s.batches, InProject(s.batches, p), k);
    PlannedAppend(s.batches, minted, p, part.id);
    ActivatePlanned(s.batches + minted, p, part.id);
    ReleasedBatches(s, p, version, before);
  }

  lemma ReleasedBatches(s: State, p: nat, version: nat, before: (string, string) -> bool)
    requires ReleaseProject(s, p, version, before).Ok?
    ensures p in s.plans
    ensures var plan := s.plans[p];
            ReleaseProject(s, p, version, before).value.batches
            == Activate(s.batches + MintParts(plan, p, SortParts(plan.parts, before), TraySize(plan), s.batches, InProject(s.batches, p)), p)
  {
    hide MintParts, CheckRelease, CodesFree;
  }

  /** After a release exactly the required quantity of a part is planned, if and only if no more
      was planned before and the series numbers left suffice for the rest. */
  lemma ReleaseMintsExactly(s: State, p: nat, version: nat, before: (string, string) -> bool, part: Part)
    requires Reachable(s) && ReleaseProject(s, p, version, before).Ok?
    requires part in s.plans[p].parts
    ensures FindRequirement(s.plans[p].requirements, part.requirementId).Some?
    ensures var t, tray := ReleaseProject(s, p, version, before).value, TraySize(s.plans[p]);
            var r := FindRequirement(s.plans[p].requirements, part.requirementId).value.requiredQuantity;
            var planned, count := SumPlanned(s.batches, p, part.id), CountPlanned(s.batches, p, part.id);
            var numbers := SeriesCount(r, tray) - count;
            SumPlanned(t.batches, p, part.id) == r
            <==> planned <= r && r - planned <= tray * if numbers > 0 then numbers else 0
  {
    hide SumPlanned, CountPlanned, Total, Trays, ReleaseProject, Inv, TraySize, Reachable;
    ReleaseHasPlan(s, p, version, before);
    ReleaseAdds(s, p, version, before, part);
    var tray := TraySize(s.plans[p]);
    var r := FindRequirement(s.plans[p].requirements, part.requirementId).value.requiredQuantity;
    var planned, count := SumPlanned(s.batches, p, part.id), CountPlanned(s.batches, p, part.id);
    var numbers := SeriesCount(r, tray) - count;
    TraysTotal(LeftToPlan(r, planned), tray, count + 1, SeriesCount(r, tray));
    FillsExactly(r, planned, tray * if numbers > 0 then numbers else 0);
  }

  lemma ReleaseHasPlan(s: State, p: nat, version: nat, before: (string, string) -> bool)
    requires ReleaseProject(s, p, version, before).Ok?
    ensures p in s.plans
  {
  }

  lemma FillsExactly(required: nat, planned: nat, room: nat)
    ensures planned + Min(LeftToPlan(required, planned), room) == required <==> planned <= required && required - planned <= room
  {
  }

  /** In particular, with no packs of the part before: ceil(R / s) packs summing to R. */
  lemma ReleaseMintsRequired(s: State, p: nat, version: nat, before: (string, string) -> bool, part: Part)
    requires Reachable(s) && ReleaseProject(s, p, version, before).Ok?
    requires part in s.plans[p].parts && CountPlanned(s.batches, p, part.id) == 0
    ensures var t, plan := ReleaseProject(s, p, version, before).value, s.plans[p];
            && FindRequirement(plan.requirements, part.requirementId).Some?
            && var r := FindRequirement(plan.requirements, part.requirementId).value.requiredQuantity;
            && SumPlanned(t.batches, p, part.id) == r
            && CountPlanned(t.batches, p, part.id) == CeilDiv(r, TraySize(plan))
  {
    hide MintParts, Trays, ReleaseProject, Reachable, Inv, SumPlanned, CountPlanned;
    ReleaseHasPlan(s, p, version, before);
    ReleaseAdds(s, p, version, before, part);
    NonePlanned(s.batches, p, part.id);
    var r := FindRequirement(s.plans[p].requirements, part.requirementId).value.requiredQuantity;
    if r > 0 {
      FirstReleaseMintsAll(r, TraySize(s.plans[p]));
    } else {
      ZeroCeil(TraySize(s.plans[p]));
    }
  }

  lemma {:induction false} NonePlanned(batches: seq<Batch>, p: nat, partId: nat)
    requires CountPlanned(batches, p, partId) == 0
    ensures SumPlanned(batches, p, partId) == 0
  {
    if batches != [] {
      NonePlanned(batches[1..], p, partId);
    }
  }

  lemma ZeroCeil(tray: nat)
    requires tray > 0
    ensures CeilDiv(0, tray) == 0 && Total(Trays(0, tray, 1, SeriesCount(0, tray))) == |Trays(0, tray, 1, SeriesCount(0, tray))| == 0
  {
  }

  lemma {:induction false} ActivatePlanned(batches: seq<Batch>, p: nat, id: nat)
    ensures SumPlanned(Activate(batches, p), p, id) == SumPlanned(batches, p, id)
    ensures CountPlanned(Activate(batches, p), p, id) == CountPlanned(batches, p, id)
  {
    if batches != [] {
      ActivatePlanned(batches[1..], p, id);
      assert Activate(batches, p)[1..] == Activate(batches[1..], p);
    }
  }
}
