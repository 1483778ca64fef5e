/** The invariant of the whole system, kept by every command of every allowed run. */
module Production {
  import opened Common
  import opened Routes
  import opened Tables
  import opened Minting
  import opened FloorCommands
  import opened PlanCommands
  import opened Runs
  import opened FloorInvariant
  import opened FloorSteps
  import opened PlanInvariant
  import opened PlanSteps

  ghost predicate Inv(s: State) {
    PlansInv(s) && FloorInv(s)
  }

  lemma InvTables(s: State)
    requires Inv(s)
    ensures TablesInv(s)
  {
  }

  lemma InvPack(s: State, b: nat)
    requires Inv(s) && b < |s.batches|
    ensures BatchInv(s, b)
  {
  }

  // ---- planning commands and the floor ----

  ghost predicate RouteKept(s: State, t: State, b: nat)
    requires b < |s.batches| && s.batches[b].projectId in s.plans
  {
    && s.batches[b].projectId in t.plans
    && Route(CitedSteps(t.plans[s.batches[b].projectId]), s.batches[b].partId) == RouteOf(s, b)
  }

  /** Every pack's project is still there, with the same route for the pack's part. */
  ghost predicate RoutesKept(s: State, t: State) {
    forall b :: 0 <= b < |s.batches| && s.batches[b].projectId in s.plans ==> RouteKept(s, t, b)
  }

  lemma PlansOnly(s: State, t: State)
    requires FloorInv(s) && RoutesKept(s, t)
    requires t == s.(plans := t.plans, nextId := t.nextId)
    ensures FloorInv(t)
  {
    forall b | 0 <= b < |t.batches| ensures BatchInv(t, b) {
      assert BatchInv(s, b);
      Frame(s, t, b);
    }
  }

  // ---- release ----

  lemma MintPartShape(plan: Plan, p: nat, part: Part, tray: nat, batches: seq<Batch>, sequence: nat)
    requires tray > 0
    ensures forall x :: x in MintPart(plan, p, part, tray, batches, sequence) ==> MintedShape(x, p)
  {
    var m := MintPart(plan, p, part, tray, batches, sequence);
    forall x | x in m ensures MintedShape(x, p) {
      var i :| 0 <= i < |m| && m[i] == x;
    }
  }

  ghost predicate MintedShape(x: Batch, p: nat) {
    x.projectId == p && x.series.Some? && x.place == Place(PRE_FLOOR, None) && x.status == Planned
  }

  lemma {:induction false} MintedShapes(plan: Plan, p: nat, parts: seq<Part>, tray: nat, batches: seq<Batch>, sequence: nat)
    requires tray > 0
    ensures forall x :: x in MintParts(plan, p, parts, tray, batches, sequence) ==> MintedShape(x, p)
    decreases |parts|
  {
    if parts != [] {
      var minted := MintPart(plan, p, parts[0], tray, batches, sequence);
      MintPartShape(plan, p, parts[0], tray, batches, sequence);
      MintedShapes(plan, p, parts[1..], tray, batches + minted, sequence + |minted|);
    }
  }

  /** A freshly minted and activated pack satisfies the pack invariant. */
  lemma MintedInv(s: State, t: State, b: nat)
    requires TablesInv(s) && |s.batches| <= b < |t.batches|
    requires t == s.(plans := t.plans, batches := t.batches, positions := t.positions)
    requires t.batches[b].projectId in t.plans
    requires WellFormedSteps(CitedSteps(t.plans[t.batches[b].projectId]))
    requires t.batches[b].series.Some? && t.batches[b].place == Place(PRE_FLOOR, None) && t.batches[b].status == Active
    requires b in t.positions && t.positions[b] == Position(Place(PRE_FLOOR, None), None, None)
    ensures BatchInv(t, b)
  {
    NoneOfNew(s.events, b);
    NoneIssued(s.issuances, b);
    RouteWellFormed(CitedSteps(t.plans[t.batches[b].projectId]), t.batches[b].partId);
  }

  lemma PublishedTables(s: State, p: nat, minted: seq<Batch>)
    requires TablesInv(s) && p in s.plans
    ensures TablesInv(Published(s, p, minted))
  {
  }

  lemma PublishedPack(s: State, p: nat, minted: seq<Batch>, b: nat)
    requires TablesInv(s) && p in s.plans && WellFormedSteps(CitedSteps(s.plans[p]))
    requires |s.batches| <= b < |s.batches| + |minted| && MintedShape(minted[b - |s.batches|], p)
    ensures BatchInv(Published(s, p, minted), b)
  {
    var t := Published(s, p, minted);
    assert CitedSteps(t.plans[p]) == CitedSteps(s.plans[p]);
    MintedInv(s, t, b);
  }

  /** Packs there before a release keep their history; planned ones of the project become active. */
  lemma PublishedOther(s: State, p: nat, minted: seq<Batch>, b: nat)
    requires p in s.plans && b < |s.batches| && BatchInv(s, b)
    ensures BatchInv(Published(s, p, minted), b)
  {
    var t := Published(s, p, minted);
    assert CitedSteps(t.plans[p]) == CitedSteps(s.plans[p]);
    assert t.batches[b] == if s.batches[b].projectId == p && s.batches[b].status == Planned
                           then s.batches[b].(status := Active) else s.batches[b];
    assert RouteOf(t, b) == RouteOf(s, b);
  }

  lemma ReleaseKeepsFloor(s: State, p: nat, version: nat, before: (string, string) -> bool)
    requires Inv(s) && ReleaseProject(s, p, version, before).Ok?
    ensures FloorInv(ReleaseProject(s, p, version, before).value)
  {
    hide PlansInv;
    var parts := SortParts(s.plans[p].parts, before);
    var minted := MintParts(s.plans[p], p, parts, TraySize(s.plans[p]), s.batches, InProject(s.batches, p));
    MintedShapes(s.plans[p], p, parts, TraySize(s.plans[p]), s.batches, InProject(s.batches, p));
    PublishedTables(s, p, minted);
    CitedWellFormed(s, p);
    var t := Published(s, p, minted);
    forall b | 0 <= b < |t.batches| ensures BatchInv(t, b) {
      if b < |s.batches| {
        PublishedOther(s, p, minted, b);
      } else {
        assert minted[b - |s.batches|] in minted;
        PublishedPack(s, p, minted, b);
      }
    }
  }

  lemma CitedWellFormed(s: State, p: nat)
    requires PlansInv(s) && p in s.plans
    ensures WellFormedSteps(CitedSteps(s.plans[p]))
  {
    CitedIsHighest(s.plans[p], s.nextId);
  }

  // ---- every command ----

  /** Only the plan of one draft (or of a new project) changed, and no floor table. */
  ghost predicate EditsDraft(s: State, t: State, p: nat) {
    && t == s.(plans := t.plans, nextId := t.nextId)
    && (p in s.plans ==> s.plans[p].status == Draft)
    && forall q :: q in s.plans && q != p ==> q in t.plans && t.plans[q] == s.plans[q]
  }

  /** Packs of the edited draft, if any, keep their routes. */
  ghost predicate DraftPacksKept(s: State, t: State, p: nat) {
    forall b :: 0 <= b < |s.batches| && s.batches[b].projectId == p && p in s.plans ==> RouteKept(s, t, b)
  }

  lemma EditKeepsRoutes(s: State, t: State, p: nat)
    requires EditsDraft(s, t, p) && DraftPacksKept(s, t, p)
    ensures RoutesKept(s, t)
  {
  }

  lemma PatchEdits(s: State, c: Command)
    requires Apply(s, c).Ok? && (c.ProjectPatch? || c.CycleTimesOverride? || c.PartRemove?)
    ensures EditsDraft(s, Apply(s, c).value, c.p)
  {
  }

  lemma RowsEdit(s: State, c: Command)
    requires Apply(s, c).Ok? && (c.RequirementsReplace? || c.RouteVersionCreate?)
    ensures EditsDraft(s, Apply(s, c).value, c.p)
  {
  }

  lemma ProjectEdits(s: State, c: Command)
    requires s.nextId !in s.plans && Apply(s, c).Ok? && (c.ProjectCreate? || c.ProjectDelete?)
    ensures EditsDraft(s, Apply(s, c).value, if c.ProjectCreate? then s.nextId else c.p)
  {
  }

  lemma CompletionKeepsRoutes(s: State, p: nat, version: nat)
    requires CompleteProject(s, p, version).Ok?
    ensures RoutesKept(s, CompleteProject(s, p, version).value)
    ensures var t := CompleteProject(s, p, version).value; t == s.(plans := t.plans, nextId := t.nextId)
  {
    var t := CompleteProject(s, p, version).value;
    assert CitedSteps(t.plans[p]) == CitedSteps(s.plans[p]);
  }

  /** Removing a part leaves the other parts' rows, in their order. */
  lemma {:induction false} WithoutPartOthers(steps: seq<RoutingStep>, removed: nat, partId: nat)
    requires removed != partId
    ensures OfPart(WithoutPart(steps, removed), partId) == OfPart(steps, partId)
  {
    if steps != [] {
      WithoutPartOthers(steps[1..], removed, partId);
    }
  }

  lemma {:induction false} FindStripped(lists: seq<PartsList>, removed: nat, id: nat)
    ensures FindList(StripLists(lists, removed), id) ==
            match FindList(lists, id)
            case None => None
            case Some(list) => Some(list.(steps := WithoutPart(list.steps, removed)))
  {
    if lists != [] {
      FindStripped(lists[1..], removed, id);
      assert StripLists(lists, removed)[1..] == StripLists(lists[1..], removed);
    }
  }

  lemma RemovalKeepsRoutes(s: State, p: nat, removed: nat, version: nat)
    requires RemovePart(s, p, removed, version).Ok?
    ensures DraftPacksKept(s, RemovePart(s, p, removed, version).value, p)
  {
    hide WithoutPart;
    var t := RemovePart(s, p, removed, version).value;
    FindStripped(s.plans[p].lists, removed, s.plans[p].lot.partsListId);
    forall b | 0 <= b < |s.batches| && s.batches[b].projectId == p ensures RouteKept(s, t, b) {
      WithoutPartOthers(CitedSteps(s.plans[p]), removed, s.batches[b].partId);
    }
  }

  lemma LabelsKeepRoutes(s: State, c: Command)
    requires Apply(s, c).Ok? && (c.ProjectPatch? || c.CycleTimesOverride?)
    ensures DraftPacksKept(s, Apply(s, c).value, c.p)
  {
    var t := Apply(s, c).value;
    assert CitedSteps(t.plans[c.p]) == CitedSteps(s.plans[c.p]);
  }

  /** New quantities keep the routes; rows are rebuilt only without packs. */
  lemma ReplacementKeepsRoutes(s: State, c: Command)
    requires Apply(s, c).Ok? && c.RequirementsReplace?
    ensures DraftPacksKept(s, Apply(s, c).value, c.p)
  {
    hide Rebuilt;
    hide CheckModels;
    var t := Apply(s, c).value;
    if SameModelSet(s.plans[c.p].requirements, c.rows) {
      assert CitedSteps(t.plans[c.p]) == CitedSteps(s.plans[c.p]);
    } else {
      assert !Referenced(s, c.p);
    }
  }

  lemma ProjectsKeepRoutes(s: State, c: Command)
    requires s.nextId !in s.plans && Apply(s, c).Ok? && (c.ProjectCreate? || c.ProjectDelete?)
    ensures DraftPacksKept(s, Apply(s, c).value, if c.ProjectCreate? then s.nextId else c.p)
  {
    hide Rebuilt;
    hide CheckModels;
  }

  predicate IsPlanEdit(c: Command) {
    c.ProjectCreate? || c.ProjectPatch? || c.RequirementsReplace? || c.RouteVersionCreate?
    || c.CycleTimesOverride? || c.PartRemove? || c.ProjectDelete? || c.ProjectComplete?
  }

  /** Apart from release, planning commands write no floor table. */
  lemma PlanEditShape(s: State, c: Command)
    requires Apply(s, c).Ok? && IsPlanEdit(c)
    ensures var t := Apply(s, c).value; t == s.(plans := t.plans, nextId := t.nextId)
  {
  }

  /** Only a new route version of its own project can change a pack's route. */
  lemma PlanEditKeepsRoute(s: State, c: Command, b: nat)
    requires Inv(s) && Apply(s, c).Ok? && IsPlanEdit(c)
    requires b < |s.batches| && s.batches[b].projectId in s.plans
    requires !(c.RouteVersionCreate? && c.p == s.batches[b].projectId)
    ensures RouteKept(s, Apply(s, c).value, b)
  {
    hide Apply;
    hide BatchInv;
    var t := Apply(s, c).value;
    FreshProject(s);
    if c.ProjectComplete? {
      CompletionApplies(s, c);
      CompletionKeepsRoutes(s, c.p, c.version);
    } else if c.ProjectCreate? || c.ProjectDelete? {
      ProjectEdits(s, c);
      ProjectsKeepRoutes(s, c);
      EditKeepsRoutes(s, t, if c.ProjectCreate? then s.nextId else c.p);
    } else if c.RouteVersionCreate? {
      RowsEdit(s, c);
    } else if c.RequirementsReplace? {
      RowsEdit(s, c);
      ReplacementKeepsRoutes(s, c);
      EditKeepsRoutes(s, t, c.p);
    } else {
      PatchEdits(s, c);
      if c.PartRemove? {
        RemovalApplies(s, c);
        RemovalKeepsRoutes(s, c.p, c.partId, c.version);
      } else {
        LabelsKeepRoutes(s, c);
      }
      EditKeepsRoutes(s, t, c.p);
    }
  }

  /** So the planning commands of allowed runs change no pack's route. */
  lemma PlanCommandLeavesFloor(s: State, c: Command)
    requires Inv(s) && Allowed(s, c) && Apply(s, c).Ok? && IsPlanEdit(c)
    ensures RoutesKept(s, Apply(s, c).value)
    ensures var t := Apply(s, c).value; t == s.(plans := t.plans, nextId := t.nextId)
  {
    hide Inv;
    PlanEditShape(s, c);
    forall b | 0 <= b < |s.batches| && s.batches[b].projectId in s.plans ensures RouteKept(s, Apply(s, c).value, b) {
      assert c.RouteVersionCreate? && c.p == s.batches[b].projectId ==> Referenced(s, c.p);
      PlanEditKeepsRoute(s, c, b);
    }
  }

  lemma FreshProject(s: State)
    requires Inv(s)
    ensures s.nextId !in s.plans
  {
  }

  lemma CompletionApplies(s: State, c: Command)
    requires c.ProjectComplete?
    ensures Apply(s, c) == CompleteProject(s, c.p, c.version)
  {
  }

  lemma ScanApplies(s: State, c: Command)
    requires c.StageEventRecord?
    ensures Apply(s, c) == RecordScan(s, c.scan)
  {
  }

  lemma RemovalApplies(s: State, c: Command)
    requires c.PartRemove?
    ensures Apply(s, c) == RemovePart(s, c.p, c.partId, c.version)
  {
  }

  lemma PlanCommandKeepsFloor(s: State, c: Command)
    requires Inv(s) && Allowed(s, c) && Apply(s, c).Ok? && IsPlanEdit(c)
    ensures FloorInv(Apply(s, c).value)
  {
    PlanCommandLeavesFloor(s, c);
    PlansOnly(s, Apply(s, c).value);
  }

  lemma PlanCommandKeepsPlans(s: State, c: Command)
    requires PlansInv(s) && Allowed(s, c) && Apply(s, c).Ok?
    requires IsPlanEdit(c) || c.ProjectRelease?
    ensures PlansInv(Apply(s, c).value)
  {
    hide PlanInv;
    match c
    case ProjectCreate(catalog, code, name, product, batchSize, lotCode, rows) =>
      CreateKeepsPlans(s, catalog, code, name, product, batchSize, lotCode, rows);
    case ProjectPatch(catalog, p, version, name, product, batchSize) =>
      PatchKeepsPlans(s, catalog, p, version, name, product, batchSize);
    case RequirementsReplace(catalog, p, version, rows) => ReplaceKeepsPlans(s, catalog, p, version, rows);
    case RouteVersionCreate(catalog, p, version, steps) => RouteVersionKeepsPlans(s, catalog, p, version, steps);
    case CycleTimesOverride(p, partId, version, times) => OverrideKeepsPlans(s, p, partId, version, times);
    case PartRemove(p, partId, version) => RemoveKeepsPlans(s, p, partId, version);
    case ProjectDelete(p, ifMatch) =>
    case ProjectRelease(p, version, before) => ReleaseKeepsPlans(s, p, version, before);
    case ProjectComplete(p, version) => CompleteKeepsPlans(s, p, version);
  }

  lemma FloorCommandKeeps(s: State, c: Command)
    requires Inv(s) && Allowed(s, c) && Apply(s, c).Ok?
    requires c.BatchCreate? || c.StageEventRecord? || c.InspectionCreate? || c.DecisionCreate? || c.AnalysisCreate?
             || c.BatchClose?
    ensures FloorInv(Apply(s, c).value)
  {
    match c
    case BatchCreate(p, partId, code, quantity, packSize, place) =>
      CitedWellFormed(s, p);
      CreateKeeps(s, p, partId, code, quantity, packSize, place);
    case StageEventRecord(scan) => ScanKeeps(s, scan);
    case InspectionCreate(b, place) => InspectionKeeps(s, b, place);
    case DecisionCreate(i, verdict, version) => DecideKeeps(s, i, verdict, version);
    case AnalysisCreate(i, disposition) => AnalyseKeeps(s, i, disposition);
    case BatchClose(b) => CloseKeeps(s, b);
  }

  /** Floor commands never touch a plan. */
  lemma FloorCommandLeavesPlans(s: State, c: Command)
    requires Apply(s, c).Ok?
    requires c.BatchCreate? || c.StageEventRecord? || c.InspectionCreate? || c.DecisionCreate? || c.AnalysisCreate?
             || c.BatchClose?
    ensures Apply(s, c).value.plans == s.plans && Apply(s, c).value.nextId == s.nextId
  {
  }

  /** Every command of an allowed run keeps the invariant. */
  lemma StepKeeps(s: State, c: Command)
    requires Inv(s) && Allowed(s, c)
    ensures Inv(Step(s, c))
  {
    if Apply(s, c).Ok? {
      if c.BatchCreate? || c.StageEventRecord? || c.InspectionCreate? || c.DecisionCreate? || c.AnalysisCreate? || c.BatchClose? {
        FloorCommandKeeps(s, c);
        FloorCommandLeavesPlans(s, c);
      } else if c.ProjectRelease? {
        PlanCommandKeepsPlans(s, c);
        ReleaseKeepsFloor(s, c.p, c.version, c.before);
      } else {
        PlanCommandKeepsPlans(s, c);
        PlanCommandKeepsFloor(s, c);
      }
    }
  }

  /** So the invariant holds in every state an allowed run reaches. */
  lemma {:induction false} RunKeeps(s: State, commands: seq<Command>)
    requires Inv(s) && AllowedRun(s, commands)
    ensures Inv(Run(s, commands))
    decreases |commands|
  {
    if commands != [] {
      StepKeeps(s, commands[0]);
      RunKeeps(Step(s, commands[0]), commands[1..]);
    }
  }

  lemma EmptyInv()
    ensures Inv(EMPTY)
  {
  }

  /** A state some allowed run of commands reaches from the empty database. */
  ghost predicate Reachable(s: State) {
    exists commands :: AllowedRun(EMPTY, commands) && s == Run(EMPTY, commands)
  }

  lemma ReachableInv(s: State)
    requires Reachable(s)
    ensures Inv(s)
  {
    var commands :| AllowedRun(EMPTY, commands) && s == Run(EMPTY, commands);
    EmptyInv();
    RunKeeps(EMPTY, commands);
  }

  lemma ReachablePack(s: State, b: nat)
    requires Reachable(s) && b < |s.batches|
    ensures BatchInv(s, b)
  {
    ReachableInv(s);
  }

  lemma ReachablePlan(s: State, p: nat)
    requires Reachable(s) && p in s.plans
    ensures PlanInv(s.plans[p], s.nextId)
  {
    ReachableInv(s);
  }

  lemma ReachableEmpty()
    ensures Reachable(EMPTY)
  {
    assert AllowedRun(EMPTY, []) && Run(EMPTY, []) == EMPTY;
  }

  lemma ReachableStep(s: State, c: Command)
    requires Reachable(s) && Allowed(s, c)
    ensures Reachable(Step(s, c))
  {
    hide Allowed, Step;
    var commands :| AllowedRun(EMPTY, commands) && s == Run(EMPTY, commands);
    RunAppend(EMPTY, commands, [c]);
    assert [c][1..] == [];
    assert Run(s, [c]) == Step(s, c) && AllowedRun(s, [c]);
  }
}
