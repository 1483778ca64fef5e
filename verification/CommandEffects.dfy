/**
 What a committed command leaves in the tables, said of the tables alone: the rows it writes and
 no others. Creation, replacement and release have their own modules.
 */
module CommandEffects {
  import opened Common
  import opened Text
  import opened Routes
  import opened Tables
  import opened Minting
  import opened FloorCommands
  import opened PlanCommands
  import opened FloorInvariant
  import opened FloorSteps
  import opened PlanInvariant
  import opened PlanSteps
  import opened Production
  import opened Guarantees

  // ---- scans ----

  /** What a recorded scan leaves: its event; on acceptance the pack's move, with the material issued
      when it leaves the pre-floor; otherwise a violation with the whole route. */
  ghost predicate ScanLeaves(s: State, c: Scan, t: State)
    requires c.batchId < |s.batches| && s.batches[c.batchId].projectId in s.plans
    requires |AcceptedOf(s.events, c.batchId)| < |RouteOf(s, c.batchId)|
  {
    var b, pack, route := c.batchId, s.batches[c.batchId], RouteOf(s, c.batchId);
    var step := route[|AcceptedOf(s.events, b)|];
    var accepted, leaves := c.place == step.place, pack.place.stageId == "STG-PROJECTS";
    && t.events == s.events + [StageEvent(b, c.place, pack.partId, accepted, if accepted then Some(step.id) else None)]
    && t.issuances == s.issuances + (if accepted && leaves
         then [Issuance(b, step.place, if c.quantity.Some? then c.quantity.value else pack.plannedQuantity)] else [])
    && t.violations == s.violations + (if accepted then [] else [Violation(|s.events|, b, c.place, route)])
    && t.batches == (if accepted then s.batches[b := pack.(place := step.place, rowVersion := pack.rowVersion + 1)] else s.batches)
    && t.positions == (if accepted then s.positions[b := Position(step.place, Some(step.id), Some(|s.events|))] else s.positions)
    && t.plans == s.plans && t.inspections == s.inspections && t.decisions == s.decisions && t.analyses == s.analyses
    && t.nextId == s.nextId
  }

  /** A committed scan found its pack a step, and left exactly that. */
  lemma ScanWrites(s: State, c: Scan)
    requires Reachable(s) && RecordScan(s, c).Ok?
    ensures c.batchId < |s.batches| && s.batches[c.batchId].projectId in s.plans
    ensures |AcceptedOf(s.events, c.batchId)| < |RouteOf(s, c.batchId)|
    ensures ScanLeaves(s, c, RecordScan(s, c).value)
  {
    hide Inv, BatchInv, RecordScan;
    ReachableInv(s);
    ScanPack(s, c);
    InvPack(s, c.batchId);
    AcceptedScan(s, c);
  }

  lemma ScanPack(s: State, c: Scan)
    requires RecordScan(s, c).Ok?
    ensures c.batchId < |s.batches| && s.batches[c.batchId].projectId in s.plans
  {
  }

  // ---- quality and closure ----

  lemma InspectionWrites(s: State, b: nat, place: Place)
    requires CreateInspection(s, b, place).Ok?
    ensures CreateInspection(s, b, place).value == s.(inspections := s.inspections + [Inspection(b, place, Open, 1)])
  {
  }

  /** A verdict settles its inspection, unless it is a HOLD, and a verdict other than a pass holds the pack. */
  lemma VerdictWrites(s: State, i: nat, verdict: Verdict, version: nat)
    requires Decide(s, i, verdict, version).Ok?
    ensures i < |s.inspections| && s.inspections[i].batchId < |s.batches| && s.inspections[i].rowVersion == version
    ensures s.inspections[i].status == Open || s.inspections[i].status == InProgress
    ensures var t, row, pack := Decide(s, i, verdict, version).value, s.inspections[i], s.batches[s.inspections[i].batchId];
            && t.decisions == s.decisions + [Decision(i, verdict)]
            && t.inspections == s.inspections[i := row.(rowVersion := version + 1, status := if verdict == Hold then InProgress else Finished)]
            && t.batches == (if verdict == Passed then s.batches
                             else s.batches[row.batchId := pack.(status := Held, rowVersion := pack.rowVersion + 1)])
            && t == s.(decisions := t.decisions, inspections := t.inspections, batches := t.batches)
  {
  }

  /** A disposition scraps the pack, lifts its hold, or leaves it held. */
  lemma DispositionWrites(s: State, i: nat, disposition: Disposition)
    requires Analyse(s, i, disposition).Ok?
    ensures i < |s.inspections| && s.inspections[i].batchId < |s.batches|
    ensures var t, b := Analyse(s, i, disposition).value, s.inspections[i].batchId;
            && t.analyses == s.analyses + [Analysis(i, b, disposition)]
            && (forall k :: 0 <= k < |s.batches| && k != b ==> k < |t.batches| && t.batches[k] == s.batches[k])
            && |t.batches| == |s.batches|
            && t.batches[b] == s.batches[b].(status := if disposition == Scrap then Scrapped else if disposition == Waive then Active else Held,
                                             rowVersion := s.batches[b].rowVersion + 1)
            && t == s.(analyses := t.analyses, batches := t.batches)
  {
  }

  lemma ClosureWrites(s: State, b: nat)
    requires CloseBatch(s, b).Ok?
    ensures b < |s.batches|
    ensures CloseBatch(s, b).value == s.(batches := s.batches[b := s.batches[b].(status := Closed, rowVersion := s.batches[b].rowVersion + 1)])
  {
  }

  /** A pack made by hand is planned, at the place given, under its part's requirement. */
  lemma HandMadeWrites(s: State, p: nat, partId: nat, code: string, quantity: nat, packSize: nat, place: Place)
    requires CreateBatch(s, p, partId, code, quantity, packSize, place).Ok?
    ensures p in s.plans
    ensures exists part :: part in s.plans[p].parts && part.id == partId
              && CreateBatch(s, p, partId, code, quantity, packSize, place).value
                 == s.(batches := s.batches + [Batch(code, p, partId, quantity, packSize, part.requirementId, None, place, Planned, 1)],
                       positions := s.positions[|s.batches| := Position(place, None, None)])
  {
    var part := FindPart(s.plans[p].parts, partId).value;
    assert part in s.plans[p].parts;
  }

  // ---- plans ----

  /** An edit replaces what it names, in the project and in its lot, and nothing else. */
  lemma PatchWrites(s: State, catalog: Catalog, p: nat, version: nat, name: Option<string>, product: Option<Option<string>>,
                    batchSize: Option<nat>)
    requires Reachable(s) && PatchProject(s, catalog, p, version, name, product, batchSize).Ok?
    ensures p in s.plans && s.plans[p].rowVersion == version && s.plans[p].status == Draft
    ensures var a := s.plans[p];
            var newName, size := if name.Some? then name.value else a.name, if batchSize.Some? then batchSize.value else a.trayQuantity;
            PatchProject(s, catalog, p, version, name, product, batchSize).value
            == s.(plans := s.plans[p := a.(name := newName, trayQuantity := size, rowVersion := version + 1,
                                           product := if product.Some? then product.value else a.product,
                                           lot := a.lot.(name := newName, labelPackSize := size))])
  {
    EditedDraft(s, catalog, p, version, name, product, batchSize);
    ReachablePlan(s, p);
  }

  lemma EditedDraft(s: State, catalog: Catalog, p: nat, version: nat, name: Option<string>, product: Option<Option<string>>,
                    batchSize: Option<nat>)
    requires PatchProject(s, catalog, p, version, name, product, batchSize).Ok?
    ensures p in s.plans
  {
  }

  /** A new version is added to the ones there, and cited. */
  lemma VersionWrites(s: State, catalog: Catalog, p: nat, version: nat, steps: seq<StepInput>)
    requires CreateRouteVersion(s, catalog, p, version, steps).Ok?
    ensures p in s.plans && s.plans[p].rowVersion == version && s.plans[p].status == Draft
    ensures var t, a := CreateRouteVersion(s, catalog, p, version, steps).value, s.plans[p];
            && p in t.plans && t == s.(plans := s.plans[p := t.plans[p]], nextId := t.nextId)
            && |t.plans[p].lists| == |a.lists| + 1 && t.plans[p].lists[..|a.lists|] == a.lists
            && t.plans[p] == a.(lists := t.plans[p].lists, rowVersion := version + 1,
                                lot := a.lot.(partsListId := t.plans[p].lists[|a.lists|].id,
                                              partsListVersion := t.plans[p].lists[|a.lists|].version))
  {
    hide CheckSteps, InputRows;
  }

  /** An override changes one part's row and nothing else. */
  lemma OverrideWrites(s: State, p: nat, partId: nat, version: nat, times: Option<CycleTimes>)
    requires OverrideCycleTimes(s, p, partId, version, times).Ok?
    ensures p in s.plans && s.plans[p].status == Draft
    ensures var t, a := OverrideCycleTimes(s, p, partId, version, times).value, s.plans[p];
            && p in t.plans && t == s.(plans := s.plans[p := t.plans[p]]) && t.plans[p] == a.(parts := t.plans[p].parts)
            && |t.plans[p].parts| == |a.parts|
            && forall i :: 0 <= i < |a.parts| ==>
                 if a.parts[i].id != partId then t.plans[p].parts[i] == a.parts[i]
                 else t.plans[p].parts[i].override == times && t.plans[p].parts[i].rowVersion == version + 1
  {
  }

  /** A removal takes the part from the parts, and leaves the others. */
  lemma RemovalWrites(s: State, p: nat, partId: nat, version: nat, x: Part)
    requires RemovePart(s, p, partId, version).Ok?
    ensures p in s.plans && s.plans[p].rowVersion == version && s.plans[p].status == Draft
    ensures var t, a := RemovePart(s, p, partId, version).value, s.plans[p];
            && p in t.plans && t == s.(plans := s.plans[p := t.plans[p]])
            && (x in t.plans[p].parts <==> x in a.parts && x.id != partId)
            && t.plans[p] == a.(parts := t.plans[p].parts, lists := t.plans[p].lists, rowVersion := version + 1)
  {
    DropPartRows(s.plans[p].parts, partId, x);
  }

  /** Only a draft without packs is deleted, and only its rows go. */
  lemma DeletionWrites(s: State, p: nat, ifMatch: Option<nat>)
    requires DeleteProject(s, p, ifMatch).Ok?
    ensures p in s.plans && s.plans[p].status == Draft && (ifMatch.Some? ==> ifMatch.value == s.plans[p].rowVersion)
    ensures forall x :: x in s.batches ==> x.projectId != p
    ensures DeleteProject(s, p, ifMatch).value == s.(plans := s.plans - {p})
  {
    forall x | x in s.batches ensures x.projectId != p {
      var b :| 0 <= b < |s.batches| && s.batches[b] == x;
      assert !Referenced(s, p);
    }
  }
}
