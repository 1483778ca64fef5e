/** What every reachable state says about each pack, and the frame lemmas for it. */
module FloorInvariant {
  import opened Common
  import opened Routes
  import opened Tables

  // ---- the logs ----

  /** A pack's accepted scans, oldest first. */
  function AcceptedOf(events: seq<StageEvent>, b: nat): seq<StageEvent> {
    if events == [] then []
    else
      var last := |events| - 1;
      var before := AcceptedOf(events[..last], b);
      if events[last].batchId == b && events[last].accepted then before + [events[last]] else before
  }

  function LastAccepted(events: seq<StageEvent>, b: nat): Option<nat> {
    if events == [] then None
    else
      var last := |events| - 1;
      if events[last].batchId == b && events[last].accepted then Some(last)
      else LastAccepted(events[..last], b)
  }

  /** The keys of the blocked scans, oldest first. */
  function BlockedIds(events: seq<StageEvent>): seq<nat> {
    if events == [] then []
    else
      var last := |events| - 1;
      var before := BlockedIds(events[..last]);
      if events[last].accepted then before else before + [last]
  }

  function ViolationEvents(violations: seq<Violation>): seq<nat> {
    seq(|violations|, i requires 0 <= i < |violations| => violations[i].eventId)
  }

  function Issued(issuances: seq<Issuance>, b: nat): nat {
    if issuances == [] then 0
    else
      var last := |issuances| - 1;
      Issued(issuances[..last], b) + if issuances[last].batchId == b then 1 else 0
  }

  ghost predicate Vouches(inspections: seq<Inspection>, d: Decision, b: nat, place: Place) {
    && d.verdict == Passed && d.inspectionId < |inspections|
    && inspections[d.inspectionId].batchId == b && inspections[d.inspectionId].place == place
  }

  /** Some recorded decision passed the pack at the place. */
  ghost predicate PassedAt(inspections: seq<Inspection>, decisions: seq<Decision>, b: nat, place: Place) {
    exists d :: 0 <= d < |decisions| && Vouches(inspections, decisions[d], b, place)
  }

  // ---- the invariant ----

  /** The accepted scans are a prefix of the route, step by step. */
  ghost predicate OnRoute(accepted: seq<StageEvent>, route: seq<RoutingStep>) {
    && |accepted| <= |route|
    && forall i :: 0 <= i < |accepted| ==>
         accepted[i].routeStepId == Some(route[i].id) && accepted[i].place == route[i].place
  }

  /** The batch row and its projection are the fold of the event log. */
  ghost predicate Tracked(batch: Batch, position: Position, accepted: seq<StageEvent>, last: Option<nat>,
                          route: seq<RoutingStep>) {
    && OnRoute(accepted, route)
    && position.place == batch.place
    && position.routeStepId == Standing(route, |accepted|)
    && position.lastEventId == last
    && (accepted != [] ==> batch.place == route[|accepted| - 1].place)
    && (accepted == [] && batch.series.Some? ==> batch.place == Place(PRE_FLOOR, None))
  }

  ghost predicate Gated(inspections: seq<Inspection>, decisions: seq<Decision>, b: nat, batch: Batch, taken: nat,
                        route: seq<RoutingStep>) {
    && taken <= |route|
    && (forall i :: 0 <= i < taken - 1 ==> PassedAt(inspections, decisions, b, route[i].place))
    && (batch.status == Closed ==>
          taken == |route| > 0 && PassedAt(inspections, decisions, b, route[taken - 1].place))
  }

  ghost predicate Counted(batch: Batch, taken: nat, issued: nat) {
    && (taken == 0 ==> issued == 0)
    && issued <= 1
    && (batch.series.Some? && taken > 0 ==> issued == 1)
    && (batch.series.Some? ==> batch.status != Planned)
  }

  ghost predicate BatchInv(s: State, b: nat)
    requires b < |s.batches|
  {
    var batch := s.batches[b];
    var accepted := AcceptedOf(s.events, b);
    && batch.projectId in s.plans
    && b in s.positions
    && WellFormedRoute(RouteOf(s, b))
    && Tracked(batch, s.positions[b], accepted, LastAccepted(s.events, b), RouteOf(s, b))
    && Gated(s.inspections, s.decisions, b, batch, |accepted|, RouteOf(s, b))
    && Counted(batch, |accepted|, Issued(s.issuances, b))
    && (batch.status == Scrapped ==> LatestDisposition(s.analyses, b) == Some(Scrap))
  }

  ghost predicate TablesInv(s: State) {
    && (forall b :: b in s.positions <==> 0 <= b < |s.batches|)
    && (forall e :: 0 <= e < |s.events| ==> s.events[e].batchId < |s.batches|)
    && (forall k :: 0 <= k < |s.issuances| ==> s.issuances[k].batchId < |s.batches|)
    && (forall i :: 0 <= i < |s.inspections| ==> s.inspections[i].batchId < |s.batches|)
    && (forall d :: 0 <= d < |s.decisions| ==> s.decisions[d].inspectionId < |s.inspections|)
    && (forall a :: 0 <= a < |s.analyses| ==> s.analyses[a].inspectionId < |s.inspections|)
    && ViolationEvents(s.violations) == BlockedIds(s.events)
    && (forall v :: 0 <= v < |s.violations| ==>
          && s.violations[v].eventId < |s.events|
          && s.violations[v].batchId == s.events[s.violations[v].eventId].batchId)
  }

  ghost predicate FloorInv(s: State) {
    && TablesInv(s)
    && forall b :: 0 <= b < |s.batches| ==> BatchInv(s, b)
  }

  // ---- appending to the logs ----

  lemma AppendEvent(events: seq<StageEvent>, e: StageEvent, b: nat)
    ensures AcceptedOf(events + [e], b)
         == if e.batchId == b && e.accepted then AcceptedOf(events, b) + [e] else AcceptedOf(events, b)
    ensures LastAccepted(events + [e], b)
         == if e.batchId == b && e.accepted then Some(|events|) else LastAccepted(events, b)
  {
    assert (events + [e])[..|events|] == events;
  }

  lemma AppendBlocked(events: seq<StageEvent>, e: StageEvent)
    ensures BlockedIds(events + [e]) == if e.accepted then BlockedIds(events) else BlockedIds(events) + [|events|]
  {
    assert (events + [e])[..|events|] == events;
  }

  lemma AppendIssuance(issuances: seq<Issuance>, k: Issuance, b: nat)
    ensures Issued(issuances + [k], b) == Issued(issuances, b) + if k.batchId == b then 1 else 0
  {
    assert (issuances + [k])[..|issuances|] == issuances;
  }

  lemma AppendAnalysis(analyses: seq<Analysis>, a: Analysis, b: nat)
    ensures LatestDisposition(analyses + [a], b)
         == if a.batchId == b then Some(a.disposition) else LatestDisposition(analyses, b)
  {
    assert (analyses + [a])[..|analyses|] == analyses;
  }

  lemma {:induction false} NoneOfNew(events: seq<StageEvent>, b: nat)
    requires forall e :: 0 <= e < |events| ==> events[e].batchId != b
    ensures AcceptedOf(events, b) == [] && LastAccepted(events, b) == None
  {
    if events != [] {
      NoneOfNew(events[..|events| - 1], b);
    }
  }

  lemma {:induction false} NoneIssued(issuances: seq<Issuance>, b: nat)
    requires forall k :: 0 <= k < |issuances| ==> issuances[k].batchId != b
    ensures Issued(issuances, b) == 0
  {
    if issuances != [] {
      NoneIssued(issuances[..|issuances| - 1], b);
    }
  }

  // ---- verdicts ----

  /** Rows kept their batch and place, and no decision was removed or changed. */
  ghost predicate Kept(i0: seq<Inspection>, d0: seq<Decision>, i1: seq<Inspection>, d1: seq<Decision>) {
    && |i0| <= |i1|
    && (forall i :: 0 <= i < |i0| ==> i1[i].batchId == i0[i].batchId && i1[i].place == i0[i].place)
    && |d0| <= |d1|
    && (forall d :: 0 <= d < |d0| ==> d1[d] == d0[d])
  }

  lemma PassedAtKept(i0: seq<Inspection>, d0: seq<Decision>, i1: seq<Inspection>, d1: seq<Decision>, b: nat, place: Place)
    requires Kept(i0, d0, i1, d1) && PassedAt(i0, d0, b, place)
    ensures PassedAt(i1, d1, b, place)
  {
    var d :| 0 <= d < |d0| && Vouches(i0, d0[d], b, place);
    assert Vouches(i1, d1[d], b, place);
  }

  lemma {:induction false} VerdictRecorded(decisions: seq<Decision>, i: nat)
    requires LatestVerdict(decisions, i).Some?
    ensures exists d :: 0 <= d < |decisions| && decisions[d] == Decision(i, LatestVerdict(decisions, i).value)
  {
    var last := |decisions| - 1;
    if decisions[last].inspectionId != i {
      VerdictRecorded(decisions[..last], i);
      var d :| 0 <= d < last && decisions[..last][d] == Decision(i, LatestVerdict(decisions, i).value);
      assert decisions[d] == decisions[..last][d];
    }
  }

  lemma GateMeansPassed(inspections: seq<Inspection>, decisions: seq<Decision>, b: nat, place: Place)
    requires GateVerdict(inspections, decisions, b, place) == Some(Passed)
    ensures PassedAt(inspections, decisions, b, place)
  {
    var i := LatestInspection(inspections, b, place).value;
    VerdictRecorded(decisions, i);
    var d :| 0 <= d < |decisions| && decisions[d] == Decision(i, Passed);
    assert Vouches(inspections, decisions[d], b, place);
  }

  lemma GatedKept(i0: seq<Inspection>, d0: seq<Decision>, i1: seq<Inspection>, d1: seq<Decision>, b: nat, batch: Batch,
                  taken: nat, route: seq<RoutingStep>)
    requires Kept(i0, d0, i1, d1) && Gated(i0, d0, b, batch, taken, route)
    ensures Gated(i1, d1, b, batch, taken, route)
  {
    forall i | 0 <= i < taken - 1 ensures PassedAt(i1, d1, b, route[i].place) {
      PassedAtKept(i0, d0, i1, d1, b, route[i].place);
    }
    if batch.status == Closed {
      PassedAtKept(i0, d0, i1, d1, b, route[taken - 1].place);
    }
  }

  // ---- frame ----

  /** Nothing a command did touches what is recorded about pack `b`. */
  ghost predicate Untouched(s: State, t: State, b: nat)
    requires b < |s.batches| && b < |t.batches|
    requires s.batches[b].projectId in s.plans && t.batches[b].projectId in t.plans
  {
    && t.batches[b] == s.batches[b]
    && b in s.positions && b in t.positions && t.positions[b] == s.positions[b]
    && AcceptedOf(t.events, b) == AcceptedOf(s.events, b)
    && LastAccepted(t.events, b) == LastAccepted(s.events, b)
    && Issued(t.issuances, b) == Issued(s.issuances, b)
    && LatestDisposition(t.analyses, b) == LatestDisposition(s.analyses, b)
    && RouteOf(t, b) == RouteOf(s, b)
  }

  lemma Frame(s: State, t: State, b: nat)
    requires b < |s.batches| && b < |t.batches|
    requires BatchInv(s, b) && t.batches[b].projectId in t.plans
    requires Untouched(s, t, b)
    requires Kept(s.inspections, s.decisions, t.inspections, t.decisions)
    ensures BatchInv(t, b)
  {
    GatedKept(s.inspections, s.decisions, t.inspections, t.decisions, b, s.batches[b], |AcceptedOf(s.events, b)|, RouteOf(s, b));
  }
}
