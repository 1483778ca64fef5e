/** Ordered route steps of one part, and the three places that pick "the next step". */
module Routes {
  import opened Common

  /** A (stage, sub-stage) pair; a null sub-stage is `None`. */
  datatype Place = Place(stageId: string, subStageId: Option<string>)

  /** One row of the routing table. */
  datatype RoutingStep = RoutingStep(id: nat, partId: nat, place: Place, stepOrder: int)

  /** The marker a minted pack sits at before its first scan; it names no stage row. */
  const PRE_FLOOR := "STG-PROJECTS"

  // ---- ordering the rows the way the queries do: step order ascending, then id ----

  predicate Precedes(a: RoutingStep, b: RoutingStep) {
    a.stepOrder < b.stepOrder || (a.stepOrder == b.stepOrder && a.id <= b.id)
  }

  function Insert(x: RoutingStep, steps: seq<RoutingStep>): seq<RoutingStep> {
    if steps == [] then [x]
    else if Precedes(x, steps[0]) then [x] + steps
    else [steps[0]] + Insert(x, steps[1..])
  }

  function Ordered(steps: seq<RoutingStep>): seq<RoutingStep> {
    if steps == [] then [] else Insert(steps[0], Ordered(steps[1..]))
  }

  function OfPart(steps: seq<RoutingStep>, partId: nat): seq<RoutingStep> {
    if steps == [] then []
    else if steps[0].partId == partId then [steps[0]] + OfPart(steps[1..], partId)
    else OfPart(steps[1..], partId)
  }

  /** The route of a part as the closure and the resolve query read it: filter, then order. */
  function Route(steps: seq<RoutingStep>, partId: nat): seq<RoutingStep> {
    Ordered(OfPart(steps, partId))
  }

  predicate Sorted(steps: seq<RoutingStep>) {
    forall i, j :: 0 <= i < j < |steps| ==> Precedes(steps[i], steps[j])
  }

  lemma {:induction false} InsertSorted(x: RoutingStep, steps: seq<RoutingStep>)
    requires Sorted(steps)
    ensures Sorted(Insert(x, steps))
    ensures multiset(Insert(x, steps)) == multiset(steps) + multiset{x}
  {
    if steps == [] {
    } else if Precedes(x, steps[0]) {
    } else {
      InsertSorted(x, steps[1..]);
      var rest := Insert(x, steps[1..]);
      assert steps == [steps[0]] + steps[1..];
      forall j | 0 <= j < |rest| ensures Precedes(steps[0], rest[j]) {
        assert rest[j] in multiset(rest);
        assert rest[j] in multiset(steps[1..]) + multiset{x};
      }
    }
  }

  lemma {:induction false} OrderedSorted(steps: seq<RoutingStep>)
    ensures Sorted(Ordered(steps))
    ensures multiset(Ordered(steps)) == multiset(steps)
  {
    if steps != [] {
      OrderedSorted(steps[1..]);
      InsertSorted(steps[0], Ordered(steps[1..]));
      assert steps == [steps[0]] + steps[1..];
    }
  }

  lemma {:induction false} OfPartInsert(x: RoutingStep, steps: seq<RoutingStep>, partId: nat)
    requires Sorted(steps)
    ensures OfPart(Insert(x, steps), partId)
         == if x.partId == partId then Insert(x, OfPart(steps, partId)) else OfPart(steps, partId)
  {
    if steps == [] {
    } else if Precedes(x, steps[0]) {
      assert ([x] + steps)[1..] == steps;
      if x.partId == partId {
        InsertAtHead(x, steps, partId);
      }
    } else {
      OfPartInsert(x, steps[1..], partId);
      var whole := Insert(x, steps);
      assert whole[1..] == Insert(x, steps[1..]);
      if steps[0].partId == partId {
        assert OfPart(steps, partId)[1..] == OfPart(steps[1..], partId);
      }
    }
  }

  lemma {:induction false} OfPartMembers(steps: seq<RoutingStep>, partId: nat, x: RoutingStep)
    ensures x in OfPart(steps, partId) <==> x in steps && x.partId == partId
  {
    if steps != [] {
      OfPartMembers(steps[1..], partId, x);
      assert steps == [steps[0]] + steps[1..];
    }
  }

  lemma InsertAtHead(x: RoutingStep, steps: seq<RoutingStep>, partId: nat)
    requires steps != [] && Sorted(steps) && Precedes(x, steps[0])
    ensures Insert(x, OfPart(steps, partId)) == [x] + OfPart(steps, partId)
  {
    var kept := OfPart(steps, partId);
    if kept != [] {
      OfPartMembers(steps, partId, kept[0]);
      var i :| 0 <= i < |steps| && steps[i] == kept[0];
    }
  }

  /** Ordering the whole list and then keeping one part gives that part's own ordered rows. */
  lemma {:induction false} FilterThenOrder(steps: seq<RoutingStep>, partId: nat)
    ensures OfPart(Ordered(steps), partId) == Route(steps, partId)
  {
    if steps != [] {
      FilterThenOrder(steps[1..], partId);
      OrderedSorted(steps[1..]);
      OfPartInsert(steps[0], Ordered(steps[1..]), partId);
      if steps[0].partId == partId {
        assert OfPart(steps, partId)[1..] == OfPart(steps[1..], partId);
      }
    }
  }

  // ---- well-formed routes ----

  /** What the route tables guarantee of one parts-list version. */
  ghost predicate WellFormedSteps(steps: seq<RoutingStep>) {
    && DistinctIds(steps)
    && (forall i, j :: 0 <= i < j < |steps| ==>
          steps[i].partId != steps[j].partId || steps[i].stepOrder != steps[j].stepOrder)
    && (forall i :: 0 <= i < |steps| ==> steps[i].stepOrder >= 1 && steps[i].place.stageId != PRE_FLOOR)
  }

  /** A single part's ordered route: strictly increasing orders from 1, distinct ids. */
  ghost predicate WellFormedRoute(route: seq<RoutingStep>) {
    && (forall i, j :: 0 <= i < j < |route| ==> route[i].stepOrder < route[j].stepOrder)
    && DistinctIds(route)
    && (forall i :: 0 <= i < |route| ==> route[i].stepOrder >= 1 && route[i].place.stageId != PRE_FLOOR)
  }

  ghost predicate DistinctIds(steps: seq<RoutingStep>) {
    forall i, j :: 0 <= i < j < |steps| ==> steps[i].id != steps[j].id
  }

  lemma {:induction false} OfPartDistinct(steps: seq<RoutingStep>, partId: nat)
    requires DistinctIds(steps)
    ensures DistinctIds(OfPart(steps, partId))
  {
    if steps != [] {
      var tail := steps[1..];
      OfPartDistinct(tail, partId);
      var rest := OfPart(tail, partId);
      forall j | 0 <= j < |rest| ensures rest[j].id != steps[0].id {
        OfPartMembers(tail, partId, rest[j]);
        var k :| 0 <= k < |tail| && tail[k] == rest[j];
        assert steps[k + 1] == rest[j];
      }
    }
  }

  /** Distinctness of a list read as: every value of the key occurs once in the multiset. */
  lemma PermutationDistinct(a: seq<RoutingStep>, b: seq<RoutingStep>)
    requires multiset(a) == multiset(b)
    requires DistinctIds(a)
    ensures DistinctIds(b)
  {
    forall i, j | 0 <= i < j < |b| ensures b[i].id != b[j].id {
      if b[i].id == b[j].id {
        assert b[i] in multiset(b) && b[j] in multiset(b);
        assert b[i] in a && b[j] in a;
        var k :| 0 <= k < |a| && a[k] == b[i];
        var l :| 0 <= l < |a| && a[l] == b[j];
        assert k == l;
        CountTwice(b, i, j);
        CountOnce(a, k);
      }
    }
  }

  lemma CountTwice(s: seq<RoutingStep>, i: nat, j: nat)
    requires i < j < |s| && s[i] == s[j]
    ensures multiset(s)[s[i]] >= 2
  {
    assert s == s[..j] + s[j..];
    assert s[..j][i] == s[i] && s[j..][0] == s[j];
    assert s[i] in multiset(s[..j]) && s[j] in multiset(s[j..]);
  }

  lemma CountOnce(s: seq<RoutingStep>, k: nat)
    requires k < |s|
    requires DistinctIds(s)
    ensures multiset(s)[s[k]] == 1
  {
    assert s == s[..k] + [s[k]] + s[k + 1..];
    assert s[k] !in s[..k] && s[k] !in s[k + 1..];
  }

  lemma RouteRows(steps: seq<RoutingStep>, partId: nat, x: RoutingStep)
    ensures x in Route(steps, partId) <==> x in steps && x.partId == partId
  {
    OrderedSorted(OfPart(steps, partId));
    OfPartMembers(steps, partId, x);
    assert x in multiset(Route(steps, partId)) <==> x in multiset(OfPart(steps, partId));
  }

  lemma RouteOrders(steps: seq<RoutingStep>, partId: nat, i: nat, j: nat)
    requires WellFormedSteps(steps) && i < j < |Route(steps, partId)|
    requires Route(steps, partId)[i].id != Route(steps, partId)[j].id
    ensures Route(steps, partId)[i].stepOrder < Route(steps, partId)[j].stepOrder
  {
    var route := Route(steps, partId);
    OrderedSorted(OfPart(steps, partId));
    assert Precedes(route[i], route[j]);
    RouteRows(steps, partId, route[i]);
    RouteRows(steps, partId, route[j]);
    var k :| 0 <= k < |steps| && steps[k] == route[i];
    var l :| 0 <= l < |steps| && steps[l] == route[j];
  }

  /** A well-formed version gives every part a well-formed route. */
  lemma RouteWellFormed(steps: seq<RoutingStep>, partId: nat)
    requires WellFormedSteps(steps)
    ensures WellFormedRoute(Route(steps, partId))
  {
    var mine := OfPart(steps, partId);
    var route := Route(steps, partId);
    OfPartDistinct(steps, partId);
    OrderedSorted(mine);
    PermutationDistinct(mine, route);
    forall i, j | 0 <= i < j < |route| ensures route[i].stepOrder < route[j].stepOrder {
      RouteOrders(steps, partId, i, j);
    }
    forall i | 0 <= i < |route| ensures route[i].stepOrder >= 1 && route[i].place.stageId != PRE_FLOOR {
      RouteRows(steps, partId, route[i]);
    }
  }

  // ---- picking the next step ----

  function IndexOfStep(steps: seq<RoutingStep>, id: nat): (i: int)
    ensures -1 <= i < |steps|
    ensures i >= 0 ==> steps[i].id == id
    ensures i < 0 ==> forall k :: 0 <= k < |steps| ==> steps[k].id != id
  {
    if steps == [] then -1
    else if steps[0].id == id then 0
    else
      var rest := IndexOfStep(steps[1..], id);
      assert forall k :: 1 <= k < |steps| ==> steps[k] == steps[1..][k - 1];
      if rest < 0 then -1 else rest + 1
  }

  function FirstBeyond(steps: seq<RoutingStep>, threshold: int): (step: Option<RoutingStep>)
    ensures step.Some? ==> step.value in steps && step.value.stepOrder > threshold
    ensures step.None? ==> forall k :: 0 <= k < |steps| ==> steps[k].stepOrder <= threshold
  {
    if steps == [] then None
    else if steps[0].stepOrder > threshold then Some(steps[0])
    else
      var rest := FirstBeyond(steps[1..], threshold);
      assert forall k :: 1 <= k < |steps| ==> steps[k] == steps[1..][k - 1];
      rest
  }

  function Threshold(steps: seq<RoutingStep>, current: Option<nat>): int {
    var i := if current.Some? then IndexOfStep(steps, current.value) else -1;
    if i < 0 then -1 else steps[i].stepOrder
  }

  /** The scanner's lookup: the next step a pack is expected at. */
  function NextExpected(steps: seq<RoutingStep>, current: Option<nat>): Option<RoutingStep> {
    if steps == [] then None else FirstBeyond(steps, Threshold(steps, current))
  }

  /** The closure test: no step of the route lies beyond the current one. */
  predicate RouteCompleted(steps: seq<RoutingStep>, current: Option<nat>) {
    !exists k :: 0 <= k < |steps| && steps[k].stepOrder > Threshold(steps, current)
  }

  /** Where a pack that has taken the first `k` steps stands. */
  function Standing(route: seq<RoutingStep>, k: nat): Option<nat>
    requires k <= |route|
  {
    if k == 0 then None else Some(route[k - 1].id)
  }

  lemma {:induction false} FirstBeyondAt(steps: seq<RoutingStep>, threshold: int, k: nat)
    requires k < |steps| && steps[k].stepOrder > threshold
    requires forall i :: 0 <= i < k ==> steps[i].stepOrder <= threshold
    ensures FirstBeyond(steps, threshold) == Some(steps[k])
  {
    if k > 0 {
      FirstBeyondAt(steps[1..], threshold, k - 1);
    }
  }

  /** On a well-formed route the next step after the first `k` is step `k`: none is skipped,
      none repeated, and the scanner lookup and the closure test agree. */
  lemma NextAfterPrefix(route: seq<RoutingStep>, k: nat)
    requires WellFormedRoute(route) && k <= |route|
    ensures Threshold(route, Standing(route, k)) == if k == 0 then -1 else route[k - 1].stepOrder
    ensures NextExpected(route, Standing(route, k)) == if k < |route| then Some(route[k]) else None
    ensures RouteCompleted(route, Standing(route, k)) <==> k == |route|
  {
    if k > 0 {
      var i := IndexOfStep(route, route[k - 1].id);
      assert i == k - 1;
    }
    var t := Threshold(route, Standing(route, k));
    if k < |route| {
      FirstBeyondAt(route, t, k);
    } else {
      var step := FirstBeyond(route, t);
      assert step.None?;
    }
  }

  /** For any rows at all, the scanner has no next step exactly when the closure test passes. */
  lemma NextAgreesWithClosure(steps: seq<RoutingStep>, current: Option<nat>)
    ensures NextExpected(steps, current).None? <==> RouteCompleted(steps, current)
  {
    if steps != [] {
      var step := FirstBeyond(steps, Threshold(steps, current));
      if step.Some? {
        var k :| 0 <= k < |steps| && steps[k] == step.value;
      }
    }
  }
}
