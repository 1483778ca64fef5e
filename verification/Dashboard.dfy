/**
 The progress rows of the dashboard, by stage: packs on the floor are tallied per project and
 stage, and each project's tally is cut into segments.
 */
module Dashboard {
  import opened Common

  /** A quantity as stored: absent, not a number, or a number. */
  datatype Magnitude = Unset | NotFinite | Finite(value: real)

  datatype Position = Position(stage: string, magnitude: Magnitude)

  datatype Pack = Pack(
    id: string,
    planned: real,
    project: string,
    lot: string,
    lotRequired: real,
    position: Option<Position>)

  datatype Slot = Slot(healthy: real, blocked: real, batchCount: nat, blockedBatchCount: nat)

  datatype Project = Project(planned: real, active: real, batchCount: nat, lots: set<string>, slots: map<string, Slot>)

  datatype SegmentKind = OnStage | Blocked | Remaining

  datatype Segment = Segment(kind: SegmentKind, stage: string, quantity: real)

  datatype Row = Row(project: string, planned: real, active: real, batchCount: nat, segments: seq<Segment>)

  const NOBODY := Project(0.0, 0.0, 0, {}, map[])
  const NOTHING := Slot(0.0, 0.0, 0, 0)

  // ---- tallying ----

  function Quantity(p: Pack): Option<real> {
    if p.position.None? then Some(p.planned)
    else match p.position.value.magnitude
         case Unset => Some(p.planned)
         case NotFinite => None
         case Finite(value) => Some(value)
  }

  /** A pack counts when it stands at a known stage with a finite quantity. */
  predicate Counts(p: Pack, stages: seq<string>) {
    && p.position.Some? && p.position.value.stage != ""
    && Quantity(p).Some?
    && p.position.value.stage in stages
  }

  function StageOf(p: Pack): string {
    if p.position.Some? then p.position.value.stage else ""
  }

  function QuantityOf(p: Pack): real {
    if Quantity(p).Some? then Quantity(p).value else 0.0
  }

  function SlotAt(slots: map<string, Slot>, stage: string): Slot {
    if stage in slots then slots[stage] else NOTHING
  }

  function AddToSlot(slot: Slot, quantity: real, blocked: bool): Slot {
    if blocked then slot.(blocked := slot.blocked + quantity, batchCount := slot.batchCount + 1, blockedBatchCount := slot.blockedBatchCount + 1)
    else slot.(healthy := slot.healthy + quantity, batchCount := slot.batchCount + 1)
  }

  function AddPack(project: Project, p: Pack, blocked: set<string>): Project {
    Project(
      project.planned + (if p.lot in project.lots then 0.0 else p.lotRequired),
      project.active + QuantityOf(p),
      project.batchCount + 1,
      project.lots + {p.lot},
      project.slots[StageOf(p) := AddToSlot(SlotAt(project.slots, StageOf(p)), QuantityOf(p), p.id in blocked)])
  }

  /** Projects in the order they were first counted. */
  datatype Tally = Tally(order: seq<string>, projects: map<string, Project>)

  const EMPTY := Tally([], map[])

  function ProjectIn(t: Tally, id: string): Project {
    if id in t.projects then t.projects[id] else NOBODY
  }

  function Count(t: Tally, p: Pack, stages: seq<string>, blocked: set<string>): Tally {
    if !Counts(p, stages) then t
    else Tally(if p.project in t.projects then t.order else t.order + [p.project],
               t.projects[p.project := AddPack(ProjectIn(t, p.project), p, blocked)])
  }

  function CountAll(packs: seq<Pack>, stages: seq<string>, blocked: set<string>): Tally {
    if packs == [] then EMPTY
    else Count(CountAll(packs[..|packs| - 1], stages, blocked), packs[|packs| - 1], stages, blocked)
  }

  // ---- segments ----

  function StageSegments(slots: map<string, Slot>, stage: string): seq<Segment> {
    if stage in slots then
      (if slots[stage].healthy > 0.0 then [Segment(OnStage, stage, slots[stage].healthy)] else [])
      + (if slots[stage].blocked > 0.0 then [Segment(Blocked, stage, slots[stage].blocked)] else [])
    else []
  }

  function AllStageSegments(slots: map<string, Slot>, stages: seq<string>): seq<Segment> {
    if stages == [] then []
    else AllStageSegments(slots, stages[..|stages| - 1]) + StageSegments(slots, stages[|stages| - 1])
  }

  function Greater(a: real, b: real): real {
    if a >= b then a else b
  }

  function RemainingSegments(project: Project): seq<Segment> {
    var remaining := Greater(project.planned, project.active) - project.active;
    if remaining > 0.0 then [Segment(Remaining, "remaining", remaining)] else []
  }

  function SegmentsOf(project: Project, stages: seq<string>): seq<Segment> {
    AllStageSegments(project.slots, stages) + RemainingSegments(project)
  }

  function RowOf(id: string, project: Project, stages: seq<string>): Row {
    Row(id, project.planned, project.active, project.batchCount, SegmentsOf(project, stages))
  }

  /** The rows with segments, in order of the tally. */
  function RowsOf(t: Tally, order: seq<string>, stages: seq<string>): seq<Row> {
    if order == [] then []
    else
      var last := order[|order| - 1];
      var row := RowOf(last, ProjectIn(t, last), stages);
      RowsOf(t, order[..|order| - 1], stages) + if row.segments != [] then [row] else []
  }

  method ProjectSegments(project: Project, stages: seq<string>) returns (segments: seq<Segment>)
    ensures segments == SegmentsOf(project, stages)
  {
    segments := [];
    var i := 0;
    while i < |stages|
      invariant 0 <= i <= |stages|
      invariant segments == AllStageSegments(project.slots, stages[..i])
    {
      assert stages[..i + 1][..i] == stages[..i];
      if stages[i] in project.slots {
        var slot := project.slots[stages[i]];
        if slot.healthy > 0.0 {
          segments := segments + [Segment(OnStage, stages[i], slot.healthy)];
        }
        if slot.blocked > 0.0 {
          segments := segments + [Segment(Blocked, stages[i], slot.blocked)];
        }
      }
      i := i + 1;
    }
    assert stages[..i] == stages;
    var remaining := Greater(project.planned, project.active) - project.active;
    if remaining > 0.0 {
      segments := segments + [Segment(Remaining, "remaining", remaining)];
    }
  }

  lemma CountOne(packs: seq<Pack>, i: nat, stages: seq<string>, blocked: set<string>)
    requires i < |packs|
    ensures CountAll(packs[..i + 1], stages, blocked) == Count(CountAll(packs[..i], stages, blocked), packs[i], stages, blocked)
  {
    assert packs[..i + 1][..i] == packs[..i];
  }

  lemma NoCount(stages: seq<string>, blocked: set<string>)
    ensures CountAll([], stages, blocked) == EMPTY
  {
  }

  lemma NoRows(t: Tally, stages: seq<string>)
    ensures RowsOf(t, [], stages) == []
  {
  }

  lemma OneRow(t: Tally, order: seq<string>, j: nat, stages: seq<string>)
    requires j < |order|
    ensures var row := RowOf(order[j], ProjectIn(t, order[j]), stages);
            RowsOf(t, order[..j + 1], stages) == RowsOf(t, order[..j], stages) + if row.segments != [] then [row] else []
  {
    assert order[..j + 1][..j] == order[..j];
  }

  lemma QuantityRead(p: Pack)
    requires Quantity(p).Some?
    ensures QuantityOf(p) == Quantity(p).value
  {
  }

  method DashboardProgress(packs: seq<Pack>, stages: seq<string>, blocked: set<string>) returns (rows: seq<Row>)
    ensures var t := CountAll(packs, stages, blocked); rows == RowsOf(t, t.order, stages)
  {
    hide CountAll, RowsOf, SegmentsOf, SlotAt, AddToSlot, QuantityOf;
    var order, projects := [], map[];
    NoCount(stages, blocked);
    for i := 0 to |packs|
      invariant Tally(order, projects) == CountAll(packs[..i], stages, blocked)
    {
      ghost var before := Tally(order, projects);
      var p := packs[i];
      CountOne(packs, i, stages, blocked);
      var project := if p.project in projects then projects[p.project] else NOBODY;
      var quantity := Quantity(p);
      if p.position.None? || p.position.value.stage == "" || quantity.None? {
        continue;
      }
      var stage := p.position.value.stage;
      if stage !in stages {
        continue;
      }
      var slot := AddToSlot(SlotAt(project.slots, stage), quantity.value, p.id in blocked);
      project := project.(slots := project.slots[stage := slot]);
      if p.lot !in project.lots {
        project := project.(planned := project.planned + p.lotRequired, lots := project.lots + {p.lot});
      }
      project := project.(active := project.active + quantity.value, batchCount := project.batchCount + 1);
      QuantityRead(p);
      assert project.lots == ProjectIn(before, p.project).lots + {p.lot};
      assert project == AddPack(ProjectIn(before, p.project), p, blocked);
      if p.project !in projects {
        order := order + [p.project];
      }
      projects := projects[p.project := project];
    }
    assert packs[..|packs|] == packs;
    NoRows(Tally(order, projects), stages);
    rows := [];
    for j := 0 to |order|
      invariant rows == RowsOf(Tally(order, projects), order[..j], stages)
    {
      OneRow(Tally(order, projects), order, j, stages);
      var project := if order[j] in projects then projects[order[j]] else NOBODY;
      var segments := ProjectSegments(project, stages);
      if segments != [] {
        rows := rows + [Row(order[j], project.planned, project.active, project.batchCount, segments)];
      }
    }
    assert order[..|order|] == order;
  }

  /** A pack counts where it stands, with its own quantity or, where that is unset, the planned one;
      it does not count without a place, at a stage that is not listed, or with a quantity that is no number. */
  lemma CountedAs(p: Pack, stages: seq<string>)
    ensures match p.position
            case None => !Counts(p, stages)
            case Some(position) =>
              && (Counts(p, stages) <==> position.stage != "" && position.stage in stages && position.magnitude != NotFinite)
              && (Counts(p, stages) ==>
                    && StageOf(p) == position.stage
                    && QuantityOf(p) == match position.magnitude
                                        case Finite(value) => value
                                        case Unset => p.planned
                                        case NotFinite => 0.0)
  {
  }

  // ---- what the tally of a project is ----

  /** The counted packs of a project, in order. */
  function PacksOf(packs: seq<Pack>, stages: seq<string>, project: string): (own: seq<Pack>)
    ensures forall p :: p in own <==> p in packs && p.project == project && Counts(p, stages)
  {
    if packs == [] then []
    else
      var p := packs[|packs| - 1];
      PacksOf(packs[..|packs| - 1], stages, project) + if p.project == project && Counts(p, stages) then [p] else []
  }

  /** A measure summed over packs: their quantities, or their number. */
  function Total(measure: Pack -> real, packs: seq<Pack>): real {
    if packs == [] then 0.0 else Total(measure, packs[..|packs| - 1]) + measure(packs[|packs| - 1])
  }

  function One(p: Pack): real {
    1.0
  }

  /** Summing ones counts the packs. */
  lemma {:induction false} OnesCount(packs: seq<Pack>)
    ensures Total(One, packs) == |packs| as real
  {
    if packs != [] {
      OnesCount(packs[..|packs| - 1]);
    }
  }

  function Required(p: Pack): real {
    p.lotRequired
  }

  /** The packs at a stage, blocked or not. */
  function Standing(packs: seq<Pack>, stage: string, blocked: set<string>, wanted: bool): (standing: seq<Pack>)
    ensures forall p :: p in standing <==> p in packs && StageOf(p) == stage && (p.id in blocked) == wanted
  {
    if packs == [] then []
    else
      var p := packs[|packs| - 1];
      Standing(packs[..|packs| - 1], stage, blocked, wanted) + if StageOf(p) == stage && (p.id in blocked) == wanted then [p] else []
  }

  function LotsOf(packs: seq<Pack>): (lots: set<string>)
    ensures forall lot :: lot in lots <==> exists p :: p in packs && p.lot == lot
  {
    if packs == [] then {} else LotsOf(packs[..|packs| - 1]) + {packs[|packs| - 1].lot}
  }

  /** The first pack of each lot. */
  function FirstOfLots(packs: seq<Pack>): seq<Pack> {
    if packs == [] then []
    else
      var p, before := packs[|packs| - 1], packs[..|packs| - 1];
      FirstOfLots(before) + if p.lot in LotsOf(before) then [] else [p]
  }

  ghost predicate DistinctLots(packs: seq<Pack>) {
    forall i, j :: 0 <= i < j < |packs| ==> packs[i].lot != packs[j].lot
  }

  lemma DistinctLotsAdd(packs: seq<Pack>, p: Pack)
    requires DistinctLots(packs) && p.lot !in LotsOf(packs)
    ensures DistinctLots(packs + [p])
  {
    hide LotsOf;
    forall i | 0 <= i < |packs| ensures packs[i].lot != p.lot {
      assert packs[i] in packs;
    }
  }

  lemma LotsOfAdd(packs: seq<Pack>, p: Pack)
    ensures LotsOf(packs + [p]) == LotsOf(packs) + {p.lot}
  {
    assert (packs + [p])[..|packs|] == packs;
  }

  /** Every lot of the packs has exactly one pack standing for it. */
  lemma {:induction false} EachLotOnce(packs: seq<Pack>)
    ensures DistinctLots(FirstOfLots(packs)) && LotsOf(FirstOfLots(packs)) == LotsOf(packs)
    ensures forall p :: p in FirstOfLots(packs) ==> p in packs
  {
    hide LotsOf, DistinctLots;
    if packs == [] {
      assert DistinctLots([]) by { NoLots(); }
    } else {
      var p, before := packs[|packs| - 1], packs[..|packs| - 1];
      assert packs == before + [p];
      EachLotOnce(before);
      LotsOfAdd(before, p);
      if p.lot !in LotsOf(before) {
        DistinctLotsAdd(FirstOfLots(before), p);
        LotsOfAdd(FirstOfLots(before), p);
      } else {
        assert LotsOf(before) + {p.lot} == LotsOf(before);
        assert FirstOfLots(packs) == FirstOfLots(before);
      }
    }
  }

  lemma NoLots()
    ensures DistinctLots([])
  {
  }

  predicate SlotTallies(slot: Slot, own: seq<Pack>, stage: string, blocked: set<string>) {
    && slot.healthy == Total(QuantityOf, Standing(own, stage, blocked, false))
    && slot.blocked == Total(QuantityOf, Standing(own, stage, blocked, true))
    && slot.blockedBatchCount == |Standing(own, stage, blocked, true)|
    && slot.batchCount == |Standing(own, stage, blocked, false)| + |Standing(own, stage, blocked, true)|
  }

  /** A project's tally against its own packs, each lot's requirement taken once. */
  ghost predicate Tallies(project: Project, own: seq<Pack>, blocked: set<string>) {
    && project.active == Total(QuantityOf, own) && project.batchCount == |own|
    && project.planned == Total(Required, FirstOfLots(own)) && project.lots == LotsOf(own)
    && forall stage :: SlotTallies(SlotAt(project.slots, stage), own, stage, blocked)
  }

  lemma TotalAdds(measure: Pack -> real, packs: seq<Pack>, p: Pack)
    ensures Total(measure, packs + [p]) == Total(measure, packs) + measure(p)
  {
    assert (packs + [p])[..|packs|] == packs;
  }

  lemma StandingAdds(own: seq<Pack>, p: Pack, stage: string, blocked: set<string>, wanted: bool)
    ensures Standing(own + [p], stage, blocked, wanted)
         == Standing(own, stage, blocked, wanted) + if StageOf(p) == stage && (p.id in blocked) == wanted then [p] else []
  {
    assert (own + [p])[..|own|] == own;
  }

  lemma SlotAdds(project: Project, own: seq<Pack>, p: Pack, stage: string, blocked: set<string>)
    requires SlotTallies(SlotAt(project.slots, stage), own, stage, blocked)
    ensures SlotTallies(SlotAt(AddPack(project, p, blocked).slots, stage), own + [p], stage, blocked)
  {
    hide Standing, Total;
    StandingAdds(own, p, stage, blocked, false);
    StandingAdds(own, p, stage, blocked, true);
    assert forall wanted :: Standing(own, stage, blocked, wanted) + [] == Standing(own, stage, blocked, wanted);
    TotalAdds(QuantityOf, Standing(own, stage, blocked, false), p);
    TotalAdds(QuantityOf, Standing(own, stage, blocked, true), p);
  }

  lemma FirstOfLotsAdds(own: seq<Pack>, p: Pack)
    ensures FirstOfLots(own + [p]) == FirstOfLots(own) + if p.lot in LotsOf(own) then [] else [p]
  {
    assert (own + [p])[..|own|] == own;
  }

  lemma TalliesAdd(project: Project, own: seq<Pack>, p: Pack, blocked: set<string>)
    requires Tallies(project, own, blocked)
    ensures Tallies(AddPack(project, p, blocked), own + [p], blocked)
  {
    hide SlotTallies, Total, FirstOfLots, LotsOf;
    forall stage ensures SlotTallies(SlotAt(AddPack(project, p, blocked).slots, stage), own + [p], stage, blocked) {
      SlotAdds(project, own, p, stage, blocked);
    }
    TotalAdds(QuantityOf, own, p);
    FirstOfLotsAdds(own, p);
    LotsOfAdd(own, p);
    TotalAdds(Required, FirstOfLots(own), p);
    assert FirstOfLots(own) + [] == FirstOfLots(own);
    assert p.lot in LotsOf(own) ==> LotsOf(own) + {p.lot} == LotsOf(own);
  }

  lemma NobodyTallies(blocked: set<string>)
    ensures Tallies(NOBODY, [], blocked)
  {
  }

  ghost predicate DistinctOrder(order: seq<string>) {
    forall i, j :: 0 <= i < j < |order| ==> order[i] != order[j]
  }

  ghost predicate Accounted(t: Tally, packs: seq<Pack>, stages: seq<string>, blocked: set<string>) {
    && DistinctOrder(t.order)
    && (forall id :: id in t.order <==> id in t.projects)
    && (forall id :: id in t.projects <==> PacksOf(packs, stages, id) != [])
    && forall id :: Tallies(ProjectIn(t, id), PacksOf(packs, stages, id), blocked)
  }

  lemma PacksOfAdds(packs: seq<Pack>, p: Pack, stages: seq<string>, id: string)
    ensures PacksOf(packs + [p], stages, id) == PacksOf(packs, stages, id) + if p.project == id && Counts(p, stages) then [p] else []
  {
    assert (packs + [p])[..|packs|] == packs;
  }

  /** Every project is tallied from its own counted packs, and listed once if it has any. */
  lemma {:induction false} CountAllAccounts(packs: seq<Pack>, stages: seq<string>, blocked: set<string>)
    ensures Accounted(CountAll(packs, stages, blocked), packs, stages, blocked)
  {
    hide Tallies, Counts, AddPack, PacksOf;
    if packs == [] {
      NobodyTallies(blocked);
      NoPacks(stages);
    } else {
      var p, before := packs[|packs| - 1], packs[..|packs| - 1];
      assert packs == before + [p];
      CountAllAccounts(before, stages, blocked);
      var t, was := CountAll(packs, stages, blocked), CountAll(before, stages, blocked);
      forall id
        ensures id in t.projects <==> PacksOf(packs, stages, id) != []
        ensures Tallies(ProjectIn(t, id), PacksOf(packs, stages, id), blocked)
      {
        CountStep(was, before, p, stages, blocked, id);
      }
    }
  }

  lemma CountStep(was: Tally, before: seq<Pack>, p: Pack, stages: seq<string>, blocked: set<string>, id: string)
    requires Tallies(ProjectIn(was, id), PacksOf(before, stages, id), blocked)
    requires id in was.projects <==> PacksOf(before, stages, id) != []
    ensures var t, own := Count(was, p, stages, blocked), PacksOf(before + [p], stages, id);
            (id in t.projects <==> own != []) && Tallies(ProjectIn(t, id), own, blocked)
  {
    hide Tallies, Counts, AddPack, PacksOf;
    PacksOfAdds(before, p, stages, id);
    assert PacksOf(before, stages, id) + [] == PacksOf(before, stages, id);
    if p.project == id && Counts(p, stages) {
      TalliesAdd(ProjectIn(was, id), PacksOf(before, stages, id), p, blocked);
    }
  }

  lemma NoPacks(stages: seq<string>)
    ensures forall id :: PacksOf([], stages, id) == []
  {
  }

  // ---- conservation ----

  /** A measure of the packs standing at any of the stages. */
  function AtStages(measure: Pack -> real, own: seq<Pack>, stages: seq<string>, blocked: set<string>): real {
    if stages == [] then 0.0
    else
      var stage := stages[|stages| - 1];
      AtStages(measure, own, stages[..|stages| - 1], blocked)
      + Total(measure, Standing(own, stage, blocked, false)) + Total(measure, Standing(own, stage, blocked, true))
  }

  /** One more pack adds to its own stage only, and there once. */
  lemma {:induction false} AtStagesAdds(measure: Pack -> real, own: seq<Pack>, p: Pack, stages: seq<string>, blocked: set<string>)
    requires DistinctOrder(stages)
    ensures AtStages(measure, own + [p], stages, blocked)
         == AtStages(measure, own, stages, blocked) + if StageOf(p) in stages then measure(p) else 0.0
    decreases |stages|
  {
    hide Standing, Total;
    if stages != [] {
      var stage, others := stages[|stages| - 1], stages[..|stages| - 1];
      AtStagesAdds(measure, own, p, others, blocked);
      StandingAdds(own, p, stage, blocked, false);
      StandingAdds(own, p, stage, blocked, true);
      assert forall wanted :: Standing(own, stage, blocked, wanted) + [] == Standing(own, stage, blocked, wanted);
      TotalAdds(measure, Standing(own, stage, blocked, p.id in blocked), p);
      assert StageOf(p) in stages <==> StageOf(p) in others || StageOf(p) == stage;
      assert StageOf(p) == stage ==> StageOf(p) !in others;
    }
  }

  lemma {:induction false} AtNoStages(measure: Pack -> real, stages: seq<string>, blocked: set<string>)
    ensures AtStages(measure, [], stages, blocked) == 0.0
    decreases |stages|
  {
    if stages != [] {
      AtNoStages(measure, stages[..|stages| - 1], blocked);
    }
  }

  /** Every pack at a known stage is in exactly one slot: any measure over the slots is its total. */
  lemma {:induction false} SlotsPartition(measure: Pack -> real, own: seq<Pack>, stages: seq<string>, blocked: set<string>)
    requires DistinctOrder(stages) && forall p :: p in own ==> StageOf(p) in stages
    ensures AtStages(measure, own, stages, blocked) == Total(measure, own)
    decreases |own|
  {
    hide AtStages;
    if own == [] {
      AtNoStages(measure, stages, blocked);
    } else {
      var p, before := own[|own| - 1], own[..|own| - 1];
      assert own == before + [p];
      SlotsPartition(measure, before, stages, blocked);
      AtStagesAdds(measure, before, p, stages, blocked);
    }
  }

  function SumSegments(segments: seq<Segment>): real {
    if segments == [] then 0.0 else SumSegments(segments[..|segments| - 1]) + segments[|segments| - 1].quantity
  }

  lemma {:induction false} SumSegmentsAdds(a: seq<Segment>, b: seq<Segment>)
    ensures SumSegments(a + b) == SumSegments(a) + SumSegments(b)
    decreases |b|
  {
    if b == [] {
      assert a + b == a;
    } else {
      assert (a + b)[..|a + b| - 1] == a + b[..|b| - 1];
      SumSegmentsAdds(a, b[..|b| - 1]);
    }
  }

  ghost predicate NonNegative(packs: seq<Pack>) {
    forall p :: p in packs ==> QuantityOf(p) >= 0.0 && p.lotRequired >= 0.0
  }

  lemma {:induction false} TotalNonNegative(measure: Pack -> real, packs: seq<Pack>)
    requires forall p :: p in packs ==> measure(p) >= 0.0
    ensures Total(measure, packs) >= 0.0
  {
    if packs != [] {
      TotalNonNegative(measure, packs[..|packs| - 1]);
    }
  }

  ghost predicate AllPositive(segments: seq<Segment>) {
    forall i :: 0 <= i < |segments| ==> segments[i].quantity > 0.0
  }

  lemma OneStage(project: Project, own: seq<Pack>, stage: string, blocked: set<string>)
    requires SlotTallies(SlotAt(project.slots, stage), own, stage, blocked) && NonNegative(own)
    ensures var segments := StageSegments(project.slots, stage);
            && AllPositive(segments)
            && SumSegments(segments) == Total(QuantityOf, Standing(own, stage, blocked, false))
                                      + Total(QuantityOf, Standing(own, stage, blocked, true))
  {
    hide Standing, Total, QuantityOf;
    TotalNonNegative(QuantityOf, Standing(own, stage, blocked, false));
    TotalNonNegative(QuantityOf, Standing(own, stage, blocked, true));
    var slot := SlotAt(project.slots, stage);
    var a := if slot.healthy > 0.0 then [Segment(OnStage, stage, slot.healthy)] else [];
    var b := if slot.blocked > 0.0 then [Segment(Blocked, stage, slot.blocked)] else [];
    assert SumSegments(a) == slot.healthy && SumSegments(b) == slot.blocked;
    SumSegmentsAdds(a, b);
    assert stage in project.slots ==> StageSegments(project.slots, stage) == a + b;
  }

  lemma {:induction false} StagesSum(project: Project, own: seq<Pack>, stages: seq<string>, blocked: set<string>)
    requires Tallies(project, own, blocked) && NonNegative(own)
    ensures var segments := AllStageSegments(project.slots, stages);
            AllPositive(segments) && SumSegments(segments) == AtStages(QuantityOf, own, stages, blocked)
    decreases |stages|
  {
    hide SlotTallies, StageSegments, Standing, Total, QuantityOf, NonNegative;
    if stages != [] {
      var stage, others := stages[|stages| - 1], stages[..|stages| - 1];
      StagesSum(project, own, others, blocked);
      OneStage(project, own, stage, blocked);
      SumSegmentsAdds(AllStageSegments(project.slots, others), StageSegments(project.slots, stage));
    }
  }

  /** A project's segments are positive and sum to the larger of what is planned and what is active. */
  lemma SegmentsConserve(project: Project, own: seq<Pack>, stages: seq<string>, blocked: set<string>)
    requires Tallies(project, own, blocked) && NonNegative(own)
    requires DistinctOrder(stages) && forall p :: p in own ==> StageOf(p) in stages
    ensures AllPositive(SegmentsOf(project, stages))
    ensures SumSegments(SegmentsOf(project, stages)) == Greater(project.planned, project.active)
  {
    hide SlotTallies, AllStageSegments, AtStages, Total, QuantityOf;
    StagesSum(project, own, stages, blocked);
    SlotsPartition(QuantityOf, own, stages, blocked);
    var remaining := RemainingSegments(project);
    SumSegmentsAdds(AllStageSegments(project.slots, stages), remaining);
    assert remaining != [] ==> remaining[..0] == [];
    assert SumSegments(remaining) == Greater(project.planned, project.active) - project.active;
  }

  /** The quantity a segment should show: of the unblocked or the blocked packs at its stage. */
  function Shown(own: seq<Pack>, stage: string, blocked: set<string>, kind: SegmentKind): real {
    Total(QuantityOf, Standing(own, stage, blocked, kind == Blocked))
  }

  lemma {:induction false} StageSegmentsExactly(project: Project, own: seq<Pack>, stages: seq<string>, blocked: set<string>, segment: Segment)
    requires Tallies(project, own, blocked)
    ensures segment in AllStageSegments(project.slots, stages)
       <==> segment.kind != Remaining && segment.stage in stages
            && segment.quantity == Shown(own, segment.stage, blocked, segment.kind) > 0.0
    decreases |stages|
  {
    hide Standing, Total;
    if stages != [] {
      var stage, others := stages[|stages| - 1], stages[..|stages| - 1];
      StageSegmentsExactly(project, own, others, blocked, segment);
      assert SlotTallies(SlotAt(project.slots, stage), own, stage, blocked);
      assert segment.stage in stages <==> segment.stage in others || segment.stage == stage;
    }
  }

  /** Which segments a project has: one per stage and kind with packs standing there, and what remains. */
  lemma SegmentsExactly(project: Project, own: seq<Pack>, stages: seq<string>, blocked: set<string>, segment: Segment)
    requires Tallies(project, own, blocked)
    ensures segment in SegmentsOf(project, stages) <==>
            if segment.kind == Remaining
            then segment == Segment(Remaining, "remaining", project.planned - project.active) && segment.quantity > 0.0
            else segment.stage in stages && segment.quantity == Shown(own, segment.stage, blocked, segment.kind) > 0.0
  {
    hide AllStageSegments, Tallies, Shown;
    StageSegmentsExactly(project, own, stages, blocked, segment);
  }

  // ---- the rows reported ----

  lemma {:induction false} RowsAre(t: Tally, order: seq<string>, stages: seq<string>, row: Row)
    ensures row in RowsOf(t, order, stages)
       <==> row.segments != [] && row.project in order && row == RowOf(row.project, ProjectIn(t, row.project), stages)
    decreases |order|
  {
    hide RowOf;
    if order != [] {
      var last := order[|order| - 1];
      RowsAre(t, order[..|order| - 1], stages, row);
      RowIsOf(last, ProjectIn(t, last), stages);
      assert row.project in order <==> row.project in order[..|order| - 1] || row.project == last;
    }
  }

  lemma RowIsOf(id: string, project: Project, stages: seq<string>)
    ensures RowOf(id, project, stages).project == id
  {
  }

  /** What the dashboard reports of a project, said from its packs alone. */
  ghost predicate Reports(row: Row, own: seq<Pack>) {
    && row.active == Total(QuantityOf, own) && row.batchCount == |own|
    && row.planned == Total(Required, FirstOfLots(own))
    && AllPositive(row.segments)
    && SumSegments(row.segments) == Greater(row.planned, row.active)
  }

  /**
   Every reported row conserves its project's quantities: the active quantity is that of its
   counted packs, each lot's requirement is taken once, and the positive segments sum to the
   larger of the two.
   */
  lemma DashboardConserves(packs: seq<Pack>, stages: seq<string>, blocked: set<string>, row: Row)
    requires NonNegative(packs) && DistinctOrder(stages)
    requires var t := CountAll(packs, stages, blocked); row in RowsOf(t, t.order, stages)
    ensures Reports(row, PacksOf(packs, stages, row.project))
  {
    hide CountAll, Tallies, RowsOf, PacksOf, SegmentsOf;
    var t := CountAll(packs, stages, blocked);
    RowsAre(t, t.order, stages, row);
    CountAllAccounts(packs, stages, blocked);
    var project, own := ProjectIn(t, row.project), PacksOf(packs, stages, row.project);
    TalliesSays(project, own, blocked);
    SegmentsConserve(project, own, stages, blocked);
  }

  lemma TalliesSays(project: Project, own: seq<Pack>, blocked: set<string>)
    requires Tallies(project, own, blocked)
    ensures project.active == Total(QuantityOf, own) && project.batchCount == |own|
    ensures project.planned == Total(Required, FirstOfLots(own))
  {
  }

  /** A project is reported exactly when it has counted packs and something planned or active. */
  lemma ReportedExactly(packs: seq<Pack>, stages: seq<string>, blocked: set<string>, id: string)
    requires NonNegative(packs) && DistinctOrder(stages)
    ensures var t, own := CountAll(packs, stages, blocked), PacksOf(packs, stages, id);
            (exists row :: row in RowsOf(t, t.order, stages) && row.project == id)
            <==> own != [] && Greater(Total(Required, FirstOfLots(own)), Total(QuantityOf, own)) > 0.0
  {
    hide CountAll, Tallies, RowsOf, PacksOf, SegmentsOf, Total;
    var t := CountAll(packs, stages, blocked);
    CountAllAccounts(packs, stages, blocked);
    var project, own := ProjectIn(t, id), PacksOf(packs, stages, id);
    TalliesSays(project, own, blocked);
    SegmentsConserve(project, own, stages, blocked);
    var row := RowOf(id, project, stages);
    PositiveSum(row.segments);
    RowsAre(t, t.order, stages, row);
    forall other | other in RowsOf(t, t.order, stages) && other.project == id ensures other == row {
      RowsAre(t, t.order, stages, other);
    }
  }

  lemma {:induction false} PositiveSum(segments: seq<Segment>)
    requires AllPositive(segments)
    ensures SumSegments(segments) >= 0.0 && (SumSegments(segments) > 0.0 <==> segments != [])
  {
    if segments != [] {
      PositiveSum(segments[..|segments| - 1]);
    }
  }
}
