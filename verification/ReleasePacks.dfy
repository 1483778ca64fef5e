/** The packs a committed release leaves on the floor: their numbering, sizes, places and codes. */
module ReleasePacks {
  import opened Common
  import opened Text
  import opened Routes
  import opened Tables
  import opened Minting
  import opened PlanCommands
  import opened PlanInvariant
  import opened Production
  import opened Guarantees

  /** The packs of one part of a project, oldest first. */
  function PacksOf(batches: seq<Batch>, p: nat, partId: nat): seq<Batch> {
    if batches == [] then []
    else (if batches[0].projectId == p && batches[0].partId == partId then [batches[0]] else []) + PacksOf(batches[1..], p, partId)
  }

  function PacksIn(batches: seq<Batch>, p: nat): seq<Batch> {
    if batches == [] then []
    else (if batches[0].projectId == p then [batches[0]] else []) + PacksIn(batches[1..], p)
  }

  function QuantityOf(packs: seq<Batch>): nat {
    if packs == [] then 0 else packs[0].plannedQuantity + QuantityOf(packs[1..])
  }

  /** The number of packs of `size` that hold `required`: its ceiling, at least one. */
  predicate HoldsIn(required: nat, size: nat, count: nat) {
    count >= 1 && required <= count * size && (count > 1 ==> (count - 1) * size < required)
  }

  /** One part's new packs: full packs of `size` until what is left is planned or the numbers from
      `k` + 1 to `count` run out, each carrying its own number and the count. */
  ghost predicate NumberedFrom(own: seq<Batch>, k: nat, left: nat, size: nat, count: nat) {
    && (own != [] ==> k + |own| <= count && (|own| - 1) * size < left)
    && (k + |own| < count ==> left <= |own| * size)
    && forall i :: 0 <= i < |own| ==>
         && own[i].series == Some((k + 1 + i, count)) && own[i].labelPackSize == size
         && own[i].plannedQuantity == if (i + 1) * size <= left then size else left - i * size
  }

  /** New packs belong to their part and its requirement, and stand on the pre-floor. */
  ghost predicate StandReady(own: seq<Batch>, p: nat, part: Part, status: BatchStatus) {
    forall i :: 0 <= i < |own| ==>
      && own[i].projectId == p && own[i].partId == part.id && own[i].requirementId == part.requirementId
      && own[i].place == Place("STG-PROJECTS", None) && own[i].status == status && own[i].rowVersion == 1
  }

  // ---- one part's trays ----

  lemma {:induction false} TraySizes(left: nat, size: nat, series: nat, count: nat)
    requires size > 0
    ensures var t := Trays(left, size, series, count);
            && (t != [] ==> series + |t| <= count + 1 && (|t| - 1) * size < left)
            && (series + |t| <= count ==> left <= |t| * size)
            && forall i :: 0 <= i < |t| ==> t[i] == if (i + 1) * size <= left then size else left - i * size
    decreases left
  {
    if series <= count && left > 0 {
      var t, rest := Trays(left, size, series, count), Trays(left - Min(size, left), size, series + 1, count);
      TraySizes(left - Min(size, left), size, series + 1, count);
      assert (|rest| + 1) * size == |rest| * size + size;
      if rest != [] {
        assert (|rest| - 1) * size + size == |rest| * size;
      }
      forall i | 0 <= i < |t| ensures t[i] == if (i + 1) * size <= left then size else left - i * size {
        if i > 0 {
          assert left > size && t[i] == rest[i - 1];
          assert (i + 1) * size == i * size + size && (i - 1) * size == i * size - size;
        }
      }
    }
  }

  lemma {:induction false} PacksCounted(batches: seq<Batch>, p: nat, partId: nat)
    ensures CountPlanned(batches, p, partId) == |PacksOf(batches, p, partId)|
    ensures SumPlanned(batches, p, partId) == QuantityOf(PacksOf(batches, p, partId))
  {
    hide QuantityOf;
    if batches == [] {
      NoQuantity();
    } else {
      PacksCounted(batches[1..], p, partId);
      QuantityCons(batches[0], PacksOf(batches[1..], p, partId));
    }
  }

  lemma NoQuantity()
    ensures QuantityOf([]) == 0
  {
  }

  lemma QuantityCons(pack: Batch, rest: seq<Batch>)
    ensures QuantityOf([pack] + rest) == pack.plannedQuantity + QuantityOf(rest) && [] + rest == rest
  {
    assert ([pack] + rest)[1..] == rest;
  }

  lemma {:induction false} ProjectCounted(batches: seq<Batch>, p: nat)
    ensures InProject(batches, p) == |PacksIn(batches, p)|
  {
    if batches != [] {
      ProjectCounted(batches[1..], p);
    }
  }

  lemma SeriesHolds(required: nat, size: nat)
    requires size > 0
    ensures HoldsIn(required, size, SeriesCount(required, size))
  {
    var q, r := (required + size - 1) / size, (required + size - 1) % size;
    assert required + size - 1 == q * size + r;
    if q > 1 {
      assert (q - 1) * size == q * size - size;
    }
    assert q < 1 ==> q * size <= 0;
  }

  /** What is left of a part's required quantity. */
  function LeftOf(required: nat, prior: seq<Batch>): nat {
    if QuantityOf(prior) < required then required - QuantityOf(prior) else 0
  }

  /** The whole statement about one part's new packs. */
  ghost predicate PartPacks(own: seq<Batch>, prior: seq<Batch>, p: nat, part: Part, required: nat, size: nat, count: nat,
                            status: BatchStatus) {
    NumberedFrom(own, |prior|, LeftOf(required, prior), size, count) && StandReady(own, p, part, status)
  }

  lemma MintPartPacks(plan: Plan, p: nat, part: Part, size: nat, batches: seq<Batch>, sequence: nat)
    requires size > 0 && FindRequirement(plan.requirements, part.requirementId).Some?
    ensures var r := FindRequirement(plan.requirements, part.requirementId).value.requiredQuantity;
            PartPacks(MintPart(plan, p, part, size, batches, sequence), PacksOf(batches, p, part.id), p, part, r, size,
                      SeriesCount(r, size), Planned)
  {
    hide Trays, SeriesCount, MintRows, NumberedFrom, StandReady, PacksOf, CountPlanned, SumPlanned;
    PacksCounted(batches, p, part.id);
    var r := FindRequirement(plan.requirements, part.requirementId).value.requiredQuantity;
    var left, k, count := LeftToPlan(r, SumPlanned(batches, p, part.id)), CountPlanned(batches, p, part.id), SeriesCount(r, size);
    RowsNumbered(plan, p, part, left, size, k, count, sequence);
    RowsReady(plan, p, part, Trays(left, size, k + 1, count), size, k + 1, count, sequence);
  }

  lemma RowsNumbered(plan: Plan, p: nat, part: Part, left: nat, size: nat, k: nat, count: nat, sequence: nat)
    requires size > 0
    ensures NumberedFrom(MintRows(plan, p, part, Trays(left, size, k + 1, count), size, k + 1, count, sequence), k, left, size, count)
  {
    hide Trays;
    TraySizes(left, size, k + 1, count);
  }

  lemma RowsReady(plan: Plan, p: nat, part: Part, trays: seq<nat>, size: nat, first: nat, count: nat, sequence: nat)
    ensures StandReady(MintRows(plan, p, part, trays, size, first, count, sequence), p, part, Planned)
  {
  }

  // ---- among all parts ----

  lemma {:induction false} PacksAppend(a: seq<Batch>, b: seq<Batch>, p: nat, partId: nat)
    ensures PacksOf(a + b, p, partId) == PacksOf(a, p, partId) + PacksOf(b, p, partId)
  {
    if a == [] {
      assert a + b == b;
    } else {
      assert (a + b)[1..] == a[1..] + b;
      PacksAppend(a[1..], b, p, partId);
    }
  }

  lemma {:induction false} PacksAll(packs: seq<Batch>, p: nat, partId: nat, other: nat)
    requires forall i :: 0 <= i < |packs| ==> packs[i].projectId == p && packs[i].partId == partId
    ensures PacksOf(packs, p, other) == if other == partId then packs else []
  {
    if packs != [] {
      PacksAll(packs[1..], p, partId, other);
    }
  }

  lemma MintPartOwn(plan: Plan, p: nat, part: Part, size: nat, batches: seq<Batch>, sequence: nat, other: nat)
    requires size > 0
    ensures var m := MintPart(plan, p, part, size, batches, sequence);
            PacksOf(m, p, other) == if other == part.id then m else []
  {
    hide MintPart;
    MintPartRows(plan, p, part, size, batches, sequence, other);
    PacksAll(MintPart(plan, p, part, size, batches, sequence), p, part.id, other);
  }

  lemma {:induction false} NoPacksOfOthers(plan: Plan, p: nat, parts: seq<Part>, size: nat, batches: seq<Batch>, sequence: nat,
                                           id: nat)
    requires size > 0 && forall i :: 0 <= i < |parts| ==> parts[i].id != id
    ensures PacksOf(MintParts(plan, p, parts, size, batches, sequence), p, id) == []
    decreases |parts|
  {
    hide MintPart;
    if parts != [] {
      var minted := MintPart(plan, p, parts[0], size, batches, sequence);
      MintPartOwn(plan, p, parts[0], size, batches, sequence, id);
      NoPacksOfOthers(plan, p, parts[1..], size, batches + minted, sequence + |minted|, id);
      PacksAppend(minted, MintParts(plan, p, parts[1..], size, batches + minted, sequence + |minted|), p, id);
    }
  }

  lemma {:induction false} MintedOfPart(plan: Plan, p: nat, parts: seq<Part>, size: nat, batches: seq<Batch>, sequence: nat, k: nat)
    requires size > 0 && k < |parts| && DistinctParts(parts)
    requires FindRequirement(plan.requirements, parts[k].requirementId).Some?
    ensures var r := FindRequirement(plan.requirements, parts[k].requirementId).value.requiredQuantity;
            PartPacks(PacksOf(MintParts(plan, p, parts, size, batches, sequence), p, parts[k].id),
                      PacksOf(batches, p, parts[k].id), p, parts[k], r, size, SeriesCount(r, size), Planned)
    decreases |parts|
  {
    hide MintPart, PartPacks, SeriesCount, PacksOf;
    var minted := MintPart(plan, p, parts[0], size, batches, sequence);
    var rest := MintParts(plan, p, parts[1..], size, batches + minted, sequence + |minted|);
    MintPartOwn(plan, p, parts[0], size, batches, sequence, parts[k].id);
    PacksAppend(minted, rest, p, parts[k].id);
    if k == 0 {
      MintPartPacks(plan, p, parts[0], size, batches, sequence);
      NoPacksOfOthers(plan, p, parts[1..], size, batches + minted, sequence + |minted|, parts[0].id);
      assert minted + [] == minted;
    } else {
      assert parts[1..][k - 1] == parts[k];
      MintedOfPart(plan, p, parts[1..], size, batches + minted, sequence + |minted|, k - 1);
      PacksAppend(batches, minted, p, parts[k].id);
      var prior, own := PacksOf(batches, p, parts[k].id), PacksOf(rest, p, parts[k].id);
      assert prior + [] == prior && [] + own == own;
    }
  }

  // ---- activation ----

  lemma {:induction false} PacksActivated(batches: seq<Batch>, p: nat, partId: nat)
    ensures PacksOf(Activate(batches, p), p, partId) == Activate(PacksOf(batches, p, partId), p)
  {
    if batches != [] {
      PacksActivated(batches[1..], p, partId);
      assert Activate(batches, p)[1..] == Activate(batches[1..], p);
    }
  }

  lemma ActivatedPacks(own: seq<Batch>, prior: seq<Batch>, p: nat, part: Part, required: nat, size: nat, count: nat)
    requires PartPacks(own, prior, p, part, required, size, count, Planned)
    ensures PartPacks(Activate(own, p), prior, p, part, required, size, count, Active)
  {
    hide LeftOf;
  }

  // ---- the committed release ----

  lemma ReleaseMinted(s: State, p: nat, version: nat, before: (string, string) -> bool) returns (minted: seq<Batch>)
    requires ReleaseProject(s, p, version, before).Ok?
    ensures p in s.plans && s.plans[p].rowVersion == version && s.plans[p].status == Draft
    ensures minted == MintParts(s.plans[p], p, SortParts(s.plans[p].parts, before), TraySize(s.plans[p]), s.batches, InProject(s.batches, p))
    ensures ReleaseProject(s, p, version, before).value == Published(s, p, minted)
  {
    hide MintParts, SortParts, TraySize, InProject, CodesFree, Published, PartsOwned, PartTimed;
    minted := MintParts(s.plans[p], p, SortParts(s.plans[p].parts, before), TraySize(s.plans[p]), s.batches, InProject(s.batches, p));
  }

  /** A release leaves every part its packs, whatever packs there were: after k of the part, the new
      ones are number k + 1, k + 2, ... of ceil(R / s), at the project's tray size s, until what was
      left of R is planned or the numbers run out. All are active on the pre-floor. */
  lemma ReleasedPacks(s: State, p: nat, version: nat, before: (string, string) -> bool, part: Part, requirement: Requirement)
    returns (count: nat)
    requires Reachable(s) && ReleaseProject(s, p, version, before).Ok?
    requires part in s.plans[p].parts && requirement in s.plans[p].requirements && requirement.id == part.requirementId
    ensures p in s.plans
    ensures HoldsIn(requirement.requiredQuantity, if s.plans[p].trayQuantity > 0 then s.plans[p].trayQuantity else 200, count)
    ensures var t := ReleaseProject(s, p, version, before).value;
            && |s.batches| <= |t.batches|
            && PartPacks(PacksOf(t.batches[|s.batches|..], p, part.id), PacksOf(s.batches, p, part.id), p, part,
                         requirement.requiredQuantity, if s.plans[p].trayQuantity > 0 then s.plans[p].trayQuantity else 200,
                         count, Active)
  {
    hide MintParts, SortParts, SeriesCount, HoldsIn, PartPacks, PacksOf, Reachable, ReleaseProject, InProject;
    var minted := ReleaseMinted(s, p, version, before);
    var plan, size := s.plans[p], TraySize(s.plans[p]);
    var parts := SortParts(plan.parts, before);
    SortedParts(plan.parts, before);
    OwnRequirement(s, p, part, requirement);
    var k :| 0 <= k < |parts| && parts[k] == part;
    MintedOfPart(plan, p, parts, size, s.batches, InProject(s.batches, p), k);
    count := SeriesCount(requirement.requiredQuantity, size);
    SeriesHolds(requirement.requiredQuantity, size);
    PacksActivated(minted, p, part.id);
    ActivatedPacks(PacksOf(minted, p, part.id), PacksOf(s.batches, p, part.id), p, part, requirement.requiredQuantity, size, count);
    assert Activate(s.batches + minted, p)[|s.batches|..] == Activate(minted, p);
  }

  /** Every part of the project has the packs its requirement asks for, numbered as above. */
  ghost predicate PacksMinted(s: State, p: nat, t: State)
    requires p in s.plans && |s.batches| <= |t.batches|
  {
    forall part, requirement ::
      part in s.plans[p].parts && requirement in s.plans[p].requirements && requirement.id == part.requirementId ==>
        PartMinted(s, p, part, requirement.requiredQuantity, t)
  }

  ghost predicate PartMinted(s: State, p: nat, part: Part, required: nat, t: State)
    requires p in s.plans && |s.batches| <= |t.batches|
  {
    var size := if s.plans[p].trayQuantity > 0 then s.plans[p].trayQuantity else 200;
    exists count: nat ::
      && HoldsIn(required, size, count)
      && PartPacks(PacksOf(t.batches[|s.batches|..], p, part.id), PacksOf(s.batches, p, part.id), p, part, required, size, count, Active)
  }

  lemma AllPacksMinted(s: State, p: nat, version: nat, before: (string, string) -> bool)
    requires Reachable(s) && ReleaseProject(s, p, version, before).Ok?
    ensures p in s.plans && |s.batches| <= |ReleaseProject(s, p, version, before).value.batches|
    ensures PacksMinted(s, p, ReleaseProject(s, p, version, before).value)
  {
    hide ReleaseProject, Reachable, HoldsIn, PartPacks, PacksOf, ReleaseLeaves, PartMinted;
    ReleaseGrows(s, p, version, before);
    var t := ReleaseProject(s, p, version, before).value;
    forall part, requirement |
      part in s.plans[p].parts && requirement in s.plans[p].requirements && requirement.id == part.requirementId
      ensures PartMinted(s, p, part, requirement.requiredQuantity, t)
    {
      OnePartMinted(s, p, version, before, part, requirement);
    }
  }

  lemma ReleaseGrows(s: State, p: nat, version: nat, before: (string, string) -> bool)
    requires ReleaseProject(s, p, version, before).Ok?
    ensures p in s.plans && |s.batches| <= |ReleaseProject(s, p, version, before).value.batches|
  {
    hide ReleaseProject;
    ReleaseWrites(s, p, version, before);
  }

  lemma OnePartMinted(s: State, p: nat, version: nat, before: (string, string) -> bool, part: Part, requirement: Requirement)
    requires Reachable(s) && ReleaseProject(s, p, version, before).Ok?
    requires p in s.plans && |s.batches| <= |ReleaseProject(s, p, version, before).value.batches|
    requires part in s.plans[p].parts && requirement in s.plans[p].requirements && requirement.id == part.requirementId
    ensures PartMinted(s, p, part, requirement.requiredQuantity, ReleaseProject(s, p, version, before).value)
  {
    hide ReleaseProject, Reachable, HoldsIn, PartPacks, PacksOf, PartMinted;
    var count := ReleasedPacks(s, p, version, before, part, requirement);
    MintedWith(s, p, part, requirement.requiredQuantity, ReleaseProject(s, p, version, before).value, count);
  }

  lemma MintedWith(s: State, p: nat, part: Part, required: nat, t: State, count: nat)
    requires p in s.plans && |s.batches| <= |t.batches|
    requires HoldsIn(required, if s.plans[p].trayQuantity > 0 then s.plans[p].trayQuantity else 200, count)
    requires PartPacks(PacksOf(t.batches[|s.batches|..], p, part.id), PacksOf(s.batches, p, part.id), p, part, required,
                       if s.plans[p].trayQuantity > 0 then s.plans[p].trayQuantity else 200, count, Active)
    ensures PartMinted(s, p, part, required, t)
  {
  }

  lemma OwnRequirement(s: State, p: nat, part: Part, requirement: Requirement)
    requires Reachable(s) && p in s.plans && part in s.plans[p].parts
    requires requirement in s.plans[p].requirements && requirement.id == part.requirementId
    ensures DistinctParts(s.plans[p].parts)
    ensures FindRequirement(s.plans[p].requirements, part.requirementId) == Some(requirement)
  {
    hide Reachable, ListsInv, LotInv, Timed;
    ReachablePlan(s, p);
    PartRequirement(s, p, part);
    FindsRequirement(s.plans[p].requirements, part.requirementId);
    var found := FindRequirement(s.plans[p].requirements, part.requirementId).value;
    var i :| 0 <= i < |s.plans[p].requirements| && s.plans[p].requirements[i] == found;
    var j :| 0 <= j < |s.plans[p].requirements| && s.plans[p].requirements[j] == requirement;
  }

  /** With no packs of a part before, its packs in order are numbers 1 to ceil(R / s) of ceil(R / s),
      all full but possibly the last, and together they hold R. */
  lemma FirstReleaseNumbers(s: State, p: nat, version: nat, before: (string, string) -> bool, part: Part,
                            requirement: Requirement) returns (count: nat)
    requires Reachable(s) && ReleaseProject(s, p, version, before).Ok?
    requires part in s.plans[p].parts && requirement in s.plans[p].requirements && requirement.id == part.requirementId
    requires PacksOf(s.batches, p, part.id) == [] && requirement.requiredQuantity > 0
    ensures var t, r := ReleaseProject(s, p, version, before).value, requirement.requiredQuantity;
            var size := if s.plans[p].trayQuantity > 0 then s.plans[p].trayQuantity else 200;
            && (count - 1) * size < r <= count * size
            && |s.batches| <= |t.batches|
            && var packs := PacksOf(t.batches[|s.batches|..], p, part.id);
            && |packs| == count > 0
            && (forall i :: 0 <= i < count ==> packs[i].series == Some((i + 1, count)))
            && (forall i :: 0 <= i < count - 1 ==> packs[i].plannedQuantity == size)
            && packs[count - 1].plannedQuantity == r - (count - 1) * size
  {
    hide PacksOf, Reachable, ReleaseProject, StandReady;
    count := ReleasedPacks(s, p, version, before, part, requirement);
    var r := requirement.requiredQuantity;
    var size := if s.plans[p].trayQuantity > 0 then s.plans[p].trayQuantity else 200;
    var packs := PacksOf(ReleaseProject(s, p, version, before).value.batches[|s.batches|..], p, part.id);
    FillsAll(|packs|, r, size, count);
    forall i | 0 <= i < count - 1 ensures packs[i].plannedQuantity == size {
      assert (i + 1) * size <= (count - 1) * size;
    }
    assert (count - 1 + 1) * size == (count - 1) * size + size;
  }

  lemma FillsAll(packs: nat, required: nat, size: nat, count: nat)
    requires required > 0 && size > 0 && HoldsIn(required, size, count) && packs <= count
    requires packs < count ==> required <= packs * size
    ensures packs == count && (count - 1) * size < required <= count * size
  {
    assert packs < count ==> packs * size <= (count - 1) * size;
  }

  // ---- the other tables, the codes and the order of minting ----

  /** What a release leaves in the tables: the project released at its next version, its planned packs
      active, the new packs on the pre-floor, coded after the lot and numbered on from the packs
      there were; nothing else changes. */
  ghost predicate ReleaseLeaves(s: State, p: nat, t: State)
    requires p in s.plans
  {
    && t == s.(plans := s.plans[p := s.plans[p].(status := Released, rowVersion := s.plans[p].rowVersion + 1)],
               batches := t.batches, positions := t.positions)
    && |s.batches| <= |t.batches|
    && (forall b :: 0 <= b < |s.batches| ==>
          t.batches[b] == if s.batches[b].projectId == p && s.batches[b].status == Planned
                          then s.batches[b].(status := Active) else s.batches[b])
    && (forall b :: b in t.positions <==> b in s.positions || |s.batches| <= b < |t.batches|)
    && (forall b :: b in t.positions ==>
          t.positions[b] == if |s.batches| <= b < |t.batches| then Position(Place("STG-PROJECTS", None), None, None)
                            else s.positions[b])
    && forall b :: |s.batches| <= b < |t.batches| ==>
         t.batches[b].code == s.plans[p].lot.code + "-B" + Padded(|PacksIn(s.batches, p)| + 1 + b - |s.batches|)
  }

  /** A committed release found a draft at the version named, and left exactly that. */
  lemma ReleaseWrites(s: State, p: nat, version: nat, before: (string, string) -> bool)
    requires ReleaseProject(s, p, version, before).Ok?
    ensures p in s.plans && s.plans[p].rowVersion == version && s.plans[p].status == Draft
    ensures ReleaseLeaves(s, p, ReleaseProject(s, p, version, before).value)
  {
    hide MintParts, SortParts, TraySize, ReleaseProject, PacksIn, Numbered, Activate, PlacePositions;
    var minted := ReleaseMinted(s, p, version, before);
    var n := |s.batches|;
    var t := ReleaseProject(s, p, version, before).value;
    assert t == Published(s, p, minted);
    MintedCodes(s.plans[p], p, SortParts(s.plans[p].parts, before), TraySize(s.plans[p]), s.batches, InProject(s.batches, p));
    ProjectCounted(s.batches, p);
    CodedFrom(s.batches, minted, t.batches, p, s.plans[p].lot.code, InProject(s.batches, p) + 1);
  }

  lemma CodedFrom(batches: seq<Batch>, minted: seq<Batch>, after: seq<Batch>, p: nat, lotCode: string, first: nat)
    requires after == Activate(batches + minted, p) && Numbered(minted, lotCode, first)
    ensures |after| == |batches| + |minted|
    ensures forall b :: |batches| <= b < |after| ==> after[b].code == lotCode + "-B" + Padded(first + b - |batches|)
  {
    hide Activate;
    forall b | |batches| <= b < |after| ensures after[b].code == lotCode + "-B" + Padded(first + b - |batches|) {
      assert after[b].code == minted[b - |batches|].code;
      assert first + (b - |batches|) == first + b - |batches|;
    }
  }

  /** A strict weak order of codes, as a collation is. */
  ghost predicate Collation(before: (string, string) -> bool) {
    && (forall a, b :: before(a, b) ==> !before(b, a))
    && (forall a, b, c :: before(a, c) ==> before(a, b) || before(b, c))
  }

  ghost predicate InCodeOrder(parts: seq<Part>, before: (string, string) -> bool) {
    forall i, j :: 0 <= i < j < |parts| ==> !before(parts[j].code, parts[i].code)
  }

  lemma {:induction false} InsertionOrders(x: Part, parts: seq<Part>, before: (string, string) -> bool)
    requires Collation(before) && InCodeOrder(parts, before)
    ensures InCodeOrder(InsertPart(x, parts, before), before)
  {
    if parts != [] && !before(x.code, parts[0].code) {
      var rest := InsertPart(x, parts[1..], before);
      InsertionOrders(x, parts[1..], before);
      InsertedParts(x, parts[1..], before);
      forall j | 0 <= j < |rest| ensures !before(rest[j].code, parts[0].code) {
        assert rest[j] == x || rest[j] in parts[1..];
      }
    } else if parts != [] {
      forall j | 0 <= j < |parts| ensures !before(parts[j].code, x.code) {
        var a, b, c := parts[j].code, parts[0].code, x.code;
        assert before(a, c) ==> before(a, b) || before(b, c);
      }
    }
  }

  lemma {:induction false} SortOrders(parts: seq<Part>, before: (string, string) -> bool)
    requires Collation(before)
    ensures InCodeOrder(SortParts(parts, before), before)
  {
    if parts != [] {
      var last := |parts| - 1;
      SortOrders(parts[..last], before);
      InsertionOrders(parts[last], SortParts(parts[..last], before), before);
    }
  }

  /** Packs come part after part, in the order of the parts. */
  ghost predicate PartByPart(packs: seq<Batch>, parts: seq<Part>) {
    forall i, j :: 0 <= i <= j < |packs| ==> InTurn(packs[i].partId, packs[j].partId, parts)
  }

  ghost predicate InTurn(a: nat, b: nat, parts: seq<Part>) {
    exists k, l :: 0 <= k <= l < |parts| && parts[k].id == a && parts[l].id == b
  }

  lemma {:induction false} MintedPartByPart(plan: Plan, p: nat, parts: seq<Part>, size: nat, batches: seq<Batch>, sequence: nat)
    requires size > 0
    ensures PartByPart(MintParts(plan, p, parts, size, batches, sequence), parts)
    decreases |parts|
  {
    hide MintPart;
    if parts != [] {
      var minted := MintPart(plan, p, parts[0], size, batches, sequence);
      var rest := MintParts(plan, p, parts[1..], size, batches + minted, sequence + |minted|);
      MintPartRows(plan, p, parts[0], size, batches, sequence, parts[0].id);
      MintedPartByPart(plan, p, parts[1..], size, batches + minted, sequence + |minted|);
      OrderedAfter(minted, rest, parts);
    }
  }

  lemma OrderedAfter(minted: seq<Batch>, rest: seq<Batch>, parts: seq<Part>)
    requires parts != [] && PartByPart(rest, parts[1..])
    requires forall i :: 0 <= i < |minted| ==> minted[i].partId == parts[0].id
    ensures PartByPart(minted + rest, parts)
  {
    var packs := minted + rest;
    forall i, j | 0 <= i <= j < |packs| ensures InTurn(packs[i].partId, packs[j].partId, parts) {
      if j >= |minted| {
        var a := if i < |minted| then j - |minted| else i - |minted|;
        assert InTurn(rest[a].partId, rest[j - |minted|].partId, parts[1..]);
        var k, l :| 0 <= k <= l < |parts[1..]| && parts[1..][k].id == rest[a].partId && parts[1..][l].id == rest[j - |minted|].partId;
        assert parts[k + 1].id == rest[a].partId && parts[l + 1].id == rest[j - |minted|].partId;
      }
    }
  }

  lemma NewPackParts(s: State, p: nat, minted: seq<Batch>, i: nat)
    requires p in s.plans && |s.batches| <= i < |Published(s, p, minted).batches|
    ensures i - |s.batches| < |minted|
    ensures Published(s, p, minted).batches[i].partId == minted[i - |s.batches|].partId
  {
  }

  /** Every new pack is one of the project's parts', and no pack is minted after a pack of a part
      whose code comes later. */
  lemma MintedInOrder(s: State, p: nat, version: nat, before: (string, string) -> bool, i: nat, j: nat) returns (x: Part, y: Part)
    requires ReleaseProject(s, p, version, before).Ok? && Collation(before)
    requires |s.batches| <= i <= j < |ReleaseProject(s, p, version, before).value.batches|
    ensures p in s.plans && x in s.plans[p].parts && y in s.plans[p].parts && !before(y.code, x.code)
    ensures var t := ReleaseProject(s, p, version, before).value; x.id == t.batches[i].partId && y.id == t.batches[j].partId
  {
    hide MintParts, SortParts, TraySize, ReleaseProject, InProject, Collation, Published, InCodeOrder, PartByPart;
    var minted := ReleaseMinted(s, p, version, before);
    var parts := SortParts(s.plans[p].parts, before);
    MintedPartByPart(s.plans[p], p, parts, TraySize(s.plans[p]), s.batches, InProject(s.batches, p));
    SortOrders(s.plans[p].parts, before);
    SortedParts(s.plans[p].parts, before);
    NewPackParts(s, p, minted, i);
    NewPackParts(s, p, minted, j);
    x, y := PartsInOrder(minted, parts, before, i - |s.batches|, j - |s.batches|);
  }

  lemma PartsInOrder(minted: seq<Batch>, parts: seq<Part>, before: (string, string) -> bool, i: nat, j: nat) returns (x: Part, y: Part)
    requires PartByPart(minted, parts) && InCodeOrder(parts, before) && Collation(before) && i <= j < |minted|
    ensures x in parts && y in parts && !before(y.code, x.code) && x.id == minted[i].partId && y.id == minted[j].partId
  {
    assert InTurn(minted[i].partId, minted[j].partId, parts);
    var k, l :| 0 <= k <= l < |parts| && parts[k].id == minted[i].partId && parts[l].id == minted[j].partId;
    x, y := parts[k], parts[l];
  }
}
