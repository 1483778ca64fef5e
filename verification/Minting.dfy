/** Release minting: the tray-sized packs a project's release puts on the floor. */
module Minting {
  import opened Common
  import opened Routes
  import opened Tables
  import opened Text

  function Min(a: nat, b: nat): nat {
    if a <= b then a else b
  }

  /** Math.ceil of a quotient. */
  function CeilDiv(a: nat, b: nat): nat
    requires b > 0
  {
    (a + b - 1) / b
  }

  /** Packs already planned for a part, and their planned quantity. */
  function CountPlanned(batches: seq<Batch>, projectId: nat, partId: nat): nat {
    if batches == [] then 0
    else CountPlanned(batches[1..], projectId, partId)
         + if batches[0].projectId == projectId && batches[0].partId == partId then 1 else 0
  }

  function SumPlanned(batches: seq<Batch>, projectId: nat, partId: nat): nat {
    if batches == [] then 0
    else SumPlanned(batches[1..], projectId, partId)
         + if batches[0].projectId == projectId && batches[0].partId == partId then batches[0].plannedQuantity else 0
  }

  function InProject(batches: seq<Batch>, projectId: nat): nat {
    if batches == [] then 0
    else InProject(batches[1..], projectId) + if batches[0].projectId == projectId then 1 else 0
  }

  function SeriesCount(required: nat, tray: nat): nat
    requires tray > 0
  {
    if CeilDiv(required, tray) < 1 then 1 else CeilDiv(required, tray)
  }

  function LeftToPlan(required: nat, planned: nat): nat {
    if planned < required then required - planned else 0
  }

  /** The quantities of the packs minted for one part, from series number `series` on. */
  function Trays(left: nat, tray: nat, series: nat, seriesCount: nat): seq<nat>
    requires tray > 0
    decreases left
  {
    if series > seriesCount || left == 0 then []
    else [Min(tray, left)] + Trays(left - Min(tray, left), tray, series + 1, seriesCount)
  }

  function BatchCode(lotCode: string, sequence: nat): string {
    lotCode + "-B" + Padded(sequence)
  }

  /** The pack minted as number `sequence` of the lot. */
  function MintedBatch(plan: Plan, projectId: nat, part: Part, quantity: nat, tray: nat,
                       series: nat, seriesCount: nat, sequence: nat): Batch {
    Batch(BatchCode(plan.lot.code, sequence), projectId, part.id, quantity, tray, part.requirementId,
          Some((series, seriesCount)), Place(PRE_FLOOR, None), Planned, 1)
  }

  function MintRows(plan: Plan, projectId: nat, part: Part, trays: seq<nat>, tray: nat,
                    first: nat, seriesCount: nat, sequence: nat): seq<Batch> {
    seq(|trays|, i requires 0 <= i < |trays| =>
      MintedBatch(plan, projectId, part, trays[i], tray, first + i, seriesCount, sequence + 1 + i))
  }

  function FindRequirement(requirements: seq<Requirement>, id: nat): Option<Requirement> {
    if requirements == [] then None
    else if requirements[0].id == id then Some(requirements[0])
    else FindRequirement(requirements[1..], id)
  }

  /** The packs minted for one part, given every pack that exists so far. */
  function MintPart(plan: Plan, projectId: nat, part: Part, tray: nat, batches: seq<Batch>, sequence: nat): seq<Batch>
    requires tray > 0
  {
    match FindRequirement(plan.requirements, part.requirementId)
    case None => []
    case Some(requirement) =>
      var r := requirement.requiredQuantity;
      var left := LeftToPlan(r, SumPlanned(batches, projectId, part.id));
      var first := CountPlanned(batches, projectId, part.id) + 1;
      MintRows(plan, projectId, part, Trays(left, tray, first, SeriesCount(r, tray)), tray, first,
               SeriesCount(r, tray), sequence)
  }

  /** The packs minted for all parts, in order. */
  function MintParts(plan: Plan, projectId: nat, parts: seq<Part>, tray: nat, batches: seq<Batch>, sequence: nat): seq<Batch>
    requires tray > 0
    decreases |parts|
  {
    if parts == [] then []
    else
      var minted := MintPart(plan, projectId, parts[0], tray, batches, sequence);
      minted + MintParts(plan, projectId, parts[1..], tray, batches + minted, sequence + |minted|)
  }

  // ---- parts are minted in part-code order under the runtime's collation ----

  function InsertPart(x: Part, parts: seq<Part>, before: (string, string) -> bool): seq<Part> {
    if parts == [] || before(x.code, parts[0].code) then [x] + parts
    else [parts[0]] + InsertPart(x, parts[1..], before)
  }

  function SortParts(parts: seq<Part>, before: (string, string) -> bool): seq<Part> {
    if parts == [] then []
    else InsertPart(parts[|parts| - 1], SortParts(parts[..|parts| - 1], before), before)
  }

  function TraySize(plan: Plan): (tray: nat)
    ensures tray > 0
  {
    if plan.trayQuantity > 0 then plan.trayQuantity else 200
  }

  // ---- conservation ----

  function Total(quantities: seq<nat>): nat {
    if quantities == [] then 0 else quantities[0] + Total(quantities[1..])
  }

  /** Whatever was planned before, minted plus leftover is what was left to plan, every pack
      is positive and at most a tray, and only the last may be smaller than a tray. The
      leftover is nonzero only when the series numbers ran out. */
  lemma {:induction false} TraysConserve(left: nat, tray: nat, series: nat, seriesCount: nat)
    requires tray > 0
    ensures var t := Trays(left, tray, series, seriesCount);
            && Total(t) <= left
            && (Total(t) < left ==> series + |t| > seriesCount)
            && (forall i :: 0 <= i < |t| ==> 0 < t[i] <= tray)
            && (forall i :: 0 <= i < |t| - 1 ==> t[i] == tray)
            && (Total(t) < left ==> forall i :: 0 <= i < |t| ==> t[i] == tray)
            && (t != [] ==> series + |t| <= seriesCount + 1)
    decreases left
  {
    if series <= seriesCount && left > 0 {
      TraysConserve(left - Min(tray, left), tray, series + 1, seriesCount);
    }
  }

  /** Exactly how much is minted: what is left, as far as the series numbers last. */
  lemma {:induction false} TraysTotal(left: nat, tray: nat, series: nat, seriesCount: nat)
    requires tray > 0
    ensures Total(Trays(left, tray, series, seriesCount))
         == Min(left, tray * if series <= seriesCount then seriesCount - series + 1 else 0)
    decreases left
  {
    if left > 0 && series <= seriesCount {
      var quantity := Min(tray, left);
      TraysTotal(left - quantity, tray, series + 1, seriesCount);
      var trays := Trays(left, tray, series, seriesCount);
      assert trays == [quantity] + Trays(left - quantity, tray, series + 1, seriesCount);
      var n := seriesCount - series;
      assert tray * (n + 1) == tray * n + tray;
      assert tray * n >= 0;
    }
  }

  lemma CeilStep(left: nat, tray: nat)
    requires 0 < tray < left
    ensures CeilDiv(left, tray) == CeilDiv(left - tray, tray) + 1
  {
    var q := (left - tray + tray - 1) / tray;
    assert left + tray - 1 == (left - 1) + tray;
    DivAdd(left - 1, tray);
  }

  lemma DivAdd(a: nat, b: nat)
    requires b > 0
    ensures (a + b) / b == a / b + 1
  {
    var q, r := a / b, a % b;
    assert a == q * b + r;
    QuotientUnique(a + b, b, q + 1, r);
  }

  lemma QuotientUnique(a: nat, b: nat, q: nat, r: nat)
    requires 0 <= r < b && a == q * b + r
    ensures a / b == q
  {
    assert a == (a / b) * b + a % b;
    SmallMultiple(a / b - q, b);
  }

  lemma SmallMultiple(d: int, b: int)
    requires -b < d * b < b
    ensures d == 0
  {
  }

  /** With enough series numbers left, exactly the whole remaining quantity is minted, in
      ceil(left / tray) packs. */
  lemma {:induction false} TraysExhaust(left: nat, tray: nat, series: nat, seriesCount: nat)
    requires tray > 0 && left > 0 && series + CeilDiv(left, tray) - 1 <= seriesCount
    ensures |Trays(left, tray, series, seriesCount)| == CeilDiv(left, tray)
    ensures Total(Trays(left, tray, series, seriesCount)) == left
    decreases left
  {
    if left <= tray {
      CeilOne(left, tray);
      assert Trays(0, tray, series + 1, seriesCount) == [];
      assert Trays(left, tray, series, seriesCount) == [left];
    } else {
      CeilStep(left, tray);
      CeilPositive(left - tray, tray);
      TraysExhaust(left - tray, tray, series + 1, seriesCount);
    }
  }

  lemma CeilOne(left: nat, tray: nat)
    requires 0 < left <= tray
    ensures CeilDiv(left, tray) == 1
  {
  }

  lemma CeilPositive(left: nat, tray: nat)
    requires 0 < left && 0 < tray
    ensures CeilDiv(left, tray) >= 1
  {
  }

  /** A first release of a part mints ceil(R / s) packs summing to R, numbered from 1, all
      of size s except possibly the last. */
  lemma FirstReleaseMintsAll(required: nat, tray: nat)
    requires tray > 0 && required > 0
    ensures var t := Trays(LeftToPlan(required, 0), tray, 1, SeriesCount(required, tray));
            && |t| == CeilDiv(required, tray) == SeriesCount(required, tray)
            && Total(t) == required
            && (forall i :: 0 <= i < |t| ==> 0 < t[i] <= tray)
            && (forall i :: 0 <= i < |t| - 1 ==> t[i] == tray)
  {
    CeilPositive(required, tray);
    TraysExhaust(required, tray, 1, SeriesCount(required, tray));
    TraysConserve(required, tray, 1, SeriesCount(required, tray));
  }

  // ---- codes ----

  /** The packs carry the lot's codes number `first`, `first + 1`, ... */
  ghost predicate Numbered(m: seq<Batch>, lotCode: string, first: nat) {
    forall i :: 0 <= i < |m| ==> m[i].code == BatchCode(lotCode, first + i)
  }

  lemma NumberedAppend(a: seq<Batch>, b: seq<Batch>, lotCode: string, first: nat, next: nat)
    requires next == first + |a|
    requires Numbered(a, lotCode, first) && Numbered(b, lotCode, next)
    ensures Numbered(a + b, lotCode, first)
  {
    forall i | 0 <= i < |a + b| ensures (a + b)[i].code == BatchCode(lotCode, first + i) {
      if i >= |a| {
        assert b[i - |a|].code == BatchCode(lotCode, next + (i - |a|));
      }
    }
  }

  lemma MintPartCodes(plan: Plan, projectId: nat, part: Part, tray: nat, batches: seq<Batch>, sequence: nat)
    requires tray > 0
    ensures Numbered(MintPart(plan, projectId, part, tray, batches, sequence), plan.lot.code, sequence + 1)
  {
  }

  /** Every pack of one minting carries the code of its own place in the lot's numbering. */
  lemma {:induction false} MintedCodes(plan: Plan, projectId: nat, parts: seq<Part>, tray: nat, batches: seq<Batch>,
                                       sequence: nat)
    requires tray > 0
    ensures Numbered(MintParts(plan, projectId, parts, tray, batches, sequence), plan.lot.code, sequence + 1)
    decreases |parts|
  {
    if parts != [] {
      var minted := MintPart(plan, projectId, parts[0], tray, batches, sequence);
      var rest := MintParts(plan, projectId, parts[1..], tray, batches + minted, sequence + |minted|);
      MintPartCodes(plan, projectId, parts[0], tray, batches, sequence);
      MintedCodes(plan, projectId, parts[1..], tray, batches + minted, sequence + |minted|);
      NumberedAppend(minted, rest, plan.lot.code, sequence + 1, sequence + |minted| + 1);
    }
  }

  lemma CodesInjective(lotCode: string, a: nat, b: nat)
    requires BatchCode(lotCode, a) == BatchCode(lotCode, b)
    ensures a == b
  {
    assert BatchCode(lotCode, a)[|lotCode + "-B"|..] == Padded(a);
    assert BatchCode(lotCode, b)[|lotCode + "-B"|..] == Padded(b);
    PaddedInjective(a, b);
  }

  lemma NumberedCodesDistinct(m: seq<Batch>, lotCode: string, first: nat)
    requires Numbered(m, lotCode, first)
    ensures forall i, j :: 0 <= i < j < |m| ==> m[i].code != m[j].code
  {
    forall i, j | 0 <= i < j < |m| ensures m[i].code != m[j].code {
      if m[i].code == m[j].code {
        CodesInjective(lotCode, first + i, first + j);
      }
    }
  }

  /** The codes of one release are pairwise distinct across all parts, however many packs. */
  lemma MintedCodesDistinct(plan: Plan, projectId: nat, parts: seq<Part>, tray: nat, batches: seq<Batch>, sequence: nat,
                            m: seq<Batch>)
    requires tray > 0 && m == MintParts(plan, projectId, parts, tray, batches, sequence)
    ensures forall i, j :: 0 <= i < j < |m| ==> m[i].code != m[j].code
  {
    MintedCodes(plan, projectId, parts, tray, batches, sequence);
    NumberedCodesDistinct(m, plan.lot.code, sequence + 1);
  }

  // ---- what one release mints per part ----

  lemma {:induction false} PlannedAppend(a: seq<Batch>, b: seq<Batch>, projectId: nat, partId: nat)
    ensures CountPlanned(a + b, projectId, partId) == CountPlanned(a, projectId, partId) + CountPlanned(b, projectId, partId)
    ensures SumPlanned(a + b, projectId, partId) == SumPlanned(a, projectId, partId) + SumPlanned(b, projectId, partId)
  {
    if a == [] {
      assert a + b == b;
    } else {
      assert (a + b)[1..] == a[1..] + b;
      PlannedAppend(a[1..], b, projectId, partId);
    }
  }

  lemma {:induction false} RowsOfPart(rows: seq<Batch>, trays: seq<nat>, projectId: nat, partId: nat, other: nat)
    requires |rows| == |trays|
    requires forall i :: 0 <= i < |rows| ==> rows[i].projectId == projectId && rows[i].partId == partId
    requires forall i :: 0 <= i < |rows| ==> rows[i].plannedQuantity == trays[i]
    ensures SumPlanned(rows, projectId, other) == if other == partId then Total(trays) else 0
    ensures CountPlanned(rows, projectId, other) == if other == partId then |trays| else 0
  {
    if rows != [] {
      RowsOfPart(rows[1..], trays[1..], projectId, partId, other);
    }
  }

  lemma MintPartRows(plan: Plan, projectId: nat, part: Part, tray: nat, batches: seq<Batch>, sequence: nat, other: nat)
    requires tray > 0
    ensures var m := MintPart(plan, projectId, part, tray, batches, sequence);
            forall i :: 0 <= i < |m| ==> m[i].projectId == projectId && m[i].partId == part.id
    ensures other != part.id ==>
              && SumPlanned(MintPart(plan, projectId, part, tray, batches, sequence), projectId, other) == 0
              && CountPlanned(MintPart(plan, projectId, part, tray, batches, sequence), projectId, other) == 0
    ensures FindRequirement(plan.requirements, part.requirementId).Some? && other == part.id ==>
              var r := FindRequirement(plan.requirements, part.requirementId).value.requiredQuantity;
              var t := Trays(LeftToPlan(r, SumPlanned(batches, projectId, other)), tray,
                             CountPlanned(batches, projectId, other) + 1, SeriesCount(r, tray));
              && SumPlanned(MintPart(plan, projectId, part, tray, batches, sequence), projectId, other) == Total(t)
              && CountPlanned(MintPart(plan, projectId, part, tray, batches, sequence), projectId, other) == |t|
  {
    var req := FindRequirement(plan.requirements, part.requirementId);
    if req.Some? {
      var r := req.value.requiredQuantity;
      var left := LeftToPlan(r, SumPlanned(batches, projectId, part.id));
      var first := CountPlanned(batches, projectId, part.id) + 1;
      var t := Trays(left, tray, first, SeriesCount(r, tray));
      var m := MintRows(plan, projectId, part, t, tray, first, SeriesCount(r, tray), sequence);
      RowsOfPart(m, t, projectId, part.id, other);
    }
  }

  /** The packs `m` of a part are the trays its remaining quantity asks for. */
  ghost predicate MintsRemainder(m: seq<Batch>, plan: Plan, projectId: nat, part: Part, tray: nat, batches: seq<Batch>)
    requires tray > 0 && FindRequirement(plan.requirements, part.requirementId).Some?
  {
    var r := FindRequirement(plan.requirements, part.requirementId).value.requiredQuantity;
    var t := Trays(LeftToPlan(r, SumPlanned(batches, projectId, part.id)), tray,
                   CountPlanned(batches, projectId, part.id) + 1, SeriesCount(r, tray));
    SumPlanned(m, projectId, part.id) == Total(t) && CountPlanned(m, projectId, part.id) == |t|
  }

  lemma {:induction false} NothingForOthers(plan: Plan, projectId: nat, parts: seq<Part>, tray: nat, batches: seq<Batch>,
                                            sequence: nat, id: nat)
    requires tray > 0
    requires forall i :: 0 <= i < |parts| ==> parts[i].id != id
    ensures SumPlanned(MintParts(plan, projectId, parts, tray, batches, sequence), projectId, id) == 0
    ensures CountPlanned(MintParts(plan, projectId, parts, tray, batches, sequence), projectId, id) == 0
    decreases |parts|
  {
    hide MintPart;
    if parts != [] {
      var minted := MintPart(plan, projectId, parts[0], tray, batches, sequence);
      var rest := MintParts(plan, projectId, parts[1..], tray, batches + minted, sequence + |minted|);
      MintPartRows(plan, projectId, parts[0], tray, batches, sequence, id);
      NothingForOthers(plan, projectId, parts[1..], tray, batches + minted, sequence + |minted|, id);
      PlannedAppend(minted, rest, projectId, id);
    }
  }

  lemma MintFirstPart(plan: Plan, projectId: nat, parts: seq<Part>, tray: nat, batches: seq<Batch>, sequence: nat)
    requires tray > 0 && parts != []
    requires forall i :: 1 <= i < |parts| ==> parts[i].id != parts[0].id
    requires FindRequirement(plan.requirements, parts[0].requirementId).Some?
    ensures MintsRemainder(MintParts(plan, projectId, parts, tray, batches, sequence), plan, projectId, parts[0], tray, batches)
  {
    hide MintPart, SumPlanned, CountPlanned, Trays, Total, LeftToPlan, SeriesCount;
    var id := parts[0].id;
    var minted := MintPart(plan, projectId, parts[0], tray, batches, sequence);
    var rest := MintParts(plan, projectId, parts[1..], tray, batches + minted, sequence + |minted|);
    MintPartRows(plan, projectId, parts[0], tray, batches, sequence, id);
    NothingForOthers(plan, projectId, parts[1..], tray, batches + minted, sequence + |minted|, id);
    PlannedAppend(minted, rest, projectId, id);
  }

  lemma RemainderFrame(rest: seq<Batch>, minted: seq<Batch>, plan: Plan, projectId: nat, part: Part, tray: nat,
                       batches: seq<Batch>)
    requires tray > 0 && FindRequirement(plan.requirements, part.requirementId).Some?
    requires SumPlanned(minted, projectId, part.id) == 0 && CountPlanned(minted, projectId, part.id) == 0
    requires MintsRemainder(rest, plan, projectId, part, tray, batches + minted)
    ensures MintsRemainder(minted + rest, plan, projectId, part, tray, batches)
  {
    PlannedAppend(minted, rest, projectId, part.id);
    PlannedAppend(batches, minted, projectId, part.id);
  }

  /** Minting conserves quantity: for every part, what one release mints is exactly the trays
      its quantity still to plan asks for. */
  lemma {:induction false} MintConserves(plan: Plan, projectId: nat, parts: seq<Part>, tray: nat, batches: seq<Batch>,
                                         sequence: nat, k: nat)
    requires tray > 0 && k < |parts|
    requires forall i, j :: 0 <= i < j < |parts| ==> parts[i].id != parts[j].id
    requires FindRequirement(plan.requirements, parts[k].requirementId).Some?
    ensures MintsRemainder(MintParts(plan, projectId, parts, tray, batches, sequence), plan, projectId, parts[k], tray, batches)
    decreases |parts|
  {
    if k == 0 {
      MintFirstPart(plan, projectId, parts, tray, batches, sequence);
    } else {
      var minted := MintPart(plan, projectId, parts[0], tray, batches, sequence);
      var rest := MintParts(plan, projectId, parts[1..], tray, batches + minted, sequence + |minted|);
      MintPartRows(plan, projectId, parts[0], tray, batches, sequence, parts[k].id);
      assert parts[1..][k - 1] == parts[k];
      MintConserves(plan, projectId, parts[1..], tray, batches + minted, sequence + |minted|, k - 1);
      RemainderFrame(rest, minted, plan, projectId, parts[k], tray, batches);
    }
  }
}
