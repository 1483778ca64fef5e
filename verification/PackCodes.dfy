/** No two packs ever carry the same code, whether minted or made by hand. */
module PackCodes {
  import opened Common
  import opened Tables
  import opened Minting
  import opened FloorCommands
  import opened PlanCommands
  import opened Runs
  import opened Production
  import opened Guarantees
  import opened CommandFacts
  import opened ReleasePacks

  /** The packs that were there keep their codes. */
  ghost predicate SameCodes(before: seq<Batch>, after: seq<Batch>) {
    |before| <= |after| && forall b :: 0 <= b < |before| ==> after[b].code == before[b].code
  }

  lemma {:induction false} ReleaseKeepsCodes(s: State, p: nat, version: nat, before: (string, string) -> bool)
    requires DistinctPackCodes(s.batches) && ReleaseProject(s, p, version, before).Ok?
    ensures DistinctPackCodes(ReleaseProject(s, p, version, before).value.batches)
  {
    hide MintParts, SortParts, TraySize, InProject, ReleaseProject;
    var minted := ReleaseMinted(s, p, version, before);
    MintedCodesDistinct(s.plans[p], p, SortParts(s.plans[p].parts, before), TraySize(s.plans[p]), s.batches, InProject(s.batches, p), minted);
    ReleaseFree(s, p, version, before, minted);
    var all, t := s.batches + minted, Published(s, p, minted);
    forall i, j | 0 <= i < j < |t.batches| ensures t.batches[i].code != t.batches[j].code {
      assert t.batches[i].code == all[i].code && t.batches[j].code == all[j].code;
    }
  }

  lemma ReleaseFree(s: State, p: nat, version: nat, before: (string, string) -> bool, minted: seq<Batch>)
    requires p in s.plans && ReleaseProject(s, p, version, before).Ok?
    requires minted == MintParts(s.plans[p], p, SortParts(s.plans[p].parts, before), TraySize(s.plans[p]), s.batches, InProject(s.batches, p))
    ensures forall i, j :: 0 <= i < |minted| && 0 <= j < |s.batches| ==> minted[i].code != s.batches[j].code
  {
    hide MintParts, SortParts, TraySize, InProject, CheckRelease;
  }

  lemma FloorKeepsCodes(s: State, c: Command)
    requires Apply(s, c).Ok?
    requires c.StageEventRecord? || c.InspectionCreate? || c.DecisionCreate? || c.AnalysisCreate? || c.BatchClose?
    ensures |Apply(s, c).value.batches| == |s.batches| && SameCodes(s.batches, Apply(s, c).value.batches)
  {
    if c.StageEventRecord? {
      hide Apply;
      ScanApplies(s, c);
      ScanKeepsCodes(s, c.scan);
    } else {
      hide RecordScan, GateVerdict;
    }
  }

  lemma ScanKeepsCodes(s: State, c: Scan)
    requires RecordScan(s, c).Ok?
    ensures |RecordScan(s, c).value.batches| == |s.batches| && SameCodes(s.batches, RecordScan(s, c).value.batches)
  {
    hide HopPassed;
  }

  lemma StepKeepsCodes(s: State, c: Command)
    requires DistinctPackCodes(s.batches)
    ensures DistinctPackCodes(Step(s, c).batches)
  {
    hide Apply, SameCodes;
    if Apply(s, c).Ok? {
      if IsPlanEdit(c) {
        PlanEditShape(s, c);
      } else if c.ProjectRelease? {
        ReleaseApplies(s, c);
        ReleaseKeepsCodes(s, c.p, c.version, c.before);
      } else if c.BatchCreate? {
        CreatedCode(s, c);
      } else {
        FloorKeepsCodes(s, c);
        CodesStand(s.batches, Apply(s, c).value.batches);
      }
    }
  }

  lemma CreatedCode(s: State, c: Command)
    requires c.BatchCreate? && Apply(s, c).Ok? && DistinctPackCodes(s.batches)
    ensures DistinctPackCodes(Apply(s, c).value.batches)
  {
  }

  lemma CodesStand(before: seq<Batch>, after: seq<Batch>)
    requires |after| == |before| && SameCodes(before, after) && DistinctPackCodes(before)
    ensures DistinctPackCodes(after)
  {
  }

  /** In every reachable state all pack codes are distinct. */
  lemma CodesUnique(s: State)
    requires Reachable(s)
    ensures forall i, j :: 0 <= i < j < |s.batches| ==> s.batches[i].code != s.batches[j].code
  {
    var commands :| AllowedRun(EMPTY, commands) && s == Run(EMPTY, commands);
    RunKeepsCodes(EMPTY, commands);
  }

  lemma {:induction false} RunKeepsCodes(s: State, commands: seq<Command>)
    requires DistinctPackCodes(s.batches)
    ensures DistinctPackCodes(Run(s, commands).batches)
    decreases |commands|
  {
    hide Step, DistinctPackCodes;
    if commands != [] {
      StepKeepsCodes(s, commands[0]);
      RunKeepsCodes(Step(s, commands[0]), commands[1..]);
    }
  }
}
