/** The life of a project: drafted, released once, completed once, and never taken back. */
module ProjectStatus {
  import opened Common
  import opened Tables
  import opened Minting
  import opened FloorCommands
  import opened PlanCommands
  import opened Runs
  import opened FloorInvariant
  import opened PlanInvariant
  import opened Production
  import opened Guarantees

  /** A completion makes a released project completed, at its next version, and changes nothing else. */
  lemma CompletionWrites(s: State, p: nat, version: nat)
    requires CompleteProject(s, p, version).Ok?
    ensures p in s.plans && s.plans[p].status == Released && s.plans[p].rowVersion == version
    ensures CompleteProject(s, p, version).value
         == s.(plans := s.plans[p := s.plans[p].(status := Completed, rowVersion := version + 1)])
  {
  }

  /** Whatever version is named, a completed project is neither completed again, released nor deleted. */
  lemma CompletedRefuses(s: State, p: nat, first: nat, version: nat, ifMatch: Option<nat>, before: (string, string) -> bool)
    requires CompleteProject(s, p, first).Ok?
    ensures var t := CompleteProject(s, p, first).value;
            && CompleteProject(t, p, version) == Err(if version == first + 1 then Conflict else StaleVersion)
            && ReleaseProject(t, p, version, before) == Err(if version == first + 1 then Conflict else StaleVersion)
            && DeleteProject(t, p, ifMatch) == Err(if ifMatch in {None, Some(first + 1)} then Conflict else StaleVersion)
  {
    hide MintParts;
    CompletionWrites(s, p, first);
  }

  function StatusOf(s: State, p: nat): Option<ProjectStatus> {
    if p in s.plans then Some(s.plans[p].status) else None
  }

  /** The one status change each committed command makes; every other command leaves it. */
  lemma StatusStep(s: State, c: Command, p: nat)
    requires Apply(s, c).Ok?
    ensures c.ProjectRelease? && c.p == p ==> StatusOf(s, p) == Some(Draft)
    ensures c.ProjectComplete? && c.p == p ==> StatusOf(s, p) == Some(Released)
    ensures c.ProjectDelete? && c.p == p ==> StatusOf(s, p) == Some(Draft)
    ensures StatusOf(Step(s, c), p)
         == if c.ProjectCreate? && p == s.nextId then Some(Draft)
            else if c.ProjectRelease? && c.p == p then Some(Released)
            else if c.ProjectComplete? && c.p == p then Some(Completed)
            else if c.ProjectDelete? && c.p == p then None
            else StatusOf(s, p)
  {
    if c.BatchCreate? || c.StageEventRecord? || c.InspectionCreate? || c.DecisionCreate? || c.AnalysisCreate? || c.BatchClose? {
      hide Apply;
      FloorCommandLeavesPlans(s, c);
    } else if c.ProjectRelease? {
      hide Apply;
      ReleaseApplies(s, c);
      ReleaseStatus(s, c.p, c.version, c.before, p);
    } else {
      EditStatus(s, c, p);
    }
  }

  lemma ReleaseStatus(s: State, q: nat, version: nat, before: (string, string) -> bool, p: nat)
    requires ReleaseProject(s, q, version, before).Ok?
    ensures StatusOf(s, q) == Some(Draft)
    ensures StatusOf(ReleaseProject(s, q, version, before).value, p) == if p == q then Some(Released) else StatusOf(s, p)
  {
    hide MintParts, CodesFree;
  }

  lemma EditStatus(s: State, c: Command, p: nat)
    requires Apply(s, c).Ok?
    requires c.ProjectCreate? || c.ProjectPatch? || c.RequirementsReplace? || c.RouteVersionCreate? || c.CycleTimesOverride?
             || c.PartRemove? || c.ProjectDelete? || c.ProjectComplete?
    ensures c.ProjectComplete? && c.p == p ==> StatusOf(s, p) == Some(Released)
    ensures c.ProjectDelete? && c.p == p ==> StatusOf(s, p) == Some(Draft)
    ensures StatusOf(Step(s, c), p)
         == if c.ProjectCreate? && p == s.nextId then Some(Draft)
            else if c.ProjectComplete? && c.p == p then Some(Completed)
            else if c.ProjectDelete? && c.p == p then None
            else StatusOf(s, p)
  {
    hide ModelRows, RequirementRows, Unclashing, CheckModels, CheckSteps, InputRows, SameModelSet;
  }

  // ---- runs ----

  /** How many releases, and how many completions, of the project commit in a run. */
  function Releases(s: State, commands: seq<Command>, p: nat): nat
    decreases |commands|
  {
    if commands == [] then 0
    else (if commands[0].ProjectRelease? && commands[0].p == p && Apply(s, commands[0]).Ok? then 1 else 0)
         + Releases(Step(s, commands[0]), commands[1..], p)
  }

  function Completions(s: State, commands: seq<Command>, p: nat): nat
    decreases |commands|
  {
    if commands == [] then 0
    else (if commands[0].ProjectComplete? && commands[0].p == p && Apply(s, commands[0]).Ok? then 1 else 0)
         + Completions(Step(s, commands[0]), commands[1..], p)
  }

  function BeenReleased(status: Option<ProjectStatus>): nat {
    if status in {Some(Released), Some(Completed)} then 1 else 0
  }

  function BeenCompleted(status: Option<ProjectStatus>): nat {
    if status == Some(Completed) then 1 else 0
  }

  /** Over any allowed run, releases and completions account for the status exactly. */
  lemma {:induction false} RunStatus(s: State, commands: seq<Command>, p: nat)
    requires Inv(s) && AllowedRun(s, commands)
    ensures BeenReleased(StatusOf(Run(s, commands), p)) == BeenReleased(StatusOf(s, p)) + Releases(s, commands, p)
    ensures BeenCompleted(StatusOf(Run(s, commands), p)) == BeenCompleted(StatusOf(s, p)) + Completions(s, commands, p)
    decreases |commands|
  {
    hide Inv, Apply, Step, Allowed;
    if commands != [] {
      var t := Step(s, commands[0]);
      FreshProject(s);
      if Apply(s, commands[0]).Ok? {
        StatusStep(s, commands[0], p);
      } else {
        RefusedStep(s, commands[0]);
      }
      StepKeeps(s, commands[0]);
      RunStatus(t, commands[1..], p);
    }
  }

  lemma RefusedStep(s: State, c: Command)
    requires Apply(s, c).Err?
    ensures Step(s, c) == s
  {
  }

  /** From the start: a project is completed exactly when a completion of it committed, released
      exactly when a release of it did and no completion, and each commits at most once. */
  lemma StatusIsHistory(commands: seq<Command>, p: nat)
    requires AllowedRun(EMPTY, commands)
    ensures Releases(EMPTY, commands, p) <= 1 && Completions(EMPTY, commands, p) <= Releases(EMPTY, commands, p)
    ensures StatusOf(Run(EMPTY, commands), p) == Some(Completed) <==> Completions(EMPTY, commands, p) == 1
    ensures StatusOf(Run(EMPTY, commands), p) == Some(Released)
       <==> Releases(EMPTY, commands, p) == 1 && Completions(EMPTY, commands, p) == 0
  {
    hide Inv;
    EmptyInv();
    RunStatus(EMPTY, commands, p);
  }

  /** Completed is never left, and released is left only for completed. */
  lemma CompletedStays(s: State, commands: seq<Command>, p: nat)
    requires Inv(s) && AllowedRun(s, commands)
    ensures StatusOf(s, p) == Some(Completed) ==> StatusOf(Run(s, commands), p) == Some(Completed)
    ensures StatusOf(s, p) == Some(Released) ==>
              StatusOf(Run(s, commands), p) == Some(if Completions(s, commands, p) == 0 then Released else Completed)
  {
    hide Inv;
    RunStatus(s, commands, p);
  }
}
