# PATS backend: a verified model

PATS plans production projects, puts packs ("batches") of parts on a factory floor, moves them
along a route by scans, gates every hop on a quality verdict, and closes them into Finish Goods.
This project models the backend's hardest logic in Dafny and proves what no single handler
states. `dafny verify dfyconfig.toml` checks all of it.

| part | files | what is proved |
|---|---|---|
| Production run | `Routes`, `Tables`, `Minting`, `PlanCommands`, `FloorCommands`, `Runs`, `FloorInvariant`, `FloorSteps`, `PlanInvariant`, `PlanSteps`, `Production`, `ReadGate`, `Finishing`, `Guarantees`, `CommandFacts`, `CommandEffects`, `CommandGuards`, `CatalogRows`, `ReleasePacks`, `PackCodes`, `ProjectStatus`, `Handlers`, `Witnesses` | an inductive invariant over every run of fifteen commands, and from it Finish-Goods safety, positions as the fold of the event log, agreement of read and write gates, which packs can still be finished, frozen and timed releases, consistent lots, quantity-conserving and exactly numbered minting, scrap evidence, a project's status as the history of its commands; and for every command exactly when it commits and exactly what it writes |
| Idempotency | `CommandIdempotency`, `CatalogIdempotency` | at-most-once execution when many requests interleave round trip by round trip and crash between any two |
| Query strings | `DataModel`, `SelectParser`, `FilterSyntax`, `FilterCompiler`, `FilterGroups` | the select parser inverts printing and is sound on every input; compiled filters mean what the filters say, over nested records |
| PDF strings | `PdfStrings` | which literal strings are read as the standard means them, exactly |
| Console | `ConsoleCollapse` | when collapsed output still tells everything that was logged, exactly |
| Parent chains | `ParentChains`, `WorkProcesses` | what the bounded cycle guards catch and what they let through, exactly; deletes and runs keep a forest |
| Dashboard | `Dashboard` | conservation of quantities |
| Assets | `Assets`, `AssetEffects`, `AssetInterleavings` | links between models and images under any interleaving; retirement and byte clean-up when handlers are not interrupted, and exactly which interrupted writes break them |

## How the source is modelled

- **Database.** Tables are maps and sequences; a command is one atomic transaction that commits
  its whole effect or leaves every table as it was (`Runs.Step`). The next state of each command
  is a function (`PlanCommands`, `FloorCommands`); the handlers themselves are the methods of
  `Handlers.Database`, which check, loop and assign step by step, and each is proved to commit
  exactly that state or to refuse with exactly that problem. A unique violation is a conflict; a
  foreign-key failure reads as the problem `Unhandled`.
- **Identities and time.** Ids are table indexes or a counter, which stands for fresh uuids and
  for creation and decision times that increase strictly: "the newest" is the last row.
- **Planning rows** hang under their project as one value. The catalog a command reads is an
  argument of the command, so it may differ from one command to the next. The collation that
  orders part codes is a parameter.
- **Parameters for code outside.** Number, date and JSON parsing, the database's text comparison
  and ordering (`FilterCompiler.World`), and the uploads made straight to object storage.

## Hypotheses

- *Allowed runs* (`Runs.Allowed`): a draft that has packs gets no new route version, and no stage
  row is named `STG-PROJECTS`. The comment at app/pats/command-router.ts:1035-1039 takes drafts to
  have no packs; `POST /batches` does not check it. Packs made by hand on drafts are allowed here.
  `Guarantees.MismatchExactly` shows that the route version is exactly what must be excluded, and
  `Witnesses.DraftPackBreaksSafety` gives a run.
- *Well-formed routes* need no hypothesis: distinct ids and orders per part are kept by every
  planning command (`PlanInvariant`, `PlanSteps`).
- *Field names* of the data model are identifiers (`SelectParser.WellNamed`).
- *Asset ids* contain neither `/` nor `.`, are fresh, and do not spell an image key that some
  model had before any asset was made.
- *Dashboard*: stage ids are distinct and quantities are not negative.

## Where the code and its description differ

- CLOSED is not final: it is left exactly by a verdict other than a pass on an unsettled
  inspection (`Guarantees.ReopensExactly`; a run in `Witnesses.ClosedIsReopened`).
- A pack made by hand at a place its part's route does not name can never be closed;
  `Finishing.CanFinishExactly` gives the exact condition.
- Read gate and scan disagree on two kinds of hand-made packs, and on no others: planned ones that
  could be scanned, and unscanned ones read as standing at the end of their route
  (`ReadGate.ReadGateExactly`; runs in `Witnesses`).
- The catalog protocol is not at-most-once: `CatalogIdempotency.RepeatsExactly` says after which
  histories a scope can be executed a second time.
- The parent guards look at fifty ancestors; `ParentChains.LongChainSlipsThrough` gives a chain
  on which both accept a cycle.
- Piped console output is not lossless: a lone line followed by a line that looks like its
  summary cannot be told from a run (`ConsoleCollapse.ClashCollides`), and repeats of a line
  whose key is empty leave no trace (`ConsoleCollapse.EmptyKeyRepeatsVanish`). There is no other
  loss (`ConsoleCollapse.LosslessExactly`).
- In PDF strings the digits of an octal escape are skipped only at the very start of the string
  (`PdfStrings.OctalMisread`), and a backslash before a line end is read as that line end.
- The asset handlers read outside their transaction. Interleaved, two finalizations can make a
  retired asset available again while its bytes wait to be deleted
  (`AssetInterleavings.InterleavingRevives`); `OverridesExactly`, `EndangersExactly` and
  `UnretiresExactly` there say which late writes do harm.

## Model

| member | source | states |
|---|---|---|
| Guarantees.FinishGoodsSafety | app/pats/command-router.ts:1592-1646 | in every reachable state a CLOSED pack has one accepted scan per step of its route, in strictly increasing step order, and a PASSED decision on one of its inspections at every step's place |
| Guarantees.NoStepSkipped | app/pats/command-router.ts:1204-1333 | in every reachable state a pack's accepted scans are a prefix of its route, and every step it has left was passed |
| Guarantees.PositionIsFold | app/pats/command-router.ts:1302-1309 | once a pack has an accepted scan, its batch row, its projection's place and step, and the projection's last event all come from the last accepted event |
| Guarantees.MismatchExactly | app/pats/command-router.ts:1028-1043 | a command makes a closed pack's scans stop matching its route exactly when it commits a new route version of the pack's project |
| Witnesses.DraftPackBreaksSafety | app/pats/command-router.ts:1028-1043 | an allowed run that closes a pack on a draft, and a new route version after which its scan is no step of its route |
| Guarantees.ScanOutOnce | app/pats/command-router.ts:1244-1270 | a release-minted pack has its scan-out issuance exactly once, with its first accepted scan; no pack has it twice |
| Guarantees.OneViolationPerBlockedScan | app/pats/command-router.ts:1303-1333 | blocked events and violations correspond one to one, for the same pack |
| Guarantees.ReopensExactly | app/pats/command-router.ts:1499-1529 | a closed pack leaves CLOSED exactly by a verdict other than PASSED on an open or in-progress inspection of it, at its version, and is then HELD |
| Guarantees.StaysClosedExactly | app/pats/command-router.ts:1499-1529 | over runs: a pack is closed in every state exactly when no command of the run is such a verdict |
| Witnesses.ClosedIsReopened | app/pats/command-router.ts:1524-1529 | an allowed run that closes a pack, and a failing verdict that holds it again |
| Guarantees.ScrapEvidence | app/pats/command-router.ts:1544-1586 | in every reachable state a SCRAPPED pack's newest defect analysis is a SCRAP |
| Guarantees.CompletionAgrees | app/pats/domain-read.ts:589-608 | in every reachable state the completion command commits exactly when the read side's flag is set, in summary mode and in full mode alike, which is exactly: released, at least one pack, every pack CLOSED or SCRAPPED |
| Guarantees.ReleasedIsFrozen | app/pats/command-router.ts:464-469 | after release no run of commands changes a project's requirements, parts, cycle times, route versions, lot or specification |
| Guarantees.ReleasedIsTimed | app/pats/command-router.ts:658-681 | in every reachable state each route step a released or completed project's lot cites belongs to one of its parts, which has a requirement of the project and resolves a time in 1..86400 |
| Guarantees.LotIsConsistent | app/pats/command-router.ts:527-635 | in every reachable state the lot's quantity is the sum of the requirements, it cites the highest version under its own number, and its pack size and name are the specification's and the project's |
| Guarantees.ReleaseMintsRequired | app/pats/command-router.ts:682-732 | with no packs of a part before, a release leaves exactly ceil(R / s) packs summing to its required quantity R |
| Guarantees.ReleaseMintsExactly | app/pats/command-router.ts:682-732 | with any packs before, exactly R is planned after a release if and only if no more than R was planned and the series numbers left suffice for the rest |
| ReleasePacks.ReleasedPacks | app/pats/command-router.ts:682-733 | in a release each part, after k packs it had, gets packs of the tray size s numbered k + 1, k + 2, ... of ceil(R / s), full until what was left of R is planned or the numbers run out; each names its part and requirement, and stands active on the pre-floor |
| ReleasePacks.FirstReleaseNumbers | app/pats/command-router.ts:694-714 | with no packs of a part before, its packs in order are numbers 1 to ceil(R / s) of ceil(R / s), all full but possibly the last, which holds the rest of R |
| ReleasePacks.ReleaseWrites | app/pats/command-router.ts:700-748 | what a release leaves: the project RELEASED at its next version, its planned packs active, the new packs placed on the pre-floor and coded after the lot, numbered on from the packs there were; nothing else |
| ReleasePacks.MintedInOrder | app/pats/command-router.ts:687-690 | under any collation no pack is minted after a pack of a part whose code comes later, and every new pack is a part's of the project |
| PackCodes.CodesUnique | app/pats/command-router.ts:682-733 | in every reachable state all pack codes are distinct, minted or made by hand |
| Text.PaddedReads | app/pats/command-router.ts:703 | the sequence number in a code reads as itself, with at least three digits and no zeros beyond that |
| ProjectStatus.CompletionWrites | app/pats/command-router.ts:749-799 | a completion makes a released project COMPLETED at its next version and changes nothing else |
| ProjectStatus.CompletedRefuses | app/pats/command-router.ts:749-799 | after it the project is not completed, released or deleted again, whatever version is named |
| ProjectStatus.StatusStep | app/pats/command-router.ts:521-1159 | release leads from DRAFT to RELEASED, completion from RELEASED to COMPLETED, deletion removes a DRAFT, creation makes one, and no other command changes a project's status |
| ProjectStatus.RunStatus | app/pats/command-router.ts:637-799 | over any allowed run, committed releases and completions of a project account exactly for its status before and after |
| ProjectStatus.StatusIsHistory | app/pats/command-router.ts:637-799 | from the start, a project is COMPLETED exactly when a completion of it committed, RELEASED exactly when a release of it did and no completion; each commits at most once |
| ProjectStatus.CompletedStays | app/pats/command-router.ts:637-799 | COMPLETED is never left, and RELEASED only for COMPLETED |
| Production.StepKeeps | app/pats/command-router.ts:521-1646 | every allowed command keeps the invariant of all packs and all plans |
| Production.RunKeeps | app/pats/command-router.ts:521-1646 | so does every allowed run, from any state that satisfies it |
| FloorSteps.ScanKeeps | app/pats/command-router.ts:1204-1333 | a recorded scan keeps every pack's invariant, whether it advances or blocks |
| FloorSteps.DecideKeeps | app/pats/command-router.ts:1499-1537 | a verdict keeps every pack's invariant |
| FloorSteps.AnalyseKeeps | app/pats/command-router.ts:1544-1586 | a defect analysis keeps every pack's invariant; a pack is scrapped only with its evidence |
| FloorSteps.ClosureSeen | app/pats/command-router.ts:1592-1646 | a closure that commits has seen an active pack with its whole route taken and the last step passed |
| FloorSteps.AcceptedScan | app/pats/command-router.ts:1244-1301 | a scan that commits found a live pack with a step left; it advances exactly when it names that step's place and, after the first hop, the step being left was passed |
| PlanSteps.RequantifiedSum | app/pats/command-router.ts:906-930 | replacing quantities over the same models sums to the new total, in whatever order either side lists them |
| PlanInvariant.ShortcutExact | app/pats/command-router.ts:896-912 | the same-model-set shortcut is taken exactly when the two sets of models are equal |
| PlanSteps.ReplaceKeepsPlans | app/pats/command-router.ts:868-985 | replacing model requirements keeps every plan's invariant, on the shortcut and on the rebuild |
| PlanSteps.RouteVersionKeepsPlans | app/pats/command-router.ts:987-1052 | a new route version keeps it, and its lot cites the new version |
| PlanSteps.ReleaseKeepsPlans | app/pats/command-router.ts:637-748 | a release keeps it, now with parts, ownership and cycle times established |
| PlanInvariant.CreateKeepsPlans | app/pats/command-router.ts:527-635 | project creation keeps it: routes from the catalog snapshot are well formed |
| PlanInvariant.PatchKeepsPlans | app/pats/command-router.ts:800-866 | a field edit keeps it |
| PlanSteps.RemoveKeepsPlans | app/pats/command-router.ts:1085-1112 | removing a part keeps it, in every route version |
| PlanSteps.OverrideKeepsPlans | app/pats/command-router.ts:1054-1083 | overriding a part's cycle times keeps it |
| Routes.NextAfterPrefix | app/pats/batch-resolve.ts:105-122 | on a well-formed route the next step after the first k is step k, and there is none exactly at the end |
| Routes.NextAgreesWithClosure | app/pats/command-router.ts:1606-1617 | for any rows and any current step the scanner has no next step exactly when the closure's route test passes |
| Routes.FilterThenOrder | app/pats/command-router.ts:510-511 | ordering all steps and then keeping a part's, as the scan does, gives the route the closure reads by filtering first |
| Routes.RouteWellFormed | app/pats/command-router.ts:1013-1022 | a version with distinct ids and orders gives every part a strictly ordered route without repeated ids |
| Minting.TraysConserve | app/pats/command-router.ts:694-703 | whatever was planned before, minted plus leftover is what was left to plan, every tray is full but possibly the last |
| Minting.TraysTotal | app/pats/command-router.ts:694-703 | what is minted is the smaller of what is left and what the remaining series numbers hold |
| Minting.FirstReleaseMintsAll | app/pats/command-router.ts:694-703 | with nothing planned before, ceil(R / s) trays are minted, summing to R, all of size s but possibly the last |
| Minting.MintConserves | app/pats/command-router.ts:682-733 | among all parts of one release, each gets exactly the trays its own remaining quantity asks for |
| Minting.MintedCodesDistinct | app/pats/command-router.ts:702-703 | the generated codes of one release are pairwise distinct across all parts |
| Minting.CodesInjective | app/pats/command-router.ts:703 | codes of different sequence numbers differ, however many digits they have |
| ReadGate.BuildGateIndex | app/pats/domain-read.ts:1765-1783 | the loop's index holds exactly the newest inspection's newest verdict for every inspected pack and place |
| ReadGate.AdvancesExactly | app/pats/command-router.ts:1244-1301 | a scan would be accepted exactly at the next step of an active or planned pack that is on the pre-floor or whose hop is passed |
| CommandEffects.ScanWrites | app/pats/command-router.ts:1244-1333 | a recorded scan appends its event; accepted, it moves the pack and its projection to the step, and when it leaves the pre-floor issues the scanned quantity, or the planned one if none was given, to that step's place; blocked, it appends a violation with the place scanned and the whole route; nothing else |
| CommandGuards.ScanCommitsExactly | app/pats/command-router.ts:1204-1301 | in reachable states a scan is recorded exactly for a live pack with a step left and a matching part; at the step's own place also only from the pre-floor, or where the newest verdict on the pack's place is a pass and its scans or its route name that place |
| CommandGuards.ClosureCommitsExactly | app/pats/command-router.ts:1592-1646 | in reachable states a pack closes exactly when it is active, its whole route is scanned and the newest verdict of the newest inspection where it stands is a pass |
| CommandGuards.QualityCommitsExactly | app/pats/command-router.ts:1470-1586 | exactly when an inspection, a verdict and a disposition commit: a disposition needs a newest verdict that is not a pass, no earlier analysis of the inspection, and a pack neither closed nor scrapped |
| CommandGuards.FloorRefusals | app/pats/command-router.ts:1204-1646 | when a floor command refuses, an unknown row is not found, another version is stale, and everything else conflicts |
| CommandFacts.HopOpensExactly | app/pats/command-router.ts:1280-1301 | after its first hop a pack's next hop is open exactly when the newest verdict of its newest inspection at the place it stands at is a pass |
| CommandFacts.ContextExactly | app/pats/command-router.ts:506-519 | a scan finds a next step exactly when the pack's route is not finished, and it is the one after its accepted scans |
| CommandFacts.InspectionCloses | app/pats/command-router.ts:1470-1497 | a new inspection closes the gate of its own pack and place, and no other |
| CommandFacts.VerdictCounts | app/pats/command-router.ts:1499-1542 | a verdict becomes its inspection's newest and decides the gate exactly where that inspection is the newest |
| CommandFacts.DispositionCounts | app/pats/command-router.ts:1544-1586 | a disposition becomes its pack's newest; the pack ends exactly on SCRAP, is active exactly on WAIVE, held exactly on REWORK, and the inspection cannot be analysed again |
| CommandEffects.VerdictWrites | app/pats/command-router.ts:1499-1537 | a verdict appends its row, settles its inspection unless it is a HOLD, and unless it is a pass holds the pack; nothing else |
| CommandEffects.DispositionWrites | app/pats/command-router.ts:1544-1586 | a disposition appends its row and makes the pack SCRAPPED on SCRAP, ACTIVE on WAIVE, HELD on REWORK; nothing else |
| CommandEffects.HandMadeWrites | app/pats/command-router.ts:1161-1202 | a pack made by hand is planned, without a series, at the place given, under its part's requirement; nothing else |
| CommandGuards.HandMadeCommitsExactly | app/pats/command-router.ts:1161-1202 | it is made exactly when its project has the part and no pack has the code |
| CommandFacts.OverrideResolves | app/pats/command-router.ts:435-450 | after an override a step's time is the override's where it names the step with 1..86400 seconds and the catalog's elsewhere; no other part changes |
| CommandFacts.RemovalClears | app/pats/command-router.ts:1101-1103 | removing a part clears its route from every version and leaves every other part's route |
| CommandFacts.VersionCited | app/pats/command-router.ts:1025-1043 | a new version is numbered one above the highest, is the one cited, and holds exactly the steps given |
| CommandFacts.CreatedFromStructure | app/pats/command-router.ts:560-606 | a new project has one part for every part its models' structures name, in order, and plans the total asked for |
| CatalogRows.CreationWrites | app/pats/command-router.ts:545-635 | a new project is a draft at version 1 with trays of 200 and the lot code `<code>-L1` unless asked otherwise, and its rows are the catalog's for the models asked for; nothing else is written |
| CatalogRows.RebuiltFromCatalog | app/pats/command-router.ts:936-976 | the rows built from the catalog: requirements exactly as given, one part per structure part in order, each under its own model's requirement, one version whose rows of a part are exactly its usable stored entries with their order or position, a lot citing it with the total as target |
| CatalogRows.ClashesExactly | app/pats/command-router.ts:951-976 | those rows violate a unique constraint exactly when two parts of the models' structures share a code or two usable entries of a part's routing an order |
| CatalogRows.ReplacementWrites | app/pats/command-router.ts:896-985 | a committed replacement: with the same set of models every prior row keeps its id and model and takes the quantity given for it, parts and versions stand; otherwise the project had no packs and its rows are the catalog's for the models given; the target is the sum given |
| CommandGuards.ReplacementCommitsExactly | app/pats/command-router.ts:868-985 | in reachable states a replacement on a draft at its version commits exactly when its models are distinct, known and of the project's product, and either the set of models is unchanged or the project has no packs and the models' structures repeat no part code and no order of a part |
| CommandGuards.CreationCommitsExactly | app/pats/command-router.ts:527-606 | a creation commits exactly when its product and models are known, its models distinct and of the product, and their structures repeat no part code and no order of a part |
| CommandGuards.ReleaseCommitsExactly | app/pats/command-router.ts:643-703 | a release commits exactly for a draft at its version with requirements and parts, a time of 1..86400 seconds for every step of its cited version under the key `stage::sub-stage`, and no code to be minted taken |
| CommandGuards.EditsCommitExactly | app/pats/command-router.ts:800-1159 | exactly when a field edit, a route version, a part removal and a deletion commit on a draft at its version |
| CommandGuards.EditsRefuse | app/pats/command-router.ts:637-1159 | every edit refuses in the same order: no such project, another version, not a draft |
| CommandGuards.PlanRefusals | app/pats/command-router.ts:637-1159 | why each edit of a draft at its version refuses: what it names is not found, or its rows conflict; a replacement of a project with packs fails on their foreign keys |
| CommandGuards.OtherRefusals | app/pats/command-router.ts:527-1202 | why a creation, an override, a hand-made pack and a completion refuse |
| CommandEffects.PatchWrites | app/pats/command-router.ts:800-866 | a field edit replaces what it names in the project and in its lot, at the next version, and nothing else |
| ReadGate.ReadGateExactly | app/pats/domain-read.ts:1792-1813 | for every reachable pack with a route: the gate reads RELEASE or PASSED exactly when the scan at the next step would be accepted, if and only if the pack is neither planned with an open hop nor unscanned, active and at a place its route first names in its last step with the hop passed; and COMPLETE is right if and only if the pack is not read at the end in that way |
| ReadGate.ReadGateAgrees | app/pats/domain-read.ts:1792-1813 | so for every reachable release-minted pack the two gates agree outright |
| Witnesses.PlannedReadsBlocked | app/pats/domain-read.ts:1792-1793 | a reachable planned pack on the pre-floor reads BLOCKED while its scan would be accepted |
| Witnesses.WaitingReadsComplete | app/pats/domain-read.ts:1797-1808 | a reachable pack waiting, passed, at the one step of its route reads COMPLETE while its first scan would be accepted |
| Finishing.CanFinishExactly | app/pats/command-router.ts:1204-1646 | from any reachable state a pack of any status can be closed by some allowed run exactly when its route is not empty and it is on the pre-floor, on its route or at a place the route names; then three commands per remaining step plus six suffice |
| Finishing.Revive | app/pats/command-router.ts:1524-1578 | three quality commands make any pack active again |
| Finishing.StuckForever | app/pats/command-router.ts:1272-1301 | a pack at a place its route does not name is never moved by any allowed run |
| Handlers.Database.BatchRouteContext | app/pats/command-router.ts:506-519 | on a pack that satisfies the invariant there is a context exactly when the route is not finished, and its next step is the one after the pack's accepted scans |
| Handlers.Database.HopGate | app/pats/command-router.ts:1280-1301 | after a first hop the answer is whether the newest verdict of the newest inspection where the pack stands is a pass, with both looked up by loops from the newest row back |
| Handlers.Database.InspectionAt | app/pats/command-router.ts:1286-1296 | the row-by-row lookup finds the newest inspection of a pack at a place |
| Handlers.Database.VerdictOf | app/pats/command-router.ts:1293-1295 | the row-by-row lookup finds the newest verdict of an inspection |
| Handlers.Database.StageEventRecord | app/pats/command-router.ts:1204-1333 | commits exactly the specified scan outcome, which in a reachable database is the event, move, issuance or violation of `CommandEffects.ScanLeaves`, or refuses and writes nothing |
| Handlers.Database.BatchCreate | app/pats/command-router.ts:1161-1202 | a new pack is planned and unscanned, batch codes stay distinct, and the system invariant holds on |
| Handlers.Database.InspectionCreate | app/pats/command-router.ts:1470-1497 | a new inspection closes exactly its own pack and place's gate; the invariant holds on |
| Handlers.Database.QualityDecisionCreate | app/pats/command-router.ts:1499-1542 | the verdict is its inspection's newest, decides the gate exactly where that inspection is the newest, and moves no pack; the invariant holds on |
| Handlers.Database.DefectAnalysisCreate | app/pats/command-router.ts:1544-1590 | the disposition is the pack's newest and settles its status, a second analysis of the inspection is refused; the invariant holds on |
| Handlers.Database.BatchClosure | app/pats/command-router.ts:1592-1646 | closes exactly the packs the specified tests admit |
| Handlers.Database.ProjectCreate | app/pats/command-router.ts:527-635 | the loops over requirements, structures, parts and stored steps commit one part per structure part, in order, and the total asked for; with floor stages only the invariant holds on |
| Handlers.Database.SnapshotLoop | app/pats/command-router.ts:580-606 | the nested loops over models and their parts compute the snapshot of parts and route rows |
| Handlers.Database.StepLoop | app/pats/command-router.ts:471-483 | the loop keeps the usable stored steps with their order, or their position where none is stored |
| Handlers.Database.ProjectPatch | app/pats/command-router.ts:800-866 | commits exactly the edited plan and lot, or refuses and writes nothing |
| Handlers.Database.ModelRequirementsReplace | app/pats/command-router.ts:868-985 | commits exactly the requantified or rebuilt plan, which is that of `CatalogRows.ReplacementLeaves`, or refuses and writes nothing |
| Handlers.Database.PartsListVersionCreate | app/pats/command-router.ts:987-1052 | the loop with sets of identities and orders refuses repeats; a committed version is one above the highest, cited, well formed, and holds exactly the steps given |
| Handlers.Database.Repeats | app/pats/command-router.ts:1013-1022 | the loop over sets of what has been seen finds a repeated place or order of a part exactly when there is one |
| Handlers.Database.PartCycleTimesOverride | app/pats/command-router.ts:1054-1083 | the override decides the times of the steps it names properly, the catalog's stand elsewhere, no other part changes; the invariant holds on |
| Handlers.Database.ProjectPartRemove | app/pats/command-router.ts:1085-1112 | the part's route is gone from every version and every other part's is kept; the invariant holds on |
| Handlers.Database.ProjectDraftDelete | app/pats/command-router.ts:1114-1159 | a deleted draft has no packs and every other project is kept; the invariant holds on |
| Handlers.Database.MintPartLoop | app/pats/command-router.ts:690-733 | the minting loop of one part computes its packs, numbered on from those there were, of the count that holds its requirement |
| Handlers.Database.MintLoop | app/pats/command-router.ts:688-733 | the loop over all parts computes the specified packs, part after part and coded on from the packs there were |
| Handlers.Database.ProjectRelease | app/pats/command-router.ts:643-748 | commits exactly the released state, with every part's packs numbered, sized and placed as `ReleasePacks` states, or refuses and writes nothing |
| Handlers.Database.ProjectComplete | app/pats/command-router.ts:749-799 | makes the released project COMPLETED at its next version and changes nothing else, or refuses and writes nothing |
| CommandIdempotency.AtMostOnce | app/pats/command-support.ts:103-163 | however requests interleave, retry and crash, no two committed transactions share a subject, operation and key |
| CommandIdempotency.ReplayIsTheCommit | app/pats/command-support.ts:120-133 | a replayed answer is the response of the scope's one commit, made for the same payload |
| CommandIdempotency.RetryAnswer | app/pats/command-support.ts:120-133 | after a commit every later lookup answers: a replay for the same payload with a body, a conflict otherwise |
| CommandIdempotency.LookupAnswer | app/pats/command-support.ts:117-127 | a lookup replays the stored response for the same payload once it has a body, and is a conflict for any other payload and while the record is pending |
| CommandIdempotency.MalformedExactly | app/pats/command-support.ts:110-112 | in any run a request is refused as malformed exactly when its key is blank or longer than 255 characters |
| CommandIdempotency.OnlyTheClaimedPayload | app/pats/command-support.ts:121-123 | while a record exists no other payload commits under its scope |
| CommandIdempotency.OnlyOwnClaimsReleased | app/pats/command-support.ts:159-162 | a claim disappears only by the release of the request that inserted it |
| CommandIdempotency.AloneIsScript | app/pats/command-support.ts:103-163 | a request run undisturbed is exactly the protocol's steps in order |
| CommandIdempotency.Server.ExecuteCommand | app/pats/command-support.ts:103-163 | the whole procedure, run alone, computes that state and answer |
| CatalogIdempotency.ExecutionsAccounted | app/canonical/idempotency.ts:51-78 | under any interleaving and crashes the executions of a scope are its present row's and those forgotten with a released row |
| CatalogIdempotency.AtMostOnceWithoutPersistFailure | app/canonical/idempotency.ts:65-77 | at most one execution per scope in every history in which no persist fails |
| CatalogIdempotency.RepeatsExactly | app/canonical/idempotency.ts:51-78 | after any history a scope can be executed twice without a further persist failure if and only if it has been, or it has been executed once and it is free, or a live call can execute under its claim or is releasing it |
| CatalogIdempotency.ForgottenExecutesAgain | app/canonical/idempotency.ts:65-77 | with an execution forgotten and the scope free, any request for it executes again |
| CatalogIdempotency.PersistFailureForgets | app/canonical/idempotency.ts:65-77 | such a history exists for every scope, payload and response |
| CatalogIdempotency.OnlyOwnRowsReleased | app/canonical/prisma-idempotency-store.ts:91-93 | a row disappears only by the release of the request that reserved it |
| CatalogIdempotency.ReplayIsAnExecution | app/canonical/idempotency.ts:60-63 | a replayed answer is the response of an execution of the same scope and payload |
| CatalogIdempotency.CollisionAnswer | app/canonical/idempotency.ts:58-63 | a colliding call replays the stored response for the same payload once it has a body, and is a conflict for any other payload, while the row is pending and when it has gone |
| CatalogIdempotency.MalformedCallsExactly | app/canonical/idempotency.ts:47-56 | in any history a call is refused as malformed exactly when its key is blank or longer than 255 characters |
| CatalogIdempotency.PrismaCatalogIdempotencyStore.Reserve | app/canonical/prisma-idempotency-store.ts:25-77 | inserts a claim for a free scope, else reports the conflict, the pending claim or the stored record |
| CatalogIdempotency.PrismaCatalogIdempotencyStore.Persist | app/canonical/prisma-idempotency-store.ts:79-89 | completes exactly the row with the reservation's id, or fails |
| CatalogIdempotency.PrismaCatalogIdempotencyStore.Release | app/canonical/prisma-idempotency-store.ts:91-93 | deletes exactly that row, or fails |
| CatalogIdempotency.PrismaCatalogIdempotencyStore.ExecuteIdempotently | app/canonical/idempotency.ts:51-78 | run alone, a fresh scope executes once and is recorded; every other call executes nothing and changes nothing |
| SelectParser.TokenizeFields | helper/query-builder.ts:183-212 | the tokenizing loop splits at the commas outside parentheses |
| SelectParser.ParseFieldsWithParentheses | helper/query-builder.ts:123-178 | the parsing loop computes the specified select, and its recursion ends on every input |
| SelectParser.ParseFields | helper/query-builder.ts:123-178 | on every input each selected name is a field of its own level's model, names are distinct and no nested select is empty |
| SelectParser.RoundTrip | helper/query-builder.ts:123-212 | parsing the printed form of any well-formed select tree returns the tree |
| SelectParser.GetNestedFields | helper/query-builder.ts:214-264 | the entry point computes the specified selection, in either notation |
| SelectParser.SelectionRoundTrip | helper/query-builder.ts:214-264 | the entry point inverts printing for every nonempty tree, with or without parentheses |
| SelectParser.LegacyHeadsAreFields | helper/query-builder.ts:229-260 | in dotted notation every top-level key is a field of the model |
| FilterSyntax.ReadsBack | helper/query-builder.ts:334-382 | every filter without operator symbols in its field or value reads back from its written form, in which each operator is spelled out, ranges included |
| FilterSyntax.OperatorReadsBack | helper/query-builder.ts:349-373 | the operator found in a written comparison is the one written |
| FilterSyntax.SymbolsRead | helper/query-builder.ts:334-382 | for any field and value without symbols, `>=`, `<=`, `>`, `<`, `!`, `^`, `$`, `~` and `:` between them read as at least, at most, above, below, differs, starts with, ends with, contains and equals |
| FilterSyntax.OperatorExactly | helper/query-builder.ts:349-373 | the operator of any expression: `>=` before `<=` before `>`, `<`, `!`, `^`, `$`, `~`, and equality when none occurs |
| FilterSyntax.ReadsExactly | helper/query-builder.ts:349-382 | any expression that is no range is cut at the first occurrence of that symbol and both sides are trimmed |
| FilterSyntax.RangesExactly | helper/query-builder.ts:336-347 | an expression is a range exactly when it is a field without symbols, a colon and two numerals joined by a dash |
| FilterCompiler.CompilesExactly | helper/query-builder.ts:392-500 | a filter builds exactly when its path ends at a scalar or enum field that can read its text |
| FilterCompiler.ConditionMeaning | helper/query-builder.ts:392-500 | the built condition holds of a record exactly when some value at the end of the path meets the filter: to-many hops existential, ranges inclusive on one value, unsupported operators as equality |
| FilterCompiler.TextFilters | helper/query-builder.ts:430-446 | what each operator asks of a text: prefix, suffix and occurrence up to case, equality and inequality as written, the others equality |
| FilterCompiler.OrderedFilters | helper/query-builder.ts:448-466 | what each operator asks of a number or an instant, read as its type: above, at least, below, at most, a range with both ends, inequality, the others equality |
| FilterCompiler.OtherFilters | helper/query-builder.ts:284-320 | flags, documents and other types offer equality and inequality only, and how their text is read |
| FilterCompiler.NullFilters | helper/query-builder.ts:375-405 | the words null and undefined in any case ask for a null, and no other filter selects one |
| FilterGroups.BuildFilterConditions | helper/query-builder.ts:526-652 | the loops parse, group and build the specified conditions; an unknown model is an error |
| FilterGroups.JoinedExactly | helper/query-builder.ts:598-615 | grouping gives every field exactly its own filters, in order |
| FilterGroups.ConditionsMeaning | helper/query-builder.ts:617-651 | the conditions select a record exactly when, for every field whose filters all build, one of them holds; other fields are dropped |
| FilterGroups.WrittenReadsBack | helper/query-builder.ts:594-615 | a written list of filters is split and parsed back into the same filters |
| FilterGroups.WrittenFiltersSelect | helper/query-builder.ts:526-652 | end to end, operators spelled out: the conditions built from a written filter list that starts with no bracket or brace select a record exactly when, for every field whose filters all build, one of them holds |
| FilterGroups.JsonIsUnwrapped | helper/query-builder.ts:536-592 | a parameter starting with a bracket or brace, after any white space, is read through the JSON rewriting |
| PdfStrings.ReadLiteralString | app/intake/pdf-analyzer.ts:192-231 | the byte loop computes the specified reading and ends at a closing parenthesis |
| PdfStrings.ReadsWritten | app/intake/pdf-analyzer.ts:192-231 | any string written as section 7.3.4.2 of ISO 32000-1 allows is read to its own closing parenthesis, piece by piece as stated, or not at all beyond the size cap |
| PdfStrings.ReadsAsMeant | app/intake/pdf-analyzer.ts:192-255 | within the cap the text read is the text meant if and only if there is no line continuation, no line end but a line feed, and no octal escape but one-digit ones and a two-digit one at the start |
| PdfStrings.RoundTrip | app/intake/pdf-analyzer.ts:192-255 | every byte string written with backslash escapes reads back, with the index of its closing parenthesis |
| PdfStrings.OctalMisread | app/intake/pdf-analyzer.ts:203-207 | a concrete string whose octal escape is read with its digits repeated as text |
| PdfStrings.OctalIs | app/intake/pdf-analyzer.ts:245-252 | three octal digits count sixty-fours, eights and ones, and as a byte lose what exceeds 255 |
| PdfStrings.ExtractLiteralStrings | app/intake/pdf-analyzer.ts:178-190 | the scanning loop computes the specified list of strings |
| PdfStrings.ExtractsEveryString | app/intake/pdf-analyzer.ts:178-190 | from strings and gaps laid end to end every alphanumeric-bearing string is extracted, in order, and nothing else |
| PdfStrings.UnmatchedLoseNothing | app/intake/pdf-analyzer.ts:178-190 | any number of opening parentheses that are never closed lose none of the strings after them |
| PdfStrings.ReadableNext | app/intake/pdf-analyzer.ts:189 | of the strings found exactly those bearing a letter A-Z, a-z or a digit are kept, in order |
| ConsoleCollapse.CollapseConsoleWriter.WriteLine | helper/console-collapse.ts:94-113 | writes exactly the specified chunks and leaves the specified pending row |
| ConsoleCollapse.CollapseConsoleWriter.Seal | helper/console-collapse.ts:81-92 | writes exactly the pending row's end, unless its key is empty |
| ConsoleCollapse.KeysExactly | helper/console-collapse.ts:22-30 | the key is what follows a clock of one or two hour digits, two minute and two second digits and a blank, exactly when the line starts with one, and else the line |
| ConsoleCollapse.CountersAre | helper/console-collapse.ts:37-40 | a counter is shown dimmed over the row on a terminal and plainly after the line when piped |
| ConsoleCollapse.WritesRuns | helper/console-collapse.ts:73-117 | for every sequence of lines the output is one row per run: on a terminal the counters 2 up to the run's length, elsewhere a summary with that length; texts of several lines verbatim; repeats of the empty key shown on a terminal only |
| ConsoleCollapse.RunsAreProper | helper/console-collapse.ts:73-117 | the runs hold exactly the logged keys and texts in order, and neighbouring rows have different keys |
| ConsoleCollapse.LosslessExactly | helper/console-collapse.ts:73-117 | for every sequence of lines, piped output decodes to exactly what was logged if and only if no lone line is followed by one that looks like its summary and no line with the empty key is written while the empty key is still pending |
| ConsoleCollapse.DecodeOnly | helper/console-collapse.ts:73-117 | once the reading has fallen behind what was logged it never catches up |
| ConsoleCollapse.ClashCollides | helper/console-collapse.ts:81-92 | for every line and count such a pair gives the very chunks of a run, though different lines were logged |
| ConsoleCollapse.EmptyKeyRepeatsVanish | helper/console-collapse.ts:81-82 | a repeated line with the empty key changes nothing in piped output, texts of several lines in between or not |
| ParentChains.WalkUp | app/pats/command-router.ts:2076-2086 | the guard's loop computes the specified walk |
| ParentChains.WalkFindsExactly | app/pats/command-router.ts:2076-2086 | in a forest the walk finds exactly the ancestors within its number of hops |
| ParentChains.HasCircularReference | app/employee/employee.repository.ts:228-262 | the loop computes the specified walk; a new employee is never circular |
| ParentChains.ReportsToExactly | app/employee/employee.repository.ts:245-261 | the walk finds exactly the managers within its depth, cycles or not |
| ParentChains.BoundedGuardExactly | app/employee/employee.repository.ts:228-262 | a link that a guard of some depth lets through keeps the graph acyclic exactly when the row is not an ancestor beyond that depth |
| ParentChains.LongChainSlipsThrough | app/pats/command-router.ts:2076-2086 | on a chain of fifty-two rows both guards accept a link that closes a cycle |
| WorkProcesses.CircularOnlyIfCycle | app/pats/command-router.ts:2074-2086 | in any table a patch refused as circular would have closed a cycle |
| WorkProcesses.AcceptedPatchExactly | app/pats/command-router.ts:2063-2099 | an accepted patch keeps a forest exactly when the row is not an ancestor of its new parent beyond fifty links |
| WorkProcesses.PatchExactly | app/pats/command-router.ts:2063-2099 | what a patch of a forest answers: circular exactly when the row is among the new parent's fifty nearest ancestors, after the checks before it; and the row an accepted one writes |
| WorkProcesses.ShallowPatchExactly | app/pats/command-router.ts:2063-2099 | under a parent with at most fifty ancestors a patch is refused as circular exactly when it would close a cycle |
| WorkProcesses.RunsKeepForest | app/pats/command-router.ts:2025-2153 | any run of creates, patches and deletes that attaches only under such parents keeps a forest |
| WorkProcesses.DeleteKeepsForest | app/pats/command-router.ts:2101-2153 | a delete keeps a forest, however much of the subtree it collected |
| WorkProcesses.DeleteClearsSubtree | app/pats/command-router.ts:2118-2144 | when the whole subtree is collected every row below loses its section, children lose their parent, and no other row changes |
| WorkProcesses.ProcessTable.Collect | app/pats/command-router.ts:2118-2132 | the queue holds distinct rows of the subtree with all direct children, and the whole subtree or more than a hundred rows of it |
| WorkProcesses.SmallSubtreeWhole | app/pats/command-router.ts:2118-2144 | a subtree of at most a hundred rows is cleared whole |
| WorkProcesses.ProcessTable.Create | app/pats/command-router.ts:2025-2061 | creates exactly the row, or refuses a missing parent |
| WorkProcesses.ProcessTable.Patch | app/pats/command-router.ts:2063-2099 | answers and changes exactly as specified |
| WorkProcesses.ProcessTable.Delete | app/pats/command-router.ts:2101-2153 | refuses missing rows and rows with lines; else removes the row, detaches its children, and clears the sections of the whole subtree or of more than a hundred rows of it |
| Dashboard.DashboardProgress | app/pats/domain-read.ts:124-299 | the loops compute the specified tally and rows |
| Dashboard.CountedAs | app/pats/domain-read.ts:173-230 | a pack counts exactly where it stands at a listed stage with a finite quantity, its own or, where unset, the planned one |
| Dashboard.CountAllAccounts | app/pats/domain-read.ts:173-230 | every project's tally, slot by slot, is what its own counted packs add up to, and projects with such packs are listed once |
| Dashboard.EachLotOnce | app/pats/domain-read.ts:223-226 | every lot is represented exactly once in the planned quantity |
| Dashboard.SlotsPartition | app/pats/domain-read.ts:206-222 | every counted pack is in exactly one slot: any measure summed over the slots is its total |
| Dashboard.SegmentsExactly | app/pats/domain-read.ts:253-281 | a segment is shown exactly for each stage and kind with a positive quantity standing there, and for what remains |
| Dashboard.DashboardConserves | app/pats/domain-read.ts:233-293 | every reported row's segments are positive and sum to the larger of the planned and the active quantity, both said from its packs alone |
| Dashboard.ReportedExactly | app/pats/domain-read.ts:233-293 | a project is reported exactly when it has counted packs and something planned or active |
| Assets.StepKeepsLinks | app/pats/assets.ts:399-772 | under any interleaving of handlers' reads and writes the image of a model with an available asset is that asset's key |
| Assets.InterleavingsKeepLinks | app/pats/assets.ts:399-772 | so in every such run |
| Assets.OneAvailable | app/pats/assets.ts:581-596 | a model has at most one available asset |
| Assets.KeyTellsAsset | app/pats/assets.ts:164-169 | equal object keys belong to the same asset |
| Assets.HandleFollows | app/pats/assets.ts:186-190 | uninterrupted handlers move a status only forward: retired is final, quarantined leads only to retired |
| Assets.RetiredForGood | app/pats/assets.ts:186-190 | in every run of uninterrupted handlers a retired asset stays retired and a quarantined one never becomes available |
| Assets.RunKeeps | app/pats/assets.ts:480-772 | in every such run bytes waiting for clean-up belong to no asset but retired ones, and a model's image that is an asset's key is its own available asset's |
| Assets.CleanupSparesAvailable | app/pats/assets.ts:607-613 | no clean-up ever deletes the bytes of an available asset |
| AssetEffects.CreationEffect | app/pats/assets.ts:298-350 | a new asset waits for its upload at version 1 under `pats/models/<model>/<asset>.<extension>`, the extension being the declared type's, or its model is missing and nothing is written |
| AssetEffects.FinalizeEffect | app/pats/assets.ts:480-631 | a finalization refuses for stated reasons in order, quarantines bytes that are not as declared up to the case of their checksum, or makes the asset available and its model's image, retires exactly the model's other available assets, and adds exactly their keys and the image before to the bytes to delete |
| AssetEffects.DeletionEffect | app/pats/assets.ts:720-772 | a deletion retires the asset at its version and takes it off its model exactly when it is the model's image |
| AssetEffects.UploadEffect | app/pats/assets.ts:399-445 | an upload request marks an asset still waiting, and otherwise refuses and writes nothing |
| AssetEffects.CleanupEffect | app/pats/assets.ts:607-613 | a clean-up deletes the bytes of a waiting key, or leaves them when they cannot be reached; the key waits no longer and nothing else changes |
| AssetInterleavings.OverridesExactly | app/pats/assets.ts:399-772 | under any interleaving a step breaks the status law for an asset exactly when it completes, on that asset, a mark for upload after it stopped accepting uploads, a quarantine after it became available or retired, or a link, its model present, after it was quarantined or retired |
| AssetInterleavings.EndangersExactly | app/pats/assets.ts:546-613 | under any interleaving a step puts an available asset's bytes among those waiting for deletion exactly when it completes a link whose own key is waiting already |
| AssetInterleavings.UnretiresExactly | app/pats/assets.ts:546-613 | and it leaves waiting bytes with an asset that is not retired exactly when it completes a write on an asset whose key is waiting, or a link over an image whose asset is neither available nor retired |
| AssetInterleavings.RunKeepsKnown | app/pats/assets.ts:399-772 | every interleaving keeps what these two need: images are outside ones or keys of the model's own assets |
| AssetInterleavings.InterleavingRevives | app/pats/assets.ts:480-631 | for any model, two assets and content, reached from a store without assets: an interleaving in which a retired asset becomes available with its bytes waiting for deletion |
| Assets.AssetStore.CreateAsset | app/pats/assets.ts:298-368 | a new asset waits for its upload under a key no other asset has, exactly when its model exists; the store's law holds on |
| Assets.AssetStore.RequestUploadUrl | app/pats/assets.ts:399-445 | answers and writes exactly as specified, and the store's law holds on |
| Assets.AssetStore.FinalizeAsset | app/pats/assets.ts:480-605 | links and supersedes, quarantines, or refuses, exactly as specified, and the store's law holds on |
| Assets.AssetStore.CleanUp | app/pats/assets.ts:607-613 | deletes exactly the reachable superseded bytes |
| Assets.AssetStore.DeleteAsset | app/pats/assets.ts:720-772 | retires and unlinks, or refuses, exactly as specified, and the store's law holds on |

## Left out

- Who may do what: capabilities, sessions and identities; any subject may issue any command.
- Express plumbing, request schemas, response bodies, headers, logging and metrics.
- Audit and outbox rows, planned dates, production lines, units of measure; a pack's quantity is a whole number.
- Print jobs and inventory transactions as commands of their own; printing moves no pack.
- Resolving a routing violation, which marks a violation row and touches nothing else modelled.
- Uniqueness of project and lot codes across projects; batch codes stay unique.
- The in-memory idempotency stores, which record nothing when a request is reserved.
- Operators expiring a stuck claim by hand; hashing of request bodies, which are compared directly.
- CommandIdempotency.Server.ExecuteCommand: one request run alone; interleaving is the subject of the small-step lemmas.
- ReadGate.BuildGateIndex: keys the index by a pair instead of the text joined with `::`.
- FilterGroups.BuildFilterConditions: filters in JSON are a parameter that rewrites them to the plain notation.
- FilterCompiler.ConditionMeaning: a test the database refuses for a list column, null or a range, is taken to select nothing.
- FilterCompiler.CompilesExactly: a text spelling null is met before it is parsed, so parsing never returns null.
- SelectParser.LegacyHeadsAreFields: below the first segment of a dotted path the source checks nothing, so nothing is claimed.
- PdfStrings.ExtractsEveryString: finding streams, inflating them and telling text from images is not part of this model.
- The process-wide console writer that patches standard output, and duration buckets.
- WorkProcesses.ProcessTable.Delete: which rows beyond a hundred keep their section depends on the order in which the rows are listed; booths and monitoring rows are not detached.
- WorkProcesses.ProcessTable.Create: sub-stages, display order and enabling are not modelled.
- WorkProcesses.ProcessTable.Patch: sub-stages, display order and enabling are not modelled.
- Dashboard.DashboardProgress: names and the final sort of the rows are left out, and so is the station mode, whose probe yields no rows.
- Assets.AssetStore.RequestUploadUrl: the refusal while the object store is unreachable is not modelled.
- Assets.AssetStore.FinalizeAsset: an unreachable object store, the read URL and the approval of object keys are not modelled.
- Assets.InterleavingsKeepLinks: the writes of one transaction stay together; the clean-up of each key is a step of its own.
- Catalog editing, sections, lines, machines, monitoring sheets, exports, pagination, sorting: single-branch checks that would add only easy members.
