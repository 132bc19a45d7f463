# Rollout, retention and document gates, modelled and proved in Dafny

The repository's maintenance scripts decide whether a gateway release may go on,
which backups survive, whether a document still meets its debt ceiling, and which
parts of a slide deck are slides. This project models those decisions and proves
what they guarantee over whole runs and over all inputs.

`dafny verify dfyconfig.toml` checks everything.

## The modules

| module | models | what it is for |
|---|---|---|
| `Text` | string handling shared by the scripts | lower-casing, stripping and the commit normalisation |
| `Evidence` | the evidence readers of the rollout ledger | one predicate per check, true when the check does not raise |
| `Ledger` | the rollout ledger | entries, and the specification of its gates |
| `AuditSpec` | the audit's failure list | an empty list means the declarative audit conditions |
| `MaintenanceSpec` | the maintenance baseline | its audit, and chains of maintenance releases |
| `EvidenceFlaws`, `ReleaseDemands` | what can be wrong with each piece of evidence | stage report, append and re-check name exactly what is wrong, over the fields of the files |
| `ValidateDemands` | the demands of `validate` | its exit codes over lines, evidence failures and times |
| `NegativeEvents`, `BaselineDemands` | failed and rolled-back lines, and baselines | no audit and no baseline gets past a later negative line; what a baseline needs |
| `Workspace` | the ledger commands | a class over the ledger file and the evidence files, its methods proved against the specification |
| `StageOrder` | the two stage sequences | which stages an audit requires and watches |
| `LedgerRuns`, `AuditBounds` | histories of `validate` and `append` calls | safety over every run |
| `ThreeGates`, `GateExamples` | stage report, append, re-check | exactly when the three agree, and two releases on which they do not |
| `BaselineFitness` | recorded releases as maintenance baselines | exactly which ones can serve |
| `RolloutExamples`, `MaintenanceExamples`, `GateRunExamples` | rollouts and maintenance chains that exist | the hypotheses of the run theorems can be met; an override that overlooks a broken success |
| `ReleaseGateWriter`, `GateContract` | the release gate and its reader | the contract between two scripts |
| `GateRunDemands` | what a gate run establishes | it passes exactly when nothing was wrong with the answers it got, and its report repeats them |
| `GateInLedger` | the gate's report inside a release | from gate run to clean ledger line |
| `BackupRetention` | backup pruning | pruning commutes with arrivals |
| `Fences`, `ImplementationLines` | the Markdown line scanners | fences are invisible; one pass equals block by block |
| `QuotedScalars`, `FlowBrackets`, `ScalarGrammar` | the front matter scanners | two quote scanners agree and invert the printer; brackets and quoted scalars decide grammars |
| `Ratchet` | debt baselines | no chain of accepted baselines ever rises |
| `FinalAcceptance` | the paid acceptance matrix | crashes and resumes never pay twice for a passed cell |
| `SlideAnchors` | slide extraction | the scan finds exactly the outermost slides |
| `BraceExpansion` | brace expansion | textual rewriting computes the pattern's language |

## Main results

* **The gates of the rollout ledger agree over runs.** A run whose successes were
  each validated in order, on a forward clock and once per stage, has no audit
  failure for the commit it was run with (`DisciplinedRunPassesAudit`). The audit
  command strips its commit while the other commands do not, so it passes such a run
  if and only if the commit has no blank at either end (`DisciplinedAuditExactly`,
  `TrailingBlankFailsAudit`). A passing audit bounds elapsed time
  (`AuditPassBoundsElapsedTime`). No override gets past the rollback rehearsal
  (`OverrideNeverBypassesRehearsal`). Recording a stage again after a passing
  audit of any target leaves it passing exactly when the audit does not look at that
  stage, or nothing it requires has to follow that stage and the evidence is clean
  (`AgainBreaksAuditExactly`).
  Disciplined runs to full http exist for every commit and waiting time
  (`DisciplinedRunExists`).
* **What the operations demand.** Each evidence check fails exactly on a file with one
  of its flaws (`HoldsExactly`). `stage-report` names a check exactly when its stage
  demands it and its file is flawed (`ReportNamesExactly`), `append` refuses exactly a
  flawed success and records every other status (`AppendTakesExactly`,
  `OtherStatusIsRecorded`), and the re-check names exactly what is wrong with a stored
  line (`RecheckNamesExactly`). `validate` exits 0 exactly as `OrderedExactly` and
  `OverrideExactly` say. A failed or rolled-back line later than the target fails every
  audit and ends every baseline (`NegativeBreaksAudit`, `NegativeEndsBaseline`), and
  `maintenance-baseline` passes exactly the releases with nothing wrong
  (`BaselineExactly`).
* **Three implementations of one demand.** Given a passing stage report, `append`
  accepts exactly when the normalised commit is not empty, and the stored line
  re-checks clean exactly when the main fields are filled and the commits survive
  a second normalisation. Both conditions are sharp: `sha-` and `sha-sha-x` are
  commits on which the gates disagree. Complete lower-case shas always meet them.
* **Writer and reader.** A gate run passes exactly when nothing was wrong with its
  arguments and with any answer it got (`PassesExactly`). For every passing release-gate report,
  `ReaderAcceptsExactly` says for which commit and allowances the ledger takes it,
  and `GateRunReachesLedger` carries a gate run through stage report and append to a
  line that re-checks clean.
* **Maintenance baselines.** A recorded full-http release can serve as a baseline
  exactly when its commit was given in its own complete spelling, its mode is http,
  and its gate holds safe samples of a settled commit (`ServesAsBaselineExactly`). A
  release recorded as `sha-` and 40 digits re-checks clean and never serves
  (`PrefixedReleaseNeverServes`).
* **An override looks at the latest success only.** An older success of an earlier
  stage may have lost its evidence (`OverrideOverlooksOlder`); with one success per
  stage an override vouches for all of them (`OverrideVouchesForAll`).
* **Retention** answers every policy that keeps no more than those used for pruning as
  if nothing had ever been pruned (`NeverMissesAnything`); a limit that grows again
  asks for what is gone (`GrownLimitMisses`).
* **Slide extraction** is right on a well-nested page if and only if no outermost
  slide is written as a self-closing tag (`FindsTheRightElements`); on such a tag
  the scan raises or swallows what follows.
* **Front matter**: a quoted value is accepted exactly when the YAML grammar derives it,
  and its meaning is what is read (`AcceptsExactly`).
* **Debt ratchet**: on baselines as the script writes them a chain never rises
  (`ChainNeverRises`). On arbitrary ones the comparison protects exactly when no
  type disappears from the later baseline, no document's entry turns from counts into
  a single number or back, and no negative count is dropped (`ProtectedExactly`, with
  `MissingTypeBreaksTheChain`, `ChangedKindBreaksTheChain` and
  `DroppedNegativeBreaksTheChain`). A run that passes both of its comparisons is
  bounded by the target branch (`OwnBaselineGainsNothing`).
* **Final acceptance**: no cell is paid for again once it passed, over every
  sequence of failures, crashes and resumes. The other side of the same rule: an
  acceptance can still be finished exactly when nothing was started, a failed cell is
  on record, or it passed (`CanFinishExactly`). Which calls leave it so can be read
  off budget and outcomes before the call (`CallCanBeFinishedExactly`); a first run
  that dies before its end is on disk leaves a commit that can never be finished
  (`CrashMidCellIsFinal`).

## Conventions

Stages, statuses, periods and cells are datatypes instead of strings; any other
stage name is `OtherStage`. Times are whole seconds since the earliest date the
scripts can represent, and an unreadable time is `None`. A waiting time that is no
number is `None`. An evidence file the scripts can load is a record with a default
for every absent field; a missing or malformed file is absent from the map of
files. Exceptions and exit codes are results. A method that changes state is proved
against a function of the old state, and the theorems are about those functions.

## Model

| member | source | states |
|---|---|---|
| Text.NormalizeAfterLower | scripts/llmgw-rollout-ledger.py:87-91 | lower-casing a commit first does not change its normal form, so stored and given commits compare alike |
| Text.NormalizeTwice | scripts/llmgw-rollout-ledger.py:87-91 | a second normalisation is the identity exactly on settled values, and strictly shortens all others |
| Text.NormalizeExactly | scripts/llmgw-rollout-ledger.py:87-91 | strip, drop one `sha-` in any case, lower-case |
| Text.StripExactly | scripts/llmgw-rollout-ledger.py:88 | stripping cuts blanks off both ends and nothing else |
| Text.FullShaExactly | scripts/llmgw-rollout-ledger.py:473-474 | a complete commit has exactly forty lower-case hex digits |
| Text.FullShaIsSettled | scripts/llmgw-rollout-ledger.py:473-474 | complete 40-digit commits are unchanged by normalisation |
| Text.NormalizeNotIdempotent | scripts/llmgw-rollout-ledger.py:87-91 | `sha-sha-x` needs two normalisations |
| Ledger.LatestIndex | scripts/llmgw-rollout-ledger.py:790-808 | the latest success is the earliest line among those with the greatest time, unreadable times counting as oldest |
| Ledger.LatestSuccess | scripts/llmgw-rollout-ledger.py:800-808 | a success of the stage at least as late as every other, present exactly when one exists |
| Ledger.EvidenceFailures | scripts/llmgw-rollout-ledger.py:861-981 | the re-check of a stored entry is empty exactly when every one of its conditions holds |
| Ledger.FailingChecks | scripts/llmgw-rollout-ledger.py:1371-1443 | the stage report lists no failing check exactly when all required checks hold |
| EvidenceFlaws.ProbeExactly | scripts/llmgw-rollout-ledger.py:155-204 | the serving probe fails exactly on a wrong commit, a foreign sample or a flawed route self test |
| EvidenceFlaws.SmokeExactly | scripts/llmgw-rollout-ledger.py:207-314 | smoke fails exactly on wrong commits, a required row that no passing row starts with, or a skipped route |
| EvidenceFlaws.ProtocolExactly | scripts/llmgw-rollout-ledger.py:227-255 | the protocol canary fails exactly when not executed, run on another commit, or missing a protocol |
| EvidenceFlaws.PreflightExactly | scripts/llmgw-rollout-ledger.py:498-591 | the preflight fails exactly on a wrong commit or mode, or a last route check that is absent or flawed |
| EvidenceFlaws.HealthExactly | scripts/llmgw-rollout-ledger.py:518-545 | the health preflight fails exactly on a wrong commit or an open boundary |
| EvidenceFlaws.ApplyExactly | scripts/llmgw-rollout-ledger.py:675-712 | config authority fails exactly when not executed, not ready, or with a counter that is not zero |
| EvidenceFlaws.BackupExactly | scripts/llmgw-rollout-ledger.py:715-728 | the backup fails exactly when a dry run, empty, unsummed or nowhere |
| EvidenceFlaws.RouterExactly | scripts/llmgw-rollout-ledger.py:731-752 | the static audit fails exactly on another scope, a completeness claim or nothing left to do |
| EvidenceFlaws.GateExactly | scripts/llmgw-rollout-ledger.py:317-464 | the gate's reader fails exactly on another commit, missing or foreign samples, or an unexcused console part |
| ReleaseDemands.HoldsExactly | scripts/llmgw-rollout-ledger.py:1402-1443 | every check fails exactly when the file its arguments name has a flaw |
| ReleaseDemands.ReportNamesExactly | scripts/llmgw-rollout-ledger.py:1371-1443 | the stage report names a check exactly when the stage and its switches demand it and its file is flawed |
| ReleaseDemands.AppendTakesExactly | scripts/llmgw-rollout-ledger.py:1155-1196 | a success is taken exactly when its claim, its report and every demanded file are without flaw |
| ReleaseDemands.OtherStatusIsRecorded | scripts/llmgw-rollout-ledger.py:1156-1258 | every other status adds one line with its stage, status, commit and time, refused only for an invalid baseline claim |
| ReleaseDemands.LineKeeps | scripts/llmgw-rollout-ledger.py:1206-1258 | what an accepted call writes: its arguments, with commits, sha, reason and baseline in stored form |
| ReleaseDemands.ReportSays | scripts/llmgw-rollout-ledger.py:1445-1494 | what a stage report says: its verdict is its result, and its fields are the arguments in stored form |
| ReleaseDemands.ClaimExactly | scripts/llmgw-rollout-ledger.py:467-495 | when the claim of a maintenance baseline is valid, and what it is worth |
| ReleaseDemands.RecheckNamesExactly | scripts/llmgw-rollout-ledger.py:861-981 | the re-check names exactly what is wrong with a stored line |
| ValidateDemands.OrderedExactly | scripts/llmgw-rollout-ledger.py:1077-1145 | an ordered validation exits 0 exactly when rehearsal and all earlier stages succeeded cleanly and the awaited one is old enough |
| ValidateDemands.OverrideExactly | scripts/llmgw-rollout-ledger.py:1036-1071 | an override exits 0 exactly with a reason, a rehearsal, and clean latest evidence of whatever succeeded |
| ValidateDemands.NothingBefore | scripts/llmgw-rollout-ledger.py:1027-1080 | what the first stage, the rehearsal and the in-process rollback need |
| ValidateDemands.UsageExactly | scripts/llmgw-rollout-ledger.py:1024-1145 | exit code 2 is exactly for calls that cannot be judged |
| NegativeEvents.NegativeBreaksAudit | scripts/llmgw-rollout-ledger.py:1592-1602 | a failed or rolled-back line later than the target's success fails its audit, for every target |
| NegativeEvents.RecordedRollbackFailsAudit | scripts/llmgw-rollout-ledger.py:1148-1260 | a recorded failure or rollback is accepted whatever evidence is left, and the audit command fails from then on |
| NegativeEvents.BaselineIsCurrent | scripts/llmgw-rollout-ledger.py:1701-1709 | a release that passes as a baseline has no later negative line |
| NegativeEvents.NegativeEndsBaseline | scripts/llmgw-rollout-ledger.py:1701-1709 | a later negative line ends a baseline, whatever its files say |
| NegativeEvents.RecordedRollbackEndsBaseline | scripts/llmgw-rollout-ledger.py:1642-1709 | recording a rollback ends the baseline |
| NegativeEvents.ChainIsCurrent | scripts/llmgw-rollout-ledger.py:1701-1709 | along a chain no baseline had been rolled back when it was audited |
| BaselineDemands.BaselineExactly | scripts/llmgw-rollout-ledger.py:1648-1709 | the baseline audit passes exactly the releases with nothing wrong, over ledger lines and file fields |
| BaselineDemands.ReportSays | scripts/llmgw-rollout-ledger.py:1711-1722 | the audit's report carries its result, the release and its shadow commit |
| AuditSpec.TimesExactly | scripts/llmgw-rollout-ledger.py:1579-1618 | what the audit's comparisons of readable and unreadable times find wrong |
| AuditSpec.AuditExitExactly | scripts/llmgw-rollout-ledger.py:1505-1639 | the audit command's exit codes, and when it lists failures |
| AuditSpec.AuditFailuresMean | scripts/llmgw-rollout-ledger.py:1505-1618 | the audit's failure list is empty exactly when evidence, rehearsal order, staleness and windows are all in order |
| AuditSpec.EvidenceProblemsMean | scripts/llmgw-rollout-ledger.py:1522-1572 | no evidence finding exactly when every required stage has a clean latest success |
| AuditSpec.WindowProblemsMean | scripts/llmgw-rollout-ledger.py:1604-1618 | no window finding exactly when every pair of neighbouring watched stages kept the waiting time |
| Workspace.RolloutWorkspace.Validate | scripts/llmgw-rollout-ledger.py:1024-1145 | the command computes the specified exit code, branch by branch |
| Workspace.RolloutWorkspace.WindowElapsed | scripts/llmgw-rollout-ledger.py:1117-1142 | the observation gate opens exactly when a readable success exists and every one of them is at least the waiting time old |
| Workspace.RolloutWorkspace.Append | scripts/llmgw-rollout-ledger.py:1148-1260 | an accepted call adds one line with a readable time, a rejected one changes nothing |
| Workspace.RolloutWorkspace.StageReport | scripts/llmgw-rollout-ledger.py:1360-1502 | the report is written whatever the verdict, and only a refused baseline writes nothing |
| Workspace.RolloutWorkspace.Audit | scripts/llmgw-rollout-ledger.py:1505-1639 | the command reports the specified failures and exits accordingly |
| Workspace.RolloutWorkspace.MaintenanceBaseline | scripts/llmgw-rollout-ledger.py:1642-1729 | exit code and report of the baseline audit |
| Workspace.RolloutWorkspace.GateIsFit | scripts/llmgw-rollout-ledger.py:1674-1699 | the gate half of the baseline audit: right commit, non-empty safe samples, accepted by the reader |
| StageOrder.RequiredExactly | scripts/llmgw-rollout-ledger.py:846-854 | the stages an audit requires, for every target and with or without it |
| StageOrder.RequiredFor | scripts/llmgw-rollout-ledger.py:846-858 | an audit requires the target, all earlier stages and the rehearsal, and watches them without config authority |
| StageOrder.PreviousWatched | scripts/llmgw-rollout-ledger.py:1604-1605 | the stage `validate` waits for is the audit's left neighbour |
| StageOrder.HttpFullWindows | scripts/llmgw-rollout-ledger.py:1604-1605 | a full audit checks eight windows between nine stages |
| LedgerRuns.LedgerGrows | scripts/llmgw-rollout-ledger.py:1256-1258 | along a run the ledger only grows |
| LedgerRuns.Origin | scripts/llmgw-rollout-ledger.py:1206-1258 | every line stems from one accepted append, with its stage, status, commit and time |
| LedgerRuns.LinesInTimeOrder | scripts/llmgw-rollout-ledger.py:1206-1258 | a run's lines have readable times, in order on a forward clock |
| LedgerRuns.PassNeedsRehearsal | scripts/llmgw-rollout-ledger.py:1043-1050 | any zero exit code past the first stage needs an earlier rehearsal success |
| LedgerRuns.OverridePassIsClean | scripts/llmgw-rollout-ledger.py:1036-1071 | a passing override found the latest success of every earlier stage clean and carries a reason |
| LedgerRuns.OverrideVouchesForAll | scripts/llmgw-rollout-ledger.py:835-843 | with one success per stage, a passing override found every existing earlier success clean |
| RolloutExamples.OverrideOverlooksOlder | scripts/llmgw-rollout-ledger.py:835-843 | without that, an override passes over an older success whose evidence is gone |
| LedgerRuns.OrderedPassDemands | scripts/llmgw-rollout-ledger.py:1077-1142 | a passing ordered validation saw all earlier stages succeed and the window elapse |
| LedgerRuns.OverrideNeverBypassesRehearsal | scripts/llmgw-rollout-ledger.py:1043-1071 | in every gated run, overrides included, no later stage succeeds before a rehearsal of the same commit |
| LedgerRuns.DisciplinedLine | scripts/llmgw-rollout-ledger.py:1024-1145 | each recorded success comes after every earlier stage and the full waiting time after the watched one |
| LedgerRuns.DisciplinedRunPassesAudit | scripts/llmgw-rollout-ledger.py:1516-1618 | a disciplined run has no audit failure, for the commit as given and every target that succeeded |
| LedgerRuns.DisciplinedAuditExactly | scripts/llmgw-rollout-ledger.py:1505-1639 | the audit command, which strips its commit, passes such a run if and only if stripping changes nothing |
| RolloutExamples.TrailingBlankFailsAudit | scripts/llmgw-rollout-ledger.py:1506 | for the commit `x` with a trailing blank a disciplined run fails its audit command |
| RolloutExamples.DisciplinedRunExists | scripts/llmgw-rollout-ledger.py:1024-1260 | for every complete commit and waiting time a disciplined run reaches full http and passes its audit |
| AuditBounds.AuditPassBoundsElapsedTime | scripts/llmgw-rollout-ledger.py:1574-1618 | a passing full audit means eight waiting times elapsed, the rehearsal came first, and no later failure or rollback exists |
| AuditBounds.RunAuditBound | scripts/llmgw-rollout-ledger.py:1206-1258 | elapsed time, rehearsal order and freshness hold on every ledger that appends can build |
| StageOrder.WatchedShape | scripts/llmgw-rollout-ledger.py:1604-1605 | an audit watches distinct required stages, all but the rehearsal and config authority, ending with the one nothing waits for |
| AuditBounds.AgainBreaksAuditExactly | scripts/llmgw-rollout-ledger.py:1522-1618 | for every target, a later success of any stage keeps a passing audit passing if and only if the stage is not required, or nothing required follows it and its evidence is clean |
| AuditBounds.AgainAfterFullHttp | scripts/llmgw-rollout-ledger.py:1522-1618 | at full http only config authority and full http itself may be recorded again, with clean evidence |
| AuditBounds.LatestAfterAgain | scripts/llmgw-rollout-ledger.py:800-808 | a later success becomes the latest of its stage and leaves every other stage alone |
| AuditBounds.RerunBreaksAudit | scripts/llmgw-rollout-ledger.py:800-808 | with a positive waiting time, repeating the first stage breaks the audit even in the second of the last line |
| ThreeGates.AppendTakesPassingReport | scripts/llmgw-rollout-ledger.py:1155-1196 | a passing stage report is accepted as evidence exactly when the normalised commit is not empty |
| ThreeGates.StoredLineRechecksClean | scripts/llmgw-rollout-ledger.py:861-981 | the stored line re-checks clean exactly when its main fields are filled and its commits are settled |
| ThreeGates.FullShasAreSettled | scripts/llmgw-rollout-ledger.py:473-474 | complete shas satisfy both commit conditions |
| GateExamples.BarePrefixRefused | scripts/llmgw-rollout-ledger.py:102-109 | a rehearsal report for the commit `sha-` passes and is refused by append |
| GateExamples.DoublePrefixFailsRecheck | scripts/llmgw-rollout-ledger.py:861-959 | a release of `sha-sha-x` is reported, recorded, and then fails its re-check |
| MaintenanceSpec.OriginSettled | scripts/llmgw-rollout-ledger.py:1670-1697 | a passing baseline's shadow commit is non-empty and unchanged by normalisation |
| MaintenanceSpec.LinkKeepsOrigin | scripts/llmgw-rollout-ledger.py:467-495 | a maintenance release hands on the shadow commit of the baseline it names |
| MaintenanceSpec.ChainKeepsOrigin | scripts/llmgw-rollout-ledger.py:1642-1722 | along any chain the shadow commit stays that of the first release, on non-empty samples without critical or http failures |
| MaintenanceSpec.FirstReleaseIsOrigin | scripts/llmgw-rollout-ledger.py:1653-1672 | a first release that named no other shadow commit is its own origin |
| BaselineFitness.GateFitExactly | scripts/llmgw-rollout-ledger.py:1674-1697 | a gate read for a commit is fit for an origin exactly when the origin is its settled form and all samples are safe |
| BaselineFitness.OwnLineFound | scripts/llmgw-rollout-ledger.py:1643-1649 | the baseline audit finds a release's own line exactly when its commit was given in normalised spelling, up to case |
| BaselineFitness.ServesAsBaselineExactly | scripts/llmgw-rollout-ledger.py:1642-1709 | which reported and recorded full-http releases pass the baseline audit |
| GateRunExamples.SpellingDecidesBaseline | scripts/llmgw-rollout-ledger.py:1210 | for every spelling of a complete commit a release is recorded clean, and serves only without prefix and blanks |
| GateRunExamples.PrefixedReleaseNeverServes | scripts/llmgw-rollout-ledger.py:1643-1649 | a release recorded as `sha-` and 40 digits re-checks clean and fails the baseline audit |
| MaintenanceExamples.EveryBaselineCarriesOn | scripts/llmgw-rollout-ledger.py:467-495 | on every audited baseline another complete commit can be released and audited |
| MaintenanceExamples.ChainExists | scripts/llmgw-rollout-ledger.py:1642-1722 | chains exist over any complete commits without an immediate repetition |
| ReleaseGateWriter.RuntimeResult | scripts/llmgw-release-gate.py:449-526 | the runtime section with its counts and failures, including the self-finalizing exception; none when a count cannot be coerced |
| ReleaseGateWriter.AskShadow | scripts/llmgw-release-gate.py:1044-1102 | one check per requested cell in order, no failure exactly when all are satisfied |
| ReleaseGateWriter.ConsoleGates | scripts/llmgw-release-gate.py:1005-1042 | the console sections of the report for every combination of switches, login and answers |
| ReleaseGateWriter.Run | scripts/llmgw-release-gate.py:850-1111 | the whole script leaves the specified report, or none when it dies |
| GateRunDemands.CellsAreRequests | scripts/llmgw-release-gate.py:1044-1098 | the cells asked for are the requests, in order |
| GateRunDemands.PassesExactly | scripts/llmgw-release-gate.py:900-1111 | a run passes exactly when nothing was wrong with its arguments and any answer: samples, coverage, critical and http failures, console counters, blocking gates |
| GateRunDemands.DiesExactly | scripts/llmgw-release-gate.py:974-1111 | when a run leaves no report, and when it exits 2 |
| GateRunDemands.ReportTells | scripts/llmgw-release-gate.py:903-1111 | the report repeats verdict, thresholds and what the run was told about every cell and both console parts |
| GateRunDemands.PassedSamplesAreClean | scripts/llmgw-release-gate.py:212-226 | every sample of a passing report is ok, with no critical and no http failure |
| GateContract.ReaderAcceptsExactly | scripts/llmgw-rollout-ledger.py:317-464 | the reader accepts a passing report exactly for its own settled commit and with an allowance for each part left out |
| GateContract.FullGateNeedsNoAllowance | scripts/llmgw-release-gate.py:900-1111 | a full gate is accepted at http-full without allowances |
| GateContract.BareGateNeedsEveryAllowance | scripts/llmgw-rollout-ledger.py:317-464 | a gate with both switches off and no cells is accepted exactly when all three allowances are on |
| GateContract.SelfFinalizingRuns | scripts/llmgw-release-gate.py:511-525 | a passing report that is not ready waits for nothing but its own ledger line |
| GateInLedger.ReleaseTakesGate | scripts/llmgw-rollout-ledger.py:1177-1186 | a release takes the gate run's report exactly when the run covered its commit, its cells and, at full http, its console parts |
| GateInLedger.RecheckTakesGate | scripts/llmgw-rollout-ledger.py:940-960 | the re-check takes it again exactly when the shadow commit is settled |
| GateInLedger.GateRunReachesLedger | scripts/llmgw-rollout-ledger.py:1402-1443 | a release with such a gate report is reported as passing, appended, and stored as a line that re-checks clean |
| GateRunExamples.GatedReleaseExists | scripts/llmgw-rollout-ledger.py:1402-1443 | for every spelling of a complete commit a full gate run and a release meet all of these conditions |
| GateInLedger.FullGateServes | scripts/llmgw-release-gate.py:900-1111 | a full gate of the same settled commit serves a release without a baseline |
| BackupRetention.KeepPass | scripts/llmgw-backup-retention.py:70-79 | one period's loop keeps what its specification keeps |
| BackupRetention.SelectKeep | scripts/llmgw-backup-retention.py:68-82 | the kept set of a listing under a policy |
| BackupRetention.BackupRoot.FirstIntact | scripts/llmgw-backup-retention.py:137-149 | the first spared backup whose checksums verify, none exactly when there is none |
| BackupRetention.BackupRoot.Prune | scripts/llmgw-backup-retention.py:125-161 | what a run refuses, reports and leaves |
| BackupRetention.KeepIsBounded | scripts/llmgw-backup-retention.py:68-82 | at most daily + weekly + monthly backups (at least room for one), the newest always among them |
| BackupRetention.KeepByCalendar | scripts/llmgw-backup-retention.py:68-82 | kept are the newest and the first listed of each of the newest days, weeks and months |
| BackupRetention.VouchedExactly | scripts/llmgw-backup-retention.py:101-108 | a prune is vouched for exactly when some spared backup has archives and none of them fails |
| BackupRetention.RefusedExactly | scripts/llmgw-backup-retention.py:128-131 | which arguments are refused |
| BackupRetention.UnvouchedKeepsAll | scripts/llmgw-backup-retention.py:148-149 | without a verified spared backup nothing is pruned |
| BackupRetention.KeepIsFirsts | scripts/llmgw-backup-retention.py:68-82 | kept are exactly the newest and the first listed of each of the first `limit` distinct buckets of a period |
| BackupRetention.PruneIsSafe | scripts/llmgw-backup-retention.py:133-161 | exactly the kept, the protected and the too young stay, one of them with verified checksums |
| BackupRetention.PruningCommutesWithArrivals | scripts/llmgw-backup-retention.py:68-82 | dropping what the policy in use does not keep never changes a later selection under any policy that keeps no more |
| BackupRetention.NeverMissesAnything | scripts/llmgw-backup-retention.py:133-161 | over any interleaving of arrivals and prunes with changing policies, the survivors answer every policy that keeps no more than each of them like a never-pruned history |
| BackupRetention.GrownLimitMisses | scripts/llmgw-backup-retention.py:68-82 | a history whose daily limit grows again has lost a backup that limit keeps |
| Fences.BodyLines | scripts/doc-readability-check.py:501-526 | the yielded lines with their numbers |
| Fences.FixLinks | scripts/doc-readability-check.py:579-635 | the rewritten lines and the number of links made |
| Fences.ClosesExactly | scripts/doc-readability-check.py:146-152 | inside a fence only a bare fence of the same mark and at least its length closes |
| Fences.OutsideExactly | scripts/doc-readability-check.py:510-526 | outside a fence, which lines open one, which are text, and how the list state moves |
| Fences.LinksAddUp | scripts/doc-readability-check.py:608-635 | the count of links is the sum over the body lines |
| Fences.FencedBlockIsInvisible | scripts/doc-readability-check.py:501-526 | a fenced block inserted outside a fence changes only line numbers and leaves the scanner state alone |
| Fences.UnclosedFenceHidesRest | scripts/doc-readability-check.py:509-516 | an unclosed fence hides everything behind it |
| Fences.FixerTouchesBodyOnly | scripts/doc-readability-check.py:586-606 | the fixer rewrites exactly the lines the checker reads |
| ImplementationLines.ScanBody | scripts/doc-readability-check.py:380-441 | the one-pass count is the sum of the costs of the fenced blocks, a last unclosed one included |
| ImplementationLines.CostExactly | scripts/doc-readability-check.py:370-377 | what a block costs, by language and content |
| ImplementationLines.ListExactly | scripts/doc-readability-check.py:394-398 | how the list state moves before a fence is looked for |
| ImplementationLines.TextHoldsNoBlock | scripts/doc-readability-check.py:399-437 | lines that open no fence hold no block |
| ImplementationLines.BlockFirst | scripts/doc-readability-check.py:399-414 | opener, content and closer are one block, and the text goes on behind it |
| ImplementationLines.UnclosedIsLast | scripts/doc-readability-check.py:438-441 | a fence that is never closed is one block to the end |
| ImplementationLines.CountShell | scripts/doc-readability-check.py:370-377 | a shell block costs its effective lines once it is a script |
| QuotedScalars.CheckQuoted | scripts/doc-readability-check.py:710-749 | which problem, if any, a quoted value has |
| QuotedScalars.ReadScalar | scripts/doc-readability-check.py:806-836 | the value read from a scalar |
| QuotedScalars.ScannersAgree | scripts/doc-readability-check.py:710-749 | on accepted values the value scanner stops at the closing quote the error scanner found |
| QuotedScalars.SingleQuotesRoundTrip | scripts/doc-readability-check.py:827-834 | every string survives single quoting |
| QuotedScalars.DoubleQuotesRoundTrip | scripts/doc-readability-check.py:822-826 | every string survives double quoting |
| ScalarGrammar.AcceptsExactly | scripts/doc-readability-check.py:710-749 | a quoted value is accepted exactly when the grammar derives it, and its meaning is what is read |
| ScalarGrammar.RefusesExactly | scripts/doc-readability-check.py:710-749 | which problem every other quoted value has |
| ScalarGrammar.ReadsAnything | scripts/doc-readability-check.py:815-834 | what the value scanner reads of any text behind a quote |
| ScalarGrammar.ReadsPlain | scripts/doc-readability-check.py:812-836 | what is read of an unquoted value, with and without a comment |
| ScalarGrammar.PlainVerdict | scripts/doc-readability-check.py:758-782 | the verdict on values that are neither quoted nor a collection |
| ScalarGrammar.QuotedVerdict | scripts/doc-readability-check.py:774-775 | a quoted value is fine exactly when the grammar derives it |
| FlowBrackets.CheckSyntax | scripts/doc-readability-check.py:752-782 | the syntax verdict for any value |
| FlowBrackets.BracketsDecideGrammar | scripts/doc-readability-check.py:761-773 | no problem exactly when the bracket characters are a word of S -> empty, [S]S, {S}S |
| Ratchet.BaselineRegressions | scripts/doc-readability-check.py:1109-1141 | every finding names something that rose and everything that rose is found, for entries of counts and of single numbers; none exactly when nothing was loosened |
| Ratchet.NoRegressionTransitive | scripts/doc-readability-check.py:1109-1141 | acceptance is transitive when the middle baseline lists every type of the first and keeps the kinds of its entries and its negative counts |
| Ratchet.ProtectedExactly | scripts/doc-readability-check.py:1109-1141 | an accepted baseline protects its predecessor against everything later if and only if it lost no type, changed no entry's kind and dropped no negative count |
| Ratchet.MissingTypeBreaksTheChain | scripts/doc-readability-check.py:1117-1120 | three baselines on which acceptance is not transitive |
| Ratchet.ChangedKindBreaksTheChain | scripts/doc-readability-check.py:1134-1140 | three baselines with equal type tables on which acceptance is not transitive |
| Ratchet.DroppedNegativeBreaksTheChain | scripts/doc-readability-check.py:1134-1137 | three baselines with equal tables and kinds on which acceptance is not transitive |
| Ratchet.OwnBaselineGainsNothing | scripts/doc-readability-check.py:1363-1475 | a tree that passes against its own baseline, itself accepted against the target branch, passes against the target branch |
| Ratchet.WrittenBaselineGainsNothing | scripts/doc-readability-check.py:1363-1475 | on baselines as the script writes them nothing else is needed for that |
| Ratchet.ChainNeverRises | scripts/doc-readability-check.py:1144-1167 | after any chain of written, accepted baselines every type and file field is at most the first one |
| Ratchet.WriteBaselineShape | scripts/doc-readability-check.py:1144-1167 | a scan writes all seven types and only natural counts |
| Ratchet.BeforeFirstDot | scripts/doc-readability-check.py:173-174 | a document's type is its name before the first dot |
| Ratchet.InDebtExactly | scripts/doc-readability-check.py:454-467 | a document is recorded when it is of one of the seven types and owes anything |
| Ratchet.CheckFiles | scripts/doc-readability-check.py:1422-1443 | the file loop names the new and the worse debtors, is silent exactly when no document owes more than recorded, and dies exactly on a debtor recorded by a single number |
| Ratchet.FilesPassImpliesTypesPass | scripts/doc-readability-check.py:444-494 | passing the per-file check keeps every per-type total from rising |
| Ratchet.PassingScanKeepsBaseline | scripts/doc-readability-check.py:1272-1277 | rewriting the baseline after a passing check loosens nothing |
| FinalAcceptance.AcceptanceRunner.Run | scripts/llmgw-final-acceptance.py:174-258 | one call of the script, up to its end or its death, as a function of disk and log |
| FinalAcceptance.AcceptanceRunner.RunFrom | scripts/llmgw-final-acceptance.py:221-258 | the cell loop with its manifest writes, step by step |
| FinalAcceptance.InvokeKeeps | scripts/llmgw-final-acceptance.py:205-258 | every call keeps manifest and payments consistent, wherever it dies |
| FinalAcceptance.NoCellPaidTwiceOncePassed | scripts/llmgw-final-acceptance.py:205-258 | cells run in order, never again once passed, at most once plus recorded resumes, and a passed run passed every cell |
| FinalAcceptance.CallStartsExactly | scripts/llmgw-final-acceptance.py:190-219 | which calls reach the cell loop, with which manifest and from which cell |
| FinalAcceptance.LoopLeaves | scripts/llmgw-final-acceptance.py:221-258 | manifest and payments behind the loop, for every outcome and every death point |
| FinalAcceptance.PassedWasGood | scripts/llmgw-final-acceptance.py:228-250 | a cell passes only in a call in which its command exits 0 and its log is found |
| FinalAcceptance.NoFailedCellIsFinal | scripts/llmgw-final-acceptance.py:205-214 | a manifest without a failed cell is never changed again |
| FinalAcceptance.CanFinishExactly | scripts/llmgw-final-acceptance.py:205-214 | some further calls finish the acceptance if and only if nothing was started, a failed cell is recorded, or it passed |
| FinalAcceptance.LoopUnblocked | scripts/llmgw-final-acceptance.py:221-258 | the cell loop leaves that possible exactly when it lives to record its end, or dies before a resumed cell passed |
| FinalAcceptance.CallCanBeFinishedExactly | scripts/llmgw-final-acceptance.py:188-258 | the same for every call after every history, by budget and outcomes |
| FinalAcceptance.CrashMidCellIsFinal | scripts/llmgw-final-acceptance.py:215-258 | every first run that dies before its end is on disk, in whichever cell, leaves its commit unfinishable |
| SlideAnchors.FindSlideBlocks | scripts/extract-ppt-anchors.py:76-99 | the scan with its two searches returns the specified spans or raises |
| SlideAnchors.SlideAmongWords | scripts/extract-ppt-anchors.py:72-73 | an element is a slide exactly when `slide` is one of its class words |
| SlideAnchors.Balance | scripts/extract-ppt-anchors.py:88-96 | depth counting finds where an element ends |
| SlideAnchors.ScanOrdered | scripts/extract-ppt-anchors.py:76-99 | on any markup the spans found are disjoint and in document order |
| SlideAnchors.NothingIsLost | scripts/extract-ppt-anchors.py:138-143 | prefix, blocks, gaps and suffix add up to the page |
| SlideAnchors.SpanOfCharacters | scripts/extract-ppt-anchors.py:142-143 | a span of tags is the corresponding span of characters |
| SlideAnchors.FindsTheRightElements | scripts/extract-ppt-anchors.py:76-99 | on well-nested pages the scan finds exactly the outermost slides if and only if none is self-closing |
| SlideAnchors.SelfClosingSlideRaises | scripts/extract-ppt-anchors.py:91-93 | a page with one self-closing slide makes the scan raise |
| BraceExpansion.ExpandBraces | scripts/audit-rule-scope-gaps.py:41-48 | the script computes the specified expansion and terminates on every string |
| BraceExpansion.SubstitutionShrinks | scripts/audit-rule-scope-gaps.py:45-47 | every substitution removes an opening brace |
| BraceExpansion.SearchIsLeftmost | scripts/audit-rule-scope-gaps.py:42 | the search finds exactly the leftmost opening brace, brace-free text and closing brace, and nothing only when there is none |
| BraceExpansion.OneStep | scripts/audit-rule-scope-gaps.py:42-47 | on a pattern's text one step replaces the leftmost innermost group by each of its options |
| BraceExpansion.DenotesByFills | scripts/audit-rule-scope-gaps.py:46-47 | a pattern denotes what its one-step replacements denote together |
| BraceExpansion.ExpandComputesLanguage | scripts/audit-rule-scope-gaps.py:41-48 | on the text of any well-formed pattern the results are exactly what it denotes |
| BraceExpansion.ExpandIsFinal | scripts/audit-rule-scope-gaps.py:43-44 | on any string no result has a brace pair left |

## Left out

- HTTP, Docker, git, process and file input and output, argument parsing, and the text of messages and Markdown reports. Network answers, checksum results and the outcome of paid commands are given values.
- Ill-typed JSON in evidence files (a list where an object is expected) and the alternative capitalised field names.
- Non-ASCII letters and blanks in lower-casing and stripping.
- Fractions of a second and of an hour, and date parsing.
- Several processes writing one ledger, manifest or backup root at the same time.
- The external blockers the ledger copies into its lines and reports; no gate reads them back.
- Fields of the ledger line that no gate reads: gate base, allowlist, sample percentage, Markdown path, shadow seed.
- AuditBounds.AuditPassBoundsElapsedTime: assumes readable times, because the audit skips a window whose time it cannot read; `append` always writes a readable one.
- Ledger.FailingChecks: leaves out the wording of a failure and keeps which check failed.
- Fences.FixLinks: the pattern-level rewriting of one line is a parameter; what is modelled is which lines it is applied to.
- ImplementationLines.ScanBody: leaves out the second result, the count of source references, whose patterns may match overlapping text.
- The regular expressions that classify a document line; their answers come with the line, for both list states.
- Header and rule checks, and link existence.
- `scan_body` and `body_lines` update their list state at different moments; nothing relates the two scanners.
- Baselines whose file entries are neither a table of counts nor a number.
- The calendar behind a backup's day, week and month labels, small snapshots, and size accounting.
- Tag-like text inside comments, scripts or attributes of a slide deck; file naming and style surgery of the extracted anchors.
- Globbing of expanded patterns against the working tree.
