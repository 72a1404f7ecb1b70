# ArcReel core models

A Dafny model of the stateful cores of an AI video workspace, with proofs about whole runs of them. Each part is
written in the form of the code it models: objects that change are classes with `modifies` clauses, loops are loops,
and every such method is tied by its `ensures` to a specification function about which the laws are then proved.

| part | files |
|---|---|
| Episode ledger: ranges rebuilt from derived files by substring search | `EpisodeLedger`, `BackfillLaws`, `BackfillGreedy`, `BackfillSees`, `BackfillMeans` |
| Episode planner: boundaries, plan, replan, commits, and runs of concurrent calls | `Boundaries`, `Planner`, `EpisodePlanner`, `CommitLaws`, `CommitMeans`, `CommitCrashes`, `CrashExamples`, `ReplanLaws`, `PlannerForm`, `PlannerSteps`, `PlannerRuns`, `PlannerHealth`, `PlannerStale` |
| Profile sync: three-way merge per file, crashes, errors, resets | `ProfileResolve`, `ProfileSync`, `ProfileRuns` |
| Generation worker: slots, claims, lanes with resumed orphans, finishing of a task | `Slots`, `ClaimLoop`, `LaneRuns`, `LaneTables`, `LaneLimits`, `TaskProtocol`, `TaskOutcome` |
| Rate limiter, payload ladder with retry, size arithmetic, item ids | `RateLimits`, `Compression`, `AspectSize`, `ScriptEditor` |
| Strings, numerals, sorted sets, option and result types | `SourceText`, `Decimal`, `SortedSets`, `Options` |

Texts are sequences of characters after normalisation. Every answer of the language model, every answer of a provider
and every JPEG encoding is an arbitrary input. Contents with equal SHA-256 digests are taken to be equal. Time is real
and never runs backwards.

## What does not hold

Where a promise fails, the model keeps the code as it is and proves exactly when the promise holds.

- A request gap is kept in all runs if and only if it is at most 60 seconds; a longer one is forgotten together with
  the log (`RateLimits.GapHoldsUpToWindow`). The default of 3.1 seconds is safe.
- An interrupted sync leaves no trace after the next one if and only if it was a reset, or the profile still is the same
  for every key whose file the interrupted run had changed (`ProfileRuns.CrashRecovery`). With a newer profile in
  between, a file that a merge had already upgraded is taken for a user's edit and stays behind.
- Going back to the old mode undoes an interrupted switch of content modes if and only if every file the switch left
  behind has the same fate there as the one before it (`ProfileRuns.AbandonedSwitch`). From a delivered profile that
  means that nothing had changed: files that were not copied yet count as deleted by the user from then on
  (`ProfileRuns.AbandonedSwitchIsNotUndone`).
- A commit that stops half way comes, run again, to the same end if and only if backfill cannot tell the files from
  those before (`BackfillSees.LooksSame`): the same files lack a row in the saved ledger, and the file of every row that
  backfill still has to settle holds its old text, or neither text stands in a source. A replan must also not lose the
  planning cursor with the remainder file. This is exact for every store (`CommitCrashes.InterruptedPlanHeals`,
  `CommitCrashes.InterruptedReplanHeals`). The comment at lib/episode_planner.py:779-785 announces healing by running
  again without a condition. Two cases fail it:
  - A file for a new row has been written. After an earlier commit this is the only case
    (`CommitCrashes.SettledPlanHeals`, `CommitCrashes.SettledReplanHeals`). A plan that stops just before the ledger is saved is never redone as it was
    (`CommitCrashes.UnsavedPlanIsNotRedone`).
  - In a project whose rows were still to be settled, the derived files are the only record of the ranges. A first replan
    that has rewritten one of them is refused when run again, and a character between two episodes belongs to neither
    from then on (`CrashExamples.StoppedReplanLosesText`); a first plan that stops in the middle of one file is not even
    refused, and commits the loss (`CrashExamples.TornPlanLosesText`).
- A second sync without any change outside leaves the manifest alone if and only if no file was restored, after a
  deletion, to the profile's version (`ProfileRuns.Convergence`). The comment on row 10 (lib/profile_manifest.py:620)
  announces `user_only` for the next round; the code goes to row 15 there and records the file as delivered again.
- A plan commit says that everything is planned only if, besides nothing but blank text being left in all sources, the
  text model has seen the window up to the end of its file and no file follows (`CommitMeans.ReportedExhaustionIsExact`);
  lib/episode_planner.py:324 announces the flag for the first condition alone. The next plan call always knows
  (`CommitMeans.NextCallKnows`).
- A resumed orphan ends without a final status if and only if a cancellation comes before it starts, or the worker is
  shutting down when its turn comes (`TaskProtocol.ResumeEndsFinalUnlessUntouched`): in the first case the handler and
  the clean-up of `_run_one` never run, and the drain leaves waiting slots alone.
- Each such cancellation before the start costs its lane one slot for good (`LaneRuns.LeakedSlotsAreCounted`). A lane
  can ever take a task again if and only if fewer of them happened than its limit (`LaneRuns.LaneRecovers`).
- The limit of a lane bounds claimed tasks, and the members of one batch that hold a permit, each on its own. What runs
  at once is at most the limit times one more than the number of batches with members (`LaneLimits.RunningIsBounded`).
  Dispatching a batch keeps the limit, however the run goes on with careful dispatches, if and only if the tasks that
  occupy the lane and the turns the batch can take at once fit into it together
  (`LaneLimits.DispatchIsSafeExactlyWhenCareful`).
- Derived files equal the ledger's slices exactly when rows that share a number share their text
  (`CommitLaws.CommitRefinesLedger`); in runs from a healthy ledger no two rows share a number.
- The choice of a well configured profile's files is independent of the order in which they are met if and only if no
  two files stand for the same thing (`ProfileResolve.ChoiceIsUnique`). Only a file whose name is nothing but a mode,
  such as `.ad`, can break that (`ProfileResolve.OnlyBareNamesCollide`), and such a file can
  (`ProfileResolve.OrderCanMatter`).

The comment at lib/generation_queue.py:196 gives two statuses from which a cancellation lands. The table itself
(lib/db/repositories/task_repo.py:541-560) accepts three, and the model follows it.

## Model

| member | source | states |
|---|---|---|
| SourceText.FindIsFirst | lib/episode_ledger.py:189-195 | the match `str.find` returns is the first one at or after the offset, and -1 means that there is none |
| EpisodeLedger.SortSorts | lib/episode_ledger.py:273-274 | sorting by number keeps every row and puts the numbers in order |
| EpisodeLedger.SortKeepsFirst | lib/episode_ledger.py:258-274 | the sort is stable: the first row of each number stays the first, so duplicates never change places |
| EpisodeLedger.DiscoverSources | lib/episode_ledger.py:141-161 | one new object per candidate file, in order, with its cursor at 0 |
| EpisodeLedger.FindInSourceDocs | lib/episode_ledger.py:177-196 | the two-pass search over the live objects: forward from every cursor, preferred file first, then the full texts |
| EpisodeLedger.PassByRow | lib/episode_ledger.py:286-298 | a row with a status moves its file's cursor forward only and becomes the search's preference; nothing else changes |
| EpisodeLedger.AnchorRow | lib/episode_ledger.py:300-319 | a pending row is anchored at its hit and sets the cursor, also backwards, or is locked as unanchored; what its status and range say is `BackfillMeans.PendingRowMeans` |
| EpisodeLedger.VisitRow | lib/episode_ledger.py:284-319 | one round of the loop over the numbers: pass by a row with a status, settle a pending one |
| EpisodeLedger.CursorFromRemaining | lib/episode_ledger.py:210-237 | the planning cursor from the remainder file unless that would rewind, else from the last anchored end |
| EpisodeLedger.BackfillLedger | lib/episode_ledger.py:240-323 | the whole backfill, with its shortcut, computes the specification function on every project and disk |
| BackfillLaws.BackfillIsSound | lib/episode_ledger.py:240-323 | every pending first row is visited and ends anchored where its file's text really stands, or unanchored; rows with a status, other rows and a set cursor are untouched; every file gets a row |
| BackfillMeans.PendingRowMeans | lib/episode_ledger.py:300-319 | a row without a status gets a range that holds its file's text exactly when some source does; it is then consumed if and only if its recorded script, its canonical script or a draft exists, and planned otherwise; without a source it is unanchored; title, hook and script stay |
| BackfillMeans.SettledRowMeans | lib/episode_ledger.py:286-298 | a row with a status stays as it is |
| BackfillMeans.RowsBefore | lib/episode_ledger.py:264-275 | the rows backfill starts from: those of the ledger, and an untitled one with the canonical script for every file without a row |
| BackfillMeans.SearchMeans | lib/episode_ledger.py:177-196 | the search gives the first place behind the cursors, in the preferred file or else the first one by name that has such a place, and the first place at all only when no file has one |
| BackfillMeans.FirstPendingIsPlaced | lib/episode_ledger.py:281-319 | with any number of sources: behind rows with a status the search for the first pending row starts in every source behind the furthest of them and prefers the source of the last |
| BackfillMeans.NextPendingIsPlaced | lib/episode_ledger.py:281-319 | a pending row behind another one: when the file that one was anchored in holds the text behind it, it is anchored there, at the next place |
| BackfillMeans.CursorMeans | lib/episode_ledger.py:210-237 | a ledger without a cursor gets a place where the remainder stands, unless that would fall back behind the last row's end, or else that end |
| BackfillMeans.RemainderIsFollowed | lib/episode_ledger.py:210-237 | when the last row has just been anchored and its file holds the remainder behind it, the cursor is the next place there |
| BackfillLaws.WithOrphansKeepsRows | lib/episode_ledger.py:265-275 | adopting orphan files loses and alters no row |
| BackfillLaws.BackfillIsIdempotent | lib/episode_ledger.py:246-279 | running backfill again changes nothing, for every ledger and disk, also without a cursor |
| BackfillGreedy.LayoutAvoidsSecondPass | lib/episode_ledger.py:177-196 | if the files have any layout in order, the greedy search stays at or before it and never falls back to the full text |
| BackfillGreedy.GreedyBackfillIsComplete | lib/episode_ledger.py:281-319 | with one source and all rows pending: the full-text pass is needed if and only if the non-empty files have no in-order disjoint layout; otherwise every file is anchored to equal text, in order, without overlap, no later than in any layout |
| Boundaries.CountDecides | lib/episode_planner.py:199-216 | the sliding search counts overlapping occurrences: 0 means absent, 1 means exactly one occurrence |
| Boundaries.Survey | lib/episode_planner.py:200-203 | the sliding loop finds all starts, overlapping ones included, and the end of the first |
| Boundaries.AcceptableMeans | lib/episode_planner.py:176-230 | acceptance in words: every anchor occurs once, ends strictly increase, a closed window leaves only blank text |
| Boundaries.ResolveBoundaries | lib/episode_planner.py:176-230 | the loop accepts if and only if the batch is acceptable; every end but the last is that of its anchor, the last one too, or else the window's; otherwise it returns all complaints |
| Boundaries.ResolvedEndsAreTheAnchors | lib/episode_planner.py:219-230 | every anchor occurs once; every episode before the last ends with its anchor; the last ends with its own, or at the window's end exactly when it may be moved there and only blank text lies between |
| Boundaries.ReasonsAreExact | lib/episode_planner.py:190-225 | the complaints name every absent and every repeated anchor with its count, the first end out of order, and nothing else |
| Boundaries.ResolvedEndsCut | lib/episode_planner.py:226-230 | resolved ends cut a window prefix into non-empty pieces, a closed window to its end, a final one too if only blank text would be left; where they lie is `Boundaries.ResolvedEndsAreTheAnchors` |
| EpisodePlanner.RequestDrafts | lib/episode_planner.py:640-683 | takes the first of at most `max_attempts` answers that passes: all before it fail, its first `max_episodes` drafts are kept and cut the window by their anchors; and gives up only if all fail |
| EpisodePlanner.LedgerEnd | lib/episode_planner.py:698-714 | the range end of the row with the highest number among those with a number and a range, the first of equals; nothing exactly when there is no such row |
| EpisodePlanner.NextNumber | lib/episode_planner.py:378-380 | one more than the highest positive number |
| Planner.NextNum | lib/episode_planner.py:378-380 | the next number is positive, above every number in the ledger, and no larger than needed |
| EpisodePlanner.EpisodePlanner.StartOf | lib/episode_planner.py:698-743 | the effective start: the later of ledger end and cursor in file order, else the first source |
| PlannerForm.EffectiveStartIsLast | lib/episode_planner.py:698-743 | in a healthy ledger the next start lies inside the sources, at or after every planned range and the cursor |
| EpisodePlanner.EpisodePlanner.AimPlan | lib/episode_planner.py:326-342 | the unlocked read of a plan with its loop over exhausted files computes the aim that `PlannerRuns.AimFindsWindow` characterises |
| PlannerRuns.AimFindsWindow | lib/episode_planner.py:326-342 | in a healthy store: no source is reported exactly if there is none, exhaustion exactly if there are sources and nothing but blank text is left in them, and otherwise a window that still holds text, with only blank text between the start and it |
| CommitMeans.PlanReadMeans | lib/episode_planner.py:326-366 | a plan read carries the current start and the cut of a window at the first text behind it; the window is final exactly if it shows all that is left of its file |
| EpisodePlanner.EpisodePlanner.PreparePlan | lib/episode_planner.py:320-370 | a plan call up to its commit yields exactly the ticket of the first acceptable answer |
| EpisodePlanner.EpisodePlanner.Reconcile | lib/episode_planner.py:776-851 | two phases: a row that cannot be written leaves every file as it was; otherwise all writes, removal of files without a row and of the remainder |
| CommitLaws.CommitRefinesLedger | lib/episode_planner.py:776-851 | after a commit no derived file is without a row, files no row rewrites are kept or removed with their row, and every rewritten file equals its slice if and only if rows sharing a number share their text |
| CommitLaws.RefusedCommitNamesARow | lib/episode_planner.py:802-838 | validation fails if and only if some row to be written has no valid text, and it names such a row |
| EpisodePlanner.EpisodePlanner.CommitPlan | lib/episode_planner.py:372-410 | the locked commit of a plan: re-check, append, reconcile, save; a refusal changes nothing |
| CommitLaws.PlanCommitIsFixed | lib/episode_planner.py:372-410 | the ledger a plan commits is a fixed point of backfill on the files it leaves |
| CommitMeans.PlanCommitMeans | lib/episode_planner.py:372-400 | every row stays; one is added per draft, numbered behind the highest, with its title and hook, the canonical script and its stretch, planned; the cursor moves behind the last |
| CommitMeans.PlanCommitsExactly | lib/episode_planner.py:372-377 | in every reachable state a pending plan commits if and only if the start it has read still is the next start |
| CommitMeans.RefusedPlanMeans | lib/episode_planner.py:372-377 | a healthy store refuses a plan for a moved start only, as a conflict |
| CommitMeans.ReportedExhaustionIsExact | lib/episode_planner.py:405-408 | a plan commit reports exhaustion if and only if only blank text is left in all sources, the window was final, and no file follows |
| CommitMeans.NextCallKnows | lib/episode_planner.py:332-340 | after a plan commit the next call reports exhaustion if and only if only blank text is left, whatever the commit reported |
| PlannerSteps.PlanCommitAdvances | lib/episode_planner.py:372-408 | a plan commit keeps a healthy store healthy and moves the next start strictly forward |
| EpisodePlanner.EpisodePlanner.ScopeFrom | lib/episode_planner.py:575-638 | the replan scope: affected rows by number, merged into one closed piece per file, or the first obstacle |
| EpisodePlanner.EpisodePlanner.LoadPieces | lib/episode_planner.py:451-460 | loads every piece's text, or stops before any model call if a piece does not lie inside its source |
| EpisodePlanner.EpisodePlanner.CutPieces | lib/episode_planner.py:466-504 | every piece is closed by the first answer that passes for it, the layouts follow each other, and it gives up only if some piece gets none |
| EpisodePlanner.EpisodePlanner.PrepareReplan | lib/episode_planner.py:446-504 | a replan read fails outside the scope, asks for confirmation exactly when unconfirmed consumed episodes are affected, stops exactly at an unreadable piece, gives up only if some piece gets no good answer, and else carries what its commit needs |
| EpisodePlanner.EpisodePlanner.CommitReplan | lib/episode_planner.py:506-567 | the locked commit of a replan: same rows and ranges, no newly consumed episode, new layout, reconcile, save; what its rows say is `CommitMeans.ReplanCommitMeans` |
| CommitLaws.ReplanCommitIsFixed | lib/episode_planner.py:506-567 | the ledger a replan commits is a fixed point of backfill |
| CommitMeans.ReplanCommitMeans | lib/episode_planner.py:528-560 | rows below the number and the cursor stay; from it on there is one row per new episode and nothing else, with its title, hook and range; stale if and only if the last row of that number was consumed or stale, planned otherwise; with that row's recorded script, or else the canonical one |
| CommitMeans.ReplanMarksStale | lib/episode_planner.py:528-545 | in a healthy ledger a row of the new layout is stale exactly if the episode of its number had been produced |
| CommitMeans.ConsumedBecomesStale | lib/episode_planner.py:528-545 | at any point of any run, an episode that is consumed when a replan reaches it is stale afterwards, if its number is still used |
| CommitMeans.StaleUntilProduced | lib/episode_planner.py:528-560 | and it stays stale over every run, until it is produced again or its number is given up |
| CommitMeans.ReplanCommitsExactly | lib/episode_planner.py:506-527 | in every reachable state a pending replan commits if and only if its rows have the numbers and ranges it has read and no more of them are consumed than it has listed |
| CommitMeans.RefusedReplanMeans | lib/episode_planner.py:506-527 | a healthy store refuses a replan as a conflict if its rows have changed, and for newly consumed episodes otherwise |
| CommitMeans.LayOutAllKeepsDrafts | lib/episode_planner.py:501-504 | the new layout has the drafts of the answers, in their order |
| CommitCrashes.ReconcilingAgain | lib/episode_planner.py:776-851 | wherever the writes and removals stop, also in the middle of a file, running them again comes to the same files |
| CommitCrashes.InterruptedPlanHeals | lib/episode_planner.py:372-400 | from any store, a plan commit that stops half way comes to the same end when run again exactly when the same files lack a row and every row still to settle has its old text, or none that stands in a source; then the next call sees the ledger it would have seen |
| CommitCrashes.UnsavedPlanIsNotRedone | lib/episode_planner.py:372-400 | from any store, a plan commit that stops after its last write, before the ledger is saved, never does |
| CommitCrashes.InterruptedReplanHeals | lib/episode_planner.py:506-567 | the same for a replan commit, which must also not lose a derived planning cursor with the remainder file |
| CommitCrashes.SettledPlanHeals | lib/episode_planner.py:372-400 | once a commit has gone through before, a half-done plan comes to the same end exactly when it had written no file for a new row |
| CommitCrashes.SettledReplanHeals | lib/episode_planner.py:506-567 | the same for a replan: exactly when no file beyond the old rows was written |
| BackfillSees.SeenExactly | lib/episode_ledger.py:240-323 | backfill gives the first rows of all numbers the same ranges on two disks exactly when the same files lack a row and the files of pending rows hold the same text, as far as it stands in a source |
| BackfillSees.SearchFinds | lib/episode_ledger.py:177-196 | the two-pass search fails exactly when no source holds the text |
| CrashExamples.StoppedReplanLosesText | lib/episode_planner.py:506-567 | a first replan that stops after one complete write: refused when run again, and a character between two episodes is lost |
| CrashExamples.TornPlanLosesText | lib/episode_planner.py:372-400 | a first plan that stops in the middle of a write: run again it commits a ledger that has lost a character |
| CommitLaws.AffectedIsTheTail | lib/episode_planner.py:575-590 | the affected rows are exactly the rows numbered from the requested one on |
| CommitMeans.MergeMeans | lib/episode_planner.py:600-637 | merging succeeds if and only if every row goes on where the one before ends or opens a file that no earlier row is in; otherwise it names the first row that does not, and why |
| CommitMeans.ScopeMeans | lib/episode_planner.py:575-637 | a replan needs an episode of its number, no unanchored one from there on and rows that fit, and is refused for the first of these that fails |
| ReplanLaws.MergeConservesText | lib/episode_planner.py:600-637 | merging rows into pieces neither loses nor adds text |
| ReplanLaws.LayOutTiles | lib/episode_planner.py:501-504 | laying out a cut tiles its piece without gap or overlap, from start to end |
| ReplanLaws.ReplanConservesText | lib/episode_planner.py:446-567 | a committed replan leaves the joined text of the affected episodes as it was, with consecutive numbers from the requested one |
| ReplanLaws.ReplanCoversSameCharacters | lib/episode_planner.py:446-567 | a committed replan covers exactly the characters that were covered, and none of them twice |
| ReplanLaws.AffectedAfterReplan | lib/episode_planner.py:528-560 | after a replan the rows from the requested number on are the new rows and nothing else |
| PlannerSteps.ReplanCommitKeeps | lib/episode_planner.py:506-567 | a replan commit keeps a healthy store healthy, leaves the next start where it was and the planned characters the same |
| PlannerHealth.NewProjectIsHealthy | lib/episode_planner.py:326-334 | a project without rows and derived files is healthy |
| PlannerHealth.ReorderedIsHealthy | lib/episode_ledger.py:269-275 | a ledger that is healthy in number order is healthy in any order |
| PlannerHealth.LegacyProjectIsHealthy | lib/episode_ledger.py:276-323 | a project of one source whose rows are all pending is healthy after backfill when its files can be laid out in order in the source |
| PlannerForm.SettledIsHealthy | lib/episode_ledger.py:268-281 | a ledger that is healthy as it is, with a row for every file, stays as it is and at most gets a cursor |
| PlannerRuns.LedgerStaysHealthy | lib/episode_planner.py:320-567 | in any interleaving of stale reads, commits and status changes, the ledger as every call sees it keeps positive increasing numbers, and ranges ordered and disjoint by (file, offset) |
| PlannerRuns.PlanningTerminates | lib/episode_planner.py:326-408 | over fixed sources at most as many plans commit as there are characters from the first start on, whatever replans happen in between |
| PlannerRuns.RunKeepsCoverage | lib/episode_planner.py:326-408 | over any run every non-blank character between the first start and the next start belongs to an episode |
| PlannerRuns.ExhaustionIsTrue | lib/episode_planner.py:336-340 | when a plan call finds nothing left, every non-blank character from the first start on lies in exactly one episode |
| PlannerRuns.ReportedExhaustionIsTrue | lib/episode_planner.py:406-408 | the same when a commit itself reports exhaustion |
| PlannerRuns.FilesFollowLedger | lib/episode_planner.py:776-851 | after every commit of every run each anchored episode's file is exactly its slice, and no file is without an episode |
| CommitMeans.FilesAreSlices | lib/episode_planner.py:776-851 | after every commit of every run the file of every row with a range is that stretch of its source |
| PlannerRuns.ConsumedOnlyIfConfirmed | lib/episode_planner.py:448-450 | an episode that is consumed when a replan commits was listed to the user and confirmed |
| PlannerStale.ReadPlanIsCurrent | lib/episode_planner.py:326-366 | a plan call's read leaves a ticket that refers to the current start |
| PlannerStale.OvertakenPlanNeverCommits | lib/episode_planner.py:372-377 | once any plan has committed after such a read, that call's commit is refused without effect at every later point of every run |
| PlannerStale.OfTwoPlansOneCommits | lib/episode_planner.py:372-377 | of two plans that refer to the same start at most one commits |
| PlannerStale.ReadReplanIsCurrent | lib/episode_planner.py:446-505 | a replan call's read leaves a ticket with the current numbers and ranges |
| PlannerStale.OvertakenReplanNeverCommits | lib/episode_planner.py:506-521 | once any plan has committed after such a read, that call's commit is refused without effect at every later point of every run |
| PlannerStale.StaleReplanStaysRefused | lib/episode_planner.py:506-521 | a replan whose rows or ranges have changed stays refused until something else commits |
| PlannerStale.FirstReplanOvertakesSecond | lib/episode_planner.py:506-521 | of two replans, whatever number each starts at, after the first has committed the second is current exactly when the first kept number and range of every row from the second's number on |
| PlannerStale.OfTwoReplansOneCommits | lib/episode_planner.py:506-521 | after the first has moved such a row, the second commits at a later point of any run only if something else has committed in between and every such row is back where it was |
| ProfileResolve.VariantShape | lib/profile_manifest.py:88-100 | a variant's name is stem, mode and extension, and it stands for stem and extension |
| ProfileResolve.VariantOf | lib/profile_manifest.py:88-100 | the inverse: a mode put before the extension makes the variant of that name in that mode |
| ProfileResolve.ParseIsInjective | lib/profile_manifest.py:88-100 | apart from bare mode names, logical name and mode determine the file |
| ProfileResolve.BareNamesCollide | lib/profile_manifest.py:88-100 | a bare mode name can stand for the same file as a real variant |
| ProfileResolve.SortFiles | lib/profile_manifest.py:141-149 | the first loop sorts the files into commons and variants, whatever the order |
| ProfileResolve.Resolve | lib/profile_manifest.py:123-171 | refuses exactly the profiles with a file both common and variant, or with a mode missing, and else picks the mode's files |
| ProfileResolve.SameNamesInEveryMode | lib/profile_manifest.py:159-171 | every mode gets the same set of file names |
| ProfileResolve.EveryNameIsServed | lib/profile_manifest.py:168-171 | whatever some profile file stands for is delivered |
| ProfileResolve.ChoiceIsUnique | lib/profile_manifest.py:141-171 | for a well configured profile the choice is the same in every order of the files, in all modes, exactly when no two files stand for the same thing |
| ProfileResolve.OnlyBareNamesCollide | lib/profile_manifest.py:88-100 | without bare mode names no two files do |
| ProfileResolve.OrderCanMatter | lib/profile_manifest.py:141-171 | a family of profiles that pass the check although two choices are possible |
| ProfileSync.ProjectDir.ApplyDecision | lib/profile_manifest.py:539-652 | the fifteen rows, applied in place to file, entry and counters |
| ProfileSync.ProjectDir.VisitAll | lib/profile_manifest.py:691-721 | the loop over all keys, in any order, with I/O errors at any key, equals the table applied key by key; each counter counts keys |
| ProfileSync.ProjectDir.FullReset | lib/profile_manifest.py:484-533 | a reset leaves the profile's files and a fresh manifest, minus the keys that failed |
| ProfileSync.ProjectDir.Sync | lib/profile_manifest.py:658-726 | a missing, misconfigured or empty profile changes nothing; else reset or merge; created, repaired, skipped and errors add up to the number of keys |
| ProfileRuns.OnlyRecordedVersionsChange | lib/profile_manifest.py:572-650 | the merge law: a file follows the profile exactly when it still is the recorded version, or is absent and was never recorded |
| ProfileRuns.BucketsTellTheTruth | lib/profile_manifest.py:572-650 | created means that the file appears, repaired that it is replaced or removed, or that an entry is closed which both sides have dropped; all else is skipped |
| ProfileRuns.DetailsTellTheTruth | lib/profile_manifest.py:572-650 | each detail counter has exactly its case, in terms of what is recorded, shipped and on disk |
| ProfileRuns.EntriesTellTheTruth | lib/profile_manifest.py:572-650 | after a pass a tombstone means a recorded file that is absent, an active entry a profile file that is there, in the version it names or changed by the user since |
| ProfileRuns.CrashRecovery | lib/profile_manifest.py:658-726 | an interrupted run is repaired by the next one if and only if it was a reset, or the profile still agrees on every key whose file it had changed |
| ProfileRuns.RepeatedCrashesRecover | lib/profile_manifest.py:484-533 | any number of interruptions under one profile, in a merge or a reset, then one run: the same files and entries as one run |
| ProfileRuns.AbandonedSwitch | lib/profile_manifest.py:679-688 | from any directory, going back after an interrupted switch of modes undoes it exactly when every file has the same fate as the one before |
| ProfileRuns.AbandonedSwitchIsNotUndone | lib/profile_manifest.py:679-688 | from a delivered profile, a run in the old mode keeps what the interrupted switch left and marks the rest as deleted |
| ProfileRuns.Convergence | lib/profile_manifest.py:539-652 | files are stable after one run, files and manifest after two; one is enough for both exactly without a restored file |
| ProfileRuns.ErrorsHeal | lib/profile_manifest.py:699-721 | after a run with I/O errors one clean run brings the files, and a second one the manifest, to where clean runs would have |
| ProfileRuns.ResetIsDelivered | lib/profile_manifest.py:484-533 | a reset delivers and records the whole profile |
| ProfileRuns.UserWorkIsSafe | lib/profile_manifest.py:572-650 | over any edits, profile changes, faulty and interrupted runs in one mode, a run replaces or removes a file only if its content was shipped for that path before |
| ProfileRuns.UserEditSurvives | lib/profile_manifest.py:572-650 | a file the profile never ships stays as it is until the user touches it |
| ProfileRuns.NoResurrection | lib/profile_manifest.py:578-642 | a deleted built-in file stays away, whatever the profile does, and is on record from the first run that reaches it |
| Slots.SlotTable.Register | lib/generation_worker.py:204-214 | the slot is taken in its lane, other lanes stay, no empty bucket appears |
| Slots.SlotTable.Promote | lib/generation_worker.py:216-227 | only the waiting flag of a known slot changes |
| Slots.SlotTable.Release | lib/generation_worker.py:229-236 | the slot is gone whatever its phase, and an emptied bucket with it |
| Slots.SlotTable.HasRoom | lib/generation_worker.py:238-243 | an open lane with fewer occupants, waiting ones included, than its limit |
| Slots.SlotTable.OccupiedProviders | lib/generation_worker.py:250-252 | exactly the providers with an occupant in a lane of this media type |
| Slots.SlotTable.FindByTask | lib/generation_worker.py:254-260 | an execution registered for the task in some lane, or none if there is none |
| Slots.SlotTable.DrainFinished | lib/generation_worker.py:262-272 | removes and returns exactly the finished occupants that had had their turn |
| ClaimLoop.TaskTable.ClaimNext | lib/db/repositories/task_repo.py:184-267 | sets the first eligible queued task in line running, or finds that there is none |
| ClaimLoop.Worker.PoolFullProviders | lib/generation_worker.py:458-474 | looking at occupied lanes only names exactly the providers that are open and full |
| ClaimLoop.Worker.ClaimMedia | lib/generation_worker.py:476-547 | one media type's loop terminates, stays within the limits and stops only when the head of the line is stuck |
| ClaimLoop.Worker.ClaimTasks | lib/generation_worker.py:476-547 | a cycle takes no lane above its limit and evicts nobody; claimed tasks run in a lane that had room or fail because it is closed; tasks on record for one provider and media leave the line in the order they came; at the end whoever is first in line finds no room |
| ClaimLoop.LeftInLine | lib/generation_worker.py:476-547 | a task that is free to run and still in line has a recorded provider at its limit, or is behind one whose record does not name its provider and whose provider is at its limit |
| LaneRuns.RunKeepsInv | lib/generation_worker.py:941-1017 | in every reachable state slots wait exactly while their members do, or have leaked, and no batch holds more permits than it has |
| LaneRuns.LaneCapacity | lib/generation_worker.py:941-1017 | claims enter only below the limit and never lift occupancy above it; claimed tasks, and promoted members of any batch, never exceed it |
| LaneRuns.ClaimsAndTurnsAddUp | lib/generation_worker.py:973-990 | a run in which a claimed and a resumed task run together at limit one |
| LaneLimits.RunningIsBounded | lib/generation_worker.py:941-1017 | in every run at most the limit, times one more than the number of batches with members, runs at once |
| LaneLimits.CarefulRunsStayWithin | lib/generation_worker.py:941-1017 | a run in which every dispatched batch fits next to what occupies the lane never has more tasks running than the limit |
| LaneLimits.DispatchIsSafeExactlyWhenCareful | lib/generation_worker.py:960-1017 | in every reachable state a dispatch keeps the limit over all careful continuations exactly when its turns fit next to what occupies the lane |
| LaneTables.LineUp | lib/generation_worker.py:1007-1015 | registering the members of a batch one by one puts the table where the lane's dispatch step puts the lane, and leaves other lanes alone |
| LaneTables.Drain | lib/generation_worker.py:584-586 | one drain of the table is a row of drain steps of the lane |
| LaneRuns.LeakedForGood | lib/generation_worker.py:977-1017 | the slot of a member cancelled before its first step is never given back |
| LaneRuns.LeakedSlotsAreCounted | lib/generation_worker.py:977-1017 | the leaked slots are as many as the members cancelled before their first step |
| LaneRuns.UnstartedMemberLeaks | lib/generation_worker.py:977-1017 | a run that leaks a slot |
| LaneRuns.LaneRecovers | lib/generation_worker.py:238-243 | a lane can ever take a task again exactly when fewer members than its limit were cancelled before their first step |
| TaskProtocol.FinalStatusIsFinal | lib/db/repositories/task_repo.py:184-835 | over every history of claims, writes, cancellations, cascades and rescues a final status never changes, and `cancelling` only ever becomes `cancelled` |
| TaskProtocol.UpdatesAreGuarded | lib/db/repositories/task_repo.py:184-835 | which update, from which status, leads to which status |
| TaskProtocol.DrainedMeansFinal | lib/generation_worker.py:584-663 | with cancellations at any await and shielded writes landing late, a finished and drained execution has its one final status unless a write failed; which one is the subject of `TaskOutcome` |
| TaskOutcome.OutcomeIsEarned | lib/generation_worker.py:617-767 | at every point of every execution, fresh or resumed: succeeded only if a result ended the work, and failed only if an error did |
| TaskOutcome.CalmOutcome | lib/generation_worker.py:617-767 | without a cancellation both hold if and only if, once a running task's execution has finished and no write has failed; and it has one of the two, unless a resumption gave way to a shutdown |
| TaskOutcome.CancelledOnlyIfAsked | lib/generation_worker.py:617-767 | a running task ends as cancelled only after a cancellation |
| TaskProtocol.ResumeEndsFinalUnlessUntouched | lib/generation_worker.py:665-1005 | a finished resumption leaves its task without a final status exactly when a cancellation came before it started, or the worker was shutting down when its turn came; both read off the events |
| TaskProtocol.UnstartedResumeIsLeftCancelling | lib/generation_worker.py:753-767 | a run in which the task stays `cancelling` |
| RateLimits.PurgeForgets | lib/gemini_shared.py:110-111 | purging an already purged log gives what purging the whole history gives |
| RateLimits.AllowedMeans | lib/gemini_shared.py:105-127 | a call is granted if and only if fewer than `limit` grants lie within the last window and the last one is at least the gap, or more than a window, ago |
| RateLimits.WindowHolds | lib/gemini_shared.py:88-181 | every closed window of 60 seconds holds at most `limit` grants, over any mix of both methods |
| RateLimits.GapHoldsUpToWindow | lib/gemini_shared.py:113-122 | consecutive grants are the request gap apart in all runs if and only if the gap is at most 60 seconds |
| RateLimits.RateLimiter.PopOld | lib/gemini_shared.py:109-111 | the purge loop keeps the log in step with the history |
| RateLimits.RateLimiter.Acquire | lib/gemini_shared.py:88-133 | the blocking loop terminates and makes exactly one allowed grant |
| RateLimits.RateLimiter.AttemptAsync | lib/gemini_shared.py:146-174 | an attempt is granted exactly when the rule allows it now; else the wait it is told is enough unless another grant comes first, and, apart from the buffer, no longer than needed, for a gap of at most a window |
| RateLimits.RateLimiter.AcquireAsync | lib/gemini_shared.py:135-181 | whatever others acquire during its waits, the loop ends at the latest in the second attempt after the last of them, with exactly one grant of its own, allowed after theirs |
| Compression.FloorIsFlat | lib/reference_compression.py:106-110 | all steps from the floor on are the same |
| Compression.FitsMeans | lib/reference_compression.py:158-192 | a step fits if and only if all images together are within the joint limit and every array image is within the single one; lowering that to the joint one makes no difference |
| Compression.TotalAdds | lib/reference_compression.py:158-192 | the joint size is the sum of the sizes |
| Compression.WhatIsSent | lib/reference_compression.py:121-155 | the original is sent exactly if it cannot be read or passes through: a frame within the limit, or, at the first step, a small JPEG; else a new encoding, of a frame without shrinking it, of an array image at its step |
| Compression.LadderDescends | lib/reference_compression.py:35-110 | the steps of the ladder, which never ask for more further down |
| Compression.SelectLadderStep | lib/reference_compression.py:158-192 | the least step at or after the start that meets both limits, order and number kept; gives up exactly when no step does |
| Compression.CompressedPayload | lib/reference_compression.py:214-285 | every reference is sent, in its place: unreadable and unchanged ones as the original, others as a temporary file of their own |
| Compression.RunWithCompression | lib/media_generator.py:166-210 | at most five calls, each at the first fitting step below the one before; only a 413 leads to another; the error comes exactly when the steps are used up |
| Compression.StepsIncrease | lib/media_generator.py:188-210 | the steps of consecutive calls strictly increase |
| AspectSize.GcdIsGreatest | lib/aspect_size.py:55-56 | Euclid's result divides both numbers and is divided by every common divisor |
| AspectSize.ParsedRatioIsReduced | lib/aspect_size.py:43-56 | the parsed ratio is the given one in lowest terms |
| AspectSize.UnreadableIsPortrait | lib/aspect_size.py:43-54 | a ratio that cannot be read, or is not positive, counts as 9:16 |
| AspectSize.SizeIsExact | lib/aspect_size.py:59-112 | the size has exactly the requested ratio and both sides are multiples of the granularity |
| AspectSize.SidesOfSize | lib/aspect_size.py:76-112 | at its scale the shorter side of the size is the one the target is about, the longer side and the pixels those the caps are about |
| AspectSize.ScaleIsLargest | lib/aspect_size.py:92-111 | the scale is the largest one, not above the nearest to the target, that meets both caps; a cap is exceeded only when the smallest size already exceeds it |
| AspectSize.SizeFails | lib/aspect_size.py:92-111 | the call fails exactly for granularity zero or a negative pixel budget |
| ScriptEditor.NextSuffixedId | lib/script_editor.py:99-114 | the counting loop ends, by pigeonhole, at the first free number |
| ScriptEditor.NewIdHasOneSuffix | lib/script_editor.py:99-114 | a new id keeps the stem and carries one suffix; legal ids give legal ids |
| ScriptEditor.Script.InsertSegment | lib/script_editor.py:159-173 | one new item behind the anchor, all others and their order untouched, ids unique if they were |
| ScriptEditor.Script.RemoveSegment | lib/script_editor.py:176-181 | the first item with the id goes, the rest stays, ids unique if they were |
| ScriptEditor.Script.SplitSegment | lib/script_editor.py:184-234 | the parts take the item's place, the first with its id and assets, the others with fresh ids, ids unique if they were |
| ScriptEditor.SplitMeans | lib/script_editor.py:184-234 | field by field: the items before and behind stay, the first part has the id and the assets of the item, the others have ids that were free and no assets, and every part has its own content |

## Left out

- Prompts, model calls, JSON replies and their schemas: drafts are arbitrary lists, of any length the schema allows.
- Records of the wrong shape (null rows, fields of the wrong type) read as missing; titles, hooks and scripts are opaque.
- Settings a replan writes back (`episode_target_units`), outlines, reading-unit counts and warnings.
- Text normalisation, symbolic links, file modes, unlink failures; derived files are keyed by their number.
- CommitCrashes.InterruptedPlanHeals: one crash; runs with crashes in them are not followed further.
- Sources that change while a call runs: the planner's whole-run results are over fixed sources, as its design assumes.
- Ledger rows that other parts of the project add (lib/project_manager.py:814-823), with whatever number a script names;
  consuming an episode is the one outside change in a run.
- `force_resync_profile`, and the parsing of a damaged manifest: it reads as missing and leads to a reset.
- ProfileSync.ProjectDir.Sync: visits the keys in any order, where the code sorts them; entry sizes and time stamps are left out.
- The lease, the scan for orphans, reloading of limits, and which tasks a cascade reaches.
- ClaimLoop.Worker.ClaimTasks: no other coroutine runs during the cycle; interleavings of one lane are the subject of `LaneRuns`.
- LaneRuns.LaneCapacity: limits stay fixed over the run, as the batch semaphore takes its size once.
- RateLimits.RateLimiter.AcquireAsync: others are finitely many; fairness between waiting callers is not promised by the code.
- Compression: PIL decoding and encoding, and exceptions other than the 413 only as an arbitrary failure.
- AspectSize.ScaleIsLargest: stated for a positive granularity, the only kind the callers pass.
- AspectSize: rounding errors of the floating-point quotient, the ratio warning, and `resolution_to_short_edge`.
- ScriptEditor: choosing the item list by mode, `patch_field`, and ids in other notations than `E<n>S<n>` for the form of new ids.
- Provider clients, HTTP retry, pricing, database sessions, server routes and the frontend.
