# glidesh in Dafny

A model of glidesh, which runs declarative plans over many hosts, and proofs about it. It covers the logic between
the plan and the hosts: the step barrier and its permits, the template language and the checker that predicts it,
three-valued `when=` conditions and the preview (`--dry-run`) built on them, recursive upload with `prune`, includes,
rolling batches, run-once `host` tasks, and "did you mean".

Code that computes is modelled by functions, code that loops or changes state by methods and classes over the same
state, each proved equal to a function or to a property; what the program promises is then proved of those. Strings
are sequences of characters and offsets are indices. Modules of the program that touch a host (`check`, `apply`) are
oracles; the host's file system is a map from paths to entries.

| files | what they model |
|---|---|
| `Barrier`, `SyncRun`, `SyncHostTasks` | the barrier's critical sections, and one batch of `mode "sync"` as a transition system over hosts and permits, alone and with run-once tasks |
| `Text`, `Template`, `TemplateParser`, `TemplatePrint`, `Render` | lexing, parsing, printing and rendering templates, and `interpolate` |
| `TemplateCheck`, `TemplateCheckPrecision` | the static checker, its soundness and where it is exact |
| `Condition`, `ConditionParser`, `Guards` | `when=`: evaluation, syntax, and deciding a guard before any run |
| `NodeRunner`, `Preview`, `PreviewPlan` | one host's run on mutable fields, and the simulation between a preview and the run, over tasks and over plans |
| `Globs`, `Paths`, `Sorting`, `FileTree`, `Prune` | exclude patterns, the walk, and the plan of what to remove |
| `Modes`, `Upload`, `UploadApply` | file modes, and check and apply of a recursive upload |
| `Includes`, `Flatten` | vars files and include flattening |
| `Rollout`, `EditDistance`, `TaskKeys`, `HostCoordinator` | batches and stop rules, the closest name, run-once tasks |
| `ReservedNames`, `Totals`, `Wrappers` | names only a run binds, sums over sequences, options and results |

## Where the code and what is said of it differ

- The checker only pops its stack at `${endfor}` (`src/config/checks.rs:804-806`), while a stray one is parsed as a
  variable (`src/config/template.rs:258`). `TemplateCheck.CheckerSound` says exactly when a template the checker
  accepts renders, and `TemplateCheck.StrayEndForPasses` gives one that does not.
- A loop header whose binding or collection holds the text `separator="` takes its separator from there
  (`src/config/template.rs:163-190`), so printing the tree does not always give it back.
  `TemplatePrint.ReprintKeepsTree` says exactly when it does, `TemplatePrint.SeparatorInsideBinding` gives a header
  for which it does not.
- A condition the preview decides, true or false, can still fail the run, when an earlier term reads a variable that
  is missing there (`src/config/condition.rs:149-162`): `Condition.DecidedTrueMayStillFail`,
  `Condition.DecidedFalseMayStillFail`. `Condition.DecidedStaysExactly` says when it does not.
- A failure in the run that `rescue` makes good lets the run go on where the preview went another way
  (`src/executor/node_runner.rs:672-701`): `PreviewPlan.RescuedFailureMisleads`. The names it can put in
  doubt are told by the preview, or by the plan alone, before the run: `PreviewPlan.PreviewPredicts` says that all
  others are as previewed, and `PreviewPlan.NoRescueNoDoubt` that without `rescue` there are none.
- Including one plan twice is refused as circular even where no plan includes itself (`src/config/plan.rs:571-578`):
  `Flatten.TwiceIsRefused`. `Flatten.ResolveIncludes` states what is accepted.
- The including plan, and inline over a vars file, wins "on conflict" (`src/config/plan.rs:380-384`, `:434-435`), but
  texts and lists are kept apart (`:490-505`, `:588-593`), so a name set as a text can also get a list from elsewhere,
  which a `loop` reads first (`src/executor/node_runner.rs:44-47`): `Flatten.IncludedListOverText`,
  `Flatten.FileListOverInlineText`. `Flatten.NamesAreFirst` and `Flatten.InlineNameOverFile` say exactly when the
  first setter's value is read.
- A host whose `chmod` keeps a directory's set-id bits, as GNU's does for modes of up to four digits, can leave a
  directory that the next check finds wrong: `Modes.SetGroupIsKept`. `UploadApply.ApplyThenCheck` says exactly when.

## Model

| member | source | states |
|---|---|---|
| `Barrier.StepBarrier.constructor` | src/executor/barrier.rs:35-44 | a new barrier for `n` hosts is at generation 0 with every seat seated and none arrived, and meets the invariant |
| `Barrier.StepBarrier.NewSeat` | src/executor/barrier.rs:47-52 | handing out a seat leaves the barrier as it is; the seats handed out are those the counters count as long as there are no more than `n` |
| `Barrier.StepBarrier.ReleaseIfCompleteNow` | src/executor/barrier.rs:24-32 | a generation is released exactly when someone arrived and all who take part have; the arrivals start again at none |
| `Barrier.Seat.ArriveLocked` | src/executor/barrier.rs:70-90 | the locked part of `arrive`: an abandoned wait of this generation is resumed, not counted twice; the last to arrive is seated at once and releases the others; the invariant is kept unless the seat had left |
| `Barrier.Seat.TakeSeatAgain` | src/executor/barrier.rs:92-104 | a released waiter is seated again and nothing else changes; the invariant is kept |
| `Barrier.Seat.LeaveSeat` | src/executor/barrier.rs:107-123 | leaving withdraws an abandoned wait of this generation, shrinks the barrier and may release the rest; leaving twice counts once; no counter underflows |
| `Barrier.ArriveKeepsInv` | src/executor/barrier.rs:70-90 | an arrival keeps "`arrived` is the seats waiting for this generation, `participants` the seats not left", and releases the generation exactly when everyone else who takes part was already waiting for it |
| `Barrier.ResumeKeepsInv` | src/executor/barrier.rs:92-104 | taking the seat again keeps the invariant |
| `Barrier.LeaveKeepsInv` | src/executor/barrier.rs:107-123 | leaving keeps the invariant, changes only the leaver's seat, and moves the generation on only when all the others were waiting |
| `Barrier.LiveSeatIsCounted` | src/executor/barrier.rs:112-121 | neither counter can underflow in `leave` |
| `Barrier.NeverAllWaiting` | src/executor/barrier.rs:16-32 | the hosts still seated never all wait for the current generation |
| `Barrier.InterleavingsKeepInv` | src/executor/barrier.rs:16-123 | under every interleaving of arrivals, abandoned waits, resumptions and departures the counters agree with the seats, a stale wait lags by at most one generation, and the seated are never all stuck |
| `Barrier.WaitEndsWhenAllArrived` | src/executor/barrier.rs:92-104 | a waiter goes on only after an arrival or a departure before which everyone else who took part was waiting for its generation |
| `SyncRun.EventKeepsInv` | src/executor/node_runner.rs:495-595 | every move of any host, failures anywhere included, keeps the invariant over barrier, permits and hosts |
| `SyncRun.RunsKeepInv` | src/executor/node_runner.rs:504-722 | the invariant holds in every state of every run |
| `SyncRun.PermitsConserved` | src/executor/node_runner.rs:224-234 | held and free permits always add up to the concurrency, and no host waiting at the barrier holds one |
| `SyncRun.NoReleaseIsMissed` | src/executor/barrier.rs:92-104 | registering before looking again misses no release: a sleeping host has been notified exactly if its generation is over |
| `SyncRun.LockStep` | src/executor/node_runner.rs:587-595 | no host is past the barrier of a step before every host still seated has finished all steps before it |
| `SyncRun.SomeHostCanMove` | src/executor/node_runner.rs:495-595 | no deadlock: with at least one permit, while some host is not done some host can move without failing |
| `SyncRun.EventDecreases` | src/executor/node_runner.rs:587-722 | every event brings the run closer to its end |
| `SyncRun.RunsAreBounded` | src/executor/node_runner.rs:587-722 | no run is longer than a bound set by its hosts and steps |
| `SyncRun.SyncRunEnds` | src/executor/engine.rs:110-170 | a sync batch always ends, and one that only a failure could extend has every host gone and every permit back |
| `SyncRun.LeavingWithoutFailureMeansAllStepsDone` | src/executor/node_runner.rs:587-725 | a host that ends without failing has finished every step |
| `Template.Lex` | src/config/template.rs:123-160 | the lexer's jumps from `$` to `$` find what reading one character at a time finds |
| `Template.LexTiles` | src/config/template.rs:123-160 | the tokens follow one another without overlap, each found where it says |
| `Template.TilingIsLossless` | src/config/template.rs:123-160 | the slices between tokens and the tokens' own text put together are the template |
| `Template.TokensAreSpelled` | src/config/template.rs:131-158 | each token of a template is spelled, as its kind demands (`$${`, or `${`, its text and the first `}`), by the very stretch it stands at |
| `Template.HitSource` | src/config/template.rs:131-158 | a found token is what its own source reads as |
| `Template.SlicesAreScan` | src/config/template.rs:216-262 | cutting text by offsets gives the same pieces as reading one character at a time |
| `TemplateParser.ParseTemplate` | src/config/template.rs:207-275 | the loop with an explicit stack computes the tree of balanced `for`/`endfor` pairs, or the same first error |
| `TemplateParser.TakeToken` | src/config/template.rs:225-262 | one token pushed on or popped from the stack, with the error of a reserved or unreadable header |
| `TemplateParser.BuildThenFlatten` | src/config/template.rs:207-275 | a tree that is built holds exactly the pieces it was built from, in order |
| `TemplateParser.FlattenThenBuild` | src/config/template.rs:207-275 | a tree's own pieces build that tree again |
| `TemplateParser.ParseIsExact` | src/config/template.rs:207-275 | the parsed tree, written out as pieces, is exactly the template's tokens and text |
| `TemplateParser.ClosedTreeRebuilt` | src/config/template.rs:207-275 | a tree of balanced pairs is rebuilt from its pieces |
| `TemplateParser.BuildableTreeRebuilt` | src/config/template.rs:255-262 | so is one with stray `${endfor}`s at the top level, read as variables |
| `TemplatePrint.HeaderReadsBack` | src/config/template.rs:163-190 | a printed `for` header reads back as its loop exactly when it `Rereads` |
| `TemplatePrint.PrintThenScan` | src/config/template.rs:123-190 | pieces as the lexer makes them, printed (escapes as `$${`), are read back one by one |
| `TemplatePrint.ScanIsCanonical` | src/config/template.rs:123-160 | whatever the lexer makes of a template can be printed |
| `TemplatePrint.PrintThenParse` | src/config/template.rs:207-275 | a tree printed and parsed is the same tree exactly when its loops' headers reread |
| `TemplatePrint.ReprintKeepsTree` | src/config/template.rs:207-275 | for every template the parser accepts: printing its tree and parsing again gives the same tree if and only if its loops' headers reread |
| `TemplatePrint.PlainNamesReread` | src/config/template.rs:163-190 | headers whose names do not hold the text `separator="` always reread |
| `TemplatePrint.SeparatorInsideBinding` | src/config/template.rs:163-190 | a header that does not reread: its binding holds `separator="` |
| `Render.RenderTemplate` | src/config/template.rs:280-289 | rendering is parsing, then the tree's meaning |
| `Render.WriteNodes` | src/config/template.rs:291-354 | appending to one buffer writes the tree's meaning after what is there: the innermost binding wins, then extra variables, then variables; values are never read again |
| `Render.WriteLoop` | src/config/template.rs:329-350 | a loop writes its bodies joined by the separator, none before the first |
| `Render.Interpolate` | src/config/template.rs:395-428 | the `interpolate` loop computes one-pass substitution |
| `Render.RenderIsInterpolate` | src/config/template.rs:280-428 | without `${for ` headers and with flat variables only, `render` succeeds exactly when `interpolate` does, with the same text |
| `Render.EscapeThenInterpolate` | src/config/template.rs:395-428 | interpolating any text with each `${` doubled to `$${` gives the text back |
| `TemplateCheck.Missing` | src/config/checks.rs:330-356 | a list's problem with a field: none when every item has it, which holds of an empty list; that no item has it exactly when none does; else how many of how many items lack it |
| `TemplateCheck.CheckTemplate` | src/config/checks.rs:769-909 | the flat pass with its binding stack and once-per-name sets, as a fold over the tokens |
| `TemplateCheck.QuietTopRenders` | src/config/checks.rs:769-909 | a tree the check is quiet about renders exactly when it has no stray `${endfor}` or that variable is defined |
| `TemplateCheck.CheckerSound` | src/config/checks.rs:769-909 | if the check finds nothing in a template some run may render, then for all variables and data in which the accepted names exist and the lists are those known, `render` succeeds if and only if every `${endfor}` closes a loop or `endfor` is defined |
| `TemplateCheck.StrayByCounting` | src/config/template.rs:255-262 | "every `${endfor}` closes a loop" is what counting the template's own tokens says |
| `TemplateCheck.StrayEndForPasses` | src/config/checks.rs:804-806 | the gap is real: a lone `${endfor}` passes the check and fails the render |
| `TemplateCheck.ItemFieldsExist` | src/config/checks.rs:756-767 | an accepted `@item` field is in every item the step may run for |
| `TemplateCheckPrecision.FieldProblemsAreReal` | src/config/checks.rs:330-356 | precision: in a template whose lists are all known and whose `${endfor}`s close loops, whether or not the task is sure to render it, a loop field is reported missing only if the render fails |
| `TemplateCheckPrecision.EscapesOnlyWarn` | src/config/checks.rs:896-905 | an old-style escape is only warned about: it never changes which problems are found |
| `Condition.EvalAllTerms` | src/config/condition.rs:149-162 | the accumulator loop over a group, stopping at false or an error |
| `Condition.EvalCondition` | src/config/condition.rs:131-147 | the accumulator loop over the groups, stopping at true or an error |
| `Condition.TermIsSound` | src/config/condition.rs:164-207 | a term's answer in a preview is its answer in every consistent run; an undecided one names an unknown variable |
| `Condition.PreviewIsSound` | src/config/condition.rs:131-207 | a preview's true (false) is true (false) or an error in every consistent run; an error is an error; an undetermined answer names an unknown variable |
| `Condition.FailsExactlyWhenStopped` | src/config/condition.rs:131-162 | a run's condition is an error if and only if evaluation comes to a term that reads a missing variable: every term before it in its group is true and every group before false |
| `Condition.DecidedStaysExactly` | src/config/condition.rs:131-207 | what the preview decides, true or false, is the run's answer if and only if the run does not come to such a term |
| `Condition.GuardedReadsNeverStop` | src/config/condition.rs:126-130 | a condition that tests with `defined` what it reads never fails, and keeps the preview's answer, in every run with the same lists |
| `Condition.DecidedTrueMayStillFail` | src/config/condition.rs:149-162 | the error case is real: a condition decided true in the preview whose run stops at a missing variable |
| `Condition.DecidedFalseMayStillFail` | src/config/condition.rs:149-162 | and one decided false |
| `Condition.EvalIsPlain` | src/config/condition.rs:131-162 | with nothing unknown, evaluation is plain two-valued short-circuit logic |
| `ConditionParser.Tokenize` | src/config/condition.rs:246-315 | the character loop computes the token list, or the first error |
| `ConditionParser.Parser.TermAt` | src/config/condition.rs:349-384 | one term from the tokens left: negation, `defined`, a comparison or a truth test |
| `ConditionParser.Parser.AllOf` | src/config/condition.rs:341-347 | terms joined by `&&` |
| `ConditionParser.Parser.Parse` | src/config/condition.rs:324-339 | groups joined by the or operator |
| `ConditionParser.PrintThenParse` | src/config/condition.rs:88-109 | every well-formed condition, printed, tokenizes and parses back to itself |
| `ConditionParser.ReprintKeepsCondition` | src/config/condition.rs:88-109 | printing any accepted condition and parsing again gives the same condition |
| `ConditionParser.AndBindsTighter` | src/config/condition.rs:324-347 | however many terms are joined, and however: each or operator starts a new group and no `&&` does |
| `ConditionParser.QuotedIsNeverKeyword` | src/config/condition.rs:349-394 | a quoted word is a literal, never the keyword it spells |
| `Guards.NewGuardScope` | src/config/checks.rs:369-405 | the scope a guard is decided in, from what is known of each name it refers to |
| `Guards.NewLooped` | src/config/checks.rs:471-506 | the items of a loop split by whether the guard surely or maybe lets them render |
| `Guards.GuardIsConsistent` | src/config/checks.rs:369-446 | a guard's scope, with the loop's item bound, is consistent with every run it is decided for |
| `Guards.GuardIsSound` | src/config/checks.rs:409-446 | a guard that never reaches its template lets no consistent run render it, and one that surely does is false in none |
| `Guards.SkippedItemsNeverRender` | src/config/checks.rs:471-515 | every item some run renders the template for is among those the check looks at |
| `Guards.CheckedItemRenders` | src/config/checks.rs:756-767 | in a looped step, a template the check finds nothing in renders with the item's variables bound as the runner binds them |
| `Guards.EveryRenderedItemRenders` | src/config/checks.rs:471-515 | of a loop over a list: for whatever item some possible run lets through its guard, a template the check finds nothing in renders |
| `NodeRunner.Runner.RegisterVar` | src/executor/node_runner.rs:386-400 | registering defines the variable, unknown in a preview |
| `NodeRunner.Runner.SkipRegisterVar` | src/executor/node_runner.rs:408-416 | a skipped task's variable is removed, and unknown when the skip was not decided |
| `NodeRunner.Runner.RegisterOutputVar` | src/executor/node_runner.rs:361-373 | what is captured: nothing in a preview, an error for cut output, else the trimmed output |
| `NodeRunner.Runner.RunHostTask` | src/executor/node_runner.rs:1200-1268 | a `host` task runs its command and counts as a change |
| `NodeRunner.Runner.RunOneTask` | src/executor/node_runner.rs:1003-1049 | one task: gate, skip, module, failure |
| `NodeRunner.Runner.RunCheckedTask` | src/executor/node_runner.rs:1051-1197 | check, then apply what is pending; register and count |
| `NodeRunner.Runner.RunStepTasks` | src/executor/node_runner.rs:992-1198 | tasks in order up to the first failure |
| `NodeRunner.Runner.RunLoop` | src/executor/node_runner.rs:955-978 | a loop's items in order, each with its own variables |
| `NodeRunner.Runner.RunOneItem` | src/executor/node_runner.rs:123-141 | an item's variables are bound before and removed after |
| `NodeRunner.Runner.RunStepBody` | src/executor/node_runner.rs:943-978 | the `until=` gate, which a preview looks at and passes, then the loop or the tasks: what `rescue` covers |
| `NodeRunner.Runner.RunRescueTasks` | src/executor/node_runner.rs:678-701 | `rescue` runs on a failure, and otherwise leaves its variables undefined, or unknown in a preview |
| `NodeRunner.Runner.RunAlwaysTasks` | src/executor/node_runner.rs:703-717 | `always` runs either way, and the first failure stands |
| `NodeRunner.Runner.RunStartedStep` | src/executor/node_runner.rs:664-724 | a started step: body, failure variables, rescue, always, withdrawal |
| `NodeRunner.Runner.RunOneStep` | src/executor/node_runner.rs:616-722 | one step: tags, gate, skip or start |
| `NodeRunner.Runner.RunPlan` | src/executor/node_runner.rs:587-725 | the step loop on mutable fields is the chain of its steps up to the first failure |
| `NodeRunner.ChainEnds` | src/executor/node_runner.rs:719-724 | a failure ends the run where it happens |
| `NodeRunner.RunsUnderItsKey` | src/executor/node_runner.rs:1032-1039 | every task run asks under its own key, in whatever section and iteration |
| `Preview.GatesMatch` | src/executor/node_runner.rs:435-457 | what a preview's gate decides the run's gate decides alike or fails, exactly if it comes to a missing variable; and the run's always decides |
| `Preview.TasksMatchOne` | src/executor/node_runner.rs:1003-1198 | one task keeps the relation, also when the preview could not decide whether it runs |
| `Preview.StartedFrame` | src/executor/node_runner.rs:664-719 | a started step changes only what its tasks register, and leaves no failure variable behind |
| `Preview.BodiesMatchAt` | src/executor/node_runner.rs:943-978 | a body whose gates and loop look at nothing in doubt keeps the relation up to every task of every iteration |
| `PreviewPlan.UndecidedStep` | src/executor/node_runner.rs:631-650 | whatever the run does in a step the preview could not decide, a failure and its rescue included, the preview holds unknown every variable it may have set |
| `PreviewPlan.RescueKeeps` | src/executor/node_runner.rs:672-701 | `rescue`: when the preview did not fail, nothing `rescue` registers is in doubt, whether or not it ran in the run; when both failed and it looked at nothing in doubt, only the failure variables may differ on top; else what it registers may too |
| `PreviewPlan.StepsMatchOne` | src/executor/node_runner.rs:589-722 | one step both runs get through, rescued failures included, puts in doubt what `StepDoubt` says and nothing else |
| `PreviewPlan.PreviewSimulates` | src/executor/node_runner.rs:587-725 | whole plans: with the same verdicts, after any number of steps both runs get through, the relation holds for every name not in doubt; the names in doubt are among those told beforehand, by the preview or, when it looped over nothing unknown, by the plan alone; none is while nothing failed |
| `PreviewPlan.PreviewPredicts` | src/executor/node_runner.rs:376-416 | so a variable that neither the preview nor the plan puts in doubt, and the preview does not hold unknown, has its value or absence in the run, an unknown one still shown is defined there, and with nothing failed or undecided the counts agree |
| `PreviewPlan.DoubtIsForetold` | src/executor/node_runner.rs:664-719 | what may be in doubt can be told from the preview alone: no name is that is not |
| `PreviewPlan.PlanTells` | src/executor/node_runner.rs:664-719 | and, where the preview looped over nothing unknown, from the plan alone: what steps with `rescue` register, and steps that look at that |
| `PreviewPlan.NoRescueNoDoubt` | src/executor/node_runner.rs:664-719 | by a plan without `rescue` nothing is in doubt |
| `PreviewPlan.DoubtStepByStep` | src/executor/node_runner.rs:587-725 | nothing is in doubt at the start, and a step adds at most what it registers |
| `PreviewPlan.RescuedFailureDoubt` | src/executor/node_runner.rs:672-701 | a failure in the run alone that `rescue` makes good puts in doubt what the step's own tasks and `always` register, not what only `rescue` does |
| `PreviewPlan.RescuedFailureMisleads` | src/executor/node_runner.rs:672-701 | the doubt is real: a rescued failure after which the preview shows a variable the run does not have, and decides a later `defined` wrongly |
| `PreviewPlan.AtEachStep` | src/executor/node_runner.rs:604-630 | at every step both runs get to, a gate that looks at nothing in doubt decides alike |
| `PreviewPlan.AtEachTask` | src/executor/node_runner.rs:943-1198 | at every task both runs get to, of any step, iteration or section, that looks at nothing in doubt, the relation holds and the gate decides alike |
| `Globs.NameMatchesTable` | src/modules/file_tree.rs:79-107 | the table over glob and name positions decides the recursive definition |
| `Globs.NameMatchesIsRecursive` | src/modules/file_tree.rs:74-79 | which is: `*` any run of characters, `?` any one, anything else itself |
| `Globs.SegmentsMatchTable` | src/modules/file_tree.rs:111-130 | the table over pattern and path names decides the recursive definition |
| `Globs.SegmentsMatchIsRecursive` | src/modules/file_tree.rs:109-111 | which is: `**` any number of names, none included, any other name a glob for one |
| `Globs.MatchesLast` | src/modules/file_tree.rs:84-105 | the recursive matcher splits at a pattern's last element as the table's rows do |
| `FileTree.ExcludesPath` | src/modules/file_tree.rs:64-72 | the loop decides whether the path or a directory above it is excluded |
| `FileTree.ExcludedBelow` | src/modules/file_tree.rs:62-72 | whatever lies under an excluded path is excluded, for both kinds of pattern |
| `FileTree.NothingKeptBelow` | src/modules/file_tree.rs:186-188 | filtering the whole tree keeps nothing under an excluded directory |
| `FileTree.Walker.Go` | src/modules/file_tree.rs:144-196 | the walk that skips excluded directories comes across exactly what filtering the whole tree keeps, in that order |
| `FileTree.Walk` | src/modules/file_tree.rs:143-205 | sorted files and directories: exactly what can be reached and is not excluded; an error exactly when some directory that is not excluded cannot be read in full |
| `FileTree.WalkIsSource` | src/modules/file_tree.rs:143-205 | a walk's result is parent-closed, free of excluded paths, and no path is both a file and a directory |
| `Prune.FindStrays` | src/modules/file_tree.rs:246-285 | from any listing: files sorted, directories once each and deepest first, exactly the entries neither kept, excluded nor holding an excluded one |
| `Prune.HoldingDirs` | src/modules/file_tree.rs:253-260 | the chain of parents of every excluded entry is every directory above one |
| `Prune.PlanGoes` | src/modules/file_tree.rs:246-285 | a plan made from a host's listing is what has to go from that host |
| `Prune.DirsGo` | src/ssh/connection.rs:1395-1409 | directories deepest first, with all they hold among them, are each empty when their turn comes |
| `Prune.HolderStays` | src/modules/file_tree.rs:240-246 | whatever holds something that stays, stays |
| `Prune.PruneIsExact` | src/modules/file_tree.rs:246-285 | run in its order the plan never fails, and leaves exactly the kept, the excluded and the directories holding excluded entries, untouched |
| `Prune.PruneSettles` | src/modules/file_tree.rs:246-285 | afterwards every entry still stands in a directory and everything left is to stay |
| `Prune.NothingToPrune` | src/modules/file_tree.rs:223-230 | a plan is empty exactly when everything there is to stay: planning again gives nothing |
| `Modes.SameModeWhenSet` | src/modules/file_tree.rs:343-354 | a mode set is found as the same mode, whatever zeros it was written with |
| `Modes.KeptSetIds` | src/modules/file_tree.rs:343-354 | a mode with kept set-id bits is found to be the mode asked for exactly if the bits were its own, and stays when asked for again |
| `Modes.SetGroupIsKept` | src/modules/file_tree.rs:343-354 | 2755 asked for 0755 stays 2755 there |
| `Upload.MakeDirsGrows` | src/ssh/connection.rs:898-928 | `mkdir -p` over a closed set of directories makes the missing ones and nothing else |
| `Upload.Host.ListTree` | src/ssh/connection.rs:1368-1390 | the listing holds every entry under the destination with its kind |
| `Upload.Host.Remove` | src/ssh/connection.rs:1395-1409 | removals in order, stopping at the first the host refuses |
| `Upload.Host.CreateDirs` | src/ssh/connection.rs:900-928 | directories made one after the other |
| `Upload.Host.UploadFile` | src/ssh/connection.rs:956-989 | a write needs its directory and keeps an existing file's attributes |
| `Upload.Host.Change` | src/ssh/connection.rs:1439-1500 | one attribute command over a list of paths |
| `Upload.CheckPruneSource` | src/modules/file_tree.rs:361-381 | refused exactly for an empty source or a name the listing could not be told by |
| `Upload.ManagedStats` | src/modules/file.rs:515-561 | fails exactly when the destination is there and is no directory; else lists every path of the other kind |
| `Upload.BelowMismatch` | src/modules/file.rs:564-573 | the chain of parents decides whether a mismatched path is above |
| `Upload.PruneStrays` | src/modules/file.rs:605-651 | the plan to prune; on a link-free host the mismatched files are already in it |
| `Upload.NothingDiffers` | src/modules/file.rs:663-736 | all counts zero is being in sync: what each count skips another finds |
| `Upload.CheckRecurse` | src/modules/file.rs:653-745 | satisfied exactly when the host has every source path with its kind, content and attributes and, with `prune`, nothing more; errors exactly where the source or destination cannot be used |
| `UploadApply.LeftFits` | src/modules/file.rs:886-917 | once not refused, what is left after pruning nowhere has the other kind than the source |
| `UploadApply.SetTreeAttrs` | src/ssh/connection.rs:1439-1500 | owner and group first, modes last: every managed path ends with the attributes asked for, but for set-id bits of directories the host's `chmod` keeps |
| `UploadApply.UploadFiles` | src/modules/file.rs:932-950 | each file whose content differs is written, the others are not |
| `UploadApply.BlockedIsObstructed` | src/modules/file.rs:891-917 | the refusal finds exactly the mismatched paths `prune` is not to remove |
| `UploadApply.UploadedIsTree` | src/modules/file.rs:919-952 | the source's entries and what is left make a tree |
| `UploadApply.UploadedInSync` | src/modules/file.rs:919-952 | convergence: after an apply every source path has its kind, content and attributes, and with `prune` nothing is left to remove: for certain but for the modes of directories, and these exactly if no set-id bit is kept that is not asked for |
| `UploadApply.ChangedWhenPending` | src/modules/file.rs:918-969 | a change is reported exactly when attributes are managed or the check would not have been satisfied |
| `UploadApply.ApplyRecurse` | src/modules/file.rs:831-972 | an error comes exactly when the check fails or something in the way is not to be removed, and leaves the host as it was; otherwise the host ends in exactly the state `Uploaded` describes |
| `UploadApply.RestUntouched` | src/modules/file.rs:605-651 | excluded entries and, without `prune`, entries the source lacks stay as they were |
| `UploadApply.ApplyThenCheck` | src/modules/file.rs:653-972 | a second check after an apply is satisfied exactly if no managed directory keeps a set-id bit `dir-mode` does not ask for |
| `UploadApply.PlainModesHold` | src/modules/file.rs:653-972 | which it never does without `dir-mode`, or on a host whose `chmod` sets the whole mode |
| `Includes.ResolveVarsFiles` | src/config/plan.rs:437-509 | succeeds exactly when every file can be read, no name is reserved and none is set twice in or across files |
| `Includes.ReadVarsFile` | src/config/plan.rs:463-507 | one file, after those before it |
| `Includes.FirstWins` | src/config/plan.rs:588-593 | inserting where nothing is yet, the first map that has a variable gives its value |
| `Flatten.UnfoldsOnce` | src/config/plan.rs:521-618 | a plan's includes unfold into one tree at most |
| `Flatten.MergeTagsLoop` | src/config/tags.rs:31-39 | the loop appends the tags that are missing |
| `Flatten.MergeTagsUnites` | src/config/tags.rs:30-39 | the tags united, the step's own first |
| `Flatten.InnermostUserWins` | src/config/types.rs:67-75 | the innermost of the step and the plans it came through that names a user gives the user |
| `Flatten.TagsAreUnited` | src/config/plan.rs:598-601 | a step carries its own tags and those of every include it came through |
| `Flatten.Resolver.Items` | src/config/plan.rs:521-618 | terminates for any plan files, cyclic ones too; on success the steps in document order of the unfolded tree, layered, and the variables in preorder; an error only if no unfolding has all plan names new |
| `Flatten.Resolver.One` | src/config/plan.rs:545-613 | one include: read, refused for prompts or a name seen before, or inlined |
| `Flatten.CheckSteps` | src/config/plan.rs:409-430 | accepts exactly step lists with unique names that subscribe only to strictly earlier steps |
| `Flatten.ResolveIncludes` | src/config/plan.rs:385-432 | a plan resolves exactly when its includes unfold with every plan name once, its vars files are sound, its steps are in order and no prompt is a variable; the result is that unfolding's steps and variables |
| `Flatten.TwiceIsRefused` | src/config/plan.rs:571-578 | one plan included twice, which includes nothing, unfolds and is refused |
| `Flatten.VarsAreFirst` | src/config/plan.rs:588-593 | each variable, as a text or as a list, has the value of the first plan in preorder that sets it as that |
| `Flatten.NamesAreFirst` | src/config/plan.rs:588-593 | by name: a name is defined exactly when some plan sets it; what a `loop` and what `${name}` reads is what the first plan to set the name says, exactly when that plan sets it as the kind that is read or no plan does |
| `Flatten.BothKinds` | src/config/plan.rs:588-593 | a name ends up as both a text and a list exactly when some plan sets it as the one and some as the other |
| `Flatten.IncludedListOverText` | src/config/plan.rs:588-593 | the input: a text of the including plan, a list of the included one, and a `loop` that runs over the list |
| `Flatten.InlineOverFile` | src/config/plan.rs:490-505 | a plan's inline value wins over its vars files', as a text or as a list, which otherwise give it |
| `Flatten.InlineNameOverFile` | src/config/plan.rs:490-505 | by name: a name set inline is read as inline, exactly when it is set inline as the kind that is read or no vars file sets it as that |
| `Flatten.FileListOverInlineText` | src/config/plan.rs:490-505 | the input: an inline text and a vars file's list of one name |
| `Rollout.BatchSizes` | src/executor/rollout.rs:7-29 | sizes sum to the total, follow `serial` in order with its last value repeating, and are each at least 1 and at most what is left |
| `Rollout.ReasonToStop` | src/executor/rollout.rs:36-61 | there is a reason to stop exactly when more hosts failed than `max-fail` amounts to (a share rounded down, as for `serial`), or without it nobody in a batch succeeded; the reason carries those numbers |
| `Rollout.RunBatch` | src/executor/engine.rs:165-195 | one result a host, a panicked one counted as failed |
| `Rollout.RunBatches` | src/executor/engine.rs:57-84 | the batch loop: targets in order, no batch started once failures exceed the limit, cut short only then |
| `Rollout.Run` | src/executor/engine.rs:45-104 | succeeded, failed and aborted add up to the total; the started batches are a prefix of the targets and the aborted hosts the rest; the totals are sums over the results |
| `Rollout.FailuresBounded` | src/executor/rollout.rs:36-61 | failures end within the limit but for the last started batch |
| `Rollout.EveryHostRunsUnlessStopped` | src/executor/engine.rs:57-84 | a run not stopped ran every host |
| `Rollout.RunGroups` | src/executor/engine.rs:269-310 | group totals are sums over the groups that finished, and conserve hosts as each does |
| `EditDistance.EditDistance` | src/config/prompts.rs:85-100 | the row overwritten in place computes Levenshtein's recursion |
| `EditDistance.ZeroIsEqual` | src/config/prompts.rs:85-100 | the distance is zero only on equal texts |
| `EditDistance.Symmetric` | src/config/prompts.rs:85-100 | it is symmetric |
| `EditDistance.Triangle` | src/config/prompts.rs:85-100 | it obeys the triangle inequality |
| `EditDistance.NoFewerEdits` | src/config/prompts.rs:85-100 | no list of insertions, deletions and replacements from one text to the other is shorter |
| `EditDistance.EnoughEdits` | src/config/prompts.rs:85-100 | and some list is exactly that long |
| `EditDistance.Closest` | src/config/prompts.rs:77-83 | the first of the known names at the least distance, among those within two edits and fewer than their own length; none exactly when there is none |
| `TaskKeys.KeysAreDistinct` | src/executor/node_runner.rs:1032-1039 | task runs of a plan have the same key only when they are the same, across tasks, rescue and always |
| `HostCoordinator.HostCoordinator.CellFor` | src/executor/host_coordinator.rs:38-44 | one cell a key, the same for every caller |
| `HostCoordinator.HostCoordinator.GetOrRun` | src/executor/host_coordinator.rs:49-68 | the first outcome, a panic as an error, is stored and handed to every later caller |
| `HostCoordinator.EventKeepsInv` | src/executor/host_coordinator.rs:38-68 | every step of any caller keeps: a key's closure ran at most once, one caller at most is running it, and what was returned is what is stored |
| `HostCoordinator.RunsOnceForAll` | src/executor/host_coordinator.rs:38-68 | however callers interleave, no key's closure runs twice and every caller of a key is handed the same result, of one run |
| `HostCoordinator.SomeoneCanMove` | src/executor/host_coordinator.rs:49-68 | a caller holding a cell can go on, or the one filling it can |
| `SyncHostTasks.SomeHostCanMove` | src/executor/node_runner.rs:1225-1233 | barrier, permits and run-once cells together: no deadlock, also where a host with a permit waits for a cell another one fills |
| `SyncHostTasks.SyncRunWithHostTasksEnds` | src/executor/node_runner.rs:587-725 | a sync run with `host` tasks always ends, with every host gone unless only a failure could extend it, and no host task run twice |

## Left out

- SSH sessions, command execution and its failures, escalation and trusted paths, operating-system detection, and the package and disk modules: remote I/O.
- KDL parsing, inventory reading and command-line flags: the model starts from the typed plan, the template text and the condition text.
- `until=` timing and wait reports: the gate either opens or does not, and its command always runs.
- Secrets, decryption and redaction: values are as decrypted; what a failure reads as is a parameter.
- Console output, diffs, log files, events and message wording: errors are constructors; line numbers and byte offsets in template errors are not kept.
- Task cancellation and user abort: they drop seats, which is leaving.
- Barrier.StepBarrier.NewSeat: claims the invariant only for as many seats as the barrier was made for.
- Barrier.Seat.ArriveLocked: claims the invariant only for a seat that has not left; no runner arrives after leaving.
- What a module does with a step's `subscribe` trigger: a verdict depends only on where in the plan it is asked for.
- Symlinks, special files and non-directory destinations reached through links: `dir_links`, `PathKind::Link`.
- Checksums: contents are compared directly, so no two contents share a sum.
- Refusals of `/` as destination, paths too long for one command, and listings that are cut or garbled.
- The order in which `chmod` reaches directories is followed but nothing is claimed of it.
- `Exclude::new` and `file` option validation, prompt answers, tag filtering, amount parsing and `--serial`/`--max-fail` flags: settled by reading single branches.
- Windows path separators, and paths with `.` or a trailing `/` in `include` and vars-file joins.
- Wrap-around of `usize` counters and sizes.
- Upload.Host.Remove: when a removal fails, does not say what the commands before it and in the same batch had removed.
- Upload.Host.CreateDirs: when a directory is refused, does not say which others the same command made.
- Upload.Host.Change: when a path is missing, does not say which others the same command changed.
- Other habits of a host's `chmod`, `chown` and `mkdir`: a new directory's attributes are the host's usual ones, wherever it is made.
- TemplateCheck.CheckerSound: takes "the accepted names exist" as its hypothesis, so what each host defines is not derived from the inventory.
- PreviewPlan.PreviewSimulates: says nothing of the steps after one that fails for good, which do not run; and where preview and run fail in one step, holds in doubt all its own tasks register, also what they had registered alike before.
- PreviewPlan.MayDoubt: may hold more than will differ, as whether a task fails in the run is not known before.
