# Verification of the gate's task-tree algebra

This project models the part of the homelab repository's gate that other suites trust without
proof, and proves what it is trusted for.

- **Plans** (`gate/remove_plan.py`). A playbook is resolved into the steps one application's run
  takes: conditions on the application's identity are decided, hook files are inlined, and the
  phase files of a playbook are inlined without a trace. `PlanWalk` has the walk as a function of
  the flags it starts from, and as methods over the one flag set that all plays share.
  `WalkMeaning` says what every kind of condition, task and include comes to, in the texts the
  playbooks use; `Rewriting` what a step's texts depend on; `PlanMeaning` which flags a play's
  variables and its header are read under, and that a renamed instance changes no plan.
  `PhaseSplit` and `Plan` prove that moving tasks between a playbook and its phase files changes
  no plan. `PartialEvaluation` defines how Ansible runs the same tree, testing every condition
  when a task's turn comes, and proves that a plan whose walk is clean tells what the run does.
  `Exactness` proves that the check is exactly what is needed: it holds if and only if plan and
  run agree after every prefix, at every depth. `Hosts` and `HostExactness` do the same for a list
  that is planned under the flags a plan carries and run under those of a host, and `PlanSoundness`
  for a whole playbook, whose plays run on hosts that have facts of their own or are not there.
  `PhaseDifferences` and `Misleading` give inputs on which a plan changes or goes astray.
- **Paths** (`Text`, `Paths`, `Tasks`, `Rendering`). Include paths are texts: they are split at the
  first `{{`, joined to a directory, normalised and spelled relative to another directory,
  character by character. `Rendering` says what a moved text names once its template is rendered,
  and proves exactly which texts keep their name whatever they render to.
- **Part files** (`gate/task_parts.py`). `TaskParts` flattens tasks to leaves that carry their
  scope and proves that the leaves are exactly those that lie in the files, in document order,
  each with the keywords passed on the way to it. `Names` says what stems, roles, part imports and
  lookups come to, and `Scopes` that every keyword passed on the way shows in the leaves. `Chain`
  says exactly which includes notice a file on the way to them. `PartSplit` and `PartEquivalence` prove, include by include exactly,
  when splitting an entry file into parts leaves every resolved leaf unchanged, for a whole run;
  `PartDifferences` has entries for which it does not. `Parses` has the loader with parsed files as
  objects: splicing copies what it writes, and no call changes a cached parse.
- **Structure rules** (`gate/check-structure.py`). `Reach`, `Shared`, `Readme` and `Ratchet` hold
  the loops of the checker with their declarative meaning.
- **Firewall stand-in** (`gate/test-firewall-base.py`). `Firewall` holds the server object whose
  writes push backups onto a history of a hundred, and what can still be rolled back;
  `FirewallRuns` has what a run leaves in it: the active aliases, the last write under each name,
  the marks and the backups' names and contents.

Methods follow the source's loops and shared state and are tied to functions; lemmas then state
what the source promises about those functions. `fuel` bounds how deeply files may include each
other, where the source would run into its recursion limit; `WalkFacts.MoreFuel` shows that a plan
that is found does not depend on it, and the main results speak of every bound.

## Where the code and its promises part

- `walk` keeps a condition on a phase import and `expand` drops it
  (`PhaseDifferences.ConditionalImportDiffers`). `PhaseSplit.ConditionalImport` says exactly when that
  changes the plan.
- `rebase` moves the fully qualified include keys only, while `walk` also follows the short
  `include_tasks`. A phase file that includes a file beside it by the short key has a plan, and
  spliced into its playbook it has none (`PhaseDifferences.ShortIncludeDiffers`).
  `PhaseSplit.ShortClassifies` says exactly when such an include is the same to the plan.
- `expand` looks for a phase marker anywhere in a path and `walk` at the start of the path below the
  repository. In a repository checked out below a directory with a phase's name they differ on every
  import (`PhaseDifferences.MarkedElsewhereDiffers`); `PhaseSplit.PhaseClassifies` has the condition.
- Moving a text keeps the place its literal part names, not always the file it names. Where the
  literal part of a templated path does not end in a slash, the relative spelling can swallow its
  last piece: `b{{ x }}.yml`, moved from `r/a` to `r/a/b/c`, becomes `..{{ x }}.yml`
  (`Rendering.MovedTextMisleads`). `Rendering.RebaseKeepsName` has the exact condition. The plan does
  not show the difference, because it spells both the same (`Paths.TemplatedStable`).
- A hook that declares a flag under a condition that stays open sets the flag in the plan all the
  same, and a block's decided condition is not looked at again when a hook inside the block changes
  it, although Ansible tests it for every task, those of a dynamically included file too.
  `PartialEvaluation.Clean` is what a caller checks along the walk, and `Exactness.CleanIsExact`
  shows that nothing less will do; `Misleading.OpenDeclarationMisleads`,
  `Misleading.ChangedGuardMisleads`, `Misleading.ChangedGuardMisleadsInside` and, for the condition
  of a static import itself, `Misleading.ImportGuardMisleads` give runs that go astray without it.
- All plays of a plan share one flag set, while a fact belongs to the host it was set on. A flag
  declared on `localhost` keeps a step of a play on another host that its run skips
  (`PlanSoundness.OtherHostMisleads`). A play variable is decided when its play starts, although
  Ansible evaluates it at each use (`Misleading.StaleVariableMisleads`). `Exactness.StepIsExact` says,
  for both, exactly when a step is planned rightly; `HostExactness.CleanAtIsExact` says it for a
  section and `PlanSoundness.PlaybookIsExact` for a playbook.
- `inline` leaves a part import behind when a part imports a sibling part, because that path only
  names a part of the entry once it has moved (`PartDifferences.SiblingImportRemains`).
  `PartSplit.SpliceIsComplete` says exactly when.
- A part below a part has its paths moved twice (`PartDifferences.NestedPartDiffers`).
  `PartSplit.NestedPartMovesTwice` says exactly when that still names the same place.
- The suite that guards part files checks their static includes only. A templated include behind a
  literal prefix stays a leaf with its text, which splicing rewrites
  (`PartDifferences.TemplatedPartDiffers`); and a file below a part may find an include in the part's
  directory, which the spliced form no longer looks in (`PartDifferences.FileBelowPartDiffers`).
  `PartEquivalence.MoveUnseenIsExact` and `Chain.UnseenIsExact` say, include by include, exactly when
  nothing changes.
- Two pairs of documents can fall under one key of the shared-passage counter when a file name
  holds a space: a pair that shares nothing is then counted (`Shared.SpacedNamesMiscount`).
  `Shared.NamesDecideCounts` has the exact condition on the names.
- Two full phases of 80 writes exceed the history: the first phase's backup outlives both exactly
  when their writes total at most 99 (`Firewall.PhasesRollBack`).

## Model

| member | source | states |
|---|---|---|
| Paths.RelpathLeadsBack | gate/remove_plan.py:232 | a relative spelling, read against its base, leads to the path it spells |
| Paths.RebaseKeepsLiteral | gate/remove_plan.py:228-233 | read from the new directory, the literal part of a moved text names the place the old one named, with the same slash and template |
| Paths.RebaseComposes | gate/remove_plan.py:228-233 | moving a text twice gives the text of one move |
| Paths.UnmovedTextMoves | gate/remove_plan.py:228 | a relative text left unmoved names the same place from another directory exactly when both agree above the height it climbs to |
| Paths.TemplatedStable | gate/remove_plan.py:162-171 | a templated include reads the same in the plan after its file moved |
| Paths.TemplatedNames | gate/remove_plan.py:162-171 | as the plan spells it, a templated path reads the same from two directories exactly when its literal part names the same place |
| WalkMeaning.TemplatedIsSpelled | gate/remove_plan.py:162-171 | the plan spells the literal part of a templated path from the repository when its place is below it, else from the root, keeps its slash, and leaves a text that opens with a template alone |
| Paths.AbsoluteAnchors | gate/remove_plan.py:102 | what follows an absolute path is read from there, whatever directory the whole is joined to |
| Tasks.RebaseList | gate/remove_plan.py:220-235 | the loop over tasks and their block, rescue and always lists computes the rebased list |
| Tasks.RebaseListComposes | gate/remove_plan.py:220-235 | over whole task lists two moves are one |
| Tasks.RebaseMoves | gate/remove_plan.py:222-234 | of each task only the paths of the two fully qualified keys change, and those in all three lists of a block |
| Rendering.MovedNames | gate/remove_plan.py:228-233 | a moved literal part names the same for every value rendered after it exactly when it ends in a slash, in a name that is not on the way to the new directory, or in a dot the move keeps |
| Rendering.RebaseKeepsName | gate/remove_plan.py:228-233 | a moved include names the same file whatever its template renders to exactly when it has no template, opens with it, or has such a literal part |
| Rendering.OpeningClimbs | gate/remove_plan.py:230 | a text that opens with a template is kept, and rendered to a relative path names the same exactly when both directories agree above the height that path climbs to |
| Rendering.RebaseRoundTrip | gate/remove_plan.py:228-233 | a move and the move back give the normal spelling of the original, with the exact condition under which that names the same |
| Rendering.MovedTextMisleads | gate/remove_plan.py:232 | a templated text that names another file for every value after the move |
| Rendering.RebaseKeepsNames | gate/remove_plan.py:220-235 | at every nesting level each include names what it did and nothing else of any task changes, exactly when every templated include has such a literal part |
| PlanWalk.WalkTasks | gate/remove_plan.py:105-128 | the recursive walk over the shared flag set yields the specified steps and leaves the specified flags, or fails |
| PlanWalk.WalkOneTask | gate/remove_plan.py:111-159 | the same for one task: skipped, block, declaration, include or step |
| WalkMeaning.SubjectIsDecided | gate/remove_plan.py:56-72 | a comparison with a name or a list is decided by the instance for the subject that falls back on it and by the app for every other |
| WalkMeaning.HookFileIsDecided | gate/remove_plan.py:73-74 | a test for a hook file is true exactly when the role whose hooks run has that file |
| WalkMeaning.FlagIsDecided | gate/remove_plan.py:75-89 | the two flags are decided by what was declared; any other flag or text stays open |
| WalkMeaning.KeptAppend | gate/remove_plan.py:111-120 | conditions are decided one by one: a false one skips, true ones go, open ones stay in order |
| WalkMeaning.TaskWalks | gate/remove_plan.py:121-159 | a block is its main list, a hook task of flags only declares the literally true ones, and every other task without an include is one step with its own module and arguments |
| WalkMeaning.StaticIncludeWalks | gate/remove_plan.py:129-151 | an include of a plain path fails without its file, enters a statically imported phase without a trace, enters the detach tasks and, inside a hook, role files under their name, and is otherwise a step standing for a shared name or for the content |
| WalkMeaning.TemplatedIncludeWalks | gate/remove_plan.py:130-131 | a templated include that names no hook is one step with its spelled text |
| WalkMeaning.HookIncludeWalks | gate/remove_plan.py:99-147 | an include of a hook enters the file below the role whose hooks run, under its name there, and fails without it |
| WalkMeaning.AbsoluteHookWalks | gate/remove_plan.py:99-147 | the same for an absolute path behind the hooks, which is that file itself |
| WalkMeaning.GuardedHookWalks | ansible/tasks/removal/resolve-instance.yml:65-67 | a hook include behind the test for its file walks to that file's tasks when it is there, and otherwise adds no step, no flag and no failure |
| WalkMeaning.VarsAreAdded | gate/remove_plan.py:143-144 | the tasks of an entered file have the include's variables and their own, and their own win |
| WalkMeaning.InstanceIsUnused | gate/test-remove-hooks.py:90-91 | the instance changes nothing about the walk of tasks that never compare it |
| Rewriting.TextDepends | gate/remove_plan.py:75-76 | replacing a flag by its verdict gives two texts exactly when the text spells a test of the flag |
| Rewriting.StepDepends | gate/remove_plan.py:155-157 | the flags a step is read under are exactly those of the two whose verdict changes its arguments, variables or keywords |
| WalkFacts.MoreFuel | gate/remove_plan.py:105-159 | a plan that is found does not depend on the nesting bound |
| WalkFacts.InheritedIsPrefix | gate/remove_plan.py:113-123 | inherited open conditions are exactly a prefix of every step's own, and change no step, order or flag |
| WalkFacts.FlagsGrow | gate/remove_plan.py:125-128 | flags only grow, by declared names only, and every step's texts are read under flags between start and end |
| WalkFacts.StepsAreTraced | gate/remove_plan.py:130-159 | a step has the name, module, arguments and keywords of a task reached by inlining exactly the files of its `via`, in order, and its conditions are all undecided |
| PhaseSplit.ExpandList | gate/remove_plan.py:238-247 | the loop that splices phase files computes the expansion |
| PhaseSplit.PhaseFileByPath | gate/remove_plan.py:211-217 | a phase file is what a static import of a plain path names, exactly when its absolute path goes through one of the three places |
| PhaseSplit.RebasedClassifies | gate/remove_plan.py:129-151 | a moved include is the same to the plan: templated, phase, inlined or kept, with the same file and name |
| PhaseSplit.ShortClassifies | gate/remove_plan.py:228 | a short include, which is not moved, is the same to the plan from another directory exactly when it names a hook, opens with a template, has a literal part or a file in the same place, or names no file from either |
| PhaseSplit.RebaseWalks | gate/remove_plan.py:220-235 | moved tasks walk exactly as before, step for step, failures included |
| PhaseSplit.PhaseClassifies | gate/remove_plan.py:136 | a phase import of `expand` is one to the walk exactly when its file is there and stands at the repository's own phases |
| PhaseSplit.WalkFindsPhases | gate/remove_plan.py:238-247 | a walk that succeeds finds every phase file, so the list can be expanded |
| PhaseSplit.WalkThenMoved | gate/remove_plan.py:238-247 | the tasks of a phase file, spliced past the files between, walk as they do in place |
| PhaseSplit.WalkThenExpand | gate/remove_plan.py:238-247 | where the walk of a list succeeds, its expansion has the same steps and flags |
| PhaseSplit.ExpandThenWalk | gate/remove_plan.py:238-247 | the walk of an expanded list is the walk of the list with its phase files in place |
| PhaseSplit.SplitChangesNoPlan | gate/remove_plan.py:35-36 | a list of tasks and its expansion have the same plan, or have none, for phase files nested to any depth |
| PhaseSplit.ConditionalImport | gate/remove_plan.py:113-139 | a conditional phase import keeps its plan exactly when every condition is decided true, or the phase adds no step and, if skipped, no flag |
| PhaseDifferences.ShortIncludeDiffers | gate/remove_plan.py:228 | a phase file with a short include of a file beside it: the list has a plan, its expansion has none |
| PhaseDifferences.ConditionalImportDiffers | gate/remove_plan.py:238-247 | an open condition on a phase import is on the plan's step and gone from the expansion's |
| PhaseDifferences.MarkedElsewhereDiffers | gate/remove_plan.py:211-217 | in a repository below a directory with a phase's name, an import of any task file is one step before expansion and that file's steps after |
| PartialEvaluation.PlanIsSound | gate/remove_plan.py:105-159 | for every truth of the open conditions, the steps whose remaining conditions hold are in order the tasks a run executes, and the flags agree |
| PartialEvaluation.SectionIsSound | gate/remove_plan.py:199-201 | the same for a play section walked from nothing |
| Hosts.SoundAt | gate/remove_plan.py:105-159 | for a list planned under the carried flags and run under a host's, where the check holds, the plan's taken steps are the run's, and the host has the same flags whatever is open, all carried by the plan |
| HostExactness.CleanAtIsExact | gate/remove_plan.py:105-159 | for a section with a plan, that check holds exactly when this is so after every prefix and inside every block and file the plan or the host enters |
| HostExactness.CleanIsCleanAt | gate/remove_plan.py:191 | where the host has the flags the plan carries, the check holds for every list that is clean |
| PlanSoundness.PlaybookPlanIsSound | gate/remove_plan.py:184-208 | the same for the full plan against the run of all plays, each on its host and under its host's facts, plays without a host skipped; no host has a flag the plan does not carry |
| PlanSoundness.PlaybookIsExact | gate/remove_plan.py:184-208 | for a whole playbook, the check along the plays holds exactly when plan and run agree in every play whose host is there, after every prefix and at every depth |
| PlanSoundness.OtherHostMisleads | gate/remove_plan.py:191 | a flag declared on one host makes the plan keep a step that its run on another host skips |
| PartialEvaluation.Verdict | gate/remove_plan.py:111-120 | a task's guards and conditions all hold exactly when none is false and the undecidable ones hold, which is what the plan keeps open |
| PartialEvaluation.Quiet | gate/remove_plan.py:125-128 | behind an open condition a clean walk declares no flag |
| PartialEvaluation.Idle | gate/remove_plan.py:121-124 | behind a guard that has become false a clean walk does nothing |
| Exactness.CleanIsExact | gate/remove_plan.py:105-159 | for a list with a plan, what a caller checks along the walk holds exactly when plan and run agree after every prefix, here and inside every block and file entered, whatever the open conditions turn out to be, and the run enters none that the plan skips |
| Exactness.StepIsExact | gate/remove_plan.py:111-120 | a step with any conditions under any guards, planned under some flags and run under others, is planned rightly exactly when it is dropped if and only if a condition is false where it runs, and the flag sets agree on the flags its texts mention |
| Misleading.StaleVariableMisleads | gate/remove_plan.py:83-85 | a play variable that a hook changes after it was decided makes the plan keep a step the run skips |
| Misleading.OpenDeclarationMisleads | gate/remove_plan.py:125-128 | a flag declared under an open condition makes the plan keep a step the run skips |
| Misleading.ChangedGuardMisleads | gate/remove_plan.py:121-124 | a block whose own hook sets the flag its condition denies keeps a step the run skips |
| Misleading.ChangedGuardMisleadsInside | gate/remove_plan.py:140-147 | the same when the block includes the hook file dynamically, for every configuration that inlines it |
| Misleading.ImportGuardMisleads | gate/remove_plan.py:140-147 | the plan of a guarded hook file is the same for a dynamic include and a static import; where the hook sets the flag its guard denies, it is right for the include and keeps a step the import's run skips |
| Plan.PlanAll | gate/remove_plan.py:184-208 | the loop over plays with one shared flag set computes the playbook's plan |
| PlanMeaning.VariableIsDecided | gate/remove_plan.py:82-86 | a play variable is decided as its comparison was when the play started, and any other stays open |
| PlanMeaning.StepsAreWalked | gate/remove_plan.py:193-201 | the steps of a play are its first tasks' and then its tasks', walked under the flags the plays before it have left |
| PlanMeaning.HeaderIsReadAfter | gate/remove_plan.py:202-205 | a header has its play's name and variables, read under the flags known once that play's own tasks have been walked |
| PlanMeaning.PlanHeaders | gate/remove_plan.py:202-207 | the full plan has one such header a play, in order, and a selected plan has none |
| PlanMeaning.InstanceChangesNoPlan | gate/test-remove-hooks.py:90-91 | a renamed instance has the plan of the app's own, for every playbook that never compares the instance |
| Plan.SelectedPlanIsSlice | gate/remove_plan.py:204-207 | a selected plan is the slice of the full plan under the headers of the selected plays |
| Plan.PlanFlagsGrow | gate/remove_plan.py:191-203 | over all plays the flags only grow, and each header is read under flags in between |
| Plan.LoadPlays | gate/remove_plan.py:250-258 | the loop over plays and sections computes the expanded playbook: all three sections are expanded and nothing else changes |
| Plan.PlaysWalkExpanded | gate/remove_plan.py:250-258 | the plays of an expanded playbook have the segments and flags of the original |
| Plan.LoadedPlaybookHasSamePlan | gate/remove_plan.py:250-258 | a playbook and its expansion have the same plan for every app, instance and selection, or have none |
| TaskParts.EveryLeafIsListed | gate/task_parts.py:132-166 | every leaf of the files is listed, under exactly the keywords on the way to it |
| TaskParts.LeavesStandInOrder | gate/task_parts.py:132-166 | every listed leaf stands in the files, its scope is the way there, and the list follows document order |
| Scopes.EntryIsKeywords | gate/task_parts.py:116-117 | an entry is, word by word, the include's or role's own words, the conditions if there are any, the variables if there are any, and every other keyword |
| Scopes.EntriesDiffer | gate/task_parts.py:116-117 | two tasks have one entry exactly when conditions, variables and other keywords agree, and none exactly when they have none |
| Scopes.SectionsDiffer | gate/task_parts.py:140 | the marks of rescue and always differ from each other and from no mark |
| Scopes.BlockScope | gate/task_parts.py:137-143 | a block puts its entry over its three lists in turn, with a mark over the last two |
| Scopes.IncludeScope | gate/task_parts.py:144-155 | an include that is found puts its entry over the tasks of the file, and the file at the end of the chain |
| Scopes.RoleScope | gate/task_parts.py:156-165 | a role that is there puts its entry over the tasks of its file, which are then looked up as the role's |
| Scopes.ScopeIsPrefix | gate/task_parts.py:132-166 | what a list inherits is a prefix of every leaf's scope and decides nothing else |
| Scopes.KeywordsShow | gate/task_parts.py:16-20 | two blocks, includes or roles over the same tasks, with a leaf, resolve alike exactly when their entries are the same |
| Scopes.BlockShows | gate/task_parts.py:137-143 | two blocks of the same lists, with a leaf, resolve alike exactly when conditions, variables and other keywords are the same |
| Names.StemOf | gate/task_parts.py:66 | a name of a base, a dot and a suffix without one has the base as its stem |
| Names.OwnStem | gate/task_parts.py:66 | a name is its own stem exactly when it ends in a dot or has none after its first character |
| Names.RoleFileIsNamed | gate/task_parts.py:126-128 | a role's task file named without a suffix is the `.yml` file; one of the two suffixes stays and any other is replaced |
| Names.MainIsMain | gate/task_parts.py:126-163 | `main` and `main.yml` both lead to the role's `main.yml` |
| Names.PartIsBare | gate/task_parts.py:61-68 | exactly the static imports of a path below the entry's own name that have no keyword but a name are parts |
| Names.FoundIsFirst | gate/task_parts.py:109-113 | an include finds the first of these that is a file: beside its own file, beside each file above from the nearest on, in the role's tasks, beside the playbook |
| Names.PlaybookIsPut | gate/task_parts.py:104 | `{{ playbook_dir }}` becomes the playbook's directory, inside a role too |
| Names.RoleIsPut | gate/task_parts.py:105-108 | `{{ role_path }}` becomes the role's directory, and stays a template outside a role |
| Names.PlaybookPathIsFound | gate/task_parts.py:102-113 | a path from the playbook's directory is found there or nowhere, wherever the include stands |
| Names.RolePathIsFound | gate/task_parts.py:102-113 | a path from the role's directory is found there or nowhere, and outside a role never |
| Chain.UnseenIsExact | gate/task_parts.py:102-113 | taking a file out of the chain changes nothing about what an include finds exactly when the path stays a template, is found before that file's directory, is not there, or is found all the same without it |
| Chain.UnseenFlattens | gate/task_parts.py:132-166 | when no include met on the way down notices the file, the chain without it, a smaller depth and empty scopes give the same leaves |
| Parses.Loader.Load | gate/task_parts.py:47-54 | a file is parsed once, and then the same list is handed out, which stands for the tasks that were loaded |
| Parses.RebaseParsed | gate/task_parts.py:76 | moving parsed tasks makes a new list of copied mappings that stands for the moved tasks, and writes nothing that was there |
| Parses.Loader.SpliceList | gate/task_parts.py:71-81 | the loop makes a list and mappings of its own, over shared values, that stands for the spliced list; every cached list is the same object and stands for what was loaded |
| Parses.Loader.SpliceNode | gate/task_parts.py:72-80 | a task that is no part import becomes one new mapping that shares its untouched values |
| Parses.DeepCopy | gate/task_parts.py:87 | the copy stands for the same tasks and shares no list, mapping or value |
| Parses.Loader.Inline | gate/task_parts.py:84-87 | an entry is inlined to its spliced tasks, which share nothing with the cache, and every cached parse stays as loaded |
| Parses.InlineEach | gate/task_parts.py:84-87 | over any sequence of calls each entry is inlined to its own spliced tasks and every cached parse stays the list that was loaded |
| Parses.WriteInlined | gate/task_parts.py:52-54 | a caller that writes to an inlined list leaves every cached parse as it was loaded |
| PartSplit.SpliceIsComplete | gate/task_parts.py:71-81 | with one level of parts splicing succeeds, and a part import remains exactly when a part imports a sibling |
| PartSplit.NestedPartMovesTwice | gate/task_parts.py:76 | the literal part of a nested part's path, moved by the inner and then the outer part's directory, names the same place exactly when the text written first climbs to where the outer part's and the entry's directories agree |
| PartDifferences.PartIsSpliced | gate/task_parts.py:71-81 | an entry `<stem>.yml` with the bare import of `<stem>/<file>` is spliced to that file's own tasks, spliced in turn and moved to the entry |
| PartEquivalence.MoveUnseenIsExact | gate/task_parts.py:71-81 | a part's include and the moved one find the same file, or stay the same leaf, exactly when the first directory from which each text names a file gives the same one, or no directory gives either one and the text is unchanged |
| PartEquivalence.TextStays | gate/remove_plan.py:228-233 | moving leaves a text as it is exactly when it opens with a template, or its literal part names the same place from both directories and is spelled normally |
| PartEquivalence.TemplatedMove | gate/task_parts.py:107-108 | for an include that stays a template the move is unseen exactly then |
| PartEquivalence.StaticMove | gate/task_parts.py:109-113 | for a static include the move is unseen exactly when its file is there, read from the part's directory, or further up both texts first name the same file, or none and the text is unchanged |
| PartEquivalence.UnmovedMove | gate/task_parts.py:102-113 | for an include that is not moved it is unseen exactly when its path stays a template, names one place from both directories, a file from neither, or from one of them only a file that is also the first it names further up |
| PartEquivalence.MovedIsFound | gate/task_parts.py:76 | an include whose file is there, read from the part's directory, finds it in both forms |
| PartEquivalence.MovedFlattens | gate/task_parts.py:71-81 | a part's tasks, moved to the entry unseen, resolve to the same leaves as in the part |
| PartEquivalence.ResolverIgnoresParts | gate/task_parts.py:18-20 | an entry whose parts can be moved unseen and its spliced form resolve to the same leaves, order and scopes, empty scope entries aside |
| PartEquivalence.UnsplitResolvesTheSame | gate/task_parts.py:16-20 | with the entry file replaced by its spliced form, every list that reaches it at any depth resolves to the same leaves, if wherever it is reached the parts can be moved unseen |
| PartDifferences.TemplatedPartDiffers | gate/task_parts.py:76 | an entry that imports a part with `../{{ x }}.yml` and its spliced form resolve to different leaves, for every such entry |
| PartDifferences.FileBelowPartDiffers | gate/task_parts.py:109-113 | an entry that imports a part, accepted by the suite, whose include leads to a file that finds an include under the part only: its spliced form resolves differently |
| PartDifferences.SiblingImportRemains | gate/task_parts.py:71-81 | an entry whose part imports a sibling part is spliced to an import of that part |
| PartDifferences.NestedPartDiffers | gate/task_parts.py:76 | an entry with a part below a part whose include names another file after splicing |
| Order.Sorted | gate/check-structure.py:128 | a set of names in strictly increasing order |
| Order.LessIsLexical | gate/check-structure.py:128 | the order is the one by the first differing character, a text before those it begins |
| Reach.MeasureReach | gate/check-structure.py:100-116 | exactly the documents no chain of links from the root leads to are reported, in order; the loop terminates |
| Reach.DocsAreMarkdown | gate/check-structure.py:101 | the documents are the tracked Markdown files but the three that are skipped |
| Shared.Index | gate/check-structure.py:119-125 | the index holds a document under a passage exactly when the passage is in it |
| Shared.MeasureShared | gate/check-structure.py:119-132 | every key counts the passages that two documents under it share, and is absent when there are none |
| Shared.PassagesAreTwelveWords | gate/check-structure.py:123-125 | the passages of a document are exactly its runs of twelve words, joined by one space |
| Shared.CountIsSharedWindows | gate/check-structure.py:119-132 | the count under a pair's key is the number of distinct twelve-word windows in both documents, plus the hits of other pairs with that key |
| Shared.NamesDecideCounts | gate/check-structure.py:119-132 | every count is its pair's own, whatever words the documents hold, exactly when no two ordered pairs of them have one key |
| Shared.PlainNamesHaveDistinctKeys | gate/check-structure.py:131 | file names without spaces have keys of their own |
| Shared.SharedKeyMiscounts | gate/check-structure.py:131 | of two pairs with one key, one that shares nothing is counted once for some words |
| Shared.SpacedNamesMiscount | gate/check-structure.py:131 | four file names and their words for which a pair that shares nothing has count one |
| Readme.Maps | gate/check-structure.py:88-95 | the upward loop decides whether the closest README above exists and names the directory |
| Readme.DirsHoldFiles | gate/check-structure.py:80-81 | the directories looked at are those that hold a tracked file or a directory that does |
| Readme.SkippedByPlace | gate/check-structure.py:84 | skipped are exactly two directories with all below them and what stands below a top directory that starts like one of the hidden ones |
| Readme.MeasureReadme | gate/check-structure.py:79-97 | the names of the directories that are not skipped, have no README and are not named by the closest one above, in increasing order |
| Ratchet.CompareTable | gate/check-structure.py:182-191 | the problems of a counted kind are exactly the new, grown and stale exceptions |
| Ratchet.CompareList | gate/check-structure.py:192-198 | the problems of a listed kind are exactly the new and stale exceptions |
| Ratchet.Compare | gate/check-structure.py:181-198 | every deviation is reported and nothing else: for each kind the keys measured only, recorded only, and above their ceiling; and none means clean |
| Ratchet.CleanHasNoProblem | gate/check-structure.py:181-198 | there is no problem exactly when recorded keys are the violating keys and every value is at most its ceiling |
| Ratchet.UpdateIsClean | gate/check-structure.py:173-179 | recording the printed values makes the next run clean exactly when no new pair shares a passage |
| Ratchet.CleanUpdateTightens | gate/check-structure.py:173-179 | from a clean state the update keeps every key, raises no ceiling and is idempotent |
| Ratchet.CeilingsNeverRise | gate/check-structure.py:12-13 | over any history of clean states and updates no ceiling rises and no exception is added |
| Ratchet.FinalIsLast | gate/check-structure.py:173-179 | after any history of updates the last measurement is recorded, of the shared pairs those recorded at first and measured every time |
| Ratchet.HistoryRaises | gate/check-structure.py:173-179 | over any history no shared pair is added, and another exception is added or a ceiling rises exactly when the last measurement is new or has grown against the first record, for a shared pair if it was measured every time |
| Firewall.NamesAreDistinct | gate/test-firewall-base.py:203 | no two backups ever share a name |
| Firewall.Server.constructor | gate/test-firewall-base.py:185-222 | the configured server starts with one backup of its rules and aliases |
| Firewall.Server.RecordBackup | gate/test-firewall-base.py:201-210 | the live configuration is pushed as the newest of at most a hundred backups |
| Firewall.Server.SetAlias | gate/test-firewall-base.py:99-106 | an alias write stores the alias and records a backup |
| Firewall.Server.SetRule | gate/test-firewall-base.py:132-139 | a rule write stores the rule and records a backup |
| Firewall.Server.DelRule | gate/test-firewall-base.py:140-145 | a deletion removes the rule, marks legacy ones and records a backup even when nothing was there |
| Firewall.Server.RevertBackup | gate/test-firewall-base.py:82-90 | the named backup is restored, an unknown one refused, and the history stays |
| Firewall.RunIsOrdered | gate/test-firewall-base.py:185-212 | in every reachable state identifiers run down from the newest, at most a hundred, and until a revert the newest is the live configuration |
| Firewall.ReachableIsOrdered | gate/test-firewall-base.py:185-212 | the same from the configured server on |
| Firewall.HistoryIsDistinct | gate/test-firewall-base.py:203-209 | no two kept backups share a name |
| Firewall.RunHistory | gate/test-firewall-base.py:201-210 | after any requests the history is their backups, one a write, before the old ones, cut to a hundred |
| Firewall.BackupSurvives | gate/test-firewall-base.py:209 | a backup at the head can be found exactly while at most 99 writes follow |
| Firewall.RollbackRestores | gate/test-firewall-base.py:507-510 | reverting to it restores that moment's rules and aliases exactly when the head was the live configuration then |
| Firewall.PhasesRollBack | gate/test-firewall-base.py:397-398 | each phase of at most 80 writes can be rolled back to its own start; the first backup outlives both exactly when their writes total at most 99 |
| Firewall.RevertHolds | gate/test-firewall-base.py:82-90 | after a revert the live configuration is the reverted one until the next write, which records it with that write in it in front of the history |
| FirewallRuns.ActiveIsReloaded | gate/test-firewall-base.py:107-109 | over every run the active aliases are the configured ones as they stood at the last reconfiguration |
| FirewallRuns.ActiveStays | gate/test-firewall-base.py:74-149 | a run without a reconfiguration leaves the active aliases alone |
| FirewallRuns.RevertIsReloaded | gate/test-firewall-base.py:82-109 | after a revert to a kept backup the active aliases stay until a reconfiguration, and are then that backup's until the next one |
| FirewallRuns.LastWriteStands | gate/test-firewall-base.py:99-145 | over every run an alias or rule is what was last written under its name, and a rule last deleted is gone, until a revert |
| FirewallRuns.BackupHoldsItsMoment | gate/test-firewall-base.py:201-210 | every backup holds the rules and aliases as its write left them, at the place the number of later writes gives |
| FirewallRuns.MarksAreExact | gate/test-firewall-base.py:82-148 | over every run a mark is set exactly when some apply, revert to a kept backup, or deletion of a legacy rule that was there has set it |
| FirewallRuns.NameHasNumber | gate/test-firewall-base.py:196-203 | the first backup has no number in its name and the others theirs, in at least four digits, without a zero in front where there are more |
| FirewallRuns.ConfiguredServer | gate/test-firewall-base.py:185-222 | from the configured server on, its configuration is found under the name without a number exactly while at most 99 writes follow, its aliases are active until a reconfiguration, and it starts without a mark |

## Left out

- YAML parsing, Jinja rendering, regular expressions, git, subprocesses and the file system: parsed trees, a file map, extracted links, word lists and README mentions are inputs.
- Paths are absolute and free of symlinks; a leading double slash, which POSIX may treat specially, is read as one. A hook file is looked up below the hook directory with `.` and `..` normalised.
- The character-level text of `substitute`: conditions have the whole-condition forms `decide` recognises, and a step carries its texts together with the flags they are substituted under instead of the substituted text.
- An open condition has one truth on each host for a whole run; a condition whose text mentions a flag beside other things, `hostvars` of another host among them, is such an open condition.
- Plays on several hosts at once, delegation, and facts set for another host: a play has one host or none.
- Loops, registered results and facts other than the two flags in the run that plans are compared with; a flag fact that is not a literal has one truth on each host for a whole run.
- The short keys `set_fact` and `import_tasks`: the plan reads both as ordinary modules, and so does the run here, where they set no flag and read no file although Ansible's do.
- Tasks after a play's `tasks`, handlers and roles, which the plan leaves out; the run it is compared with leaves them out too.
- Rescue and always in the walk, which follows only the main block; they are kept in `rebase` and in the resolver.
- A mapping as the value of a fully qualified include in `remove_plan`, which the source turns into text before reading it: the walk fails there, also when that text would hold a template.
- Aliasing within one task in `Parses`: all values of a mapping but its nested lists and its include path are one shared object. `remove_plan` parses afresh, so its lists are values throughout.
- Names of flags used otherwise: no play, task, include or extra variable carries the name of a flag.
- Directories on disk: a path with `..` is normalised as text, so `dir/../x` is a file here even where `dir` does not exist.
- Braces in directory names and in the literal part of a moved path, which would be read as part of a template.
- The lines the resolver prints for plays, sections and roles, and `import_playbook`: results are for the task lists below them.
- Parts that import parts of the same entry: splicing follows the source to any depth, but the equivalence is for one level, as the part suite requires.
- The other direction past the depth limit: leaves are compared wherever the split form resolves, and the spliced form, one level less deep, may resolve where the split one fails.
- Ratchet.Compare: gives the problems in some order and without their wording; the catalogue and role checks and the counting of exceptions are left out.
- Reach.MeasureReach: takes each document's link targets already resolved against its directory.
- `measure_size`, `measure_literal` and `budget`: their values are inputs of the ratchet.
- HTTP transport, authentication, searches, injected failures and nested request bodies of the firewall stand-in: fields arrive flattened and a new entry's identifier is a parameter.
- The per-application suites and the other gate scripts: assertions on fixed files, or short recursions that would only add easy members.
