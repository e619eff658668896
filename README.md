# Job scheduling, job-spawning rules, container permissions and DICOM reaping

A Dafny model of four small, deterministic cores of a research-data backend
(projects, sessions and acquisitions of imaging data) and of the reaper that
pulls scanner data into it:

- **Job state machine and queue** (`jobs.dfy`, module `Jobs`, from `jobs.py`).
  Jobs move `pending → running → failed | complete`. The transition table holds
  keys of the form `"from --> to"`. `Next` atomically claims the pending job
  modified most recently, sets it running and stamps the time. `Put` refuses
  missing jobs, jobs not in a mutable state, and state changes that are not an
  edge of the table from the *stored* state. Otherwise it merges the mutation
  and stamps the time. The collection is a class `JobStore` holding
  `map<int, Job>`; the current time is a parameter. Alongside it: a one-step
  relation `Step` over store snapshots, and lemmas over whole runs of calls
  (terminal jobs are frozen; states move only along the table).
- **Job-spawning rules** (`rules.dfy`, module `Rules`, from `api/rules.py`).
  A rule has an `any` list, an `all` list and an algorithm name. A match entry
  is one of five kinds. Rules are evaluated for a new file, with the errors the
  source raises: a missing document key, an unknown match kind, a dangling
  session or project link. Creating jobs runs the project's rules and then the
  three hardcoded ones, in order, and queues one job per rule that holds. The
  hierarchy walk follows session links before project links.
- **Container permission checkers** (`containerauth.dfy`, module
  `ContainerAuth`, from `api/auth/containerauth.py`). Three decision tables
  over the method, the container's public flag, whether a target parent was
  given, and the user's access levels. Two wrappers rewrite a listing query in
  place: a class `Query` whose `entries` map they reassign.
- **Reaping bookkeeping** (`reaper.dfy`, module `Reaper`, from `reaper.py`).
  `Series.Reap` is the per-series state machine over the image count, the
  needs-reaping flag and the failure count. A series is abandoned after ten
  incomplete pulls. `Exam.Reap` reconciles the tracked series with the
  scanner's latest listing. `Exam.NeedsReaping` is the aggregate over the
  tracked series. `DicomDataset.Anonymize` blanks the patient name and
  redacts the birth date.

`wrappers.dfy` holds the shared `Option` and `Result` types.

Inputs that come from outside the core are parameters:

- the current time of `Next` and `Put`;
- the shell-glob matcher used for `file.name` (`glob`);
- the sessions and projects collections (maps);
- the access levels the permission lookup returns, and the role constants;
- the handler's `public` request parameter;
- for a series: the image count an SCU move delivered and whether the upload
  succeeded;
- the reaper's `alive` flag.

## Where the code and this model differ

`jobs.py` does not run as written. The model follows what the code evidently
intends:

- `validTransition` names an undefined `tosState`. The model uses `toState`.
- `Job.put` has a syntax error in its abort message (jobs.py:92), and it
  concatenates a string with an integer (jobs.py:89). Neither affects the
  decision that is modelled.
- `Jobs.next` matches and sets a field `status`, while `Job.put` reads `state`.
  The model has one field, `state`, used by both.
- `Job.put` stamps `timestamp`, while `Jobs.next` stamps `modified`. The model
  has one time field, `modified`, stamped by both.
- `Job.put` on a missing id would fail on `None['state']`. The model rejects
  it with `NotFound`.
- `Job.put` passes the mutation to `update_one` as a plain document, not as
  a `$set` update. The model gives the write `$set` semantics: the
  mutation's fields are merged into the stored job and the other fields stay.

In three places the model follows the code where a reader might expect
otherwise:

- Ties between equally recent pending jobs are not broken by id. The code
  leaves the order to the store's sort, so `Next` may pick any newest pending
  job.
- `Job.put` reports no conflict error. Its `update_one(job, mutation)` filters
  on the whole document read at jobs.py:87, so after a concurrent change the
  write silently matches nothing. Calls are modelled as atomic, so that case
  does not arise in the model.
- `container.has-type` is commented as matching a file *type*. The code tests
  each file's *measurements* list, and so does the model.

## Model

| member | source | states |
|---|---|---|
| `Jobs.ValidTransition` | jobs.py:35-36 | membership of the `from --> to` key in the transition table; characterised for all strings by `TransitionEdges` |
| `Jobs.IsMutable` | jobs.py:22-25 | membership in the list of states that may be changed; characterised by `MutableExactly` |
| `Jobs.KeyInjective` | jobs.py:35-36 | a `"from --> to"` key built from space-free state names determines both names |
| `Jobs.TransitionEdges` | jobs.py:27-36 | a transition is valid iff it is pending→running, running→failed or running→complete, for any strings |
| `Jobs.ValidTransitionExactly` | jobs.py:27-36 | the three edges exactly; no self-transition; nothing out of failed or complete; every edge starts in a mutable state and joins two of the four states |
| `Jobs.MutableExactly` | jobs.py:14-25 | only pending and running are mutable; terminal states are not |
| `Jobs.NewestPendingIn` | jobs.py:61-69 | among the pending jobs of any finite set of ids, one has the greatest `modified` |
| `Jobs.NewestPendingExists` | jobs.py:61-69 | whenever a job is pending, a pending job with the greatest `modified` exists, so the sorted claim always has a candidate |
| `Jobs.Claimed` | jobs.py:61-71 | after a claim the job is running, stamped `now`, keeps its other fields; no other job changes; no job is added or removed |
| `Jobs.Merged` | jobs.py:97-102 | an accepted mutation overrides every supplied field, keeps every other field, sets the state if one was given, and stamps `now` |
| `Jobs.PutCheck` | jobs.py:87-95 | rejection reasons in the source's order: not found; not mutable (naming the state); transition not allowed (naming both states, judged from the stored state); accepted iff the job exists, is mutable, and gives no state or a valid transition |
| `Jobs.AfterPut` | jobs.py:80-102 | a rejected put leaves the store unchanged; an accepted one changes only that job, to the merged record |
| `Jobs.StepMovesForward` | jobs.py:52-102 | one `Next` or `Put` never adds or removes a job; a job's state either stays or follows a table edge; a job not in a mutable state is not changed at all |
| `Jobs.StepKeepsModifiedOrder` | jobs.py:61-102 | when the call's time is no earlier than any stamp in the store, one `Next` or `Put` never lowers a job's `modified` |
| `Jobs.ClaimAdvancesModified` | jobs.py:61-68 | a claim at a time later than the job's stamp strictly raises its `modified` |
| `Jobs.ModifiedNeverDecreases` | jobs.py:61-102 | over any run of calls whose clock never goes back, each job's `modified` never decreases |
| `Jobs.TerminalJobsFrozen` | jobs.py:61-95 | over any run of calls, a job that is failed or complete stays exactly as it was |
| `Jobs.ClaimedOnce` | jobs.py:52-71 | claiming the only pending job leaves no pending job, so a second claim finds no work |
| `Jobs.JobLifecycle` | jobs.py:52-102 | a pending job cannot be completed directly; once claimed it can be completed with a result; once complete it refuses a change to failed |
| `Jobs.JobStore.Count` | jobs.py:48-50 | the number of stored jobs |
| `Jobs.JobStore.Get` | jobs.py:77-78 | the stored job for an id, or none iff the id is absent |
| `Jobs.JobStore.Next` | jobs.py:52-71 | with no pending job returns none and changes nothing; otherwise returns a previously pending job whose prior `modified` is at least that of every pending job, now running with `modified = now`, every other job unchanged |
| `Jobs.JobStore.Put` | jobs.py:80-102 | its rejection is `PutCheck` of the stored job; the store becomes `AfterPut`, which is one `Step` of the state machine |
| `Rules.HasMeasurement` | api/rules.py:92-97 | the only error of the `container.has-type` scan is a file without a measurements key |
| `Rules.HasMeasurementExactly` | api/rules.py:92-97 | when every file has measurements, `container.has-type` holds iff some file lists the parameter among its measurements |
| `Rules.EvalMatch` | api/rules.py:62-99 | an unknown match kind, and only that, raises the unimplemented-type error; `file.type` holds iff the file has that type and `file.measurements` iff it lists that measurement, both false rather than raising when the key is missing |
| `Rules.FirstMatch` | api/rules.py:107-118 | the `any` scan: the first entry that matches gives true, the first that raises before a match gives its error, none gives false; characterised by `FirstMatchExactly` |
| `Rules.EveryMatch` | api/rules.py:120-125 | the `all` scan: the first entry that fails gives false, the first that raises before a failure gives its error, else true; characterised by `EveryMatchExactly` |
| `Rules.RuleOutcome` | api/rules.py:102-125 | a non-empty `any` list must match before the `all` list is scanned; characterised by `RuleOutcomeExactly` and computed by `EvalRule` |
| `Rules.FirstMatchExactly` | api/rules.py:107-118 | without errors, the `any` scan holds iff some entry matches |
| `Rules.EveryMatchExactly` | api/rules.py:120-125 | without errors, the `all` scan holds iff every entry matches |
| `Rules.RuleOutcomeExactly` | api/rules.py:102-125 | without errors, a rule holds iff (`any` is empty or one of it matches) and every `all` entry matches |
| `Rules.RuleOutcomeEmpty` | api/rules.py:108-125 | a rule with empty or absent `any` and `all` always holds |
| `Rules.RuleOutcomeAnyMiss` | api/rules.py:108-118 | a non-empty `any` list none of whose entries match makes the rule false, whatever `all` holds |
| `Rules.EvalRule` | api/rules.py:102-125 | the loop with its early exits computes the rule's outcome, including which error is raised first |
| `Rules.Spawn` | api/rules.py:143-150 | the evaluation loop over a rule list: the names queued, in order, and the error that stopped it; at most one name per rule; characterised by `SpawnSound`, `SpawnComplete`, `SpawnCount` and `SpawnAppend` |
| `Rules.SpawnSound` | api/rules.py:143-150 | every queued name is the algorithm of a rule that holds |
| `Rules.SpawnComplete` | api/rules.py:143-150 | without an error, every rule that holds has an algorithm and that algorithm is queued |
| `Rules.SpawnCount` | api/rules.py:143-150 | without an error, the number of jobs queued equals the number of rules that hold |
| `Rules.SpawnAppend` | api/rules.py:137-148 | rules `a` then `b` queue `a`'s jobs and then, unless `a` raised, `b`'s |
| `Rules.FileTypeRule` | api/rules.py:38-57 | a rule whose only entry is an `all` file-type match holds iff the file has that type |
| `Rules.HardcodedSpawn` | api/rules.py:38-57 | the hardcoded rules never raise; a DICOM file queues the MR classifier and the converter, a NIfTI file the fMRI QA report, any other file nothing |
| `Rules.GetRulesForContainer` | api/rules.py:153-165 | follows a session link before a project link up to a root and returns its rules or `[]`; a dangling link raises; the fuel bound ends a cyclic walk; see `RulesFuelMonotone` and `AcquisitionRules` |
| `Rules.RulesFuelMonotone` | api/rules.py:153-165 | once the hierarchy walk reaches a root, a longer bound gives the same answer |
| `Rules.AcquisitionRules` | api/rules.py:153-165 | an acquisition resolves through its session to the project's rules (or `[]` when it has none), ignoring its own project link |
| `Rules.CreateJobs` | api/rules.py:128-150 | a failed hierarchy walk queues nothing; otherwise the project's rules and then the hardcoded rules are evaluated in order, one job is queued per rule that holds, the result is the queued names, and an error keeps the jobs queued before it; when the container is itself a root with a rules list, its rules grow by the hardcoded rules (the append reaches the caller's list), and otherwise it is unchanged |
| `Rules.CreateJobsTwice` | api/rules.py:137-165 | after one call on a root project with a rules list, the walk returns its rules plus the hardcoded ones, so a second call for a DICOM file queues the classifier and the converter twice |
| `ContainerAuth.DefaultContainer` | api/auth/containerauth.py:11-45 | the operation runs, with its own result, iff `default_container` allows the request; otherwise the response is a 403 abort |
| `ContainerAuth.CollectionPermissions` | api/auth/containerauth.py:48-73 | the operation runs iff `collection_permissions` allows; otherwise 403 |
| `ContainerAuth.PublicRequest` | api/auth/containerauth.py:77-88 | the operation runs iff the method is GET and the container is public; otherwise 403 |
| `ContainerAuth.DefaultContainerAllows` | api/auth/containerauth.py:19-38 | the `has_access` decision of `default_container`; spelled out by `DefaultContainerTable` |
| `ContainerAuth.CollectionAllows` | api/auth/containerauth.py:55-66 | the `has_access` decision of `collection_permissions`; spelled out by `CollectionTable` |
| `ContainerAuth.PublicAllows` | api/auth/containerauth.py:83 | a public request may only GET a public container; see `PublicIsNarrowest` |
| `ContainerAuth.DefaultContainerTable` | api/auth/containerauth.py:19-38 | public GET always allowed; private GET needs ro on the container; POST needs admin on the parent; DELETE needs admin on the parent if given, else on the container; PUT with a parent needs admin on both, without a parent rw on the container; any other method is denied |
| `ContainerAuth.CollectionTable` | api/auth/containerauth.py:55-66 | GET needs public or ro; POST is always allowed; DELETE needs admin; PUT needs rw; any other method is denied |
| `ContainerAuth.DecisionsMonotone` | api/auth/containerauth.py:19-86 | raising the user's access levels never turns an allowed request into a denied one, under all three checkers |
| `ContainerAuth.PublicIsNarrowest` | api/auth/containerauth.py:77-86 | whatever a public request may do, the other two checkers allow for any user |
| `ContainerAuth.AdminMayDoAll` | api/auth/containerauth.py:19-66 | with ro ≤ rw ≤ admin, admin on the container and the parent allows GET, POST, DELETE and PUT under both checkers |
| `ContainerAuth.PermissionQuery` | api/auth/containerauth.py:96-98 | the query requires the user's permission entry, or, with the public parameter set, an `$or` of `public: True` and that entry with no top-level `permissions` key; every other key is kept |
| `ContainerAuth.ListPermissionChecker` | api/auth/containerauth.py:90-101 | a listed user that differs from the requester in id or site is refused with 403 and the query is untouched; otherwise the query becomes `PermissionQuery` and the listing runs |
| `ContainerAuth.PublicQuery` | api/auth/containerauth.py:104-107 | `public: True` is added iff `public` is set; every other key is kept |
| `ContainerAuth.ListPublicRequest` | api/auth/containerauth.py:104-109 | the query becomes `PublicQuery` (unchanged without `public`) and the listing always runs |
| `Reaper.SeriesStep` | reaper.py:294-322 | a changed count restarts monitoring: the new count, needing reaping, no failures, result false. An unchanged zero count while needing reaping clears the flag with no pull. An incomplete pull adds one failure and ends reaping once failures exceed nine. An upload failure changes nothing. The result is true iff a pull was attempted and complete and the upload succeeded, and then reaping ends. With an unchanged count and nothing to reap nothing changes |
| `Reaper.IncompletePulls` | reaper.py:316-321 | over reaps with an unchanged count and incomplete pulls, the series still needs reaping iff it did, its count is non-zero, and its failures stay at most nine |
| `Reaper.AbandonedAfterTenIncompletePulls` | reaper.py:316-321 | ten incomplete pulls of an unchanged series always end its reaping |
| `Reaper.SettledSeriesStays` | reaper.py:294-322 | a series that no longer needs reaping is left alone while its count does not change |
| `Reaper.Series.constructor` | reaper.py:277-289 | a newly listed series needs reaping and has no failures |
| `Reaper.Series.Reap` | reaper.py:294-322 | updates the fields step by step to exactly `SeriesStep` of the old state and returns its result |
| `Reaper.ListingMap` | reaper.py:259 | the listing keyed by uid holds exactly the listed uids, each with a count from one of its entries |
| `Reaper.ListingLastEntryWins` | reaper.py:259 | a uid listed several times keeps the count of its last entry |
| `Reaper.Kept` | reaper.py:260-264 | a non-empty listing drops exactly the tracked series it does not hold; an empty one drops none |
| `Reaper.ExamTracksListing` | reaper.py:258-272 | with a non-empty listing no tracked uid lies outside it, and a live reaper tracks exactly the listed uids; an empty listing changes nothing and succeeds |
| `Reaper.NewSeriesWaitForNextReap` | reaper.py:248-272 | a newly listed series is tracked as discovered, not pulled, so the exam still needs reaping: an exam must be reaped at least twice |
| `Reaper.NewTrackedNeedReaping` | reaper.py:248-272 | any new uid in the listing leaves the exam needing reaping |
| `Reaper.SettledSeriesFailsExam` | reaper.py:258-295 | a listed series that is tracked, unchanged and settled makes the exam's reap return false |
| `Reaper.ExamAfter` | reaper.py:258-272 | the tracked series after `Exam.reap`: the kept series, then, if the reaper is alive, every listed series reaped or newly tracked; see `ExamTracksListing` and `NewSeriesWaitForNextReap` |
| `Reaper.ReapAll` | reaper.py:265-271 | every listed series reaped if tracked, tracked as discovered otherwise, unlisted kept series unchanged; established by `ReapListed` |
| `Reaper.ExamSucceeded` | reaper.py:258-272 | the exam's result: true iff the reaper is not alive or each listed series already tracked reaps successfully; see `SettledSeriesFailsExam` |
| `Reaper.Exam.constructor` | reaper.py:233-239 | a new exam tracks no series |
| `Reaper.Exam.NeedsReaping` | reaper.py:244-246 | true iff some tracked series needs reaping |
| `Reaper.Exam.Reap` | reaper.py:248-272 | the tracked series become `ExamAfter` of the old ones and the listing; the result is the conjunction of the reaps of already tracked series; a new uid leaves the exam needing reaping |
| `Reaper.DropUnlisted` | reaper.py:260-264 | the deletion loop leaves exactly `Kept` |
| `Reaper.ReapOne` | reaper.py:267-271 | one pass of the second loop: a tracked series becomes its `SeriesStep` and reports that step's result; an untracked one is tracked as discovered with its listed count and reports true |
| `Reaper.ReapListed` | reaper.py:265-272 | the second loop, in any order: each listed tracked series is reaped once, each new one tracked as discovered, nothing done if the reaper is not alive; success is the conjunction of the reaps |
| `Reaper.RedactedBirthDate` | reaper.py:374 | an empty birth date stays empty; otherwise its first six characters (all of it if shorter) followed by `15` |
| `Reaper.RedactionKeepsYearAndMonth` | reaper.py:374 | an eight-digit date stays an eight-digit date with the same year and month; redacting twice equals redacting once |
| `Reaper.DicomDataset.Anonymize` | reaper.py:371-375 | the patient name becomes empty, the birth date becomes `RedactedBirthDate` of the old one, and no other tag changes |

## Left out

- Concurrency of `next` and `put` across engines. The source delegates atomicity to the store's find-and-modify and update calls. Each call is modelled as one atomic method with no interleavings, so the write of `Job.put`, which filters on the whole document it read, always finds that document.
- `Jobs.get` (listing every job). The `jobs` field of `JobStore` is that listing.
- Logging, the debug `print` in `Job.put` and the `ReturnDocument` import (jobs.py:70, jobs.py:89), and the HTTP status and message of the aborts in `Job.put`. The error values carry the states the messages name.
- `Jobs.JobStore.Next`: does not break ties by id, because the code leaves tie order to the store. The current time is a parameter and is not constrained; `modified` is promised never to decrease only under the clock assumption of `Jobs.ModifiedNeverDecreases`.
- `Rules.CreateJobs`: the caller's document is a value, so the in-place append to a root's rules list is returned as `updated` rather than made visible through aliasing.
- `fnmatch` glob semantics (api/rules.py:77). This is a library call, so it is the parameter `glob`.
- `jobs.create_fileinput_from_reference` and `jobs.queue_job` (api/rules.py:146-147). They belong to a module that is not part of this model. The model records the queued algorithm names in order; the job input and `container_type` are not represented.
- Match entries with fewer than two elements (an index error in the source). A `Match` always has a kind and a parameter.
- `Rules.GetRulesForContainer`: a fuel bound replaces the interpreter's recursion limit on cyclic session or project links, which end in `HierarchyTooDeep`.
- `_get_access` and `INTEGER_ROLES`. They are defined in a module that is not part of this model, so access levels and role constants are inputs.
- The truthiness of a parent document. `default_container` tests `if target_parent_container` for DELETE and `is not None` for PUT. The model has one `hasParent` flag, so an empty parent document is treated as given.
- `list_permission_checker`'s unused `admin_only` parameter, and the other arguments (`method`, `projection`) that the list wrappers pass through untouched.
- The handler and snapshot glue (api/handlers/snapshothandler.py) and the project schemas and handlers (projects.py). They are HTTP and database glue.
- In reaper.py:
  - SCU queries and moves, archives, hashing, uploads, filesystem walking, renames and `utime`. A pull's image count and an upload's success are inputs.
  - `time.sleep`, the reference-datetime file and the `run` loops of `DicomReaper` and `PFileReaper`.
  - `retrieve_peripheral_data`, `retrieve_gephysio`, `ReapPFile`, `split_into_acquisitions` and the command-line entry point.
  - `hrsize`, which uses floating point, and the archive and JSON helpers `create_archive` and `write_json_file`.
  - The `DicomFile` constructor, which parses timestamps and acquisition numbers of files on disk.
- Reading and saving the DICOM file in `anonymize`. `DicomDataset` holds its attributes.
- The asynchronous `halt` of the reaper (a signal handler). `alive` is one value for the whole of `Exam.Reap`, so its loop either processes every listed series or none.
- Aliasing of `Series` objects inside an exam. `Exam` holds each series' bookkeeping as a value. In the source, no reference to a tracked `Series` escapes the exam's dictionary.
