# Verified model of the ClearML server's stateful logic

This project models the parts of the ClearML API server that carry invariants across operations,
and proves them for every input, every run and every answer of the stores behind them. The stores
are plain values: a Mongo collection is a map changed by atomic steps, a sorted Elasticsearch query
is a pure search whose ties come in any order, and everything the server cannot know (fresh ids,
the clock, the storage clients) is arbitrary.

`dafny verify dfyconfig.toml` checks everything.

## What is modelled

| files | subject |
|---|---|
| `Strings`, `ProjectForest`, `ProjectNames`, `ProjectMerge`, `ProjectMoves`, `ProjectEnsure`, `ProjectSteps`, `ProjectStore`, `ProjectQueries` | The project forest. Each record stores its parent, its full list of ancestors and its slash-joined name. `ProjectStore.Projects` is the collection with create, ensure, rename, move and merge as sequences of atomic saves under the unique index on (company, name). `ProjectSteps` says of each operation what it may leave behind, as a relation, and what runs of them keep. The other files say what the three fields must agree on, what relocating a subtree does, what a merge does, and the split/join laws behind them. |
| `UrlDeletion` | The job that deletes stored files with retries. The storage is a value holding all its answers as functions of the call's number and question, which the job cannot change. The records are proved to be exactly what the true answers make of them. |
| `KeyEscaper` | Escaping of parameter names by successive `replace` calls and the inverse by `split`, `replace` and `join`. |
| `EventPaging` | Paging by key with all ties, the raw scalars loop, and a scroll over many requests. |
| `SampleNavigation` | The two-stage search for the next or previous debug sample. |
| `MetricIntervals` | Sizing of histogram intervals and the greedy grouping of metrics into queries. |
| `TaskQueue` | The queue's guarded atomic updates, reposition, and moving a task between queues with compensation. |
| `Workloads` | Running time split over days, grouped, gap-filled and summed. |
| `ScalarSummary` | Per-batch summaries of scalar events, and their merge into the stored task. |
| `TagsCache`, `TagsRaces` | The lists of tags kept beside the database, and which of them an edit invalidates; the same with the steps of many callers interleaved. |
| `QueueMetrics` | Averages over all queues, with values carried forward from earlier buckets. |
| `DistributedLock` | The lock with expiry that several processes share, as steps of waiting, acquiring and releasing. |

## What the proofs found

These are properties of the code as written; each has its exact condition proved for all inputs.

* **Blank top level.** A project name such as `" /a"` passes the clean-up, because emptiness is checked
  before stripping (`sub_projects.py:24`). It is stored as the top-level name `/a` although its name
  has a separator, so name and parent disagree. `BlankRoot` is exactly the family of such names: a
  successful create, rename or move yields a forest if and only if its name is not one of them, and
  every operation that raises an error keeps the forest (`CreateStep`, `RenameStep`, `MoveStep`;
  witness `BlankRootExample`).
* **Names of blanks only.** A name such as `" "` is neither refused nor a name: ensuring it gives no
  project, so a move to it goes to the top level (`NoName` says for which names, `Ensured` and
  `MoveStep` what happens; witness `BlankNameExample`).
* **Merging deep projects.** Each child of the merged project is followed by its direct children only
  (`project_bll.py:104`). A merge keeps the forest if and only if nothing lies more than two levels
  below the source (`MergeExact`; witness `MergeFails`).
* **Parameter names starting with `%_`.** They are read back without their `%`; every other stripped
  name comes back as it was (`RoundTrip`; witness `RoundTripFails`). A double underscore survives
  escaping exactly when some run of underscores has odd length of three or more (`EscapedDouble`).
* **The key 0 in a scroll.** A cursor value of 0 counts as absent (`events_iterator.py:112`), so a
  response that ends with key 0 is followed by the first page again, also between raw requests. A
  scroll repeats no event if and only if no continued response ends with key 0 (`ScrollExactlyOnce`).
  Over iterations numbered from 0, an ascending scroll meets this exactly when the events at 0 fill
  its first response (`AscendingScroll`; witness `ScrollRepeats`), and a descending one never ends
  (`DescendingNeverEnds`). A key with more events than one request can bring loses some of them for
  good (`CrowdedKeyLoses`).
* **Order of batches.** The stored minimum and maximum of a metric do not depend on how its events
  were split into batches (`BatchesDoNotMatter`). The stored first value and the stored value do;
  `FirstIsGlobal` and `LastIsGlobal` say exactly when the stored fields are those of all events
  together, and `OutOfOrderBatches` is a witness.
* **Compensation of a failed queue move.** The task goes back to the end of its queue, which restores
  the order if and only if it was last (`CompensationRestores`). Adding and removing can also fail
  after their update, when the queue's metrics are written (`queue_bll.py:350-351`, `443`). A task that
  is not in the target yet is lost exactly when removing fails after its update, or when adding and
  returning both fail before theirs; it ends up in both queues exactly when adding fails after its
  update and returning happens (`MoveTaskToQueue`). A pop whose metrics fail loses its entry
  (`GetNextTask`).
* **Tags of parent projects.** An edit drops the cached lists of the edited entities' own projects and
  of the company only (`tags_cache.py:141-147`). Lists of projects without sub-projects stay those of
  the database over every run of whole reads and edits (`RunKeepsCoherent`); the list of a parent
  project goes stale (`AncestorGoesStale`; `SparedExactly` says for which edits).
* **Interleaved readers and edits of tags.** Reading the tags and keeping their list are two steps, and
  so are an edit and the dropping of lists. Keeping a list leaves the lists right if and only if what
  is kept fits at that moment (`PushExactly`), which is so if since the list was missed nobody else kept
  one and no edit looked for it (`UndisturbedFits`). Otherwise a list read before an edit can stay wrong
  after it (`StaleListStays`), and the mark at the head of a list that is kept twice becomes a tag
  (`MarkBecomesTag`).
* **The shared lock.** A client leaving its section deletes the key whoever set it (`sync.py:32`). At
  most one client is inside as long as nobody stays for the whole life of the key
  (`TimelyRunsExclude`); another one can enter exactly when somebody did (`EntersBeside`), and from
  then on even clients that are in time can meet (witness `LockFails`).
* **A task that stops before its start** contributes a negative time to the workloads if it stops on
  the same day, and nothing otherwise; every other task contributes exactly its seconds in the window,
  whose last second never counts (`TaskConserved`).

## Model

| member | source | states |
|---|---|---|
| ProjectForest.PathIsParentChain | apiserver/bll/project/sub_projects.py:131-154 | in a forest the stored path of a project contains exactly its proper ancestors by parent pointers |
| ProjectForest.NoCycle | apiserver/bll/project/sub_projects.py:98-100 | no project is its own ancestor at any number of steps |
| ProjectForest.NamedAncestor | apiserver/bll/project/sub_projects.py:93-99 | a stored name that extends another name belongs to a descendant of a project with that name |
| ProjectForest.NewNameInjective | apiserver/bll/project/sub_projects.py:188-192 | rewriting the names of a subtree never makes two of them equal |
| ProjectForest.RelocatedUnique | apiserver/bll/project/sub_projects.py:174-199 | relocating any part of a subtree under a free name keeps all names of the company distinct |
| ProjectForest.RelocationKeepsForest | apiserver/bll/project/sub_projects.py:174-221 | rewriting name and path of a subtree of any depth after its root moved keeps the forest |
| Strings.StripMeans | apiserver/bll/project/sub_projects.py:24 | stripping cuts off exactly the blanks at both ends: one string only has no blank at either end and lacks nothing but blanks in front and behind |
| Strings.IsSpaceMeans | apiserver/bll/project/sub_projects.py:24 | the blanks, by their code points |
| ProjectNames.CleanPartsMeans | apiserver/bll/project/sub_projects.py:24-30 | the levels of a requested name are exactly its non-empty parts between the separators, in order, without the blanks around them |
| ProjectNames.BlankRootExample | apiserver/bll/project/sub_projects.py:19-30 | a concrete name whose clean-up leaves a blank top level |
| ProjectNames.BlankNameExample | apiserver/bll/project/sub_projects.py:19-30 | a name of blanks only keeps one blank level, so it is not empty, yet it is cleaned to the empty name |
| ProjectNames.CleanLocation | apiserver/bll/project/sub_projects.py:30-51 | cleaning the location of a cleaned name again drops exactly its blank levels |
| ProjectNames.StoredNameIsClean | apiserver/bll/project/sub_projects.py:19-30 | in a forest cleaning a stored name gives the name back |
| ProjectEnsure.OkOnTheWay | apiserver/bll/project/sub_projects.py:55-75 | what is new after ensuring a project belongs to its company and is the project or an ancestor of it |
| ProjectEnsure.FoundAccounted | apiserver/bll/project/sub_projects.py:55-57 | a name that is found gives the project exactly if the company has it; a public project of that name blocks it |
| ProjectEnsure.BlocksFront | apiserver/bll/project/sub_projects.py:70 | a public project at some level blocks a missing name exactly when it blocks its location |
| ProjectEnsure.LocationCheck | apiserver/bll/project/sub_projects.py:83-97 | the location check at saving passes exactly for names without blank levels and for a `BlankRoot` |
| ProjectEnsure.RefusedAccounted | apiserver/bll/project/sub_projects.py:70-71 | whatever was created for the location of a refused name is of its company and on the way to it |
| ProjectEnsure.NormalSave | apiserver/bll/project/sub_projects.py:59-75 | saving a missing project whose ancestors were ensured keeps the forest and creates nothing else |
| ProjectEnsure.BlankSave | apiserver/bll/project/sub_projects.py:83-97 | a name with a blank level, other than a `BlankRoot`, is refused, and what its location left behind is a forest |
| ProjectEnsure.BlankRootSave | apiserver/bll/project/sub_projects.py:83-92 | a `BlankRoot` name is stored and breaks the forest |
| ProjectEnsure.RenameOutcome | apiserver/bll/project/project_bll.py:196-206 | after a rename no update of a descendant is refused, only names change, and the forest holds if and only if the new name is no `BlankRoot` |
| ProjectEnsure.StoredLocation | apiserver/bll/project/project_bll.py:187-191 | the location a rename compares is the location of the stored name |
| ProjectEnsure.MoveOutcome | apiserver/bll/project/project_bll.py:154-168 | a move to a location without blank levels keeps the forest, no update of a descendant is refused, and every descendant keeps its distance to the moved project |
| ProjectEnsure.MoveDone | apiserver/bll/project/project_bll.py:148-168 | what a move leaves behind for every location: forest if and only if no `BlankRoot`, the visible levels of the location as the new ones, and the depth limit; a location of blanks only is the top level |
| ProjectEnsure.BlankMoveHasNoClash | apiserver/bll/project/project_bll.py:154-168 | a move below a `BlankRoot` is never stopped by a clash of names |
| ProjectMerge.MergeExact | apiserver/bll/project/project_bll.py:100-110 | the merged collection is a forest if and only if nothing lies more than two levels below the source; then exactly all descendants are re-homed |
| ProjectMerge.DeepProjectIsLeftBehind | apiserver/bll/project/project_bll.py:104-110 | a project three levels below the source is unchanged and still names the deleted source in its path |
| ProjectMerge.MergeFails | apiserver/bll/project/project_bll.py:82-110 | a concrete chain of four projects on which a merge without errors breaks the forest |
| ProjectMerge.PartlyMergedForest | apiserver/bll/project/project_bll.py:101-107 | every intermediate stage of a merge of a shallow project is a forest |
| ProjectMoves.GoodRootHasNoClash | apiserver/bll/project/sub_projects.py:187-197 | under a free root name no update of a descendant can violate the unique index, in whatever order |
| ProjectMoves.MergeStep | apiserver/bll/project/project_bll.py:101-107 | repositioning the next child with its own children is one more step of the merge specification |
| ProjectMoves.MergeNext | apiserver/bll/project/project_bll.py:101-107 | one round of a merge keeps the loop's invariant, and with nothing deep it goes through or changes nothing |
| ProjectMoves.TargetStaysFree | apiserver/bll/project/project_bll.py:101-107 | a target name that is free before the merge is still free when its child is moved |
| ProjectMoves.MergedDepth | apiserver/bll/project/project_bll.py:85-90 | the depth check before a merge bounds the depth of every stage of it |
| ProjectStore.Projects.SaveUnderParent | apiserver/bll/project/sub_projects.py:78-100 | when saving under a parent is refused, and the record it stores otherwise |
| ProjectStore.Projects.UpdateSubprojectNames | apiserver/bll/project/sub_projects.py:174-199 | all descendants follow, one update after the other; with no clash none is refused, and a refusal leaves some of them updated |
| ProjectStore.Projects.RepositionWithChildren | apiserver/bll/project/sub_projects.py:202-221 | the project and its fetched children are relocated; when it goes through, when an error changes nothing, and what else an error can leave |
| ProjectStore.Projects.EnsureProject | apiserver/bll/project/sub_projects.py:43-75 | for every name: no project and no change exactly for a name that is cleaned to the empty one; otherwise the project found or made has the name's non-empty parts without blanks around them as its levels, nothing stored is touched, whatever is new is of the company and the project or an ancestor, the outcome is a forest if and only if the name is no `BlankRoot`, and a name without blank levels is refused exactly for a public project on the way |
| ProjectStore.Projects.Create | apiserver/bll/project/project_bll.py:211-266 | success exactly when depth, levels and names allow it; then the project, whose levels are the name's non-empty parts without blanks around them, and missing ancestors are there; every error keeps the forest and leaves at most ancestors |
| ProjectStore.Projects.CheckRename | apiserver/bll/project/project_bll.py:181-193 | a rename passes its checks exactly when the company owns the project and the new name stays in its location |
| ProjectStore.Projects.Rename | apiserver/bll/project/project_bll.py:180-208 | success exactly when the checks pass and the name is free; on error nothing changes; the project gets the cleaned-up levels of the new name and its subtree is relocated |
| ProjectStore.Projects.CheckMove | apiserver/bll/project/project_bll.py:137-152 | the checks before a move pass exactly on a project of the company with a writable parent whose whole subtree fits under the depth limit at its new place |
| ProjectStore.Projects.Move | apiserver/bll/project/project_bll.py:128-177 | success exactly when the checks pass, the location can be ensured and the project may go there; an empty location or one of blanks only is the top level; the whole subtree moves, everything outside is as after ensuring the location; an error changes nothing beyond that and keeps the forest |
| ProjectStore.Projects.ValidateProjectsDepth | apiserver/bll/project/project_bll.py:118-125 | passes exactly when no listed project ends deeper than the limit |
| ProjectStore.Projects.Merge | apiserver/bll/project/project_bll.py:60-116 | the exact outcome; forest if and only if the source is shallow, and success exactly when arguments, depth and target names allow it; where a merge can stop in the middle |
| ProjectStore.Projects.Execute | apiserver/bll/project/project_bll.py:60-266 | every command is carried out: its outcome is in the relation of its operation |
| ProjectStore.Projects.Run | apiserver/bll/project/project_bll.py:60-266 | a trace with the outcome of every command up to the first that is not admissible; forest and depth limit hold at every point of it |
| ProjectSteps.MoveEnds | apiserver/bll/project/project_bll.py:166-168 | how the repositioning at the end of a move turns out, for every location |
| ProjectSteps.MergeEnds | apiserver/bll/project/project_bll.py:100-110 | how a merge turns out after its rounds, finished or stopped |
| ProjectSteps.RunKeeps | apiserver/bll/project/project_bll.py:60-266 | after every admissible command of every run, whether it succeeds or fails, the collection is a forest within the depth limit |
| ProjectQueries.QueriesFollowParents | apiserver/bll/project/sub_projects.py:131-171 | the three path queries return exactly the descendants and ancestors by parent pointers |
| ProjectQueries.RelevantMeans | apiserver/bll/project/project_bll.py:503-508 | the data that a project is aggregated from: each datum of its subtree once, in order, and no other |
| ProjectQueries.AggregateProjectData | apiserver/bll/project/project_bll.py:494-514 | the loop aggregates, for exactly the requested projects with data, their own data and that of all their descendants |
| ProjectQueries.ReduceDisjoint | apiserver/bll/project/project_bll.py:508-513 | for an associative commutative function, the data of disjoint sets of projects can be reduced apart |
| ProjectQueries.AggregateIsRecursive | apiserver/bll/project/project_bll.py:494-514 | the aggregate of a project is its own data combined with the aggregates of its direct children |
| UrlDeletion.FollowsThen | apiserver/jobs/async_urls_delete.py:100-173 | what calls make of the records composes: tries add up, deletions and failures accumulate |
| UrlDeletion.FollowsIsSafe | apiserver/jobs/async_urls_delete.py:36-52 | a record is gone exactly if reported as deleted, fails for good only if it cannot be placed or is out of tries; failed stays failed, pending keeps tries |
| UrlDeletion.ProgressIsSafe | apiserver/jobs/async_urls_delete.py:118-173 | in terms of the storage: a record disappeared only if a call asked to delete the path that the storage gave it and the storage reported this path deleted in its answer; it failed below the limit only if the storage gave it no base or no path in some call |
| UrlDeletion.BudgetFalls | apiserver/jobs/async_urls_delete.py:91-173 | calls that concern the selected records lower the sum of remaining tries by at least their number |
| UrlDeletion.ChunkFollows | apiserver/jobs/async_urls_delete.py:114-173 | what a chunk makes of every record, by the answer to its deletion: nothing, one try for the whole group, or deletions, errors and missing ids |
| UrlDeletion.CallConcerns | apiserver/jobs/async_urls_delete.py:98-173 | a call concerns only its group, and a chunk concerns all of its records: deleted, errored and missing ids together cover all ids attempted |
| UrlDeletion.Bucketize | apiserver/jobs/async_urls_delete.py:253-256 | every selected record is in exactly one group, in order |
| UrlDeletion.Job.MarkRetryFailed | apiserver/jobs/async_urls_delete.py:36-44 | the records after one more failed try; those out of tries are failed |
| UrlDeletion.Job.MarkFailed | apiserver/jobs/async_urls_delete.py:47-52 | the given records fail for good |
| UrlDeletion.Job.GetPaths | apiserver/jobs/async_urls_delete.py:115-130 | every id is filed under exactly the path the storage gave it, and fails exactly without one |
| UrlDeletion.Job.MarkErrors | apiserver/jobs/async_urls_delete.py:147-159 | every id loses one try for each reason its path is reported under |
| UrlDeletion.Job.Settle | apiserver/jobs/async_urls_delete.py:147-173 | the exact outcome of a reply for every record |
| UrlDeletion.Job.DeleteAsked | apiserver/jobs/async_urls_delete.py:135-173 | the answer is the storage's own, and the records are what it makes of them; an exception costs the whole group a try |
| UrlDeletion.Job.DeleteChunk | apiserver/jobs/async_urls_delete.py:114-173 | one true call for the group, which concerns every id of the chunk and nothing outside the group |
| UrlDeletion.Job.DeleteGroup | apiserver/jobs/async_urls_delete.py:98-114 | the calls for one group, with no base, no client or chunk by chunk, concern all of it and nothing else; chunks are of different records, take no more records or paths than the client allows, and are full but for the last |
| UrlDeletion.Job.DeleteUrls | apiserver/jobs/async_urls_delete.py:91-173 | one pass over at most a batch of the records that are pending, have tries left and have rested: they become exactly what the storage's true answers make of them, every one is handled, nothing else changes; each call is made for all selected records of its base, each base is connected once, and no record is in two chunks |
| UrlDeletion.Job.FirstByRetryCount | apiserver/jobs/async_urls_delete.py:563-578 | the ready record of a known kind of storage with the fewest tries, none exactly if there is none |
| UrlDeletion.Job.OneRound | apiserver/jobs/async_urls_delete.py:561-600 | an idle round exactly without a ready record, otherwise a pass in chunks over the records of the next one's company and kind of storage |
| UrlDeletion.Job.RunLoop | apiserver/jobs/async_urls_delete.py:561-600 | a trace with one such round for each time on the clock; the budget bounds the busy rounds and the attempts; safety over the whole run |
| UrlDeletion.RunUsesBudget | apiserver/jobs/async_urls_delete.py:561-600 | in every run of rounds the tries taken are paid for by the budget, which bounds the rounds with an eligible record |
| UrlDeletion.RunIsSafe | apiserver/jobs/async_urls_delete.py:561-600 | the same over every run of rounds |
| UrlDeletion.Job.Drain | apiserver/jobs/async_urls_delete.py:561-600 | waiting for the retry timeouts, the loop ends with every record of a known storage gone or failed, after at most one round more than the budget |
| KeyEscaper.Escape | apiserver/utilities/parameter_key_escaper.py:17-33 | the loop of replacements computes the escaped form of the key without the blanks around it; an error exactly when nothing else is left |
| KeyEscaper.Unescape | apiserver/utilities/parameter_key_escaper.py:35-49 | the loop over the parts computes the unescaped form |
| KeyEscaper.EscapedIsFused | apiserver/utilities/parameter_key_escaper.py:26-33 | the successive replacements equal one pass from left to right with a fixed head |
| KeyEscaper.SplitOfFused | apiserver/utilities/parameter_key_escaper.py:41-44 | splitting the escaped form at `%%` cuts exactly at the `%` characters of the key |
| KeyEscaper.RoundTrip | apiserver/utilities/parameter_key_escaper.py:17-49 | unescaping the escaped key gives the key if and only if it does not start with `%_`, and otherwise the key without its first character |
| KeyEscaper.RoundTripFails | apiserver/utilities/parameter_key_escaper.py:17-49 | a concrete key that is not read back |
| KeyEscaper.EscapedInjective | apiserver/utilities/parameter_key_escaper.py:17-33 | distinct keys never collide |
| KeyEscaper.EscapedIsSafe | apiserver/utilities/parameter_key_escaper.py:7-33 | the escaped form has no `.`, no `$` and no leading underscore |
| KeyEscaper.EscapedDouble | apiserver/utilities/parameter_key_escaper.py:7-33 | the escaped form has a double underscore if and only if some maximal run of underscores has odd length of three or more |
| EventPaging.GetEvents | apiserver/bll/event/events_iterator.py:85-157 | the events strictly beyond the cursor up to its last key, ties included unless they are more than 10000; full unless nothing is left, past the batch size only with ties of the last key; empty only at the end |
| EventPaging.PagesJoin | apiserver/services/events.py:1193-1208 | a page followed by the page after it is a page: nothing is lost, nothing repeated |
| EventPaging.ScalarMetricsIterRaw | apiserver/services/events.py:1142-1231 | the response of the whole loop is sorted, without repeats, beyond the cursor and no longer than its queries allow; without crowded keys it is one page, shorter than the batch size only when nothing is left |
| EventPaging.GetTaskEvents | apiserver/services/events.py:348-420 | the response is the batch its scroll asks for, in either direction |
| EventPaging.CrowdedKeyLoses | apiserver/bll/event/events_iterator.py:126-157 | a last key with more events than the batch and 10000 loses one that no later request brings |
| EventPaging.Scroll | apiserver/services/events.py:348-420 | a client's chain of requests answers with a transcript; it comes to an end with enough requests unless it continued from key 0 |
| EventPaging.ScrollRaw | apiserver/services/events.py:1142-1231 | a chain of raw requests, each with a size of its own or that of the one before, answers with a transcript too, and comes to an end in the same way |
| EventPaging.ScrollExactlyOnce | apiserver/bll/event/events_iterator.py:112-113 | for every transcript, of batches or of raw responses: without a continuation from key 0 no event is repeated; without crowded keys only then, and a finished scroll is the full scan in key order |
| EventPaging.ScrollEnds | apiserver/services/events.py:380-407 | without a continuation from key 0 a scroll makes at most one request more than there are events |
| EventPaging.NoZeroKey | apiserver/bll/event/events_iterator.py:112-113 | without an event at key 0 no scroll continues from it |
| EventPaging.AscendingScroll | apiserver/bll/event/events_iterator.py:112-113 | over non-negative keys an ascending scroll continues from 0 if and only if the events at 0 fill its first response or there are no others |
| EventPaging.ScrollRepeats | apiserver/bll/event/events_iterator.py:112-113 | two concrete events of which the first is brought again and again |
| EventPaging.ZeroBoundaryRepeats | apiserver/bll/event/events_iterator.py:112-113 | a response continued from key 0 brings an event of the first response again |
| EventPaging.DescendingNeverEnds | apiserver/bll/event/events_iterator.py:112-113 | a descending scroll over iterations with an event at 0 never gets an empty response |
| SampleNavigation.LessMeans | apiserver/bll/event/history_debug_image_iterator.py:168-174 | names are in order exactly when the first is a proper prefix of the second or has the smaller character where they first differ |
| SampleNavigation.KeyLessMeans | apiserver/bll/event/history_debug_image_iterator.py:168-187 | keys sort by iteration, then by metric, then by variant |
| SampleNavigation.CurrentIterationIsFirst | apiserver/bll/event/history_debug_image_iterator.py:150-201 | the first search finds the nearest valid sample on the current iteration, if there is one |
| SampleNavigation.AnotherIterationIsFirst | apiserver/bll/event/history_debug_image_iterator.py:203-259 | the second search finds the nearest valid sample of the other iterations, if there is one |
| SampleNavigation.TwoStagesAreOneStep | apiserver/bll/event/history_debug_image_iterator.py:82-94 | both searches together are one step in the order by iteration, metric and variant over all valid samples |
| SampleNavigation.Iterator.GetNextSample | apiserver/bll/event/history_debug_image_iterator.py:62-117 | the returned sample is the next valid one by iteration, metric and variant, and of its key the one with the greatest url; it becomes the current one; without one the state does not change |
| SampleNavigation.Iterator.Walk | apiserver/bll/event/history_debug_image_iterator.py:62-117 | repeated steps visit every valid key beyond the start exactly once, in order |
| SampleNavigation.ForthAndBack | apiserver/bll/event/history_debug_image_iterator.py:62-117 | next followed by previous returns to the start if the start is a valid sample |
| MetricIntervals.SortStable | apiserver/bll/event/event_metrics.py:273 | sorting by interval keeps the order of metrics with equal intervals |
| MetricIntervals.GroupTaskMetricIntervals | apiserver/bll/event/event_metrics.py:258-291 | the groups concatenate to the sorted input, each meets the three limits and could not take the next metric, and is labelled with its greatest interval |
| MetricIntervals.FewestGroups | apiserver/bll/event/event_metrics.py:258-291 | no contiguous grouping within the limits has fewer groups |
| MetricIntervals.IntervalIsLeast | apiserver/bll/event/event_metrics.py:358-381 | with at least as many values as samples the interval is the least positive one whose bucket count does not exceed the samples; with fewer values no two indices share a bucket and the size is the number of values |
| MetricIntervals.BucketsOfLabel | apiserver/bll/event/scalar_key.py:139-144 | for every interval at least that wide, the values lie in no more origin-aligned buckets than the size, and one more if there are at least as many values as samples |
| MetricIntervals.LabelWidens | apiserver/bll/event/event_metrics.py:282-289 | the label of a group is the interval of some member and at least that of every member |
| TaskQueue.RepositionLands | apiserver/bll/queue/queue_bll.py:476-567 | a reposition permutes the entries, keeps the order of all other tasks and lands at the clamped position |
| TaskQueue.RunKeepsSound | apiserver/bll/queue/queue_bll.py:334-447 | over every interleaving of atomic steps no task is queued twice and nothing is popped that was not pushed |
| TaskQueue.RunIsFifo | apiserver/bll/queue/queue_bll.py:334-383 | without repositions entries are popped in the order they were pushed |
| TaskQueue.HistoryFollows | apiserver/bll/queue/queue_bll.py:334-383 | exactly what a push adds to the list counts as pushed, and what a pop takes off its head as popped |
| TaskQueue.Queue.AddTask | apiserver/bll/queue/queue_bll.py:334-354 | appended exactly if not queued yet and nothing fails before the update; an error also when it fails after it |
| TaskQueue.Queue.GetNextTask | apiserver/bll/queue/queue_bll.py:356-383 | pops the first entry, if it is the expected one or none is expected; an exception after the update loses it |
| TaskQueue.Queue.RemoveTask | apiserver/bll/queue/queue_bll.py:412-445 | removes exactly the entries of the task and counts them; an exception after the update leaves them removed |
| TaskQueue.Queue.RepositionTask | apiserver/bll/queue/queue_bll.py:447-576 | the same as the reposition law, also when the task stays where it is, and the answer is the task's new position |
| TaskQueue.MoveTaskToQueue | apiserver/services/queues.py:169-201 | both queues for every point at which removing, adding and returning can fail; exactly when a task new to the target is lost, and when it ends up in both queues |
| TaskQueue.CompensationRestores | apiserver/services/queues.py:186-193 | compensation restores the order if and only if the task was last |
| Workloads.DayMeans | apiserver/bll/project/project_workloads.py:136-250 | days are those of the local time, in milliseconds |
| Workloads.SecondsTelescope | apiserver/bll/project/project_workloads.py:177-211 | the seconds of the first n days of a run add up to the time to the end of those days or to the stop |
| Workloads.TaskConserved | apiserver/bll/project/project_workloads.py:136-250 | the records of a task hold, in all and on each day, its weight times the seconds of the window from its start to its completion, its status change or now; a task that ends before it starts on the same day counts negative, on an earlier day not at all |
| Workloads.SelectedRunsForward | apiserver/bll/project/project_workloads.py:39-115 | a selected task that stops after its start lies forward within the window after clipping |
| Workloads.GroupingConserves | apiserver/bll/project/project_workloads.py:282-296 | grouping by field value and date keeps the usage of every selection of them |
| Workloads.GroupedIsGrouping | apiserver/bll/project/project_workloads.py:282-296 | collecting the records one by one gives such a grouping |
| Workloads.FillSeries | apiserver/bll/project/project_workloads.py:439-475 | the series has every day of the window once, on each the sum of its records, and sums to the total |
| Workloads.RecordsConserve | apiserver/bll/project/project_workloads.py:136-250 | for each key, and each key and date, the records of all tasks hold exactly these seconds of its tasks |
| Workloads.GetProjectWorkloads | apiserver/bll/project/project_workloads.py:344-505 | from tasks to series: exactly the keys of tasks in reach of the window, each day the seconds its tasks ran on that day, in total the seconds they ran in the window, all by the tasks' own fields |
| ScalarSummary.OnlineIsOffline | apiserver/bll/event/event_bll.py:437-485 | count and total are exact, min and max are those of their earliest arrival, first is the earliest arrival at the smallest iteration, last the latest arrival at the greatest (iteration, timestamp) |
| ScalarSummary.SummaryUnique | apiserver/bll/event/event_bll.py:437-485 | these conditions determine the summary |
| ScalarSummary.Batch.UpdateLastScalarEvents | apiserver/bll/event/event_bll.py:437-485 | the field by field update keeps the summaries of all metrics those of the events read so far |
| ScalarSummary.Batch.AddEvents | apiserver/bll/event/event_bll.py:196-284 | after a batch every metric with a value has its summary, and no other |
| ScalarSummary.BatchesDoNotMatter | apiserver/bll/task/utils.py:337-379 | count, minimum and maximum with their iterations do not depend on the split into batches |
| ScalarSummary.FirstAndLastBatch | apiserver/bll/task/utils.py:381-402 | the first value stays that of the first batch, the value is that of the last batch |
| ScalarSummary.FirstIsGlobal | apiserver/bll/task/utils.py:348-359 | the stored first value and iteration are those of all events, after any number of batches, if and only if no later batch goes below them |
| ScalarSummary.LastIsGlobal | apiserver/bll/task/utils.py:401-402 | the stored value is that of the last of all events if and only if no earlier event is after the last batch, or the latest such event has the same value |
| ScalarSummary.OutOfOrderBatches | apiserver/bll/task/utils.py:348-402 | two batches for which neither the stored first value nor the stored value is that of all events |
| TagsCache.EditSparesOthers | apiserver/bll/organization/__init__.py:55-76 | an edit changes the tags of an unfiltered key of the company or of a project without sub-projects only if its list is dropped |
| TagsCache.StepKeepsCoherent | apiserver/bll/organization/tags_cache.py:71-147 | every whole read, edit, reset and expiry keeps these lists those of the database |
| TagsCache.RunKeepsCoherent | apiserver/bll/organization/tags_cache.py:71-147 | so does every run of them |
| TagsCache.SparedExactly | apiserver/bll/organization/tags_cache.py:134-147 | an unfiltered list that an edit spares stays right if and only if the edit meets none of its entities, or adds only tags already found and removes only tags found at no entity or also at one that is not edited |
| TagsCache.AncestorGoesStale | apiserver/bll/organization/tags_cache.py:134-147 | a concrete edit in a sub-project after which the list of the project above is wrong |
| TagsCache.Cache.GetTags | apiserver/bll/organization/tags_cache.py:71-107 | missing lists are computed and kept, and the answer is the kept list without its mark; for coherent caches it is what the database holds |
| TagsCache.Cache.EditEntityTags | apiserver/bll/organization/__init__.py:29-77 | refused exactly without entities or without tags; otherwise the entities after both updates, how many they met, and the lists dropped, none when no entity is met |
| TagsCache.Cache.Run | apiserver/bll/organization/tags_cache.py:71-147 | any sequence of commands is carried out, and such lists are those of the database at every point of it |
| TagsRaces.PushExactly | apiserver/bll/organization/tags_cache.py:93-103 | keeping a list leaves all lists right or to be dropped if and only if it will itself be dropped, is right under a missing key, or repeats what is there |
| TagsRaces.ActKeeps | apiserver/bll/organization/tags_cache.py:93-147 | every step of any caller keeps the lists right or to be dropped, if what is kept fits |
| TagsRaces.InterleavingKeeps | apiserver/bll/organization/tags_cache.py:93-147 | so does every interleaving of steps; when all edits are finished the lists are those of the database |
| TagsRaces.UndisturbedFits | apiserver/bll/organization/tags_cache.py:93-103 | what a caller keeps fits, whatever the others do, if since its miss nobody else kept a list under the key and no edit looked for the lists of the project |
| TagsRaces.StaleListStays | apiserver/bll/organization/tags_cache.py:93-147 | a concrete interleaving at the end of which a list is wrong though all edits are finished |
| TagsRaces.MarkBecomesTag | apiserver/bll/organization/tags_cache.py:93-103 | a concrete interleaving of two readers after which the mark is a tag |
| TagsRaces.AloneIsGetStep | apiserver/bll/organization/tags_cache.py:93-103 | the three steps of a caller on its own are a whole read |
| TagsRaces.EditAlone | apiserver/bll/organization/__init__.py:55-76 | the steps of an edit on its own are a whole edit and leave nothing open |
| QueueMetrics.LatestIsMostRecent | apiserver/bll/queue/queue_metrics.py:232-238 | the carried values are those of every queue seen so far, from its most recent bucket |
| QueueMetrics.AverageDatetimeHistogram | apiserver/bll/queue/queue_metrics.py:223-262 | one total for every shown bucket, over the values carried up to it, also from buckets before the chart |
| QueueMetrics.AverageIsBetween | apiserver/bll/queue/queue_metrics.py:244-251 | with a positive total length the average lies between all bounds of the carried waiting times |
| DistributedLock.TimelyRunsExclude | apiserver/sync.py:11-32 | in every run in which nobody stays as long as the key lives, at most one client is inside at any time |
| DistributedLock.HeldForItsLife | apiserver/sync.py:23 | however the time passes after a client entered, another one can enter exactly when the whole life of the key is over |
| DistributedLock.EntersBeside | apiserver/sync.py:23-32 | a second client can enter if and only if the one inside has stayed as long as the key lives |
| DistributedLock.LockFails | apiserver/sync.py:11-32 | a concrete run at the end of which two clients are inside in time |

## Left out

- Tasks and models of a merged project, and the archived ones that stay behind: a plain field update.
- Timestamps such as `last_update`, descriptions, tags, and the sets of affected project ids that operations return.
- Loading and access checks of `Project.get`: a project is found if it belongs to the company.
- ProjectStore.Projects.Create: which of several applicable errors is raised first.
- ProjectStore.Projects.RepositionWithChildren: after an error in the middle, which of the children were already updated.
- ProjectStore.Projects.Run: ensure is admissible only within the depth limit, which the code checks in create and move but not in ensure itself.
- ProjectQueries: the filters on hidden projects and on allowed ids.
- Url resolution, prefixes and credentials of the storage clients: which base and path a record gets is arbitrary.
- UrlDeletion.Job.RunLoop: time between rounds is an arbitrary sequence of clock values; concurrent writers of new records are not modelled.
- UrlDeletion.Job.DeleteUrls: the order by url in which a pass takes up its records; the failure reasons that are stored.
- EventPaging.GetEvents: which of more than 10000 events of one key are brought. The total of hits and the projection of the response into lists are left out.
- EventPaging.Scroll: the events do not change between requests, and the encoding of scroll ids is left out.
- EventPaging.ScrollRaw: the same, and the refusal of negative batch sizes.
- SampleNavigation: building the variant states from the stored events, the reported minimal and maximal iteration, and the state cache.
- MetricIntervals: rounding of `interval * 0.1` and of divisions is exact integer arithmetic.
- TaskQueue.Queue.ClearQueue: status changes of the removed tasks.
- TaskQueue.MoveTaskToQueue: one caller at a time; an exception while the properties of a moved task are updated.
- Workloads: one usage field with an integer weight; the flags for default weights; names of keys; time zones with a fixed offset only.
- ScalarSummary: events are those that passed validation; the mean, which is rounded to two digits in the database; the cap on the number of metrics; collisions of hashed names.
- TagsCache.Cache: a whole read, edit or reset is one step; `TagsRaces` divides reads and edits into theirs.
- TagsRaces.ActKeeps: only lists of an edit under way are dropped by it; an edit that breaks off between its update and its drops stays open.
- TagsCache: filters are arbitrary and only unfiltered lists are claimed; projects do not change during a run; keys of different fields, projects and companies are taken as distinct, as their joined strings are for generated ids.
- QueueMetrics: rounding; the histogram for each queue by itself.
- DistributedLock: the bound on waiting and the error when it is exceeded.
- The subsumption of projections, and the paging of metric events with its window of iterations.
