# Family task tracker: a verified model of its core

This project models the logic of a family task tracker, a Next.js application backed by Supabase, in Dafny, and proves properties of that model. The modelled parts are:

- **Category taxonomy.** The `Category` record and its tree (`buildCategoryTree`, `flattenCategoryTree`, `getCategoryPath`) and the in-memory helpers of the category queries.
- **Task records.** The status and source enumerations with their legacy mappings, and the conversions between database rows and API records for tasks, path-shaped categories and people.
- **Views and grouping.** The derived task views (`filterTasksByView`, titles, descriptions) and the dashboard grouping and counts.
- **POST handlers.** The request checks of `POST /api/categories`, `POST /api/people` and `POST /api/tasks`, the record each inserts, and the response for each outcome.
- **Component state.** The three client components that keep task state: the simple task list, the Notion-style list and the task details form.

The modules are:

| module | file |
|---|---|
| `Lists`, `JsValues` | helpers: JavaScript's `undefined`/`null`/value, truthiness, `trim`, `split`/`join`, `filter`, `find` |
| `CategoryTypes`, `CategorySort`, `CategoryTree`, `CategoryTreeFacts` | `lib/types/category.ts` |
| `CategoryQueries` | `lib/supabase/queries/categories.ts` |
| `TaskTypes` | `lib/types/task.ts` |
| `TaskTransform` | `lib/utils/task-transform.ts` |
| `CategoryTransform` | `lib/utils/category-transform.ts` |
| `PersonTransform` | `lib/utils/person-transform.ts` and `lib/types/person.ts` |
| `TaskFilters` | `lib/utils/task-filters.ts` |
| `TaskQueries` | `lib/supabase/queries/tasks.ts` |
| `ApiCommon`, `CategoryRoute`, `PeopleRoute`, `TaskRoute` | the POST handlers under `app/api` |
| `TaskListState`, `NotionTaskListState`, `TaskDetailsState` | `components/TaskList.tsx`, `components/NotionTaskList.tsx`, `components/TaskDetails.tsx` |

## How the model is built

Code that builds its result step by step is modelled as methods with loops. Each method is proved equal to a specification function, and the properties are proved about that function:

- `buildCategoryTree` fills a map in two passes;
- `flattenCategoryTree` pushes onto an accumulator;
- `groupTasksByStatus` pushes into five arrays;
- the `transform…ToRow` functions set keys one by one.

Component state is modelled as classes whose fields the handlers reassign.

The outside world is not modelled. Instead, these become inputs:

- the session and family lookups;
- the database insert's outcome;
- the server's answer to a component's fetch;
- the clock, the `Date` parser and the calendar day of a timestamp;
- `crypto.randomUUID()`.

Three facts about the code shape the model:

- **Task creation.** `POST /api/tasks` always inserts status `open` and source `manual`, and it does not check the category it is given (`app/api/tasks/route.ts:63-77`).
- **Path validation.** The categories handler imports `isValidCategoryPath` from `lib/types/category.ts`, which does not define it, so the model takes it as an input predicate.
- **WhatsApp webhook.** `supabase/functions/whatsapp-webhook/index.ts:18-30` only logs the request and answers it, so it has no logic to model.

## Model

| member | source | states |
|---|---|---|
| CategoryTypes.GetCategoryPath | lib/types/category.ts:44-56 | an unknown id gives the empty path; a top-level category, and one whose parent id names no category, give exactly their own name; every path ends with the category's own name |
| CategoryTreeFacts.TopLevelPathIsName | lib/types/category.ts:40-50 | with unique ids, a top-level category (`isTopLevel`: its `parent_id` is `null`) is found by its id, and its path is its own name with no recursion |
| CategoryTreeFacts.PathStep | lib/types/category.ts:52-55 | for a category whose parent is found, the parent is found again by its own id, and the path is the parent's path, ` > `, then the category's name |
| CategoryTreeFacts.PathFollowsChain | lib/types/category.ts:44-56 | for a category found by its id whose parent chain ends after `n` steps, the path is the names of the `n + 1` categories of the chain, from its top down to the category, joined by ` > ` |
| CategoryTreeFacts.ReachableHasPath | lib/types/category.ts:44-56 | for a category whose parent chain reaches a top-level category, the recursion of `getCategoryPath` ends |
| CategorySort.SortSiblings | lib/types/category.ts:86-103 | the sibling list comes out ordered by `sort_order`, then by name, and is a permutation of the input |
| CategorySort.KeyLeTransitive | lib/types/category.ts:88-93 | the comparator is transitive, which is what makes the sort well defined |
| CategorySort.KeyTies | lib/types/category.ts:88-93 | the comparator ranks neither of two nodes first exactly when they share `sort_order` and name |
| CategorySort.InsertKeepsTies | lib/types/category.ts:88-93 | an inserted node goes ahead of every node in the list that ties with it, and the order of the other tied nodes is kept |
| CategorySort.SortSiblingsStable | lib/types/category.ts:86-103 | the sort is stable: for every key, the nodes that tie on it leave in the order they came in, as `Array.prototype.sort` guarantees |
| CategoryTree.BuildCategoryTree | lib/types/category.ts:58-106 | the two passes over the input followed by the recursive sort return exactly the forest `Forest(cs)` |
| CategoryTreeFacts.WiredLevel | lib/types/category.ts:72-84 | when parents come before children, a top-level node has level 0 and a child has its parent's level plus one |
| CategoryTreeFacts.ForestRoots | lib/types/category.ts:58-106 | with unique ids, the roots are exactly the top-level categories, one root each |
| CategoryTreeFacts.ForestChildrenExact | lib/types/category.ts:72-84 | with unique ids, every node's children are exactly the categories naming it as their parent |
| CategoryTreeFacts.ForestSorted | lib/types/category.ts:86-103 | the roots, and every children list at every depth, are sorted by the comparator |
| CategoryTreeFacts.ForestHoldsReachable | lib/types/category.ts:58-106 | a category is in the tree exactly when its parent chain reaches a top-level category |
| CategoryTreeFacts.OrphansDropped | lib/types/category.ts:78-82 | a category whose parent is missing is not in the tree, and neither is anything below it |
| CategoryTreeFacts.ForestLevels | lib/types/category.ts:81 | when parents come before children, every node's level is its depth |
| CategoryTreeFacts.LevelLagsDepth | lib/types/category.ts:72-84 | an input listing a child before its parent yields a node whose level is not its depth |
| CategoryTree.Traverse | lib/types/category.ts:111-125 | the accumulator is extended by the node's record, then its subtree, in pre-order |
| CategoryTree.FlattenCategoryTree | lib/types/category.ts:108-129 | the result is the pre-order listing of the forest |
| CategoryTree.PreorderLength | lib/types/category.ts:108-129 | flattening emits exactly one record per node |
| CategoryQueries.TopLevelCategories | lib/supabase/queries/categories.ts:53-56 | keeps exactly the categories without a parent, every copy of each, in input order |
| CategoryQueries.CategoryChildren | lib/supabase/queries/categories.ts:118-121 | keeps exactly the categories whose parent is the given id, every copy of each, in input order |
| CategoryQueries.CategoryBySlug | lib/supabase/queries/categories.ts:126-129 | `null` exactly when no category has the slug, otherwise the first one that has it |
| CategoryQueries.FetchCategoryTree | lib/supabase/queries/categories.ts:62-113 | its in-memory tree building gives the same forest as `buildCategoryTree` |
| TaskTypes.MapLegacyStatus | lib/types/task.ts:50-63 | completed iff `done`, in_progress iff `in_progress`, delegated iff `canceled`; every other string maps to inbox; never waiting or scheduled |
| TaskTypes.StatusRoundTrip | lib/types/task.ts:50-63 | a status's own literal maps back to that status exactly for inbox and in_progress |
| TaskTypes.MapLegacyStatusNotIdempotent | lib/types/task.ts:50-63 | mapping twice differs from mapping once: `done` maps to completed, and then to inbox |
| TaskTypes.MapLegacySource | lib/types/task.ts:66-77 | voice iff `whatsapp`, api iff `import`; everything else, `null` and `undefined` included, maps to manual |
| TaskTypes.SourceRoundTrip | lib/types/task.ts:66-77 | a source's own literal maps back to that source only for manual |
| TaskTransform.RowToTask | lib/utils/task-transform.ts:28-58 | the status goes through the legacy mapping; a missing source falls back to the mapped `source_type`; falsy dates become `null` and a falsy description becomes absent; missing lists become empty; `highRisk` is true only for a stored `true`; `updatedAt` falls back to `created_at` |
| TaskTransform.TransformTaskToRow | lib/utils/task-transform.ts:61-81 | the key-by-key construction builds exactly the row `TaskToRow` describes |
| TaskTransform.TaskToRowKeys | lib/utils/task-transform.ts:61-81 | a row key is present iff the patch has its counterpart; `created_at`, `updated_at`, `source_type` and `category` are never written; a present but falsy description or date becomes `null` |
| TaskTransform.EmptyPatchEmptyRow | lib/utils/task-transform.ts:61-81 | an empty patch gives an empty row |
| TaskTransform.StatusSurvivesIff | lib/utils/task-transform.ts:28-81 | row to task to row keeps the status iff it is `inbox` or `in_progress` |
| TaskTransform.TaskRoundTrip | lib/utils/task-transform.ts:28-81 | row to task to row keeps the id, the title, the legacy fields and every field that was set |
| CategoryTransform.RowToCategory | lib/utils/category-transform.ts:17-28 | every column is copied to its field; `updatedAt` is `updated_at` when that is truthy, and `created_at` otherwise |
| CategoryTransform.TransformCategoryToRow | lib/utils/category-transform.ts:31-44 | the key-by-key construction builds exactly the row `CategoryToRow` describes |
| CategoryTransform.CategoryToRowKeys | lib/utils/category-transform.ts:31-44 | each row key is present iff the patch has it, and the timestamps are renamed |
| CategoryTransform.CategoryRoundTrip | lib/utils/category-transform.ts:17-44 | row to category to row returns the row, except that a falsy `updated_at` comes back as `created_at` |
| CategoryTransform.RoundTripUpdatedAtSet | lib/utils/category-transform.ts:17-44 | after a round trip, `updated_at` is always set |
| CategoryTransform.NullUpdatedAtNotKept | lib/utils/category-transform.ts:17-44 | a row with a `null` `updated_at` does not survive the round trip unchanged |
| PersonTransform.GroupNames | lib/types/person.ts:4-8 | every group's literal is one of the four allowed strings |
| PersonTransform.RowToPerson | lib/utils/person-transform.ts:16-26 | the notes of the result are absent or non-empty |
| PersonTransform.GroupNotValidated | lib/utils/person-transform.ts:21 | a row with an unknown group type yields a person whose group is none of the four groups |
| PersonTransform.TransformPersonToRow | lib/utils/person-transform.ts:29-41 | the key-by-key construction builds exactly the row `PersonToRow` describes |
| PersonTransform.PersonToRowKeys | lib/utils/person-transform.ts:29-41 | each key is present iff the patch has it; `group` is written to `group_type`; present but falsy notes become `null` |
| PersonTransform.PersonRoundTrip | lib/utils/person-transform.ts:16-41 | row to person to row keeps the id, family, name, group type and non-empty notes; `null` or empty notes are dropped and `updated_at` falls back to `created_at` |
| TaskFilters.UpcomingDays | lib/utils/task-filters.ts:59 | `daysAhead` defaults to 7 only when it is missing; `null` counts as 0 |
| TaskFilters.FilterTasksByView | lib/utils/task-filters.ts:58-103 | every view keeps a subsequence of the tasks, in their order, and keeps each task with all its copies or drops it |
| TaskFilters.AllViewKeepsEverything | lib/utils/task-filters.ts:58-103 | `all`, and every view type not listed, return the tasks unchanged |
| TaskFilters.TodayView | lib/utils/task-filters.ts:65-69 | keeps exactly the tasks whose due or scheduled date parses to a time on the current calendar day |
| TaskFilters.UpcomingView | lib/utils/task-filters.ts:71-75 | keeps exactly the tasks whose due or scheduled date lies in the window from now to `days` days ahead, both ends included |
| TaskFilters.PendingView | lib/utils/task-filters.ts:77-80 | keeps exactly the tasks whose status is waiting, scheduled or delegated |
| TaskFilters.HighRiskView | lib/utils/task-filters.ts:82-83 | keeps exactly the high-risk tasks |
| TaskFilters.ExpiringSoonView | lib/utils/task-filters.ts:85-92 | keeps exactly the tasks that have a category containing `Expiry & Renewals` and a due date within 30 days |
| TaskFilters.PersonView | lib/utils/task-filters.ts:94-98 | without a person id the view is empty; with one it keeps exactly the tasks naming that person |
| TaskFilters.NatToStringValue | lib/utils/task-filters.ts:115 | the digits of the number shown in a title read back as that number |
| TaskFilters.ShownDays | lib/utils/task-filters.ts:115 | the title and the description show `daysAhead` when it is set and non-zero, and 7 otherwise |
| TaskFilters.GetViewTitle | lib/utils/task-filters.ts:108-127 | the title is never empty, and it is the fallback `Tasks` exactly for a view type none of the seven known ones |
| TaskFilters.GetViewDescription | lib/utils/task-filters.ts:132-151 | the description is empty exactly for a view type none of the seven known ones |
| TaskFilters.ShownDaysMatchFilter | lib/utils/task-filters.ts:59-139 | the day count shown in the text equals the one the filter uses iff `daysAhead` is neither `null` nor 0 |
| TaskFilters.UpcomingTitleDisagrees | lib/utils/task-filters.ts:108-139 | for `daysAhead` `null` or 0, the title and the description promise 7 days while the filter looks 0 days ahead |
| TaskFilters.UpcomingTitleAgrees | lib/utils/task-filters.ts:108-127 | for a positive `daysAhead`, the title names the filter's number of days |
| TaskQueries.TasksByCategory | lib/supabase/queries/tasks.ts:66-76 | `null` keeps exactly the uncategorised tasks, and an id keeps exactly the tasks with that `category_id`, every copy of each, in input order |
| TaskQueries.GroupOfIgnoresCase | lib/supabase/queries/tasks.ts:92 | a task's group depends on its status only up to case |
| TaskQueries.GroupingAppend | lib/supabase/queries/tasks.ts:91-114 | one more task extends exactly the group its status selects |
| TaskQueries.PushTask | lib/supabase/queries/tasks.ts:92-113 | the branches on the lower-cased status append the task to the one group its status selects, leaving the other four unchanged |
| TaskQueries.GroupTasksByStatus | lib/supabase/queries/tasks.ts:82-117 | the loop builds exactly the grouping: each group holds the tasks its rule selects |
| TaskQueries.GroupingPlacesEachTaskOnce | lib/supabase/queries/tasks.ts:82-117 | every task is in exactly one group, the one its lower-cased status names |
| TaskQueries.GroupingKeepsOrder | lib/supabase/queries/tasks.ts:82-117 | every group keeps the input order |
| TaskQueries.GroupSizes | lib/supabase/queries/tasks.ts:82-117 | the five group sizes add up to the number of tasks |
| TaskQueries.TaskCountsByStatus | lib/supabase/queries/tasks.ts:122-131 | each reported count is the number of tasks whose status falls in that group, the total is the number of tasks, and the gap between the total and the four counts is the size of the unreported `other` group |
| JsValues.TrimEmptyIffBlank | app/api/people/route.ts:78 | a string trims to empty exactly when all its characters are whitespace |
| JsValues.JoinSplit | app/api/categories/route.ts:97 | joining the pieces of a split with the separator gives the string back |
| JsValues.SplitPiecesFree | app/api/categories/route.ts:97 | no piece of a split contains the separator |
| JsValues.SplitAtSeparator | app/api/categories/route.ts:97 | a string containing the separator splits into at least two pieces |
| JsValues.SplitWithoutSeparator | app/api/categories/route.ts:97 | a string without the separator is a single piece, itself |
| ApiCommon.FieldOrNull | app/api/tasks/route.ts:70-72 | `x \|\| null` keeps a truthy value and turns every falsy one into `null` |
| ApiCommon.RequiredTextIffNotBlank | app/api/categories/route.ts:81 | the required-field check passes exactly for a string that is not all whitespace |
| ApiCommon.AuthCheck | app/api/categories/route.ts:57-75 | no session gives 401; signed in without a family gives 400; the handler continues iff both are present |
| CategoryRoute.Level | app/api/categories/route.ts:97 | the level is the number of pieces the path splits into at ` > `, at least 1 |
| CategoryRoute.LevelCountsSeparators | app/api/categories/route.ts:97 | the level is 1 exactly when the path has no ` > `, and at least 2 when it has one |
| CategoryRoute.PlanCategoryChecks | app/api/categories/route.ts:57-78 | no session gives 401; no family gives 400; only then is the body read, and a body that is not JSON, or is `null`, throws; otherwise the body checks decide |
| CategoryRoute.CheckCategoryRefusals | app/api/categories/route.ts:80-113 | in this order: a missing, non-string or blank path gives 400 `Path is required`; an invalid path gives 400 with the format message; a given parent that is invalid gives 400 `Invalid parent path format`; a valid parent that the path does not extend by ` > ` gives 400 `Parent path must be a valid parent of the category path` |
| CategoryRoute.CheckCategoryOutcomes | app/api/categories/route.ts:80-125 | the record is built exactly when every check passes and the parent is absent, `null` or a string; the handler throws exactly when every check passes and the parent is another JSON value |
| CategoryRoute.CheckCategoryThrows | app/api/categories/route.ts:122 | a parent that passed the checks but is not a string throws at `trim` |
| CategoryRoute.CheckCategoryBuilds | app/api/categories/route.ts:116-125 | a string, absent or `null` parent that passed the checks lets the record through |
| CategoryRoute.InsertedRecord | app/api/categories/route.ts:97-125 | the insert has the caller's family, the trimmed non-empty path, as level the number of pieces of the path split at ` > ` (none of which contains ` > `, and which joined by it give the path back), `is_active` true, and the trimmed parent or `null` |
| CategoryRoute.AcceptedParentIsPrefix | app/api/categories/route.ts:100-114 | an accepted parent is a prefix of the path and is followed there by ` > ` |
| CategoryRoute.PostCategory | app/api/categories/route.ts:116-143 | a failed check answers with its status; the handler throws exactly when reading the body or the parent's `trim` does; code `23505` gives 409; any other database error gives 500 with its message; success gives 201 with the converted row |
| PeopleRoute.GroupOrDefault | app/api/people/route.ts:75 | the default `adult` replaces a missing group only |
| PeopleRoute.PlanPersonChecks | app/api/people/route.ts:54-75 | no session gives 401; no family gives 400; only then is the body read, and a body that is not JSON, or is `null`, throws; otherwise the body checks decide |
| PeopleRoute.CheckPersonOutcomes | app/api/people/route.ts:75-92 | a missing, non-string or blank name gives 400 `Name is required`; then a group that is not one of the four literals (a missing one counting as `adult`) gives 400 with the group message, so a `null` group is refused; the record is built exactly when both pass; nothing here throws |
| PeopleRoute.InsertedPerson | app/api/people/route.ts:94-102 | the insert has the caller's family, the trimmed non-empty name, a group type from the enumeration (`adult` by default), and the notes if truthy, else `null` |
| PeopleRoute.PostPerson | app/api/people/route.ts:74-113 | a failed check answers with its status; the handler throws exactly when, past the session and family checks, the body is not JSON or is `null`; a database error gives 500 with its message; success gives 201 with the converted row |
| TaskRoute.PlanTaskChecks | app/api/tasks/route.ts:32-61 | session, membership, then reading the body (a body that is not JSON, or is `null`, throws), then a non-blank string title; nothing else is checked |
| TaskRoute.InsertedTask | app/api/tasks/route.ts:63-77 | the insert has the caller's family and the trimmed non-empty title; falsy category, assignee and due date become `null`; status is `open` and source `manual` whatever the body says |
| TaskRoute.PostTask | app/api/tasks/route.ts:52-83 | a failed check answers with its status; the handler throws exactly when, past the session and family checks, the body is not JSON or is `null`; a database error gives 500 with its message; success gives 201 with the row as stored |
| TaskListState.Flip | components/TaskList.tsx:29 | toggling always changes the status |
| TaskListState.Toggled | components/TaskList.tsx:27-31 | same length and order; tasks with another id are unchanged; tasks with the id change their status and nothing else |
| TaskListState.ToggleTwice | components/TaskList.tsx:27-31 | toggling the same id twice restores the list |
| TaskListState.ToggleAbsent | components/TaskList.tsx:27-31 | toggling an id no task has changes nothing |
| TaskListState.OpenDonePartition | components/TaskList.tsx:19-20 | every task is in exactly one of the open and done lists, and their lengths add up to the list's |
| TaskListState.TaskList.constructor | components/TaskList.tsx:14-17 | the list starts with the open and the done sample task |
| TaskListState.TaskList.OpenTasks | components/TaskList.tsx:19 | exactly the open tasks, every copy of each, in list order |
| TaskListState.TaskList.DoneTasks | components/TaskList.tsx:20 | exactly the done tasks, every copy of each, in list order |
| TaskListState.TaskList.AddTask | components/TaskList.tsx:22-25 | one new open task goes in front and the rest is unchanged; the open list grows by one and the done list is unchanged |
| TaskListState.TaskList.Toggle | components/TaskList.tsx:27-31 | the new list is the toggled old list, and the open and done counts still add up to its length |
| NotionTaskListState.NextStatus | components/NotionTaskList.tsx:79 | the requested status is `done` iff the task is open or inbox, and `open` otherwise |
| NotionTaskListState.ToggleRequest | components/NotionTaskList.tsx:75-79 | no request iff no task has the id; otherwise the next status of the first task with that id |
| NotionTaskListState.ReplaceById | components/NotionTaskList.tsx:88-92 | same length and order; exactly the tasks with the id are replaced by the server's task |
| NotionTaskListState.ReplaceAbsent | components/NotionTaskList.tsx:88-92 | replacing an id no task has changes nothing |
| NotionTaskListState.ReplaceIdempotent | components/NotionTaskList.tsx:88-92 | applying the same answer twice equals applying it once |
| NotionTaskListState.OpenDoneDisjoint | components/NotionTaskList.tsx:36-43 | no status is both open and done, so the two lists' lengths add up to at most the number of tasks |
| NotionTaskListState.NotionTaskList.constructor | components/NotionTaskList.tsx:15-17 | starts empty, loading, with nothing highlighted |
| NotionTaskListState.NotionTaskList.LoadTasks | components/NotionTaskList.tsx:19-34 | an ok answer replaces the list; loading ends in every case |
| NotionTaskListState.NotionTaskList.OpenTasks | components/NotionTaskList.tsx:36-39 | exactly the open and inbox tasks, every copy of each, in list order |
| NotionTaskListState.NotionTaskList.DoneTasks | components/NotionTaskList.tsx:40-43 | exactly the done and completed tasks, every copy of each, in list order |
| NotionTaskListState.NotionTaskList.AddTask | components/NotionTaskList.tsx:45-56 | a created task is prepended and highlighted; a failure changes nothing |
| NotionTaskListState.NotionTaskList.ClearHighlight | components/NotionTaskList.tsx:58-64 | the task's highlight is removed |
| NotionTaskListState.NotionTaskList.Toggle | components/NotionTaskList.tsx:75-97 | an absent id changes nothing; otherwise an ok answer replaces the tasks with that id, and a failed one changes nothing |
| TaskDetailsState.Apply | components/TaskDetails.tsx:102 | the spread sets the field the edit names to its value and leaves every other field as it was: the other editable fields, the id, the timestamps, `source`, `family_id`, the two user ids, `source_media_url` and `confidence` |
| TaskDetailsState.ApplyCurrentChangesNothing | components/TaskDetails.tsx:102 | setting a field to the value it has changes nothing |
| TaskDetailsState.ToggleMember | components/TaskDetails.tsx:106-113 | an absent id is appended; a present one has all its occurrences removed, while every other element keeps all its copies (as a multiset) and their order |
| TaskDetailsState.ToggleAbsentTwice | components/TaskDetails.tsx:106-113 | toggling an absent id twice restores the list |
| TaskDetailsState.TogglePresentTwice | components/TaskDetails.tsx:106-113 | toggling a present id twice moves a single copy of it to the end |
| TaskDetailsState.TaskDetails.constructor | components/TaskDetails.tsx:16-20 | no task in the form, no changes |
| TaskDetailsState.TaskDetails.ShowTask | components/TaskDetails.tsx:33-38 | a shown task is copied into the form and the changes flag is cleared |
| TaskDetailsState.TaskDetails.HandleChange | components/TaskDetails.tsx:100-104 | without a task, nothing happens; otherwise the edit is applied and the form is marked changed |
| TaskDetailsState.TaskDetails.TogglePerson | components/TaskDetails.tsx:106-113 | without a task, nothing happens; otherwise the people list is toggled and the form is marked changed |
| TaskDetailsState.TaskDetails.ToggleCategory | components/TaskDetails.tsx:115-122 | without a task, nothing happens; otherwise the category list is toggled and the form is marked changed |

## Left out

- Database and network I/O is not modelled; each call is an input standing for its outcome. This covers:
  - the Supabase queries and their filters and ordering (`fetchCategories`, `fetchTasks`);
  - row-level security;
  - the GET handlers of the three routes;
  - the components' `fetch` calls, `alert` and `console` output.
- `isValidCategoryPath` is imported by the categories handler but not defined in `lib/types/category.ts`, so it is an input predicate.
- `localeCompare` is modelled as lexicographic order on code points. `toLowerCase` is modelled on ASCII letters only.
- Dates are modelled through inputs:
  - the current time, the `Date` parser and the local calendar day are inputs;
  - `setDate(getDate() + n)` is modelled as adding `n` times 86 400 000 ms, which ignores daylight-saving shifts.
- CategoryTypes.GetCategoryPath: requires a parent chain that ends. On a cycle of parent ids the source recurses until the stack overflows, and that failure is not modelled.
- CategoryTree.BuildCategoryTree: the tree facts assume unique category ids, as the table's primary key guarantees. With duplicate ids the source can link its shared node objects into a cycle, and the model does not reproduce that object graph.
- The level update in the second pass of `buildCategoryTree` is modelled on ids, not on shared objects, with the same order-dependent result. Aliasing of the node objects is not modelled otherwise.
- NotionTaskListState.NotionTaskList.Toggle: handlers run one after another. The race in the source is not modelled: there, a server answer is applied to whatever list is current when it arrives.
- The 1.5 s timer that ends a new task's highlight is modelled only as the separate ClearHighlight step.
- In `TaskDetails.tsx`, saving (`handleSave`), the close confirmation, loading people and categories, the search boxes and all rendering are not modelled.
- `formData.people || []` and `formData.categories || []` are not modelled, because the API `Task` always carries both lists.
- The task `confidence` number is modelled as an integer.
- A category's `sort_order` is modelled as an integer, so `NaN` and fractional sort orders, which `a.sort_order - b.sort_order` would compare differently, are not modelled.
- A view's `daysAhead` is modelled as an integer, so `NaN` and fractional day counts are not modelled.
- Presentational components, the WhatsApp webhook stub, the debug route and the verification script have no logic to state and are not part of this model.
