# Thesis progress tracker: structure flattening, assembly, audit and week closing

This project models the logic of a thesis-progress dashboard. The dashboard keeps the
work plan as a tree of months, weeks, activities and tasks. Each task has KPIs and
evidence requirements.

- **Flattener** (`Flatten`, `FlattenFacts`). The `/api/structure` route of `server.ts`
  reads the tree as one nested query result. It expands that result into flat rows with
  aliased column names (`mes_id`, `semana_id`, `actividad_id`, ...). It emits a
  placeholder row for a week without activities and for an activity without tasks. For
  each task it emits the KPI × evidence product, treating an empty list as one empty
  object.
- **Assembler** (`Hierarchy`, `HierarchyFacts`). `getStructure` in `src/services/api.ts`
  folds those rows back into the `Mes[]` tree of `src/types.ts`.
  - It uses find-then-push at every level, so ids are deduplicated per parent.
  - A falsy activity, task, KPI or evidence id creates no node.
  - Flags are normalised with `!!`.
  - The first row that mentions a node fixes its fields.
- **Round trip** (`RoundTrip`). Assembling the flattened rows gives back the tree the
  query returned, under stated side conditions. A month without weeks is lost, and the
  KPI × evidence fan-out collapses back to the original lists.
- **Audit** (`Audit`). The create, update and delete routes of `server.ts` each send one
  write to the entity's table, and insert an audit entry after that write succeeds. The update route cleans its path id with
  `parseInt(id.split(':')[0])`. `parseInt` is modelled on strings, with `None` standing
  for NaN.
- **Week tracker** (`Tracker`, `TrackerFacts`). `src/App.tsx` keeps its own flat list of
  24 weeks and provides:
  - the initial data;
  - the task field merge (`updateTask`);
  - week closing behind two gates: the previous week must be closed, and critical KPIs
    must be filled in;
  - the dashboard figures: progress percentage, month done and week locked.

JavaScript values are `JsValues.Value` (`Undefined | Null | Bool | Num | Str`), and
`Truthy` is JavaScript truthiness. The `Arith` module holds one shared fact about multiplication.

Where code updates state step by step, the model uses a method:
- `Flatten.FlattenStructure` and the `Push*Rows` methods append to the flattened
  sequence;
- `Hierarchy.GetStructure` loops over the rows and calls `Hierarchy.AddRow`, which
  searches each level with the `JsValues.Find` loop;
- `Tracker.GenerateInitialData` is the counting loop.

Each method is proved equal to a specification function, and the properties are lemmas
about those functions.

## Model

| member | source | states |
|---|---|---|
| JsValues.IndexOfId | src/services/api.ts:17 | the position `find` stops at under `===`: the first equal id, or the length when the id is absent, and found exactly when the id occurs |
| JsValues.Find | src/services/api.ts:17 | the linear search loop returns exactly `IndexOfId` |
| JsValues.FirstOccurrencesSpec | src/services/api.ts:17-21 | find-then-push keeps each id once, keeps exactly the ids seen, never more than the input, in order of first occurrence |
| Hierarchy.AddRow | src/services/api.ts:16-93 | one forEach step (find or create month, week, then activity and task when their ids are truthy, then push the KPI and evidence unless present) yields exactly `AddToMeses` |
| Hierarchy.AddRowToActividades | src/services/api.ts:29-92 | the activity and task part of a step: nothing for a falsy `actividad_id`, else find or create the activity (and, for a truthy `tarea_id`, the task) and write it back, exactly as `AddToActividades` |
| Hierarchy.AddRowToTask | src/services/api.ts:61-90 | the KPI and evidence entries are each pushed only when their id is truthy and not yet in the task, exactly as `AddToTask` |
| Hierarchy.GetStructure | src/services/api.ts:14-95 | the loop over all rows starting from `[]` yields exactly `Assemble(raw)` |
| HierarchyFacts.AssembledMonths | src/services/api.ts:17-21 | the month ids of the tree are the distinct `mes_id`s of the rows, in order of first occurrence |
| HierarchyFacts.MonthsOfRows | src/services/api.ts:14-21 | no rows give no months; month ids are pairwise distinct; there are never more months than rows |
| HierarchyFacts.NullAndAbsentMonthIdsDiffer | src/services/api.ts:17-21 | the month lookup compares with `===`, so a row with a null `mes_id` and a row without one build two months |
| HierarchyFacts.AssembledWeeks | src/services/api.ts:23-27 | the weeks of month x are the distinct `semana_id`s of rows with `mes_id == x`, in first-occurrence order (dedup per month) |
| HierarchyFacts.AssembledActivities | src/services/api.ts:29-43 | the activities of week (x, y) are the distinct truthy `actividad_id`s of rows under (x, y): the same id under two weeks gives two nodes, and a falsy id gives none |
| HierarchyFacts.AssembledTasks | src/services/api.ts:45-59 | the tasks of an activity are the distinct truthy `tarea_id`s of rows under it |
| HierarchyFacts.AssembledLeaves | src/services/api.ts:61-90 | a task's KPI list and evidence list are each the distinct truthy ids of its rows, deduplicated independently |
| HierarchyFacts.AssembledRowLands | src/services/api.ts:16-93 | every row's month and week exist in the tree; its activity exists iff its id is truthy; its task exists iff its id is truthy; likewise for KPI and evidence |
| HierarchyFacts.AssemblePrefixSurvives | src/services/api.ts:23-27 | first row wins: the tree built from a prefix survives in the full tree, with every node in place and fields unchanged; later rows only append children |
| HierarchyFacts.MonthFromFirstRow | src/services/api.ts:17-21 | the month node built by the first row with a `mes_id` keeps that row's number and name, with a null description |
| HierarchyFacts.WeekFromFirstRow | src/services/api.ts:23-27 | the week node keeps its first row's title and number, and has `closed == !!semana_closed` of that row |
| HierarchyFacts.ActividadFromFirstRow | src/services/api.ts:30-43 | the activity node keeps its first row's columns, with `es_critica == !!es_critica` |
| HierarchyFacts.TaskFromFirstRow | src/services/api.ts:46-59 | the task node keeps its first row's columns, with `completada == !!tarea_completada` |
| HierarchyFacts.LeavesFromFirstRow | src/services/api.ts:61-90 | the KPI and evidence entries keep their first row's columns, with `es_obligatorio` and `es_obligatoria` normalised by truthiness |
| Flatten.PushEvidenceRows | server.ts:73-75 | appends exactly one row per evidence slot, spreading base, KPI and evidence |
| Flatten.PushTaskRows | server.ts:68-77 | appends exactly the task's KPI × evidence rows, using one empty slot for an empty list |
| Flatten.PushActivityRows | server.ts:64-78 | appends the placeholder row when the activity has no tasks, then its tasks' rows |
| Flatten.PushWeekRows | server.ts:60-79 | appends the placeholder row when the week has no activities, then its activities' rows |
| Flatten.FlattenStructure | server.ts:57-81 | the nested forEach over the query result yields exactly `Flattened(data)`, and `[]` when there is no data |
| FlattenFacts.KpiRowsAt | server.ts:72-76 | the product has |kpis|·|evs| rows; the row for KPI i and evidence j is at i·|evs|+j (KPI-major) and spreads exactly those two |
| FlattenFacts.TaskRowsShape | server.ts:69-76 | a task emits max(1,|kpis|)·max(1,|evidencias|) rows in KPI-major order, each carrying the task's path and its slot's leaf columns |
| FlattenFacts.TwoByThreeFanOut | server.ts:70-76 | 2 KPIs and 3 evidence requirements give 6 rows |
| FlattenFacts.BareTaskRow | server.ts:70-71 | a task with neither KPIs nor evidence still emits one row, with no leaf columns |
| FlattenFacts.ActivityPlaceholder | server.ts:65-67 | an activity with no tasks contributes exactly one row, carrying month, week and activity columns and nothing below |
| FlattenFacts.WeekPlaceholder | server.ts:61-63 | a week with no activities contributes exactly one row, carrying only month and week columns |
| FlattenFacts.WeekRowsNonEmpty | server.ts:60-79 | every week contributes at least one row |
| FlattenFacts.MonthRowsEmptyIff | server.ts:59-60 | a month contributes no rows exactly when it has no weeks |
| FlattenFacts.MonthRowsCarry | server.ts:59-79 | every row a month emits carries that month's columns (`mes_id`, `numero_mes`, `mes_nombre`) |
| RoundTrip.TaskKpis | src/services/api.ts:61-76 | when the task's KPI ids are truthy and distinct, the KPIs assembled from its rows are its KPI list, in order |
| RoundTrip.TaskEvidencias | src/services/api.ts:78-90 | when the task's evidence ids are truthy and distinct, the evidence assembled from its rows is its evidence list, although the product repeats that list once per KPI |
| RoundTrip.AssembleFlattened | server.ts:57-81 | assemble(flatten(data)) == the tree of the query result, whenever every month has a week, sibling ids are distinct and ids below the week are truthy |
| RoundTrip.MonthWithoutWeeksIsLost | server.ts:59-60 | a month without weeks has no node in assemble(flatten(data)) |
| RoundTrip.FanOutCollapses | server.ts:70-76 | the 6 rows of a task with 2 KPIs and 3 evidence requirements assemble into one task with exactly those 2 KPIs and 3 requirements |
| Audit.Fields | server.ts:93 | `{ usuario, ...fields }`: fields has every body key except `usuario`, with the same values |
| Audit.Usuario | server.ts:102 | `usuario \|\| 'admin'` is always truthy, and it is the given user when that one is truthy |
| Audit.CreateRoute | server.ts:91-108 | the route inserts the body without `usuario` into the entity's table; an audit entry exists iff the insert succeeded, and the reply is 200 exactly then; the entry has accion CREATE, the entity, the new row's id, the inserted fields, and the defaulted user |
| Audit.UpdateRoute | server.ts:110-134 | the route updates the entity's table with the fields, filtered by the cleaned id (NaN when it does not parse); an audit entry exists iff the update succeeded (200 exactly then); the entry has accion UPDATE, entity id = that filter id (null for NaN), the fields, and the defaulted user |
| Audit.DeleteRoute | server.ts:136-153 | the route deletes from the entity's table filtered by the raw id string; an audit entry exists iff the delete succeeded (200 exactly then); the entry has accion DELETE, entity id = parseInt(id), no new values, the query's `razon`, and the defaulted user |
| Audit.AuditUserDefaults | server.ts:97-103 | every audit entry of the three routes names a truthy user, 'admin' when none is given, and no stored field map holds `usuario` |
| Audit.DeleteWithoutReason | server.ts:138-148 | a delete with no reason in the query still succeeds and audits an undefined reason |
| Audit.BeforeColon | server.ts:115 | `split(':')[0]` is a colon-free prefix that is the whole string or is followed by a colon |
| Audit.ParseIntStops | server.ts:115 | appending a text that starts with a colon never changes what parseInt reads |
| Audit.CleanIdIsParseInt | server.ts:115 | `parseInt(id.split(':')[0]) == parseInt(id)` for every id |
| Audit.UpdateAndDeleteAuditSameId | server.ts:123 | for the same path id, the update and delete audit entries carry the same entity id |
| Audit.ParseDecimal | server.ts:144 | parseInt reads back the decimal form of every integer |
| Audit.CleanIdOfDecimal | server.ts:115 | the cleaned id of `"<n>:<anything>"` is n |
| Audit.SuffixedIdFilters | server.ts:115-118 | for an id `"<n>:<suffix>"` the update filters by row n, while the delete (server.ts:140) filters by the whole string, suffix included |
| Tracker.GenerateInitialData | src/App.tsx:19-34 | the counting loop i = 1..24 yields exactly `InitialData()` |
| Tracker.WeekIndex | src/App.tsx:61 | `weeks.find(w => w.id === id)`: the first week with that id, all earlier weeks differing |
| Tracker.WeekIndexFound | src/App.tsx:61-62 | the search finds a week exactly when one with that id exists |
| Tracker.UpdateTask | src/App.tsx:50-58 | same number of weeks and of tasks per week; ids, months, titles and `closed` unchanged; exactly the tasks with the id in the weeks with the id get the fields overlaid |
| Tracker.CloseWeek | src/App.tsx:60-81 | NoSuchWeek iff the week is missing; PreviousWeekOpen iff week id-1 exists and is open (id > 1); CriticalKpisPending iff it passed that and some critical task has an empty KPI value; otherwise exactly the weeks with the id get `closed := true` |
| TrackerFacts.InitialDataShape | src/App.tsx:19-34 | 24 weeks, ids 1..24, month = ceil(id/4) in 1..6, all open, two incomplete tasks with empty KPI values, the first critical |
| TrackerFacts.FirstCloseNeedsKpi | src/App.tsx:74-78 | closing week 1 of the initial data stops at the critical-KPI gate |
| TrackerFacts.FirstCloseAfterKpi | src/App.tsx:50-81 | after week 1's critical KPI is filled in through updateTask, closing week 1 succeeds |
| TrackerFacts.MissingPredecessorPasses | src/App.tsx:65-71 | when week id-1 is missing, the sequential gate passes |
| TrackerFacts.ReCloseIsNoop | src/App.tsx:80 | closing a week whose entries are all closed leaves the list unchanged |
| TrackerFacts.CloseIdempotent | src/App.tsx:60-81 | closing the same week twice gives what closing once gives |
| TrackerFacts.UpdateTaskIdempotent | src/App.tsx:50-58 | merging the same fields twice gives what merging once gives |
| TrackerFacts.EmptyPatchIsNoop | src/App.tsx:50-58 | merging no fields leaves the list unchanged |
| TrackerFacts.RunEvolves | src/App.tsx:50-81 | over any sequence of edits and close attempts: length, ids, months and task counts are kept, and no closed week reopens |
| TrackerFacts.CompletedTasksFacts | src/App.tsx:101-102 | completed ≤ total; completed = total iff every task is completed; completed = 0 iff none is |
| TrackerFacts.ProgressBounds | src/App.tsx:103 | progress lies in 0..100 and is 0 with no tasks |
| TrackerFacts.ProgressEnds | src/App.tsx:103 | with fewer than 200 tasks, progress is 100 iff there are tasks and all are completed, and 0 iff none is completed |
| TrackerFacts.RoundingHidesOneTask | src/App.tsx:103 | with 201 tasks, 200 done rounds to 100 and 1 done rounds to 0 |
| TrackerFacts.ThreeOfFour | src/App.tsx:103 | 3 of 4 tasks completed reads 75 |
| TrackerFacts.ReachableProgressEnds | src/App.tsx:19-34 | every list reachable from the initial data has 48 tasks, so its progress is 100 iff all are done and 0 iff none is |
| TrackerFacts.MonthDoneIff | src/App.tsx:170 | a month is done iff every week of that month is closed (vacuously true for a month with no weeks) |
| TrackerFacts.LockedIff | src/App.tsx:206 | locked iff id > 1 and week id-1 is missing or open |
| TrackerFacts.UnlockedPassesGate | src/App.tsx:206 | an unlocked existing week always passes closeWeek's sequential gate |
| TrackerFacts.LockedYetClosable | src/App.tsx:206 | the converse fails: week 2 with no week 1 shows as locked, yet closeWeek closes it |

## Left out

- Network and storage (Supabase queries, Express routing, Vite serving, env checks) are not modelled. Database replies are parameters (`Audit.DbReply`). The query result is the input `Option<seq<MonthRec>>`, and its ordering is taken as given.
- The audit insert's own failure is not modelled: the source awaits it and ignores its result.
- The week-close route (server.ts:155-163) sets `closed` with no gate, so there is no logic to model.
- The client `fetch` wrappers for create, update, delete and close are network I/O and are not modelled.
- React rendering, UI state, `localStorage`/`JSON.parse` persistence and the Excel export via XLSX are not modelled.
- The reports-table id split (display only) is not modelled.
- Concurrency is not modelled: nothing runs concurrently in process.
- Numbers are integers. Floating point, NaN (`None`/`Null` instead) and large-number precision in `parseInt` are not modelled.
- Tracker.Progress: `Math.round(completed / total * 100)` is computed on exact rationals as `(200c + t) / (2t)`, so floating-point rounding at exact halves is not captured.
- TrackerFacts.ProgressEnds: requires fewer than 200 tasks. With more, rounding makes 100 and 0 reachable without all or none done, as TrackerFacts.RoundingHidesOneTask shows. Lists reachable from the initial data have 48 tasks (TrackerFacts.ReachableProgressEnds).
- `null` and an absent key are alike in the `if (row.x)` and `!!` tests, but differ under `===` in the month and week lookups (HierarchyFacts.NullAndAbsentMonthIdsDiffer). The model keeps them distinct: `Undefined` for keys the spread objects lack, and `Null` for explicit nulls, including the literal nulls `getStructure` writes.
- The flattened rows omit the nested child arrays that the spread also copies. No reader of the rows uses them.
- In-place mutation of the found month, week, activity and task objects is modelled as value update of the path. Object identity and aliasing are not captured.
- RoundTrip.AssembleFlattened: holds only under `Keyed`:
  - every month has at least one week;
  - sibling ids are distinct;
  - ids below the week level are truthy.

  Without those conditions, months disappear (RoundTrip.MonthWithoutWeeksIsLost), siblings merge, or nodes are skipped.
- The update and delete routes use the path id as given. The URL decoding done by Express is not modelled.
- Deleting without a reason: the code requires none and audits an undefined `razon_cambio`. The model follows the code, not the stricter rule that a delete must give a reason (Audit.DeleteWithoutReason).
