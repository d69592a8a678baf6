# SmartPlanner task and tag core in Dafny

SmartPlanner is a calendar planner: a Django backend keeps each user's
tasks and tags in two SQL tables behind token-authenticated views, and a
Next.js frontend lists, filters, sorts and pages them. This project models
the following core:

- the task views of the backend (create, update, delete, list all, list
  by date range, and the filter query with its validation);
- the tag views (create, list, delete);
- the filter page of the frontend (the client-side sort, the pagination
  slice, the page-number bar with ellipses, the tag toggle, the filter
  payload and the page's state handlers);
- the tag manager popover of the calendar, with its client-side limit of
  ten tags.

Modules, one per file:

| file | module | what it holds |
|---|---|---|
| `wrappers.dfy` | `Wrappers` | `Option` |
| `text.dfy` | `Text` | JavaScript/Python `trim`, ASCII `lower`, and JavaScript's `a \|\| b` on strings |
| `records.dfy` | `Records` | table rows, the task and tag objects returned to clients, priority labels, HTTP responses |
| `database.dfy` | `Database` | the `Store` class (the tables, the token table, the id sequences), its invariant, and authorization |
| `sorting.dfy` | `Sorting` | `Select` (a WHERE clause or `filter`), a stable insertion sort on values and in place on an array |
| `task_views.dfy` | `TaskViews` | the task endpoints, including the filter query |
| `tag_views.dfy` | `TagViews` | the tag endpoints |
| `filter_page.dfy` | `FilterPage` | the filter page: sorting, pagination, page bar, tag toggle, payload, the `FindTasksPage` class |
| `manage_tags.dfy` | `ManageTags` | the `TagManager` class of the popover |

Each endpoint is a method that takes the `Store` and modifies it (the
read-only ones only read it). It takes the Authorization header as a
parameter and returns the status code and either the body or the
error message the view sends. Its contract fixes the new table contents,
and every endpoint keeps the store invariant `Store.Valid()`. That
invariant says:

- task and tag ids are distinct and below their sequence's next value;
- tag names are unique per user;
- every tagged task carries a tag of its own user.

The SQL statements of the views become functions on sequences of rows.
`Select` models a WHERE clause and `SortBy` an `ORDER BY`. Both the React
components are classes whose handlers update the component's state
fields. A network call inside a handler is not made: its outcome is a
parameter of the handler.

Points of the code worth noting:

- The tag limit of ten is enforced only by the popover (`ManageTags.js`).
  `CreateTagView` has no limit, so `TagViews.CreateTag` has none either.
  Duplicate names, by contrast, are rejected by the backend.
- `UpdateTaskView` never reads `date_created`. An update request may
  carry it, and the model ignores it as well.
- Clicking a tag twice on the filter page gives back the original
  selection only when the tag was not selected, or was the last one
  selected. Otherwise the tag moves to the end
  (`FilterPage.ToggleTwiceRestoresIffLast`).

## Model

| member | source | states |
|---|---|---|
| Records.LabelOf | backend/tasks/views.py:337 | a rank gets the `Unknown` label exactly when it is not one of the three choices 1..3 |
| Records.LabelRoundTrip | backend/tasks/models.py:8-12 | the frontend's `priorityMap` rank of a label and the backend's label of a rank are inverse on the three known values |
| Database.Authorize | backend/tasks/views.py:19-29 | a missing or empty header is "no token"; otherwise the caller is a user exactly when the key (stripped when asked) is in the token table, and it is that token's user |
| Database.AuthFailure | backend/tasks/views.py:22-29 | a request without a token is refused with 400, one with an unknown token with 401 |
| Text.TrimEmptyIffBlank | frontend/src/app/calendar/components/ManageTags.js:53 | a string trims to the empty string exactly when every character is white space, so `!newTag.trim()` is "the name is blank" |
| Text.OrElse | frontend/src/app/calendar/components/ManageTags.js:77 | `message \|\| fallback` is the message when it is not empty, the fallback when the message is empty, and empty only when both are |
| Sorting.SortInPlace | frontend/src/app/filter/page.jsx:137-167 | sorting the array in place leaves in it the stable sort of its old contents by the key |
| Sorting.SortByPermutes | frontend/src/app/filter/page.jsx:136-171 | sorting only reorders: the result is a permutation of the input |
| Sorting.SortBySorted | frontend/src/app/filter/page.jsx:137-167 | the sorted sequence is ordered by ascending key |
| Sorting.SortByStable | frontend/src/app/filter/page.jsx:137-167 | elements with equal keys keep their relative order |
| Sorting.SortByIdempotent | frontend/src/app/filter/page.jsx:184-188 | sorting an already sorted list by the same key gives it back unchanged |
| Sorting.SelectCounts | backend/tasks/views.py:170-179 | a WHERE selection keeps every matching row as often as the table holds it, and no other row |
| Sorting.SelectAppend | frontend/src/app/calendar/components/ManageTags.js:97 | a `filter` or WHERE selection of a concatenation is the concatenation of the selections, so it keeps the input's order |
| TaskViews.JoinTag | backend/tasks/views.py:171-178 | the LEFT JOIN finds a tag row with the task's tag id when one exists, and none only when the task has no tag or no such row exists |
| TaskViews.RenderRows | backend/tasks/views.py:181-192 | the loop builds one dictionary per selected row, in order |
| TaskViews.RenderedTag | backend/tasks/views.py:183-191 | in a consistent store a listed task reports its own tag id, its tag's name or "No Tag" when it has none or the name is empty, and the row's other fields |
| TaskViews.CreateTask | backend/tasks/views.py:13-55 | 400/401 for bad auth, 400 without title and date, 400 for a tag the caller does not own; otherwise 201 with the next id and exactly one new row (priority 2, empty description, not completed by default); the store invariant is kept, the tag table and the tag id sequence never change, and a failure changes nothing |
| TaskViews.Patch | backend/tasks/views.py:89-119 | an updated row takes each column present in the request (the tag validated or NULL) and keeps the others; its id, owner and date are never written |
| TaskViews.RunUpdates | backend/tasks/views.py:89-119 | the cursor block runs one UPDATE per key present, in the view's order, and touches only the task table |
| TaskViews.UpdateStepsPatch | backend/tasks/views.py:89-119 | the five column updates run one after another amount to patching the targeted row as a whole |
| TaskViews.PatchKeepsValid | backend/tasks/views.py:79-119 | patching with an owned tag or none keeps ids fresh and every tag owned by its task's user |
| TaskViews.UpdateTask | backend/tasks/views.py:58-121 | fails exactly on bad auth, a missing task id or a tag the caller does not own, and then changes nothing; on success only the caller's row with that id is patched and the invariant is kept; the tag table, the tokens and both id sequences never change |
| TaskViews.DeleteKeepsValid | backend/tasks/views.py:144-148 | removing task rows keeps the store invariant |
| TaskViews.DeleteTask | backend/tasks/views.py:124-150 | the no-token check comes before the task-id check and the token lookup after it; success removes exactly the rows the DELETE selects; the tag table, the tokens and both id sequences never change |
| TaskViews.DeleteRemovesOnlyTarget | backend/tasks/views.py:145-148 | after a delete no row has the caller's id and task id, and every other row (every other user's in particular) remains |
| TaskViews.GetTasks | backend/tasks/views.py:153-194 | answers the auth failure, or 200 with the rendering of the caller's rows |
| TaskViews.OwnedTasksExact | backend/tasks/views.py:170-179 | the list holds a row exactly when it is the caller's, as often as the table does |
| TaskViews.GetTasksByDate | backend/tasks/views.py:197-246 | looks the stripped key up; 400 without both dates; otherwise 200 with the caller's rows dated within the range |
| TaskViews.ByDateSelectsRange | backend/tasks/views.py:222-229 | the by-date list holds exactly the caller's tasks within the inclusive range, and is empty for an inverted range |
| TaskViews.ConvertAll | backend/tasks/views.py:287-290 | the tag ids convert exactly when every item converts, giving the ids in order; otherwise the first item that does not convert is reported |
| TaskViews.BuildQuery | backend/tasks/views.py:274-325 | the query is rejected exactly when the request is invalid, with the view's status and message (a TypeError gives 500 and no view message); otherwise its WHERE conditions hold for a row exactly when the row matches the request |
| TaskViews.FilterTasks | backend/tasks/views.py:249-344 | auth failure, then the request's validation error, otherwise 200 with the matching rows ordered by date, rendered with priority labels |
| TaskViews.FilterRowsExact | backend/tasks/views.py:325-329 | the filtered rows are exactly the matching rows of the table, each as often, in ascending date order |
| TaskViews.FilterResultShape | backend/tasks/views.py:331-342 | the filter result is ordered by date, and each entry is the rendering of one of the caller's rows that matches the request |
| TaskViews.EmptyTagListIsNoConstraint | backend/tasks/views.py:268-284 | an absent or empty tag list does not restrict the result |
| TaskViews.TagListExcludes | backend/tasks/views.py:284-294 | with a non-empty tag list, an untagged task or one whose tag is not listed is never returned |
| TaskViews.OtherCompletedIsNoConstraint | backend/tasks/views.py:308-311 | a `completed` value other than 'true' or 'false' (in any case) does not restrict the result |
| TaskViews.PriorityFilter | backend/tasks/views.py:313-323 | a given priority is refused exactly when its lower-cased word is not low, medium or high; a matched row then has that rank and a known label |
| TagViews.CreateTag | backend/tags/views.py:7-56 | 400/401 for bad auth, 400 without a name, 400 when the caller already has that name; otherwise 201 with the next id and the tag appended; the invariant (unique names included) is kept, and a failure changes nothing |
| TagViews.CreatedNameIsTaken | backend/tags/views.py:40-54 | after a create, creating the same name again for that user is refused |
| TagViews.GetTags | backend/tags/views.py:59-91 | answers the auth failure, or 200 with the caller's tags as `{id, name}` objects |
| TagViews.TagListMembers | backend/tags/views.py:85-89 | the tag list holds an entry exactly when it is the id and name of a tag of the caller |
| TagViews.TagListDistinct | backend/tags/views.py:86-89 | in a consistent store no id and no name appears twice in a user's tag list |
| TagViews.DeleteTagKeepsValid | backend/tags/views.py:123-125 | clearing the tag from the caller's tasks and deleting it keeps the store invariant |
| TagViews.DeleteTag | backend/tags/views.py:95-127 | 400 when the token or the tag id is missing, 401 for an unknown token; otherwise the caller's tasks lose that tag and the tag row is deleted |
| TagViews.DeleteTagEffect | backend/tags/views.py:123-127 | after the delete no task of the caller carries the tag and the caller has no tag with that id; every other task and tag is untouched |
| FilterPage.SortTasks | frontend/src/app/filter/page.jsx:135-172 | returns a fresh array holding the stable sort of the input by the option's key, or the copy unchanged for an unknown option |
| FilterPage.SortedTasksPermutes | frontend/src/app/filter/page.jsx:135-171 | sorting never adds or drops a task |
| FilterPage.SortedTasksOrder | frontend/src/app/filter/page.jsx:137-170 | each option's order: dates ascending or descending, Low-Medium-High or the reverse, completed first or open first; an unknown option keeps the order |
| FilterPage.SortedTasksStable | frontend/src/app/filter/page.jsx:137-167 | tasks that tie under an option keep their order |
| FilterPage.SortedTasksIdempotent | frontend/src/app/filter/page.jsx:184-188 | choosing the same sort option again does not move any task |
| FilterPage.TotalPagesIsCeiling | frontend/src/app/filter/page.jsx:194 | the page count is the least number of 8-task pages holding every task |
| FilterPage.PageSliceContents | frontend/src/app/filter/page.jsx:191-193 | page p shows tasks 8(p-1) up to 8p, clipped to the list, and at most 8 of them |
| FilterPage.PagesUpToPrefix | frontend/src/app/filter/page.jsx:191-194 | the first k pages joined are the first 8k tasks |
| FilterPage.PagesCoverTasks | frontend/src/app/filter/page.jsx:191-194 | pages 1..totalPages joined give back the task list, and none of them is empty |
| FilterPage.PushPages | frontend/src/app/filter/page.jsx:209-211 | the counting loop appends the page numbers lo..hi |
| FilterPage.GeneratePageNumbers | frontend/src/app/filter/page.jsx:203-243 | the buttons are those of the page-bar function for the current page and page count |
| FilterPage.FewPagesAllShown | frontend/src/app/filter/page.jsx:208-211 | with at most 10 pages every page gets a button, in order, with no ellipsis |
| FilterPage.ManyPagesBarShape | frontend/src/app/filter/page.jsx:212-239 | with more than 10 pages the bar has at most 10 buttons, starts with page 1, ends with the last page, and its page numbers rise strictly within 1..totalPages |
| FilterPage.CurrentPageShown | frontend/src/app/filter/page.jsx:208-239 | the current page, when it is a page, always has a button |
| FilterPage.EllipsisPlacement | frontend/src/app/filter/page.jsx:213-239 | where the ellipses go: before the last page while the current page is at most 6, after page 1 once it is within five of the end, and on both sides of the five pages around it otherwise |
| FilterPage.EllipsisBetweenPages | frontend/src/app/filter/page.jsx:213-239 | an ellipsis always stands between two page buttons and stands for at least one skipped page |
| FilterPage.ShownPages | frontend/src/app/filter/page.jsx:213-239 | which page numbers each of the three layouts shows |
| FilterPage.HiddenPagesUnderEllipsis | frontend/src/app/filter/page.jsx:213-239 | a page without a button lies strictly between the numbers on either side of an ellipsis |
| FilterPage.ToggleFlips | frontend/src/app/filter/page.jsx:175-181 | toggling selects an unselected tag (appended last) and deselects a selected one completely |
| FilterPage.ToggleKeepsDistinct | frontend/src/app/filter/page.jsx:175-181 | toggling keeps the selection free of repeats |
| FilterPage.ToggleTwiceUnselected | frontend/src/app/filter/page.jsx:175-181 | toggling an unselected tag twice restores the selection |
| FilterPage.ToggleTwiceSelected | frontend/src/app/filter/page.jsx:175-181 | toggling a selected tag twice moves it to the end |
| FilterPage.ToggleTwiceRestoresIffLast | frontend/src/app/filter/page.jsx:175-181 | for a distinct selection, a double toggle restores it exactly when the tag was absent or last |
| FilterPage.PayloadDates | frontend/src/app/filter/page.jsx:89-103 | each date key is sent exactly when its field is filled in, with its text; the tags and completion choice are sent as they are and the priority lower-cased |
| FilterPage.FindTasksPage.constructor | frontend/src/app/filter/page.jsx:16-33 | the page's initial state: no tasks, no selection, 'all', no priority, 'date_desc', page 1, no error |
| FilterPage.FindTasksPage.HandleTagToggle | frontend/src/app/filter/page.jsx:175-181 | the selection is toggled and nothing else changes |
| FilterPage.FindTasksPage.HandleSortChange | frontend/src/app/filter/page.jsx:184-188 | the option is stored and the shown tasks are re-sorted by it; the page stays |
| FilterPage.FindTasksPage.HandlePageChange | frontend/src/app/filter/page.jsx:197-200 | only the current page changes |
| FilterPage.FindTasksPage.HandleFilter | frontend/src/app/filter/page.jsx:76-132 | back to page 1; without a token, no request and the log-in error; otherwise the payload is sent and the tasks become the returned ones sorted by the current option, or none with the error message or its fallback |
| ManageTags.WithoutIdExact | frontend/src/app/calendar/components/ManageTags.js:97 | removing by id drops every entry with that id, keeps every other entry as often as the list holds it, and changes nothing when no entry has the id |
| ManageTags.WithoutIdOrder | frontend/src/app/calendar/components/ManageTags.js:97 | removing by id keeps the list's order: it distributes over concatenation and keeps a single entry exactly when its id differs |
| ManageTags.TagManager.constructor | frontend/src/app/calendar/components/ManageTags.js:16-27 | the popover's initial state |
| ManageTags.TagManager.LoadTags | frontend/src/app/calendar/components/ManageTags.js:30-49 | a load replaces the list and marks it loaded, or keeps it and shows "Failed to load tags." |
| ManageTags.TagManager.HandleAddTag | frontend/src/app/calendar/components/ManageTags.js:52-79 | a blank name or a full list (10 tags) is refused before any request; a created tag is appended under the typed name and the input cleared; a failure shows its message; the list never grows past the limit |
| ManageTags.TagManager.InitiateDeleteTag | frontend/src/app/calendar/components/ManageTags.js:82-86 | the tag becomes the one awaiting confirmation and messages are cleared |
| ManageTags.TagManager.ConfirmDeleteTag | frontend/src/app/calendar/components/ManageTags.js:89-115 | nothing happens with no pending tag; a delete removes every entry with its id and closes the confirmation; a failure keeps the list and shows the message |
| ManageTags.TagManager.CancelDeleteTag | frontend/src/app/calendar/components/ManageTags.js:118-121 | the confirmation closes and the list stays |

## Left out

- Network and browser effects are not modelled: `fetch`, `localStorage`,
  `window.scrollTo`, `setTimeout`, `console.error`, and the `onTagChange`
  and `onClose` callbacks. The stored token and each request's outcome
  are handler parameters.
- The filter page's tag fetch on mount and its `loadingTags` flag are not
  modelled; only the task filter is.
- The popover's `isActive` trigger for `loadTags` is not modelled:
  `TagManager.LoadTags` is the load itself.
- Dates are day numbers. The `yyyy-MM-dd` text, `strftime`, JavaScript
  `new Date` parsing, and the link between the payload's date strings and
  the backend's days are not modelled.
- Lower-casing covers ASCII letters only. No Unicode case folding is
  modelled.
- SQL returns rows in table order in the model. An unordered SELECT, and
  the order among equal dates under `ORDER BY`, are not specified by SQL.
- JSON type mismatches are not modelled: an explicit `null` where a
  string is expected, and a non-string `completed` or `priority` (which
  raises AttributeError, a 500 in Django). What `int()` makes of a tag
  item is abstracted into `TaskViews.TagItem`.
- The `max_length=50` column limits and database errors are not
  modelled; ids and priorities are unbounded integers.
- The body of Django's own 500 page for a tag item that makes `int()`
  raise TypeError is not modelled: `TaskViews.FilterError` gives the status
  500 with an empty message.
- FilterPage.FindTasksPage.HandleFilter, ManageTags.TagManager.LoadTags,
  ManageTags.TagManager.HandleAddTag and ManageTags.TagManager.ConfirmDeleteTag
  run atomically: each handler is one step from its start to the end of
  its request. The interleavings across an `await` are not modelled. So
  two things are lost. A sort change during the filter request leaves the
  fetched tasks sorted by the option captured at the start. A tag list
  written from the list captured before a create or delete overwrites a
  load that finished meanwhile.
- The in-flight flags (`loadingTasks`, `loading`, `deleting`) are set and
  cleared within the one step. Their values while a request is pending
  (which disable buttons in the page) are therefore not modelled.
- The race between the COUNT and the INSERT of `CreateTagView` is not
  modelled; a request is one atomic step.
- The `message` texts of successful responses are not modelled; only
  the statuses and ids are.
- `parseInt` on selected tag ids is not modelled: ids are integers
  already.
- The users app, URL routing and the rest of the calendar frontend are
  not part of this model.
- FilterPage.SortTasks: requires known priority labels when the option
  compares priorities. JavaScript's comparator yields NaN for any other
  label, and the engine's order is then unspecified.
- FilterPage.FindTasksPage.HandleSortChange: same requirement, for the
  same reason.
- FilterPage.FindTasksPage.HandleFilter: same requirement on the
  returned tasks, for the same reason.
