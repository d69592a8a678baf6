/**
 * The task endpoints of the backend (`tasks/views.py`) as operations on the
 * in-memory task table of a `Store`: create, update, delete, list all,
 * list by date range, and the filter query.
 *
 * Every view first reads the Authorization header: a missing or empty one
 * is answered 400, a key that is no token 401, in that order. The JSON
 * request body is a record whose optional fields say which keys are
 * present; Python's truthiness is spelled out where the code relies on it.
 */
module TaskViews {
  import opened Wrappers
  import opened Records
  import opened Database
  import opened Sorting
  import Text

  /** A request key that may be absent (`'title' in data`) or carry a value. */
  datatype Field<T> = Absent | Present(value: T)

  /** A JSON id is truthy when present and not 0 (`if task_id:`). */
  predicate Truthy(id: Option<int>) {
    id.Some? && id.value != 0
  }

  // ---------------------------------------------------------------------
  // Rendering: the LEFT JOIN with tags_tag and the dictionaries of the views
  // ---------------------------------------------------------------------

  /** The first tag row whose id is `tagId`: what `LEFT JOIN tags_tag tg ON t.tag_id = tg.id` finds. */
  function JoinTag(tags: seq<TagRow>, tagId: Option<int>): (r: Option<TagRow>)
    ensures r.Some? ==> tagId == Some(r.value.id) && r.value in tags
    ensures r.None? ==> tagId.None? || forall j :: 0 <= j < |tags| ==> tags[j].id != tagId.value
  {
    if tagId.None? || tags == [] then None
    else if tags[0].id == tagId.value then Some(tags[0])
    else JoinTag(tags[1..], tagId)
  }

  /**
   * The dictionary a view appends for one selected row: `tag_id` is the
   * joined tag's id, `tag_name` its name or "No Tag" (also for an empty
   * name, since `'' or "No Tag"` is "No Tag").
   */
  function Render<P>(row: TaskRow, tags: seq<TagRow>, priority: P): Listed<P> {
    var tag := JoinTag(tags, row.tagId);
    Listed(row.id, row.title, row.description, priority,
           if tag.Some? then Some(tag.value.id) else None,
           if tag.Some? && tag.value.name != "" then tag.value.name else "No Tag",
           row.dateCreated, row.isCompleted)
  }

  /** The priority as the list and by-date views return it: the raw rank. */
  function RawPriority(row: TaskRow): int {
    row.priority
  }

  /** The priority as the filter view returns it: its choice label. */
  function LabelledPriority(row: TaskRow): PriorityLabel {
    LabelOf(row.priority)
  }

  /** The list a view returns for the selected `rows`, one dictionary per row. */
  function RenderAll<P>(rows: seq<TaskRow>, tags: seq<TagRow>, priority: TaskRow -> P): seq<Listed<P>> {
    seq(|rows|, i requires 0 <= i < |rows| => Render(rows[i], tags, priority(rows[i])))
  }

  /** The `for task in tasks: task_list.append({...})` loop of the views. */
  method RenderRows<P>(rows: seq<TaskRow>, tags: seq<TagRow>, priority: TaskRow -> P)
    returns (list: seq<Listed<P>>)
    ensures list == RenderAll(rows, tags, priority)
  {
    list := [];
    for i := 0 to |rows|
      invariant list == RenderAll(rows[..i], tags, priority)
    {
      list := list + [Render(rows[i], tags, priority(rows[i]))];
    }
    assert rows[..|rows|] == rows;
  }

  /**
   * In a consistent store a rendered task reports the tag it carries, and
   * "No Tag" exactly when it has none or its tag's name is empty; every
   * other field is the row's.
   */
  lemma RenderedTag<P>(row: TaskRow, tags: seq<TagRow>, priority: P)
    requires row.tagId.Some? ==> OwnsTag(tags, row.userId, row.tagId.value)
    ensures var v := Render(row, tags, priority);
      && v.tagId == row.tagId
      && (row.tagId.None? ==> v.tagName == "No Tag")
      && (row.tagId.Some? ==> exists j :: 0 <= j < |tags| && tags[j].id == row.tagId.value
                                 && v.tagName == (if tags[j].name != "" then tags[j].name else "No Tag"))
      && v.id == row.id && v.title == row.title && v.description == row.description
      && v.dateCreated == row.dateCreated && v.isCompleted == row.isCompleted
  {
    if row.tagId.Some? {
      var tag := JoinTag(tags, row.tagId);
      assert tag.Some?;
      var j :| 0 <= j < |tags| && tags[j] == tag.value;
    }
  }

  // ---------------------------------------------------------------------
  // CreateTaskView
  // ---------------------------------------------------------------------

  /**
   * The body of a create request. None is an absent key; for `title` and
   * `date_created` it also stands for a present value that is falsy (""
   * or null), since the view only tests their truthiness.
   */
  datatype CreateTaskRequest = CreateTaskRequest(
    title: Option<string>,
    description: Option<string>,
    priority: Option<int>,
    tagId: Option<int>,
    dateCreated: Option<Day>)

  /** `title` and `date_created` are both given and the title is not empty. */
  predicate HasTitleAndDate(req: CreateTaskRequest) {
    req.title.Some? && req.title.value != "" && req.dateCreated.Some?
  }

  /** The row a successful create inserts: not completed, priority 2 and description '' by default. */
  function NewTaskRow(id: int, user: int, req: CreateTaskRequest): TaskRow
    requires HasTitleAndDate(req)
  {
    TaskRow(id, req.title.value, user, req.description.GetOr(""), req.priority.GetOr(MEDIUM),
            if Truthy(req.tagId) then req.tagId else None, req.dateCreated.value, false)
  }

  method CreateTask(db: Store, header: Option<string>, req: CreateTaskRequest) returns (resp: Response<int>)
    requires db.Valid()
    modifies db
    ensures db.Valid()
    ensures db.tags == old(db.tags) && db.tokens == old(db.tokens) && db.nextTagId == old(db.nextTagId)
    ensures var caller := Authorize(db.tokens, header, false);
      && (!caller.User? ==> resp == AuthFailure(caller))
      && (caller.User? && !HasTitleAndDate(req) ==>
            resp == Failure(HTTP_400_BAD_REQUEST, "Title and date_created are required"))
      && (caller.User? && HasTitleAndDate(req) && Truthy(req.tagId) && !OwnsTag(db.tags, caller.id, req.tagId.value) ==>
            resp == Failure(HTTP_400_BAD_REQUEST, "Invalid tag ID"))
      && (caller.User? && HasTitleAndDate(req) && (Truthy(req.tagId) ==> OwnsTag(db.tags, caller.id, req.tagId.value)) ==>
            && resp == Success(HTTP_201_CREATED, old(db.nextTaskId))
            && db.tasks == old(db.tasks) + [NewTaskRow(old(db.nextTaskId), caller.id, req)])
    ensures resp.Failure? ==> db.tasks == old(db.tasks) && db.nextTaskId == old(db.nextTaskId)
  {
    var caller := Authorize(db.tokens, header, false);
    if !caller.User? {
      return AuthFailure(caller);
    }
    var user := caller.id;
    if !HasTitleAndDate(req) {
      return Failure(HTTP_400_BAD_REQUEST, "Title and date_created are required");
    }
    if Truthy(req.tagId) && !OwnsTag(db.tags, user, req.tagId.value) {
      return Failure(HTTP_400_BAD_REQUEST, "Invalid tag ID");
    }
    var id := db.nextTaskId;
    db.tasks := db.tasks + [NewTaskRow(id, user, req)];
    db.nextTaskId := id + 1;
    resp := Success(HTTP_201_CREATED, id);
  }

  // ---------------------------------------------------------------------
  // UpdateTaskView
  // ---------------------------------------------------------------------

  /**
   * The body of an update request. The client also sends `date_created`;
   * the view never reads it.
   */
  datatype UpdateTaskRequest = UpdateTaskRequest(
    taskId: Option<int>,
    title: Field<string>,
    description: Field<string>,
    priority: Field<int>,
    tagId: Field<Option<int>>,
    isCompleted: Field<bool>,
    dateCreated: Field<Day>)

  /** `data.get('tag_id', None)`. */
  function RequestedTag(req: UpdateTaskRequest): Option<int> {
    if req.tagId.Present? then req.tagId.value else None
  }

  /** The tag an update writes when `tag_id` is present: the validated tag, or NULL. */
  function TagToWrite(req: UpdateTaskRequest): Option<int> {
    if Truthy(RequestedTag(req)) then RequestedTag(req) else None
  }

  /** One `UPDATE tasks_task SET <column> = … ` statement of the view. */
  datatype Change =
    | SetTitle(title: string)
    | SetDescription(description: string)
    | SetPriority(priority: int)
    | SetTag(tagId: Option<int>)
    | SetCompleted(done: bool)

  function Apply(row: TaskRow, c: Change): TaskRow {
    match c
    case SetTitle(t) => row.(title := t)
    case SetDescription(d) => row.(description := d)
    case SetPriority(p) => row.(priority := p)
    case SetTag(t) => row.(tagId := t)
    case SetCompleted(b) => row.(isCompleted := b)
  }

  /** The row is the one `WHERE id = %s AND user_id = %s` selects. */
  predicate Targets(row: TaskRow, taskId: int, user: int) {
    row.id == taskId && row.userId == user
  }

  /** `UPDATE tasks_task SET … WHERE id = taskId AND user_id = user`. */
  function UpdateWhere(rows: seq<TaskRow>, taskId: int, user: int, c: Change): seq<TaskRow> {
    seq(|rows|, i requires 0 <= i < |rows| => if Targets(rows[i], taskId, user) then Apply(rows[i], c) else rows[i])
  }

  /**
   * What the whole update does to a targeted row: each column whose key
   * is present takes the requested value, every other column is kept, and
   * the id, owner and creation date are never written.
   */
  function Patch(row: TaskRow, req: UpdateTaskRequest): (r: TaskRow)
    ensures r.id == row.id && r.userId == row.userId && r.dateCreated == row.dateCreated
    ensures r.title == (if req.title.Present? then req.title.value else row.title)
    ensures r.description == (if req.description.Present? then req.description.value else row.description)
    ensures r.priority == (if req.priority.Present? then req.priority.value else row.priority)
    ensures r.tagId == (if req.tagId.Present? then TagToWrite(req) else row.tagId)
    ensures r.isCompleted == (if req.isCompleted.Present? then req.isCompleted.value else row.isCompleted)
  {
    TaskRow(row.id,
            if req.title.Present? then req.title.value else row.title,
            row.userId,
            if req.description.Present? then req.description.value else row.description,
            if req.priority.Present? then req.priority.value else row.priority,
            if req.tagId.Present? then TagToWrite(req) else row.tagId,
            row.dateCreated,
            if req.isCompleted.Present? then req.isCompleted.value else row.isCompleted)
  }

  /** Every row the update targets patched, every other row as it was. */
  function PatchWhere(rows: seq<TaskRow>, taskId: int, user: int, req: UpdateTaskRequest): seq<TaskRow> {
    seq(|rows|, i requires 0 <= i < |rows| => if Targets(rows[i], taskId, user) then Patch(rows[i], req) else rows[i])
  }

  /** The view's UPDATE statements, run in order, for the keys present in the request. */
  function UpdateSteps(rows: seq<TaskRow>, taskId: int, user: int, req: UpdateTaskRequest): seq<TaskRow> {
    var r1 := if req.title.Present? then UpdateWhere(rows, taskId, user, SetTitle(req.title.value)) else rows;
    var r2 := if req.description.Present? then UpdateWhere(r1, taskId, user, SetDescription(req.description.value)) else r1;
    var r3 := if req.priority.Present? then UpdateWhere(r2, taskId, user, SetPriority(req.priority.value)) else r2;
    var r4 := if req.tagId.Present? then UpdateWhere(r3, taskId, user, SetTag(TagToWrite(req))) else r3;
    if req.isCompleted.Present? then UpdateWhere(r4, taskId, user, SetCompleted(req.isCompleted.value)) else r4
  }

  /**
   * Running the column updates one after another patches the targeted row
   * as a whole: no statement changes which row a later one selects.
   */
  lemma UpdateStepsPatch(rows: seq<TaskRow>, taskId: int, user: int, req: UpdateTaskRequest)
    ensures UpdateSteps(rows, taskId, user, req) == PatchWhere(rows, taskId, user, req)
  {
    var r := UpdateSteps(rows, taskId, user, req);
    var q := PatchWhere(rows, taskId, user, req);
    assert |r| == |q|;
    forall i | 0 <= i < |r|
      ensures r[i] == q[i]
    {
    }
  }

  /**
   * Patching the caller's row with a tag the caller owns (or none) keeps
   * the store consistent.
   */
  lemma PatchKeepsValid(tasks: seq<TaskRow>, tags: seq<TagRow>, nextTaskId: int,
                        taskId: int, user: int, req: UpdateTaskRequest)
    requires TaskIdsFresh(tasks, nextTaskId) && TagsOwnedByTaskUser(tasks, tags)
    requires Truthy(TagToWrite(req)) ==> OwnsTag(tags, user, TagToWrite(req).value)
    ensures var r := PatchWhere(tasks, taskId, user, req);
      TaskIdsFresh(r, nextTaskId) && TagsOwnedByTaskUser(r, tags)
  {
  }

  /** The view's `with connection.cursor()` block: one UPDATE per key present, in order. */
  method RunUpdates(db: Store, taskId: int, user: int, req: UpdateTaskRequest)
    modifies db
    ensures db.tasks == UpdateSteps(old(db.tasks), taskId, user, req)
    ensures db.tags == old(db.tags) && db.tokens == old(db.tokens)
    ensures db.nextTaskId == old(db.nextTaskId) && db.nextTagId == old(db.nextTagId)
  {
    if req.title.Present? {
      db.tasks := UpdateWhere(db.tasks, taskId, user, SetTitle(req.title.value));
    }
    if req.description.Present? {
      db.tasks := UpdateWhere(db.tasks, taskId, user, SetDescription(req.description.value));
    }
    if req.priority.Present? {
      db.tasks := UpdateWhere(db.tasks, taskId, user, SetPriority(req.priority.value));
    }
    if req.tagId.Present? {
      db.tasks := UpdateWhere(db.tasks, taskId, user, SetTag(TagToWrite(req)));
    }
    if req.isCompleted.Present? {
      db.tasks := UpdateWhere(db.tasks, taskId, user, SetCompleted(req.isCompleted.value));
    }
  }

  method UpdateTask(db: Store, header: Option<string>, req: UpdateTaskRequest) returns (resp: Response<()>)
    requires db.Valid()
    modifies db
    ensures db.Valid()
    ensures db.tags == old(db.tags) && db.tokens == old(db.tokens) && db.nextTaskId == old(db.nextTaskId) && db.nextTagId == old(db.nextTagId)
    ensures var caller := Authorize(db.tokens, header, false);
      && (!caller.User? ==> resp == AuthFailure(caller))
      && (caller.User? && !Truthy(req.taskId) ==> resp == Failure(HTTP_400_BAD_REQUEST, "Task ID is required"))
      && (caller.User? && Truthy(req.taskId) && Truthy(RequestedTag(req))
            && !OwnsTag(db.tags, caller.id, RequestedTag(req).value) ==>
            resp == Failure(HTTP_400_BAD_REQUEST, "Invalid tag ID"))
      && (resp.Success? ==>
            && caller.User? && Truthy(req.taskId)
            && resp.status == HTTP_200_OK
            && db.tasks == PatchWhere(old(db.tasks), req.taskId.value, caller.id, req))
    ensures var caller := Authorize(db.tokens, header, false);
      resp.Failure? <==> (|| !caller.User? || !Truthy(req.taskId)
                          || (Truthy(RequestedTag(req)) && !OwnsTag(db.tags, caller.id, RequestedTag(req).value)))
    ensures resp.Failure? ==> db.tasks == old(db.tasks)
  {
    var caller := Authorize(db.tokens, header, false);
    if !caller.User? {
      return AuthFailure(caller);
    }
    var user := caller.id;
    if !Truthy(req.taskId) {
      return Failure(HTTP_400_BAD_REQUEST, "Task ID is required");
    }
    var taskId := req.taskId.value;
    var tag := RequestedTag(req);
    if Truthy(tag) && !OwnsTag(db.tags, user, tag.value) {
      return Failure(HTTP_400_BAD_REQUEST, "Invalid tag ID");
    }
    UpdateStepsPatch(db.tasks, taskId, user, req);
    PatchKeepsValid(db.tasks, db.tags, db.nextTaskId, taskId, user, req);
    RunUpdates(db, taskId, user, req);
    resp := Success(HTTP_200_OK, ());
  }

  // ---------------------------------------------------------------------
  // DeleteTaskView
  // ---------------------------------------------------------------------

  /** The rows `DELETE FROM tasks_task WHERE id = taskId AND user_id = user` keeps. */
  function KeepsRow(taskId: int, user: int): TaskRow -> bool {
    (row: TaskRow) => !Targets(row, taskId, user)
  }

  /** Removing task rows keeps the store consistent. */
  lemma DeleteKeepsValid(tasks: seq<TaskRow>, tags: seq<TagRow>, nextTaskId: int, taskId: int, user: int)
    requires TaskIdsFresh(tasks, nextTaskId) && TagsOwnedByTaskUser(tasks, tags)
    ensures var r := Select(tasks, KeepsRow(taskId, user));
      TaskIdsFresh(r, nextTaskId) && TagsOwnedByTaskUser(r, tags)
  {
    SelectKeepsDistinct(tasks, KeepsRow(taskId, user), (row: TaskRow) => row.id);
    var r := Select(tasks, KeepsRow(taskId, user));
    forall i | 0 <= i < |r|
      ensures r[i].id < nextTaskId
      ensures r[i].tagId.Some? ==> OwnsTag(tags, r[i].userId, r[i].tagId.value)
    {
      var k :| 0 <= k < |tasks| && tasks[k] == r[i];
    }
  }

  method DeleteTask(db: Store, header: Option<string>, taskId: Option<int>) returns (resp: Response<()>)
    requires db.Valid()
    modifies db
    ensures db.Valid()
    ensures db.tags == old(db.tags) && db.tokens == old(db.tokens) && db.nextTaskId == old(db.nextTaskId) && db.nextTagId == old(db.nextTagId)
    ensures var caller := Authorize(db.tokens, header, false);
      && (caller.NoToken? ==> resp == AuthFailure(caller))
      && (!caller.NoToken? && !Truthy(taskId) ==> resp == Failure(HTTP_400_BAD_REQUEST, "Task ID is required"))
      && (caller.UnknownToken? && Truthy(taskId) ==> resp == AuthFailure(caller))
      && (caller.User? && Truthy(taskId) ==>
            && resp == Success(HTTP_200_OK, ())
            && db.tasks == Select(old(db.tasks), KeepsRow(taskId.value, caller.id)))
    ensures resp.Failure? ==> db.tasks == old(db.tasks)
  {
    var caller := Authorize(db.tokens, header, false);
    if caller.NoToken? {
      return AuthFailure(caller);
    }
    if !Truthy(taskId) {
      return Failure(HTTP_400_BAD_REQUEST, "Task ID is required");
    }
    if caller.UnknownToken? {
      return AuthFailure(caller);
    }
    DeleteKeepsValid(db.tasks, db.tags, db.nextTaskId, taskId.value, caller.id);
    db.tasks := Select(db.tasks, KeepsRow(taskId.value, caller.id));
    resp := Success(HTTP_200_OK, ());
  }

  /**
   * A delete removes exactly the caller's row with that id: every other row,
   * in particular every row of another user, is still there.
   */
  lemma DeleteRemovesOnlyTarget(rows: seq<TaskRow>, taskId: int, user: int)
    ensures var r := Select(rows, KeepsRow(taskId, user));
      && (forall row :: row in r ==> !Targets(row, taskId, user))
      && (forall row :: row in rows && !Targets(row, taskId, user) ==> row in r)
      && (forall row :: row in rows && row.userId != user ==> row in r)
  {
    forall row | row in rows && !Targets(row, taskId, user)
      ensures row in Select(rows, KeepsRow(taskId, user))
    {
      SelectComplete(rows, KeepsRow(taskId, user), row);
    }
  }

  // ---------------------------------------------------------------------
  // GetTasksView and GetTasksByDateView
  // ---------------------------------------------------------------------

  function OwnedBy(user: int): TaskRow -> bool {
    (row: TaskRow) => row.userId == user
  }

  /** The full list holds every task of the caller, as often as the table does, and no other. */
  lemma OwnedTasksExact(tasks: seq<TaskRow>, user: int)
    ensures var r := Select(tasks, OwnedBy(user));
      && (forall row :: row in r <==> row in tasks && row.userId == user)
      && (forall row: TaskRow :: row.userId == user ==> multiset(r)[row] == multiset(tasks)[row])
  {
    SelectCounts(tasks, OwnedBy(user));
    var r := Select(tasks, OwnedBy(user));
    forall row | row in tasks && row.userId == user
      ensures row in r
    {
      assert multiset(r)[row] == multiset(tasks)[row];
    }
  }

  /** `WHERE t.user_id = user AND t.date_created BETWEEN lo AND hi`. */
  function InRange(user: int, lo: Day, hi: Day): TaskRow -> bool {
    (row: TaskRow) => row.userId == user && lo <= row.dateCreated <= hi
  }

  method GetTasks(db: Store, header: Option<string>) returns (resp: Response<seq<Listed<int>>>)
    requires db.Valid()
    ensures var caller := Authorize(db.tokens, header, false);
      && (!caller.User? ==> resp == AuthFailure(caller))
      && (caller.User? ==> resp == Success(HTTP_200_OK, RenderAll(Select(db.tasks, OwnedBy(caller.id)), db.tags, RawPriority)))
  {
    var caller := Authorize(db.tokens, header, false);
    if !caller.User? {
      return AuthFailure(caller);
    }
    var rows := Select(db.tasks, OwnedBy(caller.id));
    var list := RenderRows(rows, db.tags, RawPriority);
    resp := Success(HTTP_200_OK, list);
  }

  method GetTasksByDate(db: Store, header: Option<string>, startDate: Option<Day>, endDate: Option<Day>)
    returns (resp: Response<seq<Listed<int>>>)
    requires db.Valid()
    ensures var caller := Authorize(db.tokens, header, true);
      && (!caller.User? ==> resp == AuthFailure(caller))
      && (caller.User? && (startDate.None? || endDate.None?) ==>
            resp == Failure(HTTP_400_BAD_REQUEST, "Start date and end date are required"))
      && (caller.User? && startDate.Some? && endDate.Some? ==>
            resp == Success(HTTP_200_OK, RenderAll(Select(db.tasks, InRange(caller.id, startDate.value, endDate.value)),
                                                   db.tags, RawPriority)))
  {
    var caller := Authorize(db.tokens, header, true);
    if !caller.User? {
      return AuthFailure(caller);
    }
    if startDate.None? || endDate.None? {
      return Failure(HTTP_400_BAD_REQUEST, "Start date and end date are required");
    }
    var rows := Select(db.tasks, InRange(caller.id, startDate.value, endDate.value));
    var list := RenderRows(rows, db.tags, RawPriority);
    resp := Success(HTTP_200_OK, list);
  }

  /**
   * The by-date list holds one entry per task of the caller dated within
   * the inclusive range, and nothing else.
   */
  lemma {:induction false} ByDateSelectsRange(tasks: seq<TaskRow>, user: int, lo: Day, hi: Day)
    ensures var r := Select(tasks, InRange(user, lo, hi));
      && (forall i :: 0 <= i < |r| ==> r[i] in tasks && r[i].userId == user && lo <= r[i].dateCreated <= hi)
      && (forall row :: row in tasks && row.userId == user && lo <= row.dateCreated <= hi ==> row in r)
      && (lo > hi ==> r == [])
  {
    var r := Select(tasks, InRange(user, lo, hi));
    forall row | row in tasks && row.userId == user && lo <= row.dateCreated <= hi
      ensures row in r
    {
      SelectComplete(tasks, InRange(user, lo, hi), row);
    }
    if lo > hi && r != [] {
      assert InRange(user, lo, hi)(r[0]);
    }
  }

  // ---------------------------------------------------------------------
  // FilterTasksView
  // ---------------------------------------------------------------------

  /** One element of the `tags` list, by what `int()` makes of it. */
  datatype TagItem = Converts(value: int) | RaisesValueError | RaisesTypeError

  /** The `tags` key: absent or null, a JSON value that is not a list, or a list. */
  datatype TagsField = TagsAbsent | NotAList(truthy: bool) | TagsList(items: seq<TagItem>)

  /**
   * The body of a filter request. A date is None when absent or empty;
   * `completed` is None when absent (read as 'all'); `priority` is None
   * when absent or null.
   */
  datatype FilterRequest = FilterRequest(
    tags: TagsField,
    startDate: Option<Day>,
    endDate: Option<Day>,
    completed: Option<string>,
    priority: Option<string>)

  /** The outcome of `[int(tag_id) for tag_id in tags]`. */
  datatype Conversion = Converted(ids: seq<int>) | Raised(item: TagItem)

  /** Converts the items in order; the first item `int()` rejects decides the exception. */
  function ConvertAll(items: seq<TagItem>): (r: Conversion)
    ensures r.Converted? <==> forall i :: 0 <= i < |items| ==> items[i].Converts?
    ensures r.Converted? ==> |r.ids| == |items| && forall i :: 0 <= i < |items| ==> r.ids[i] == items[i].value
    ensures r.Raised? ==> && !r.item.Converts?
                          && exists k :: 0 <= k < |items| && items[k] == r.item
                                         && forall i :: 0 <= i < k ==> items[i].Converts?
  {
    if items == [] then Converted([])
    else if !items[0].Converts? then Raised(items[0])
    else
      match ConvertAll(items[1..])
      case Converted(ids) => Converted([items[0].value] + ids)
      case Raised(item) =>
        assert forall i :: 1 <= i < |items| ==> items[i] == items[1..][i - 1];
        Raised(item)
  }

  /** `if tags:` — Python's truthiness of the field. */
  predicate TagsTruthy(t: TagsField) {
    match t
    case TagsAbsent => false
    case NotAList(truthy) => truthy
    case TagsList(items) => items != []
  }

  /** `priority_mapping.get(priority.lower())`. */
  function PriorityRank(p: string): Option<int> {
    var v := Text.Lower(p);
    if v == "low" then Some(LOW)
    else if v == "medium" then Some(MEDIUM)
    else if v == "high" then Some(HIGH)
    else None
  }

  /** `if priority:` — present and not empty. */
  predicate PriorityGiven(req: FilterRequest) {
    req.priority.Some? && req.priority.value != ""
  }

  /** `data.get('completed', 'all').lower()`. */
  function CompletedValue(req: FilterRequest): string {
    Text.Lower(req.completed.GetOr("all"))
  }

  /**
   * The error a filter request is answered with: the tag checks come
   * before the priority check. A TypeError from `int()` is not caught by
   * the view; the framework answers 500 with its own error page, so that
   * answer carries no message of the view's (the empty string).
   */
  function FilterError(req: FilterRequest): Option<(int, string)> {
    if TagsTruthy(req.tags) && !req.tags.TagsList? then
      Some((HTTP_400_BAD_REQUEST, "Tags must be a list of tag IDs."))
    else if TagsTruthy(req.tags) && ConvertAll(req.tags.items).Raised? then
      if ConvertAll(req.tags.items).item.RaisesValueError? then Some((HTTP_400_BAD_REQUEST, "Invalid tag IDs provided."))
      else Some((HTTP_500_INTERNAL_SERVER_ERROR, ""))
    else if PriorityGiven(req) && PriorityRank(req.priority.value).None? then
      Some((HTTP_400_BAD_REQUEST, "Invalid priority value."))
    else None
  }

  /**
   * The rows a filter request selects, axis by axis: the caller's rows
   * that carry one of the listed tags when a list is given, lie within
   * each date bound that is given (inclusive), have the requested
   * completion when `completed` reads 'true' or 'false', and have the
   * requested rank when a priority is given.
   */
  predicate Matches(req: FilterRequest, user: int, row: TaskRow) {
    && row.userId == user
    && (TagsTruthy(req.tags) ==>
          && req.tags.TagsList?
          && ConvertAll(req.tags.items).Converted?
          && row.tagId.Some? && row.tagId.value in ConvertAll(req.tags.items).ids)
    && (req.startDate.Some? ==> req.startDate.value <= row.dateCreated)
    && (req.endDate.Some? ==> row.dateCreated <= req.endDate.value)
    && (CompletedValue(req) == "true" ==> row.isCompleted)
    && (CompletedValue(req) == "false" ==> !row.isCompleted)
    && (PriorityGiven(req) ==> PriorityRank(req.priority.value) == Some(row.priority))
  }

  /** One conjunct the view appends to its WHERE clause. */
  datatype Condition =
    | UserIs(user: int)
    | TagIn(ids: seq<int>)
    | DateBetween(lo: Day, hi: Day)
    | DateFrom(lo: Day)
    | DateUntil(hi: Day)
    | CompletedIs(done: bool)
    | PriorityIs(rank: int)

  /** SQL's reading of a conjunct; a NULL `tag_id` is in no list. */
  predicate Holds(c: Condition, row: TaskRow) {
    match c
    case UserIs(u) => row.userId == u
    case TagIn(ids) => row.tagId.Some? && row.tagId.value in ids
    case DateBetween(lo, hi) => lo <= row.dateCreated <= hi
    case DateFrom(lo) => lo <= row.dateCreated
    case DateUntil(hi) => row.dateCreated <= hi
    case CompletedIs(done) => row.isCompleted == done
    case PriorityIs(rank) => row.priority == rank
  }

  predicate HoldsAll(conds: seq<Condition>, row: TaskRow) {
    forall i :: 0 <= i < |conds| ==> Holds(conds[i], row)
  }

  /** The query the view runs, or the response it gives instead. */
  datatype Query = Where(conds: seq<Condition>) | Rejected(status: int, message: string)

  /**
   * Builds the WHERE clause step by step. It is rejected exactly when the
   * request has an error; otherwise the clause selects exactly the rows
   * `Matches` describes: the three date branches amount to two
   * independent inclusive bounds.
   */
  method BuildQuery(user: int, req: FilterRequest) returns (q: Query)
    ensures q.Rejected? <==> FilterError(req).Some?
    ensures q.Rejected? ==> FilterError(req) == Some((q.status, q.message))
    ensures q.Where? ==> forall row :: HoldsAll(q.conds, row) <==> Matches(req, user, row)
  {
    var tagConds: seq<Condition> := [];
    if TagsTruthy(req.tags) {
      if !req.tags.TagsList? {
        return Rejected(HTTP_400_BAD_REQUEST, "Tags must be a list of tag IDs.");
      }
      var converted := ConvertAll(req.tags.items);
      if converted.Raised? {
        if converted.item.RaisesValueError? {
          return Rejected(HTTP_400_BAD_REQUEST, "Invalid tag IDs provided.");
        }
        return Rejected(HTTP_500_INTERNAL_SERVER_ERROR, "");
      }
      tagConds := [TagIn(converted.ids)];
    }
    forall row
      ensures HoldsAll(tagConds, row) <==>
        (TagsTruthy(req.tags) ==>
            && req.tags.TagsList?
            && ConvertAll(req.tags.items).Converted?
            && row.tagId.Some? && row.tagId.value in ConvertAll(req.tags.items).ids)
    {
      HoldsAllShort(tagConds, row);
    }

    var dateConds: seq<Condition> := [];
    if req.startDate.Some? && req.endDate.Some? {
      dateConds := [DateBetween(req.startDate.value, req.endDate.value)];
    } else if req.startDate.Some? && req.endDate.None? {
      dateConds := [DateFrom(req.startDate.value)];
    } else if req.startDate.None? && req.endDate.Some? {
      dateConds := [DateUntil(req.endDate.value)];
    }
    forall row
      ensures HoldsAll(dateConds, row) <==>
        (req.startDate.Some? ==> req.startDate.value <= row.dateCreated)
        && (req.endDate.Some? ==> row.dateCreated <= req.endDate.value)
    {
      HoldsAllShort(dateConds, row);
    }

    var completedConds: seq<Condition> := [];
    var completed := CompletedValue(req);
    if completed == "true" {
      completedConds := [CompletedIs(true)];
    } else if completed == "false" {
      completedConds := [CompletedIs(false)];
    }
    forall row
      ensures HoldsAll(completedConds, row) <==>
        (completed == "true" ==> row.isCompleted) && (completed == "false" ==> !row.isCompleted)
    {
      HoldsAllShort(completedConds, row);
    }

    var priorityConds: seq<Condition> := [];
    if PriorityGiven(req) {
      var rank := PriorityRank(req.priority.value);
      if rank.None? {
        return Rejected(HTTP_400_BAD_REQUEST, "Invalid priority value.");
      }
      priorityConds := [PriorityIs(rank.value)];
    }
    forall row
      ensures HoldsAll(priorityConds, row) <==>
        (PriorityGiven(req) ==> PriorityRank(req.priority.value) == Some(row.priority))
    {
      HoldsAllShort(priorityConds, row);
    }

    var conds := [UserIs(user)] + tagConds + dateConds + completedConds + priorityConds;
    q := Where(conds);

    forall row
      ensures HoldsAll(conds, row) <==> Matches(req, user, row)
    {
      HoldsAllAppend([UserIs(user)] + tagConds + dateConds + completedConds, priorityConds, row);
      HoldsAllAppend([UserIs(user)] + tagConds + dateConds, completedConds, row);
      HoldsAllAppend([UserIs(user)] + tagConds, dateConds, row);
      HoldsAllAppend([UserIs(user)], tagConds, row);
      HoldsAllShort([UserIs(user)], row);
    }
  }

  lemma HoldsAllShort(conds: seq<Condition>, row: TaskRow)
    requires |conds| <= 1
    ensures HoldsAll(conds, row) <==> (conds == [] || Holds(conds[0], row))
  {
  }

  lemma HoldsAllAppend(a: seq<Condition>, b: seq<Condition>, row: TaskRow)
    ensures HoldsAll(a + b, row) <==> HoldsAll(a, row) && HoldsAll(b, row)
  {
    if HoldsAll(a, row) && HoldsAll(b, row) {
      forall i | 0 <= i < |a + b|
        ensures Holds((a + b)[i], row)
      {
        if i >= |a| {
          assert (a + b)[i] == b[i - |a|];
        } else {
          assert (a + b)[i] == a[i];
        }
      }
    }
    if HoldsAll(a + b, row) {
      forall i | 0 <= i < |a|
        ensures Holds(a[i], row)
      {
        assert (a + b)[i] == a[i];
      }
      forall i | 0 <= i < |b|
        ensures Holds(b[i], row)
      {
        assert (a + b)[|a| + i] == b[i];
      }
    }
  }

  function Matching(req: FilterRequest, user: int): TaskRow -> bool {
    (row: TaskRow) => Matches(req, user, row)
  }

  function Satisfying(conds: seq<Condition>): TaskRow -> bool {
    (row: TaskRow) => HoldsAll(conds, row)
  }

  /** The key of `ORDER BY t.date_created ASC`. */
  function DateKey(row: TaskRow): int {
    row.dateCreated
  }

  /** The rows a valid filter request returns, in the order it returns them. */
  function FilterRows(tasks: seq<TaskRow>, req: FilterRequest, user: int): seq<TaskRow> {
    SortBy(Select(tasks, Matching(req, user)), DateKey)
  }

  method FilterTasks(db: Store, header: Option<string>, req: FilterRequest) returns (resp: Response<seq<TaskView>>)
    requires db.Valid()
    ensures var caller := Authorize(db.tokens, header, false);
      && (!caller.User? ==> resp == AuthFailure(caller))
      && (caller.User? && FilterError(req).Some? ==>
            resp == Failure(FilterError(req).value.0, FilterError(req).value.1))
      && (caller.User? && FilterError(req).None? ==>
            resp == Success(HTTP_200_OK, RenderAll(FilterRows(db.tasks, req, caller.id), db.tags, LabelledPriority)))
  {
    var caller := Authorize(db.tokens, header, false);
    if !caller.User? {
      return AuthFailure(caller);
    }
    var q := BuildQuery(caller.id, req);
    if q.Rejected? {
      return Failure(q.status, q.message);
    }
    var rows := Select(db.tasks, Satisfying(q.conds));
    SelectAgrees(db.tasks, Satisfying(q.conds), Matching(req, caller.id));
    rows := SortBy(rows, DateKey);
    var list := RenderRows(rows, db.tags, LabelledPriority);
    resp := Success(HTTP_200_OK, list);
  }

  /**
   * The filter returns each of the caller's matching rows exactly as often
   * as the table holds it, no other row, in ascending date order.
   */
  lemma FilterRowsExact(tasks: seq<TaskRow>, req: FilterRequest, user: int)
    ensures var rows := FilterRows(tasks, req, user);
      && (forall x :: multiset(rows)[x] == if Matches(req, user, x) then multiset(tasks)[x] else 0)
      && SortedBy(rows, DateKey)
  {
    var sel := Select(tasks, Matching(req, user));
    SelectCounts(tasks, Matching(req, user));
    SortByPermutes(sel, DateKey);
    SortBySorted(sel, DateKey);
  }

  /**
   * The filter's answer holds only the caller's tasks, dated in ascending
   * order, each with its priority label and, when untagged, "No Tag".
   */
  lemma FilterResultShape(tasks: seq<TaskRow>, tags: seq<TagRow>, req: FilterRequest, user: int)
    ensures var r := RenderAll(FilterRows(tasks, req, user), tags, LabelledPriority);
      && (forall i, j :: 0 <= i < j < |r| ==> r[i].dateCreated <= r[j].dateCreated)
      && (forall i :: 0 <= i < |r| ==>
            exists row :: row in tasks && row.userId == user && Matches(req, user, row)
                          && r[i] == Render(row, tags, LabelOf(row.priority)))
  {
    var rows := FilterRows(tasks, req, user);
    FilterRowsExact(tasks, req, user);
    var r := RenderAll(rows, tags, LabelledPriority);
    forall i | 0 <= i < |r|
      ensures exists row :: row in tasks && row.userId == user && Matches(req, user, row)
                            && r[i] == Render(row, tags, LabelOf(row.priority))
    {
      var row := rows[i];
      assert row in multiset(rows);
      assert multiset(tasks)[row] > 0 && Matches(req, user, row);
      assert row in tasks;
      assert r[i] == Render(row, tags, LabelledPriority(row));
    }
  }

  /** An empty `tags` list constrains nothing: it filters as an absent one does. */
  lemma EmptyTagListIsNoConstraint(req: FilterRequest, user: int, row: TaskRow)
    requires req.tags == TagsList([])
    ensures FilterError(req) == FilterError(req.(tags := TagsAbsent))
    ensures Matches(req, user, row) == Matches(req.(tags := TagsAbsent), user, row)
  {
  }

  /** A non-empty tag list excludes every untagged task and every task whose tag is not listed. */
  lemma TagListExcludes(req: FilterRequest, user: int, row: TaskRow)
    requires req.tags.TagsList? && req.tags.items != [] && FilterError(req).None?
    ensures Matches(req, user, row) ==>
      row.tagId.Some? && exists k :: 0 <= k < |req.tags.items| && req.tags.items[k] == Converts(row.tagId.value)
  {
    if Matches(req, user, row) {
      var ids := ConvertAll(req.tags.items).ids;
      var k :| 0 <= k < |ids| && ids[k] == row.tagId.value;
      assert req.tags.items[k] == Converts(row.tagId.value);
    }
  }

  /** A `completed` value other than 'true' or 'false' in any case, 'all' included, constrains nothing. */
  lemma OtherCompletedIsNoConstraint(req: FilterRequest, user: int, row: TaskRow)
    requires CompletedValue(req) != "true" && CompletedValue(req) != "false"
    ensures Matches(req, user, row) == Matches(req.(completed := None), user, row)
  {
    assert CompletedValue(req.(completed := None)) == "all";
  }

  /**
   * The priority filter: 'low', 'medium' and 'high' in any ASCII case
   * select ranks 1, 2 and 3, and every other non-empty value is an
   * error. A task it selects therefore carries a known label.
   */
  lemma PriorityFilter(req: FilterRequest, user: int, row: TaskRow)
    requires PriorityGiven(req)
    ensures var v := Text.Lower(req.priority.value);
      && (PriorityRank(req.priority.value) == Some(LOW) <==> v == "low")
      && (PriorityRank(req.priority.value) == Some(MEDIUM) <==> v == "medium")
      && (PriorityRank(req.priority.value) == Some(HIGH) <==> v == "high")
      && (FilterError(req) == Some((HTTP_400_BAD_REQUEST, "Invalid priority value.")) <==>
            !(TagsTruthy(req.tags) && (!req.tags.TagsList? || ConvertAll(req.tags.items).Raised?))
            && v != "low" && v != "medium" && v != "high")
    ensures FilterError(req).None? && Matches(req, user, row) ==> LabelOf(row.priority) != Unknown
  {
  }
}
