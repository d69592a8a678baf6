/**
 * The records the planner stores and exchanges: rows of the `tasks_task`
 * and `tags_tag` tables, the task objects the task views return, the
 * `{id, name}` tag objects, and HTTP responses.
 *
 * Dates (`yyyy-MM-dd` on the wire) are day numbers; the text format and
 * its parsing are not modelled.
 */
module Records {
  import opened Wrappers

  /** A calendar date, as a number of days from a fixed origin. */
  type Day = int

  /** The priority ranks of the task model's choices. */
  const LOW: int := 1
  const MEDIUM: int := 2
  const HIGH: int := 3

  /** The display label of a priority rank, `Unknown` for a rank outside the choices. */
  datatype PriorityLabel = Low | Medium | High | Unknown

  /** `dict(Task.PRIORITY_CHOICES).get(rank, 'Unknown')`. */
  function LabelOf(rank: int): (l: PriorityLabel)
    ensures l == Unknown <==> !(LOW <= rank <= HIGH)
  {
    if rank == LOW then Low
    else if rank == MEDIUM then Medium
    else if rank == HIGH then High
    else Unknown
  }

  /**
   * The filter page's `priorityMap[label.toLowerCase()]`: low=1, medium=2,
   * high=3. JavaScript yields `undefined` for any other label; callers
   * exclude `Unknown`, and 0 only keeps the function total.
   */
  function RankOf(l: PriorityLabel): int {
    match l
    case Low => LOW
    case Medium => MEDIUM
    case High => HIGH
    case Unknown => 0
  }

  /** The frontend's rank of a label inverts the backend's label of a rank. */
  lemma LabelRoundTrip(rank: int, l: PriorityLabel)
    ensures LOW <= rank <= HIGH ==> RankOf(LabelOf(rank)) == rank
    ensures l != Unknown ==> LabelOf(RankOf(l)) == l
  {
  }

  /** A row of `tasks_task`. `tagId` is None when the column is NULL. */
  datatype TaskRow = TaskRow(
    id: int,
    title: string,
    userId: int,
    description: string,
    priority: int,
    tagId: Option<int>,
    dateCreated: Day,
    isCompleted: bool)

  /** A row of `tags_tag`. */
  datatype TagRow = TagRow(id: int, userId: int, name: string)

  /** A tag as the tag views return it and the frontend holds it: `{id, name}`. */
  datatype TagEntry = TagEntry(id: int, name: string)

  /**
   * A task as the task views return it. `P` is how the priority is shown:
   * the raw rank (`int`) or its `PriorityLabel`.
   */
  datatype Listed<P> = Listed(
    id: int,
    title: string,
    description: string,
    priority: P,
    tagId: Option<int>,
    tagName: string,
    dateCreated: Day,
    isCompleted: bool)

  /** The task objects of the filter endpoint, which the filter page sorts. */
  type TaskView = Listed<PriorityLabel>

  const HTTP_200_OK: int := 200
  const HTTP_201_CREATED: int := 201
  const HTTP_400_BAD_REQUEST: int := 400
  const HTTP_401_UNAUTHORIZED: int := 401
  const HTTP_500_INTERNAL_SERVER_ERROR: int := 500

  /** An HTTP response: a status and either a payload or an `error` message. */
  datatype Response<T> = Success(status: int, body: T) | Failure(status: int, error: string)
}
