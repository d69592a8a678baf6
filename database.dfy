/**
 * The backend's state: the `tasks_task` and `tags_tag` tables, the token
 * table that authentication reads, and the identity sequences that hand
 * out fresh row ids. The views of the task and tag modules change the two
 * tables; nothing changes the token table.
 */
module Database {
  import opened Wrappers
  import opened Records
  import Text

  /** `user` owns a tag whose id is `id`. */
  predicate OwnsTag(tags: seq<TagRow>, user: int, id: int) {
    exists j :: 0 <= j < |tags| && tags[j].id == id && tags[j].userId == user
  }

  /** `user` already has a tag called `name`. */
  predicate HasTagNamed(tags: seq<TagRow>, user: int, name: string) {
    exists j :: 0 <= j < |tags| && tags[j].userId == user && tags[j].name == name
  }

  /** Task ids are distinct and below the next id the sequence hands out. */
  ghost predicate TaskIdsFresh(tasks: seq<TaskRow>, nextTaskId: int) {
    && (forall i, j :: 0 <= i < j < |tasks| ==> tasks[i].id != tasks[j].id)
    && (forall i :: 0 <= i < |tasks| ==> tasks[i].id < nextTaskId)
  }

  /** Tag ids are distinct and below the next id the sequence hands out. */
  ghost predicate TagIdsFresh(tags: seq<TagRow>, nextTagId: int) {
    && (forall i, j :: 0 <= i < j < |tags| ==> tags[i].id != tags[j].id)
    && (forall i :: 0 <= i < |tags| ==> tags[i].id < nextTagId)
  }

  /** The `unique_together = ('user', 'name')` constraint of the tag model. */
  ghost predicate TagNamesUnique(tags: seq<TagRow>) {
    forall i, j :: 0 <= i < j < |tags| ==>
      !(tags[i].userId == tags[j].userId && tags[i].name == tags[j].name)
  }

  /** Every tagged task carries a tag of its own user. */
  ghost predicate TagsOwnedByTaskUser(tasks: seq<TaskRow>, tags: seq<TagRow>) {
    forall i :: 0 <= i < |tasks| && tasks[i].tagId.Some? ==>
      OwnsTag(tags, tasks[i].userId, tasks[i].tagId.value)
  }

  class Store {
    var tasks: seq<TaskRow>
    var tags: seq<TagRow>
    /** Token key to user id: the `authtoken_token` table. */
    var tokens: map<string, int>
    var nextTaskId: int
    var nextTagId: int

    /** The invariant every view keeps across both tables. */
    ghost predicate Valid()
      reads this
    {
      && TaskIdsFresh(tasks, nextTaskId)
      && TagIdsFresh(tags, nextTagId)
      && TagNamesUnique(tags)
      && TagsOwnedByTaskUser(tasks, tags)
    }

    /** Empty task and tag tables beside an existing token table. */
    constructor (tokens: map<string, int>)
      ensures Valid()
      ensures this.tokens == tokens && tasks == [] && tags == []
    {
      this.tokens := tokens;
      tasks, tags := [], [];
      nextTaskId, nextTagId := 1, 1;
    }
  }

  /** Who sent a request, as far as its Authorization header tells. */
  datatype Caller = NoToken | UnknownToken | User(id: int)

  /** The token key a header is looked up by: the header itself, or stripped. */
  function LookupKey(header: string, strip: bool): string {
    if strip then Text.Trim(Text.Python, header) else header
  }

  /**
   * The opening of every view: a missing or empty header is `NoToken`,
   * a header whose key is no token is `UnknownToken`, otherwise the
   * token's user. `strip` says whether the key is looked up with its
   * surrounding white space removed, as the by-date view does.
   */
  function Authorize(tokens: map<string, int>, header: Option<string>, strip: bool): (c: Caller)
    ensures c.NoToken? <==> header.None? || header.value == ""
    ensures !c.NoToken? ==> (c.User? <==> LookupKey(header.value, strip) in tokens)
    ensures c.User? ==> c.id == tokens[LookupKey(header.value, strip)]
  {
    if header.None? || header.value == "" then NoToken
    else
      var key := LookupKey(header.value, strip);
      if key in tokens then User(tokens[key]) else UnknownToken
  }

  /** The response of a view whose caller is not a known user. */
  function AuthFailure<T>(c: Caller): (r: Response<T>)
    requires !c.User?
    ensures r.Failure?
    ensures r.status == (if c.NoToken? then HTTP_400_BAD_REQUEST else HTTP_401_UNAUTHORIZED)
  {
    if c.NoToken? then Failure(HTTP_400_BAD_REQUEST, "Authorization token is required")
    else Failure(HTTP_401_UNAUTHORIZED, "Invalid or expired token")
  }
}
