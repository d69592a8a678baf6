/**
 * The tag endpoints of the backend (`tags/views.py`) as operations on the
 * tag table of a `Store`: create a tag, list the caller's tags, and delete
 * a tag after detaching it from the caller's tasks.
 */
module TagViews {
  import opened Wrappers
  import opened Records
  import opened Database
  import opened Sorting
  import TaskViews

  // ---------------------------------------------------------------------
  // CreateTagView
  // ---------------------------------------------------------------------

  /** `if not tag_name:` fails for an absent, null or empty name. */
  predicate HasName(name: Option<string>) {
    name.Some? && name.value != ""
  }

  /** Appending a tag row keeps every ownership fact about the old rows. */
  lemma OwnsTagAppend(tags: seq<TagRow>, t: TagRow, user: int, id: int)
    requires OwnsTag(tags, user, id)
    ensures OwnsTag(tags + [t], user, id)
  {
    var j :| 0 <= j < |tags| && tags[j].id == id && tags[j].userId == user;
    assert (tags + [t])[j] == tags[j];
  }

  method CreateTag(db: Store, header: Option<string>, name: Option<string>) returns (resp: Response<int>)
    requires db.Valid()
    modifies db
    ensures db.Valid()
    ensures db.tasks == old(db.tasks) && db.tokens == old(db.tokens) && db.nextTaskId == old(db.nextTaskId)
    ensures var caller := Authorize(db.tokens, header, false);
      && (!caller.User? ==> resp == AuthFailure(caller))
      && (caller.User? && !HasName(name) ==> resp == Failure(HTTP_400_BAD_REQUEST, "Tag name is required"))
      && (caller.User? && HasName(name) && HasTagNamed(old(db.tags), caller.id, name.value) ==>
            resp == Failure(HTTP_400_BAD_REQUEST, "Tag already exists"))
      && (caller.User? && HasName(name) && !HasTagNamed(old(db.tags), caller.id, name.value) ==>
            && resp == Success(HTTP_201_CREATED, old(db.nextTagId))
            && db.tags == old(db.tags) + [TagRow(old(db.nextTagId), caller.id, name.value)])
    ensures resp.Failure? ==> db.tags == old(db.tags) && db.nextTagId == old(db.nextTagId)
  {
    var caller := Authorize(db.tokens, header, false);
    if !caller.User? {
      return AuthFailure(caller);
    }
    var user := caller.id;
    if !HasName(name) {
      return Failure(HTTP_400_BAD_REQUEST, "Tag name is required");
    }
    if HasTagNamed(db.tags, user, name.value) {
      return Failure(HTTP_400_BAD_REQUEST, "Tag already exists");
    }
    var id := db.nextTagId;
    var row := TagRow(id, user, name.value);
    forall i | 0 <= i < |db.tasks| && db.tasks[i].tagId.Some?
      ensures OwnsTag(db.tags + [row], db.tasks[i].userId, db.tasks[i].tagId.value)
    {
      OwnsTagAppend(db.tags, row, db.tasks[i].userId, db.tasks[i].tagId.value);
    }
    db.tags := db.tags + [row];
    db.nextTagId := id + 1;
    resp := Success(HTTP_201_CREATED, id);
  }

  /**
   * A tag name is taken once per user: after a successful create the
   * caller has a tag of that name, and a second create with the same name
   * is refused.
   */
  lemma CreatedNameIsTaken(tags: seq<TagRow>, id: int, user: int, name: string)
    ensures HasTagNamed(tags + [TagRow(id, user, name)], user, name)
  {
    assert (tags + [TagRow(id, user, name)])[|tags|] == TagRow(id, user, name);
  }

  // ---------------------------------------------------------------------
  // GetTagsView
  // ---------------------------------------------------------------------

  function OwnedTag(user: int): TagRow -> bool {
    (t: TagRow) => t.userId == user
  }

  /** The `{'id': …, 'name': …}` entries of `SELECT id, name FROM tags_tag WHERE user_id = user`. */
  function TagList(tags: seq<TagRow>, user: int): seq<TagEntry> {
    var rows := Select(tags, OwnedTag(user));
    seq(|rows|, i requires 0 <= i < |rows| => TagEntry(rows[i].id, rows[i].name))
  }

  method GetTags(db: Store, header: Option<string>) returns (resp: Response<seq<TagEntry>>)
    ensures var caller := Authorize(db.tokens, header, false);
      && (!caller.User? ==> resp == AuthFailure(caller))
      && (caller.User? ==> resp == Success(HTTP_200_OK, TagList(db.tags, caller.id)))
  {
    var caller := Authorize(db.tokens, header, false);
    if !caller.User? {
      return AuthFailure(caller);
    }
    var rows := Select(db.tags, OwnedTag(caller.id));
    var list: seq<TagEntry> := [];
    for i := 0 to |rows|
      invariant list == seq(i, k requires 0 <= k < i => TagEntry(rows[k].id, rows[k].name))
    {
      list := list + [TagEntry(rows[i].id, rows[i].name)];
    }
    resp := Success(HTTP_200_OK, list);
  }

  /** The list holds exactly the caller's tags, each as its id and name. */
  lemma TagListMembers(tags: seq<TagRow>, user: int)
    ensures var r := TagList(tags, user);
      forall e :: e in r <==> exists j :: 0 <= j < |tags| && tags[j].userId == user
                                           && e == TagEntry(tags[j].id, tags[j].name)
  {
    var rows := Select(tags, OwnedTag(user));
    var r := TagList(tags, user);
    forall e | e in r
      ensures exists j :: 0 <= j < |tags| && tags[j].userId == user && e == TagEntry(tags[j].id, tags[j].name)
    {
      var i :| 0 <= i < |r| && r[i] == e;
      assert OwnedTag(user)(rows[i]) && rows[i] in tags;
      var j :| 0 <= j < |tags| && tags[j] == rows[i];
    }
    forall e | exists j :: 0 <= j < |tags| && tags[j].userId == user && e == TagEntry(tags[j].id, tags[j].name)
      ensures e in r
    {
      var j :| 0 <= j < |tags| && tags[j].userId == user && e == TagEntry(tags[j].id, tags[j].name);
      SelectComplete(tags, OwnedTag(user), tags[j]);
      var i :| 0 <= i < |rows| && rows[i] == tags[j];
      assert r[i] == e;
    }
  }

  /** In a consistent table no id and no name appears twice in a user's list. */
  lemma TagListDistinct(tags: seq<TagRow>, user: int)
    requires TagNamesUnique(tags)
    requires forall i, j :: 0 <= i < j < |tags| ==> tags[i].id != tags[j].id
    ensures var r := TagList(tags, user);
      forall i, j :: 0 <= i < j < |r| ==> r[i].id != r[j].id && r[i].name != r[j].name
  {
    var rows := Select(tags, OwnedTag(user));
    SelectKeepsDistinct(tags, OwnedTag(user), (t: TagRow) => t.id);
    SelectKeepsDistinct(tags, OwnedTag(user), (t: TagRow) => (t.userId, t.name));
    var r := TagList(tags, user);
    forall i, j | 0 <= i < j < |r|
      ensures r[i].id != r[j].id && r[i].name != r[j].name
    {
      assert OwnedTag(user)(rows[i]) && OwnedTag(user)(rows[j]);
      assert (rows[i].userId, rows[i].name) != (rows[j].userId, rows[j].name);
    }
  }

  // ---------------------------------------------------------------------
  // DeleteTagView
  // ---------------------------------------------------------------------

  /** `UPDATE tasks_task SET tag_id = NULL WHERE tag_id = tagId AND user_id = user`. */
  function ClearTag(tasks: seq<TaskRow>, tagId: int, user: int): seq<TaskRow> {
    seq(|tasks|, i requires 0 <= i < |tasks| =>
      if tasks[i].tagId == Some(tagId) && tasks[i].userId == user then tasks[i].(tagId := None) else tasks[i])
  }

  /** The rows `DELETE FROM tags_tag WHERE id = tagId AND user_id = user` keeps. */
  function KeepsTag(tagId: int, user: int): TagRow -> bool {
    (t: TagRow) => !(t.id == tagId && t.userId == user)
  }

  /**
   * Detaching the tag from the caller's tasks and then deleting the
   * caller's tag row keeps the store consistent: every task still tagged
   * carries a tag its user owns. Another user's task can carry the id
   * only if that user owns the tag row, so the caller owns nothing the
   * DELETE could remove from under it.
   */
  lemma DeleteTagKeepsValid(tasks: seq<TaskRow>, tags: seq<TagRow>, nextTaskId: int, nextTagId: int,
                            tagId: int, user: int)
    requires TaskIdsFresh(tasks, nextTaskId) && TagIdsFresh(tags, nextTagId)
    requires TagNamesUnique(tags) && TagsOwnedByTaskUser(tasks, tags)
    ensures var ts := ClearTag(tasks, tagId, user);
      var gs := Select(tags, KeepsTag(tagId, user));
      && TaskIdsFresh(ts, nextTaskId) && TagIdsFresh(gs, nextTagId)
      && TagNamesUnique(gs) && TagsOwnedByTaskUser(ts, gs)
  {
    var ts := ClearTag(tasks, tagId, user);
    var gs := Select(tags, KeepsTag(tagId, user));
    SelectKeepsDistinct(tags, KeepsTag(tagId, user), (t: TagRow) => t.id);
    SelectKeepsDistinct(tags, KeepsTag(tagId, user), (t: TagRow) => (t.userId, t.name));
    forall i | 0 <= i < |gs|
      ensures gs[i].id < nextTagId
    {
      var k :| 0 <= k < |tags| && tags[k] == gs[i];
    }
    forall i | 0 <= i < |ts| && ts[i].tagId.Some?
      ensures OwnsTag(gs, ts[i].userId, ts[i].tagId.value)
    {
      assert ts[i] == tasks[i];
      var j :| 0 <= j < |tags| && tags[j].id == tasks[i].tagId.value && tags[j].userId == tasks[i].userId;
      SelectComplete(tags, KeepsTag(tagId, user), tags[j]);
      var k :| 0 <= k < |gs| && gs[k] == tags[j];
    }
  }

  method DeleteTag(db: Store, header: Option<string>, tagId: Option<int>) returns (resp: Response<()>)
    requires db.Valid()
    modifies db
    ensures db.Valid()
    ensures db.tokens == old(db.tokens) && db.nextTaskId == old(db.nextTaskId) && db.nextTagId == old(db.nextTagId)
    ensures var caller := Authorize(db.tokens, header, false);
      && (caller.NoToken? || !TaskViews.Truthy(tagId) ==>
            resp == Failure(HTTP_400_BAD_REQUEST, "Authorization token and tag ID are required"))
      && (caller.UnknownToken? && TaskViews.Truthy(tagId) ==> resp == AuthFailure(caller))
      && (caller.User? && TaskViews.Truthy(tagId) ==>
            && resp == Success(HTTP_200_OK, ())
            && db.tasks == ClearTag(old(db.tasks), tagId.value, caller.id)
            && db.tags == Select(old(db.tags), KeepsTag(tagId.value, caller.id)))
    ensures resp.Failure? ==> db.tasks == old(db.tasks) && db.tags == old(db.tags)
  {
    var caller := Authorize(db.tokens, header, false);
    if caller.NoToken? || !TaskViews.Truthy(tagId) {
      return Failure(HTTP_400_BAD_REQUEST, "Authorization token and tag ID are required");
    }
    if caller.UnknownToken? {
      return AuthFailure(caller);
    }
    var user := caller.id;
    DeleteTagKeepsValid(db.tasks, db.tags, db.nextTaskId, db.nextTagId, tagId.value, user);
    db.tasks := ClearTag(db.tasks, tagId.value, user);
    db.tags := Select(db.tags, KeepsTag(tagId.value, user));
    resp := Success(HTTP_200_OK, ());
  }

  /**
   * A delete detaches the tag from the caller's tasks only, changes no
   * other column, and removes the caller's tag row with that id and no
   * other row; when the caller has no such tag it changes no tag row.
   */
  lemma DeleteTagEffect(tasks: seq<TaskRow>, tags: seq<TagRow>, tagId: int, user: int)
    ensures var ts := ClearTag(tasks, tagId, user);
      && |ts| == |tasks|
      && (forall i :: 0 <= i < |ts| ==> ts[i] == tasks[i] || (ts[i] == tasks[i].(tagId := None)))
      && (forall i :: 0 <= i < |ts| && tasks[i].userId != user ==> ts[i] == tasks[i])
      && (forall i :: 0 <= i < |ts| && tasks[i].userId == user ==> ts[i].tagId != Some(tagId))
      && (forall i :: 0 <= i < |ts| && (tasks[i].tagId != Some(tagId) || tasks[i].userId != user) ==> ts[i] == tasks[i])
    ensures var gs := Select(tags, KeepsTag(tagId, user));
      && (forall t :: t in gs <==> t in tags && !(t.id == tagId && t.userId == user))
      && (!OwnsTag(tags, user, tagId) ==> gs == tags)
  {
    var gs := Select(tags, KeepsTag(tagId, user));
    forall t | t in tags && !(t.id == tagId && t.userId == user)
      ensures t in gs
    {
      SelectComplete(tags, KeepsTag(tagId, user), t);
    }
    if !OwnsTag(tags, user, tagId) {
      SelectAll(tags, KeepsTag(tagId, user));
    }
  }
}
