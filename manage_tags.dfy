/**
 * The tag manager popover of the calendar (`ManageTags.js`): a component
 * whose handlers update its state around calls to the tag endpoints. A
 * remote call is not made here; its outcome is a parameter of the
 * handler that awaits it.
 */
module ManageTags {
  import opened Wrappers
  import opened Records
  import opened Sorting
  import Text

  /** The most tags the popover lets a user add up to. */
  const TAG_LIMIT: int := 10

  /** How `createTag` ended: the id the backend returned, or the message it raised. */
  datatype CreateOutcome = Created(tagId: int) | CreateFailed(message: string)

  /** How `deleteTag` or `fetchTags` ended. */
  datatype DeleteOutcome = Deleted | DeleteFailed(message: string)
  datatype LoadOutcome = Loaded(tags: seq<TagEntry>) | LoadFailed

  function OtherId(id: int): TagEntry -> bool {
    (t: TagEntry) => t.id != id
  }

  /** `tags.filter((tag) => tag.id !== id)`. */
  function WithoutId(tags: seq<TagEntry>, id: int): seq<TagEntry> {
    Select(tags, OtherId(id))
  }

  /**
   * Removing by id drops every entry with that id and keeps every other
   * entry as often as the list holds it; when no entry has the id the
   * list is unchanged. The order is kept too (`WithoutIdOrder`).
   */
  lemma WithoutIdExact(tags: seq<TagEntry>, id: int)
    ensures var r := WithoutId(tags, id);
      && (forall t :: t in r <==> t in tags && t.id != id)
      && (forall t :: multiset(r)[t] == if t.id != id then multiset(tags)[t] else 0)
      && ((forall j :: 0 <= j < |tags| ==> tags[j].id != id) ==> r == tags)
  {
    SelectCounts(tags, OtherId(id));
    var r := WithoutId(tags, id);
    forall t | t in tags && t.id != id
      ensures t in r
    {
      SelectComplete(tags, OtherId(id), t);
    }
    if forall j :: 0 <= j < |tags| ==> tags[j].id != id {
      SelectAll(tags, OtherId(id));
    }
  }

  /**
   * Removing by id keeps the order of the list: it distributes over
   * concatenation, and keeps a single entry exactly when its id differs.
   * Together these determine the result entry by entry.
   */
  lemma WithoutIdOrder(a: seq<TagEntry>, b: seq<TagEntry>, t: TagEntry, id: int)
    ensures WithoutId(a + b, id) == WithoutId(a, id) + WithoutId(b, id)
    ensures WithoutId([t], id) == if t.id != id then [t] else []
  {
    SelectAppend(a, b, OtherId(id));
    assert [t][..0] == [];
  }

  /**
   * `!newTag.trim()`: the name trims to "", which `Text.TrimEmptyIffBlank`
   * shows is the same as holding white space only.
   */
  predicate BlankName(name: string) {
    Text.IsBlank(Text.JavaScript, name)
  }

  class TagManager {
    var tags: seq<TagEntry>
    var newTag: string
    var notification: Option<string>
    var error: Option<string>
    var loading: bool
    var hasLoaded: bool
    var tagToDelete: Option<TagEntry>
    var deleting: bool

    /** The initial state of the component. */
    constructor ()
      ensures tags == [] && newTag == "" && notification.None? && error.None?
      ensures !loading && !hasLoaded && tagToDelete.None? && !deleting
    {
      tags, newTag := [], "";
      notification, error := None, None;
      loading, hasLoaded := false, false;
      tagToDelete, deleting := None, false;
    }

    /** `loadTags`, run when the popover becomes active. */
    method LoadTags(outcome: LoadOutcome)
      modifies this
      ensures !loading
      ensures outcome.Loaded? ==> tags == outcome.tags && hasLoaded && error.None?
      ensures outcome.LoadFailed? ==>
        tags == old(tags) && hasLoaded == old(hasLoaded) && error == Some("Failed to load tags.")
      ensures newTag == old(newTag) && notification == old(notification)
      ensures tagToDelete == old(tagToDelete) && deleting == old(deleting)
    {
      loading := true;
      error := None;
      match outcome {
        case Loaded(fetched) =>
          tags := fetched;
          hasLoaded := true;
        case LoadFailed =>
          error := Some("Failed to load tags.");
      }
      loading := false;
    }

    /**
     * `handleAddTag`: refuses a blank name and a full list without a call;
     * otherwise appends the created tag under the name as typed, or keeps
     * the list and shows the error.
     */
    method HandleAddTag(outcome: CreateOutcome)
      modifies this
      ensures BlankName(old(newTag)) ==>
        tags == old(tags) && newTag == old(newTag) && error == Some("Tag name is required.")
        && notification == old(notification)
      ensures !BlankName(old(newTag)) && |old(tags)| >= TAG_LIMIT ==>
        tags == old(tags) && newTag == old(newTag) && error == Some("You can only have up to 10 tags.")
        && notification == old(notification)
      ensures !BlankName(old(newTag)) && |old(tags)| < TAG_LIMIT && outcome.Created? ==>
        && tags == old(tags) + [TagEntry(outcome.tagId, old(newTag))]
        && newTag == "" && error.None? && notification == Some("Tag added successfully!")
      ensures !BlankName(old(newTag)) && |old(tags)| < TAG_LIMIT && outcome.CreateFailed? ==>
        && tags == old(tags) && newTag == old(newTag)
        && error == Some(Text.OrElse(outcome.message, "Failed to add tag."))
        && notification == old(notification)
      ensures |old(tags)| <= TAG_LIMIT ==> |tags| <= TAG_LIMIT
      ensures tagToDelete == old(tagToDelete) && deleting == old(deleting)
      ensures loading == old(loading) && hasLoaded == old(hasLoaded)
    {
      if BlankName(newTag) {
        error := Some("Tag name is required.");
        return;
      }
      if |tags| >= TAG_LIMIT {
        error := Some("You can only have up to 10 tags.");
        return;
      }
      match outcome {
        case Created(tagId) =>
          tags := tags + [TagEntry(tagId, newTag)];
          newTag := "";
          notification := Some("Tag added successfully!");
          error := None;
        case CreateFailed(message) =>
          error := Some(Text.OrElse(message, "Failed to add tag."));
      }
    }

    /** `initiateDeleteTag`: opens the confirmation for `tag`. */
    method InitiateDeleteTag(tag: TagEntry)
      modifies this
      ensures tagToDelete == Some(tag) && error.None? && notification.None?
      ensures tags == old(tags) && newTag == old(newTag) && deleting == old(deleting)
      ensures loading == old(loading) && hasLoaded == old(hasLoaded)
    {
      tagToDelete := Some(tag);
      error := None;
      notification := None;
    }

    /**
     * `confirmDeleteTag`: without a pending tag nothing happens; otherwise
     * a successful delete drops every entry with the pending id and closes
     * the confirmation, and a failed one keeps the list and shows the error.
     */
    method ConfirmDeleteTag(outcome: DeleteOutcome)
      modifies this
      ensures old(tagToDelete).None? ==>
        && tags == old(tags) && error == old(error) && notification == old(notification)
        && tagToDelete.None? && deleting == old(deleting)
      ensures old(tagToDelete).Some? && outcome.Deleted? ==>
        && tags == WithoutId(old(tags), old(tagToDelete).value.id)
        && tagToDelete.None? && error.None? && notification == Some("Tag deleted successfully!")
        && !deleting
      ensures old(tagToDelete).Some? && outcome.DeleteFailed? ==>
        && tags == old(tags) && tagToDelete == old(tagToDelete)
        && error == Some(Text.OrElse(outcome.message, "Failed to delete tag."))
        && notification == old(notification) && !deleting
      ensures newTag == old(newTag) && loading == old(loading) && hasLoaded == old(hasLoaded)
    {
      if tagToDelete.None? {
        return;
      }
      var pending := tagToDelete.value;
      deleting := true;
      error := None;
      match outcome {
        case Deleted =>
          tags := WithoutId(tags, pending.id);
          notification := Some("Tag deleted successfully!");
          tagToDelete := None;
        case DeleteFailed(message) =>
          error := Some(Text.OrElse(message, "Failed to delete tag."));
      }
      deleting := false;
    }

    /** `cancelDeleteTag`: closes the confirmation and leaves the list alone. */
    method CancelDeleteTag()
      modifies this
      ensures tagToDelete.None? && error.None?
      ensures tags == old(tags) && newTag == old(newTag) && notification == old(notification)
      ensures deleting == old(deleting) && loading == old(loading) && hasLoaded == old(hasLoaded)
    {
      tagToDelete := None;
      error := None;
    }
  }
}
