/**
 * The logic of the "find tasks" page (`app/filter/page.jsx`): the client
 * side sort of the fetched tasks, the paginator (eight tasks a page and a
 * bar of at most ten buttons with "..." gaps), the tag chips that toggle a
 * selection, and the payload a filter request sends. The page component
 * itself is a `FindTasksPage` object whose handlers update its state.
 */
module FilterPage {
  import opened Wrappers
  import opened Records
  import opened Sorting
  import Text

  // ---------------------------------------------------------------------
  // sortTasks
  // ---------------------------------------------------------------------

  /** The values of the "Sort By" select; any other string sorts nothing. */
  datatype SortOption =
    | DateAsc | DateDesc | PriorityAsc | PriorityDesc | CompletedFirst | NotCompletedFirst
    | Unrecognised

  function ParseSortOption(s: string): SortOption {
    if s == "date_asc" then DateAsc
    else if s == "date_desc" then DateDesc
    else if s == "priority_asc" then PriorityAsc
    else if s == "priority_desc" then PriorityDesc
    else if s == "completed" then CompletedFirst
    else if s == "not_completed" then NotCompletedFirst
    else Unrecognised
  }

  /** A boolean in JavaScript arithmetic: `true - false` is 1. */
  function BoolValue(b: bool): int {
    if b then 1 else 0
  }

  /**
   * Every comparator of `sortTasks` is `key(a) - key(b)` for one integer
   * key: the day, the rank of `priorityMap`, or `is_completed` as a
   * number, negated for the descending orders.
   */
  function SortKey(o: SortOption): TaskView -> int {
    match o
    case DateAsc => (t: TaskView) => t.dateCreated
    case DateDesc => (t: TaskView) => -t.dateCreated
    case PriorityAsc => (t: TaskView) => RankOf(t.priority)
    case PriorityDesc => (t: TaskView) => -RankOf(t.priority)
    case CompletedFirst => (t: TaskView) => -BoolValue(t.isCompleted)
    case NotCompletedFirst => (t: TaskView) => BoolValue(t.isCompleted)
    case Unrecognised => (t: TaskView) => 0
  }

  /** What `sortTasks` returns: the stable sort by the option's key, or the copy as it is. */
  function SortedTasks(tasks: seq<TaskView>, option: string): seq<TaskView> {
    var o := ParseSortOption(option);
    if o.Unrecognised? then tasks else SortBy(tasks, SortKey(o))
  }

  predicate ComparesPriorities(option: string) {
    ParseSortOption(option).PriorityAsc? || ParseSortOption(option).PriorityDesc?
  }

  /** Every priority is one `priorityMap` knows once lower-cased. */
  predicate KnownPriorities(tasks: seq<TaskView>) {
    forall i :: 0 <= i < |tasks| ==> tasks[i].priority != Unknown
  }

  /**
   * `sortTasks`: copies the array and sorts the copy in place; the array
   * it was given is not written.
   */
  method SortTasks(tasks: array<TaskView>, option: string) returns (sorted: array<TaskView>)
    requires ComparesPriorities(option) ==> KnownPriorities(tasks[..])
    ensures fresh(sorted)
    ensures sorted[..] == SortedTasks(tasks[..], option)
  {
    var copy := tasks[..];
    sorted := new TaskView[|copy|](i requires 0 <= i < |copy| => copy[i]);
    assert sorted[..] == copy;
    var o := ParseSortOption(option);
    if !o.Unrecognised? {
      SortInPlace(sorted, SortKey(o));
    }
  }

  /** Sorting only reorders the tasks it is given. */
  lemma SortedTasksPermutes(tasks: seq<TaskView>, option: string)
    ensures multiset(SortedTasks(tasks, option)) == multiset(tasks)
  {
    var o := ParseSortOption(option);
    if !o.Unrecognised? {
      SortByPermutes(tasks, SortKey(o));
    }
  }

  /**
   * The order each option produces: dates ascending or descending, Low
   * before Medium before High or the reverse, every completed task before
   * every open one or the reverse; an unknown option keeps the order.
   */
  lemma SortedTasksOrder(tasks: seq<TaskView>, option: string)
    ensures var r := SortedTasks(tasks, option);
      var o := ParseSortOption(option);
      && (o.DateAsc? ==> forall i, j :: 0 <= i < j < |r| ==> r[i].dateCreated <= r[j].dateCreated)
      && (o.DateDesc? ==> forall i, j :: 0 <= i < j < |r| ==> r[i].dateCreated >= r[j].dateCreated)
      && (o.PriorityAsc? ==> forall i, j :: 0 <= i < j < |r| ==> RankOf(r[i].priority) <= RankOf(r[j].priority))
      && (o.PriorityDesc? ==> forall i, j :: 0 <= i < j < |r| ==> RankOf(r[i].priority) >= RankOf(r[j].priority))
      && (o.CompletedFirst? ==> forall i, j :: 0 <= i < j < |r| && !r[i].isCompleted ==> !r[j].isCompleted)
      && (o.NotCompletedFirst? ==> forall i, j :: 0 <= i < j < |r| && r[i].isCompleted ==> r[j].isCompleted)
      && (o.Unrecognised? ==> r == tasks)
  {
    var o := ParseSortOption(option);
    if !o.Unrecognised? {
      var r := SortBy(tasks, SortKey(o));
      SortBySorted(tasks, SortKey(o));
      assert forall i, j :: 0 <= i < j < |r| ==> SortKey(o)(r[i]) <= SortKey(o)(r[j]);
    }
  }

  /** Ties keep their order: the tasks with one key value appear as they did in the input. */
  lemma SortedTasksStable(tasks: seq<TaskView>, option: string, k: int)
    requires !ParseSortOption(option).Unrecognised?
    ensures var key := SortKey(ParseSortOption(option));
      WithKey(SortedTasks(tasks, option), key, k) == WithKey(tasks, key, k)
  {
    SortByStable(tasks, SortKey(ParseSortOption(option)), k);
  }

  /** Choosing the same sort option again leaves the list as the first choice left it. */
  lemma SortedTasksIdempotent(tasks: seq<TaskView>, option: string)
    ensures SortedTasks(SortedTasks(tasks, option), option) == SortedTasks(tasks, option)
  {
    var o := ParseSortOption(option);
    if !o.Unrecognised? {
      SortByIdempotent(tasks, SortKey(o));
    }
  }

  // ---------------------------------------------------------------------
  // Pagination: the slice of the current page and totalPages
  // ---------------------------------------------------------------------

  const TASKS_PER_PAGE: int := 8

  /**
   * `Array.prototype.slice(start, end)`: a negative bound counts from the
   * end, both bounds are clamped to the length, and crossed bounds give
   * nothing.
   */
  function JsSlice<T>(s: seq<T>, start: int, end: int): seq<T> {
    var from := if start < 0 then (if |s| + start < 0 then 0 else |s| + start) else (if start < |s| then start else |s|);
    var to := if end < 0 then (if |s| + end < 0 then 0 else |s| + end) else (if end < |s| then end else |s|);
    if from < to then s[from..to] else []
  }

  /** `tasks.slice(indexOfFirstTask, indexOfLastTask)` for page `currentPage`. */
  function PageSlice<T>(tasks: seq<T>, currentPage: int): seq<T> {
    var last := currentPage * TASKS_PER_PAGE;
    var first := last - TASKS_PER_PAGE;
    JsSlice(tasks, first, last)
  }

  /** `Math.ceil(tasks.length / tasksPerPage)` in integer arithmetic. */
  function TotalPages(n: nat): nat {
    (n + TASKS_PER_PAGE - 1) / TASKS_PER_PAGE
  }

  function Min(a: int, b: int): int {
    if a < b then a else b
  }

  /** `TotalPages` is the ceiling: the fewest pages of eight that hold `n` tasks. */
  lemma TotalPagesIsCeiling(n: nat)
    ensures TotalPages(n) * TASKS_PER_PAGE >= n
    ensures n > 0 ==> (TotalPages(n) - 1) * TASKS_PER_PAGE < n
    ensures TotalPages(n) == 0 <==> n == 0
  {
  }

  /**
   * Page `p` shows the tasks from index `(p - 1) * 8` up to `p * 8`,
   * clipped to the list; no page, whatever its number, shows more than
   * eight.
   */
  lemma PageSliceContents<T>(tasks: seq<T>, p: int)
    ensures |PageSlice(tasks, p)| <= TASKS_PER_PAGE
    ensures p >= 1 ==>
      PageSlice(tasks, p) == tasks[Min((p - 1) * TASKS_PER_PAGE, |tasks|)..Min(p * TASKS_PER_PAGE, |tasks|)]
  {
  }

  /** Pages 1 to `k`, one after the other. */
  function PagesUpTo<T>(tasks: seq<T>, k: nat): seq<T> {
    if k == 0 then [] else PagesUpTo(tasks, k - 1) + PageSlice(tasks, k)
  }

  lemma {:induction false} PagesUpToPrefix<T>(tasks: seq<T>, k: nat)
    ensures PagesUpTo(tasks, k) == tasks[..Min(k * TASKS_PER_PAGE, |tasks|)]
  {
    if k > 0 {
      PagesUpToPrefix(tasks, k - 1);
      PageSliceContents(tasks, k);
      var a := Min((k - 1) * TASKS_PER_PAGE, |tasks|);
      var b := Min(k * TASKS_PER_PAGE, |tasks|);
      assert tasks[..b] == tasks[..a] + tasks[a..b];
    }
  }

  /**
   * Reading pages 1 to `totalPages` in turn shows every task exactly once,
   * in order, and every page in that range shows at least one task.
   */
  lemma PagesCoverTasks<T>(tasks: seq<T>)
    ensures PagesUpTo(tasks, TotalPages(|tasks|)) == tasks
    ensures forall p :: 1 <= p <= TotalPages(|tasks|) ==> PageSlice(tasks, p) != []
  {
    PagesUpToPrefix(tasks, TotalPages(|tasks|));
    assert tasks[..|tasks|] == tasks;
    forall p | 1 <= p <= TotalPages(|tasks|)
      ensures PageSlice(tasks, p) != []
    {
      PageSliceContents(tasks, p);
    }
  }

  // ---------------------------------------------------------------------
  // generatePageNumbers
  // ---------------------------------------------------------------------

  /** A button of the page bar: a page number or a disabled "...". */
  datatype PageItem = Page(n: int) | Ellipsis

  const MAX_PAGE_BUTTONS: int := 10

  /** The buttons `lo`, `lo + 1`, …, `hi`. */
  function Pages(lo: int, hi: int): (r: seq<PageItem>)
    ensures |r| == if lo <= hi then hi - lo + 1 else 0
    ensures forall k :: 0 <= k < |r| ==> r[k] == Page(lo + k)
  {
    if lo > hi then [] else seq(hi - lo + 1, k => Page(lo + k))
  }

  /**
   * The bar for `currentPage` of `totalPages`: every page when there are
   * at most ten; otherwise the first eight, the last eight, or the five
   * around the current page, joined to page 1 and the last page by "...".
   */
  function PageBar(currentPage: int, totalPages: int): seq<PageItem> {
    var middle := MAX_PAGE_BUTTONS / 2;
    if totalPages <= MAX_PAGE_BUTTONS then Pages(1, totalPages)
    else if currentPage <= middle + 1 then Pages(1, MAX_PAGE_BUTTONS - 2) + [Ellipsis, Page(totalPages)]
    else if currentPage >= totalPages - middle then
      [Page(1), Ellipsis] + Pages(totalPages - (MAX_PAGE_BUTTONS - 3), totalPages)
    else [Page(1), Ellipsis] + Pages(currentPage - 2, currentPage + 2) + [Ellipsis, Page(totalPages)]
  }

  /** One `for (let i = lo; i <= hi; i++) pages.push(i)` loop. */
  method PushPages(pages: seq<PageItem>, lo: int, hi: int) returns (r: seq<PageItem>)
    ensures r == pages + Pages(lo, hi)
  {
    r := pages;
    var i := lo;
    while i <= hi
      invariant lo <= i && (lo <= hi ==> i <= hi + 1) && (lo > hi ==> i == lo)
      invariant r == pages + Pages(lo, i - 1)
    {
      r := r + [Page(i)];
      i := i + 1;
    }
  }

  method GeneratePageNumbers(currentPage: int, totalPages: int) returns (pages: seq<PageItem>)
    ensures pages == PageBar(currentPage, totalPages)
  {
    pages := [];
    if totalPages <= MAX_PAGE_BUTTONS {
      pages := PushPages(pages, 1, totalPages);
    } else {
      var middle := MAX_PAGE_BUTTONS / 2;
      if currentPage <= middle + 1 {
        var startPage, endPage := 1, MAX_PAGE_BUTTONS - 2;
        pages := PushPages(pages, startPage, endPage);
        pages := pages + [Ellipsis];
        pages := pages + [Page(totalPages)];
      } else if currentPage >= totalPages - middle {
        pages := pages + [Page(1)];
        pages := pages + [Ellipsis];
        var startPage := totalPages - (MAX_PAGE_BUTTONS - 3);
        pages := PushPages(pages, startPage, totalPages);
      } else {
        pages := pages + [Page(1)];
        pages := pages + [Ellipsis];
        var startPage, endPage := currentPage - 2, currentPage + 2;
        pages := PushPages(pages, startPage, endPage);
        pages := pages + [Ellipsis];
        pages := pages + [Page(totalPages)];
      }
    }
  }

  /** The page numbers of a bar rise strictly from left to right. */
  predicate Increasing(bar: seq<PageItem>) {
    forall i, j :: 0 <= i < j < |bar| && bar[i].Page? && bar[j].Page? ==> bar[i].n < bar[j].n
  }

  /** With at most ten pages the bar is every page, 1 to `totalPages`, and no "...". */
  lemma FewPagesAllShown(currentPage: int, totalPages: int)
    requires totalPages <= MAX_PAGE_BUTTONS
    ensures var bar := PageBar(currentPage, totalPages);
      && |bar| == (if totalPages > 0 then totalPages else 0)
      && forall k :: 0 <= k < |bar| ==> bar[k] == Page(k + 1)
  {
  }

  /**
   * With more than ten pages the bar has at most ten buttons, starts with
   * page 1, ends with the last page, and its numbers rise strictly and
   * stay within 1 to `totalPages`.
   */
  lemma ManyPagesBarShape(currentPage: int, totalPages: int)
    requires totalPages > MAX_PAGE_BUTTONS
    ensures var bar := PageBar(currentPage, totalPages);
      && 0 < |bar| <= MAX_PAGE_BUTTONS
      && bar[0] == Page(1) && bar[|bar| - 1] == Page(totalPages)
      && Increasing(bar)
      && forall k :: 0 <= k < |bar| && bar[k].Page? ==> 1 <= bar[k].n <= totalPages
  {
  }

  /** The current page always has its own button. */
  lemma CurrentPageShown(currentPage: int, totalPages: int)
    requires 1 <= currentPage <= totalPages
    ensures Page(currentPage) in PageBar(currentPage, totalPages)
  {
    var bar := PageBar(currentPage, totalPages);
    if totalPages <= MAX_PAGE_BUTTONS {
      assert bar[currentPage - 1] == Page(currentPage);
    } else if currentPage <= 6 {
      assert bar[currentPage - 1] == Page(currentPage);
    } else if currentPage >= totalPages - 5 {
      assert bar[currentPage - totalPages + 9] == Page(currentPage);
    } else {
      assert bar[4] == Page(currentPage);
    }
  }

  /**
   * Where the "..." go: only before the last page while the current page
   * is at most 6, only after page 1 once it is within five of the end,
   * and on both sides of the five pages around it otherwise.
   */
  lemma EllipsisPlacement(currentPage: int, totalPages: int)
    requires totalPages > MAX_PAGE_BUTTONS
    ensures var bar := PageBar(currentPage, totalPages);
      && (currentPage <= 6 ==> forall k :: 0 <= k < |bar| ==> (bar[k] == Ellipsis <==> k == |bar| - 2))
      && (6 < currentPage && currentPage >= totalPages - 5 ==>
            forall k :: 0 <= k < |bar| ==> (bar[k] == Ellipsis <==> k == 1))
      && (6 < currentPage < totalPages - 5 ==>
            && |bar| == 9
            && (forall k :: 0 <= k < |bar| ==> (bar[k] == Ellipsis <==> k == 1 || k == 7))
            && bar[2..7] == Pages(currentPage - 2, currentPage + 2))
  {
  }

  /** A "..." always stands between two page buttons for at least one page that has no button. */
  lemma EllipsisBetweenPages(currentPage: int, totalPages: int)
    requires totalPages > MAX_PAGE_BUTTONS
    ensures var bar := PageBar(currentPage, totalPages);
      forall k :: 0 <= k < |bar| && bar[k] == Ellipsis ==>
        && 0 < k < |bar| - 1 && bar[k - 1].Page? && bar[k + 1].Page?
        && bar[k - 1].n + 1 < bar[k + 1].n
  {
  }

  /** The pages each kind of bar gives a button. */
  lemma ShownPages(currentPage: int, totalPages: int, p: int)
    requires totalPages > MAX_PAGE_BUTTONS
    ensures var bar := PageBar(currentPage, totalPages);
      && (p == 1 || p == totalPages ==> Page(p) in bar)
      && (currentPage <= 6 && 1 <= p <= 8 ==> Page(p) in bar)
      && (6 < currentPage && currentPage >= totalPages - 5 && totalPages - 7 <= p <= totalPages ==> Page(p) in bar)
      && (6 < currentPage < totalPages - 5 && currentPage - 2 <= p <= currentPage + 2 ==> Page(p) in bar)
  {
    var bar := PageBar(currentPage, totalPages);
    assert bar[0] == Page(1) && bar[|bar| - 1] == Page(totalPages);
    if currentPage <= 6 && 1 <= p <= 8 {
      assert bar[p - 1] == Page(p);
    }
    if 6 < currentPage && currentPage >= totalPages - 5 && totalPages - 7 <= p <= totalPages {
      assert bar[p - totalPages + 9] == Page(p);
    }
    if 6 < currentPage < totalPages - 5 && currentPage - 2 <= p <= currentPage + 2 {
      assert bar[p - currentPage + 4] == Page(p);
    }
  }

  /** Every page without a button lies in the gap of a "...". */
  lemma HiddenPagesUnderEllipsis(currentPage: int, totalPages: int, p: int)
    requires totalPages > MAX_PAGE_BUTTONS
    requires 1 <= p <= totalPages && Page(p) !in PageBar(currentPage, totalPages)
    ensures var bar := PageBar(currentPage, totalPages);
      exists k :: 0 < k < |bar| - 1 && bar[k] == Ellipsis
                  && bar[k - 1].Page? && bar[k + 1].Page? && bar[k - 1].n < p < bar[k + 1].n
  {
    var bar := PageBar(currentPage, totalPages);
    ShownPages(currentPage, totalPages, p);
    if currentPage <= 6 {
      assert bar[8] == Ellipsis && bar[7] == Page(8) && bar[9] == Page(totalPages);
    } else if currentPage >= totalPages - 5 {
      assert bar[1] == Ellipsis && bar[0] == Page(1) && bar[2] == Page(totalPages - 7);
    } else if p < currentPage - 2 {
      assert bar[1] == Ellipsis && bar[0] == Page(1) && bar[2] == Page(currentPage - 2);
    } else {
      assert bar[7] == Ellipsis && bar[6] == Page(currentPage + 2) && bar[8] == Page(totalPages);
    }
  }

  // ---------------------------------------------------------------------
  // handleTagToggle
  // ---------------------------------------------------------------------

  function Other(tagId: int): int -> bool {
    (id: int) => id != tagId
  }

  /** `prev.includes(tagId) ? prev.filter((id) => id !== tagId) : [...prev, tagId]`. */
  function Toggle(selected: seq<int>, tagId: int): seq<int> {
    if tagId in selected then Select(selected, Other(tagId)) else selected + [tagId]
  }

  predicate Distinct(s: seq<int>) {
    forall i, j :: 0 <= i < j < |s| ==> s[i] != s[j]
  }

  /**
   * Toggling flips whether the id is selected and leaves every other id as
   * it was; a newly selected id goes after all the others.
   */
  lemma ToggleFlips(selected: seq<int>, tagId: int)
    ensures var r := Toggle(selected, tagId);
      && (tagId in r <==> tagId !in selected)
      && (forall id :: id != tagId ==> (id in r <==> id in selected))
      && (tagId !in selected ==> |r| == |selected| + 1 && r[..|selected|] == selected && r[|selected|] == tagId)
  {
    var r := Toggle(selected, tagId);
    if tagId in selected {
      forall id | id != tagId && id in selected
        ensures id in r
      {
        SelectComplete(selected, Other(tagId), id);
      }
    }
  }

  /** A selection without repeats stays without repeats. */
  lemma ToggleKeepsDistinct(selected: seq<int>, tagId: int)
    requires Distinct(selected)
    ensures Distinct(Toggle(selected, tagId))
  {
    if tagId in selected {
      SelectKeepsDistinct(selected, Other(tagId), (id: int) => id);
    }
  }

  /** Toggling an unselected id twice gives the selection back. */
  lemma ToggleTwiceUnselected(selected: seq<int>, tagId: int)
    requires tagId !in selected
    ensures Toggle(Toggle(selected, tagId), tagId) == selected
  {
    var once := selected + [tagId];
    assert once[..|once| - 1] == selected;
    SelectAll(selected, Other(tagId));
  }

  /**
   * Toggling a selected id twice moves it to the end; the other ids keep
   * their order.
   */
  lemma ToggleTwiceSelected(selected: seq<int>, tagId: int)
    requires tagId in selected
    ensures Toggle(Toggle(selected, tagId), tagId) == Select(selected, Other(tagId)) + [tagId]
  {
    var kept := Select(selected, Other(tagId));
    assert tagId !in kept;
  }

  /**
   * On a selection without repeats, toggling a selected id twice gives the
   * selection back exactly when that id was the last one selected.
   */
  lemma ToggleTwiceRestoresIffLast(selected: seq<int>, tagId: int)
    requires tagId in selected && Distinct(selected)
    ensures Toggle(Toggle(selected, tagId), tagId) == selected <==> selected[|selected| - 1] == tagId
  {
    ToggleTwiceSelected(selected, tagId);
    var twice := Select(selected, Other(tagId)) + [tagId];
    assert twice[|twice| - 1] == tagId;
    if selected[|selected| - 1] == tagId {
      var init := selected[..|selected| - 1];
      assert selected == init + [tagId];
      forall j | 0 <= j < |init|
        ensures Other(tagId)(init[j])
      {
        assert selected[j] == init[j];
      }
      SelectAll(init, Other(tagId));
      assert Select(selected, Other(tagId)) == Select(init, Other(tagId));
    } else {
      assert |twice| > 0;
    }
  }

  // ---------------------------------------------------------------------
  // handleFilter: the request payload
  // ---------------------------------------------------------------------

  /** The JSON body a filter request sends; a date key is absent when None. */
  datatype FilterPayload = FilterPayload(
    tags: seq<int>,
    completed: string,
    priority: string,
    startDate: Option<string>,
    endDate: Option<string>)

  /**
   * The payload built from the form: the selected ids, the completion
   * choice, the priority lower-cased, and the dates by the three branches
   * on which of them is filled in.
   */
  function BuildPayload(selectedTags: seq<int>, completedStatus: string, priority: string,
                        startDate: string, endDate: string): FilterPayload
  {
    var payload := FilterPayload(selectedTags, completedStatus, Text.Lower(priority), None, None);
    if startDate != "" && endDate != "" then payload.(startDate := Some(startDate), endDate := Some(endDate))
    else if startDate != "" && endDate == "" then payload.(startDate := Some(startDate))
    else if startDate == "" && endDate != "" then payload.(endDate := Some(endDate))
    else payload
  }

  /** Each date key is sent exactly when its field is filled in, with the field's text. */
  lemma PayloadDates(selectedTags: seq<int>, completedStatus: string, priority: string,
                     startDate: string, endDate: string)
    ensures var p := BuildPayload(selectedTags, completedStatus, priority, startDate, endDate);
      && (p.startDate.Some? <==> startDate != "") && (p.startDate.Some? ==> p.startDate.value == startDate)
      && (p.endDate.Some? <==> endDate != "") && (p.endDate.Some? ==> p.endDate.value == endDate)
      && p.tags == selectedTags && p.completed == completedStatus && p.priority == Text.Lower(priority)
  {
  }

  // ---------------------------------------------------------------------
  // The page component
  // ---------------------------------------------------------------------

  /**
   * How the filter request ended: the tasks it returned, or a failure
   * whose payload is the response's `error` field ("" when it has none),
   * before the "Failed to fetch tasks." fallback is applied. A network or
   * JSON error is modelled as a failure carrying its own non-empty message.
   */
  datatype FetchOutcome = Fetched(tasks: seq<TaskView>) | FetchFailed(message: string)

  class FindTasksPage {
    var tasks: seq<TaskView>
    var selectedTags: seq<int>
    var startDate: string
    var endDate: string
    var completedStatus: string
    var priority: string
    var sortOption: string
    var currentPage: int
    var error: string
    var loadingTasks: bool

    /** The initial state of the component. */
    constructor ()
      ensures tasks == [] && selectedTags == [] && startDate == "" && endDate == ""
      ensures completedStatus == "all" && priority == "" && sortOption == "date_desc"
      ensures currentPage == 1 && error == "" && !loadingTasks
    {
      tasks, selectedTags := [], [];
      startDate, endDate := "", "";
      completedStatus, priority, sortOption := "all", "", "date_desc";
      currentPage, error, loadingTasks := 1, "", false;
    }

    /** The tasks of the current page. */
    function CurrentTasks(): seq<TaskView>
      reads this
    {
      PageSlice(tasks, currentPage)
    }

    method HandleTagToggle(tagId: int)
      modifies this
      ensures selectedTags == Toggle(old(selectedTags), tagId)
      ensures tasks == old(tasks) && currentPage == old(currentPage) && error == old(error)
      ensures sortOption == old(sortOption) && loadingTasks == old(loadingTasks)
      ensures startDate == old(startDate) && endDate == old(endDate)
      ensures completedStatus == old(completedStatus) && priority == old(priority)
    {
      selectedTags := Toggle(selectedTags, tagId);
    }

    /** Stores the option and re-sorts the tasks shown; the page number stays. */
    method HandleSortChange(selectedSort: string)
      requires ComparesPriorities(selectedSort) ==> KnownPriorities(tasks)
      modifies this
      ensures sortOption == selectedSort
      ensures tasks == SortedTasks(old(tasks), selectedSort)
      ensures selectedTags == old(selectedTags) && currentPage == old(currentPage) && error == old(error)
      ensures loadingTasks == old(loadingTasks)
      ensures startDate == old(startDate) && endDate == old(endDate)
      ensures completedStatus == old(completedStatus) && priority == old(priority)
    {
      sortOption := selectedSort;
      var shown := new TaskView[|tasks|](i requires 0 <= i < |tasks| reads this => tasks[i]);
      assert shown[..] == tasks;
      var sorted := SortTasks(shown, selectedSort);
      tasks := sorted[..];
    }

    method HandlePageChange(pageNumber: int)
      modifies this
      ensures currentPage == pageNumber
      ensures tasks == old(tasks) && selectedTags == old(selectedTags) && error == old(error)
      ensures sortOption == old(sortOption) && loadingTasks == old(loadingTasks)
      ensures startDate == old(startDate) && endDate == old(endDate)
      ensures completedStatus == old(completedStatus) && priority == old(priority)
    {
      currentPage := pageNumber;
    }

    /**
     * `handleFilter`: goes back to page 1, and with a stored token sends
     * the payload and shows the returned tasks sorted by the current
     * option, or no tasks and the error.
     */
    method HandleFilter(userToken: Option<string>, outcome: FetchOutcome) returns (sent: Option<FilterPayload>)
      requires outcome.Fetched? && ComparesPriorities(sortOption) ==> KnownPriorities(outcome.tasks)
      modifies this
      ensures currentPage == 1 && !loadingTasks
      ensures userToken.None? || userToken.value == "" ==>
        && sent.None? && tasks == []
        && error == "No user token found. Please log in."
      ensures userToken.Some? && userToken.value != "" ==>
        && sent == Some(BuildPayload(selectedTags, completedStatus, priority, startDate, endDate))
        && (outcome.Fetched? ==> tasks == SortedTasks(outcome.tasks, sortOption) && error == "")
        && (outcome.FetchFailed? ==> tasks == [] && error == Text.OrElse(outcome.message, "Failed to fetch tasks."))
      ensures selectedTags == old(selectedTags) && sortOption == old(sortOption)
      ensures startDate == old(startDate) && endDate == old(endDate)
      ensures completedStatus == old(completedStatus) && priority == old(priority)
    {
      loadingTasks := true;
      error := "";
      tasks := [];
      currentPage := 1;
      sent := None;
      if userToken.None? || userToken.value == "" {
        error := "No user token found. Please log in.";
      } else {
        var payload := BuildPayload(selectedTags, completedStatus, priority, startDate, endDate);
        sent := Some(payload);
        match outcome
        case FetchFailed(message) =>
          error := Text.OrElse(message, "Failed to fetch tasks.");
        case Fetched(fetched) =>
          var received := new TaskView[|fetched|](i requires 0 <= i < |fetched| => fetched[i]);
          assert received[..] == fetched;
          var sorted := SortTasks(received, sortOption);
          tasks := sorted[..];
      }
      loadingTasks := false;
    }
  }
}
