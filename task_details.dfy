/**
 * The task details modal: the labels it shows for a task, each taken from
 * the caller's override, else from the fetched task, else from a fixed
 * fallback (JavaScript `??`, so an empty override still wins).
 */
module TaskDetails {
  import opened Wrappers
  import opened Text
  import opened Tasks
  import opened TaskStatus

  /** The task record the details query returns (only the fields the modal reads). */
  datatype FetchedTask = FetchedTask(
    title: string,
    description: Option<string>,
    status: string,
    priority: string,
    createdByName: Option<string>,
    assigneeName: Option<string>,
    reviewerName: Option<string>)

  /** The optional props a caller passes to replace the fetched values. */
  datatype Overrides = Overrides(
    title: Option<string>,
    description: Option<string>,
    priority: Option<string>,
    status: Option<string>,
    createdBy: Option<string>,
    assignee: Option<string>,
    assignees: Option<seq<string>>,
    reviewer: Option<string>)

  /**
   * Everything the modal computes apart from dates. The heading always shows
   * `title`; the details section (every other field) is drawn only when
   * `showsDetails` holds, that is once a task was fetched or a non-empty
   * title override was given.
   */
  datatype TaskView = TaskView(
    showsDetails: bool,
    title: string,
    description: string,
    priorityLabel: string,
    statusRaw: string,
    statusLabel: string,
    createdByLabel: string,
    createdByInitial: string,
    assigneeLabel: string,
    assigneeInitial: string,
    reviewerLabel: string,
    reviewerInitial: string,
    hasReviewer: bool,
    isApproved: bool,
    assigneeList: seq<string>)

  const NotSpecified: string := "Not specified"
  const DefaultTitle: string := "Task"
  const DefaultDescription: string := "No description is provided for this task."
  const DefaultPriority: string := "medium"
  const DefaultStatus: string := "todo"

  /** `a ?? b ?? fallback`. */
  function Coalesce(a: Option<string>, b: Option<string>, fallback: string): (r: string)
    ensures a.Some? ==> r == a.value
    ensures a.None? && b.Some? ==> r == b.value
    ensures a.None? && b.None? ==> r == fallback
  {
    a.GetOr(b.GetOr(fallback))
  }

  /** `data?.field`: absent while the task has not been fetched. */
  function Fetched<T>(data: Option<FetchedTask>, field: FetchedTask -> Option<T>): Option<T> {
    if data.Some? then field(data.value) else None
  }

  /** `statusLabelMap[statusRaw] ?? statusRaw`: four keys have a label, any other status shows as is. */
  predicate IsLabelledStatus(statusRaw: string) {
    statusRaw == "todo" || statusRaw == "in_progress" || statusRaw == "review" || statusRaw == "completed"
  }

  function DetailsStatusLabel(statusRaw: string): (text: string)
    ensures !IsLabelledStatus(statusRaw) ==> text == statusRaw
    ensures IsLabelledStatus(statusRaw) ==> text != statusRaw && text != [] && 'A' <= text[0] <= 'Z'
  {
    if statusRaw == "todo" then "To do"
    else if statusRaw == "in_progress" then "In progress"
    else if statusRaw == "review" then "Review"
    else if statusRaw == "completed" then "Completed"
    else statusRaw
  }

  /** `p.charAt(0).toUpperCase() + p.slice(1).toLowerCase()`. */
  function Capitalize(p: string): (r: string)
    ensures |r| == |p|
    ensures r != [] ==> r[0] == UpperChar(p[0])
    ensures forall i :: 1 <= i < |r| ==> r[i] == LowerChar(p[i])
  {
    ToUpper(CharAt0(p)) + ToLower(if p == [] then [] else p[1..])
  }

  /** `assigneesOverride` when it is non-empty, else the single assignee label unless it is the placeholder. */
  function AssigneeList(assignees: Option<seq<string>>, assigneeLabel: string): (r: seq<string>)
    ensures assignees.Some? && assignees.value != [] ==> r == assignees.value
    ensures (assignees.None? || assignees.value == []) && assigneeLabel != NotSpecified ==> r == [assigneeLabel]
    ensures (assignees.None? || assignees.value == []) && assigneeLabel == NotSpecified ==> r == []
  {
    if assignees.Some? && |assignees.value| > 0 then assignees.value
    else if assigneeLabel != NotSpecified then [assigneeLabel]
    else []
  }

  /** The view, or nothing while the modal is closed or has no task id. */
  function TaskDetailsView(open: bool, taskId: Option<string>, data: Option<FetchedTask>, o: Overrides)
    : (r: Option<TaskView>)
    ensures r.None? <==> !open || !Truthy(taskId)
    ensures r.Some? ==> (r.value.showsDetails <==> data.Some? || Truthy(o.title))
  {
    if !open || !Truthy(taskId) then None
    else
      var title := Coalesce(o.title, Fetched(data, (t: FetchedTask) => Some(t.title)), DefaultTitle);
      var description := Coalesce(o.description, Fetched(data, (t: FetchedTask) => t.description), DefaultDescription);
      var priority := Coalesce(o.priority, Fetched(data, (t: FetchedTask) => Some(t.priority)), DefaultPriority);
      var statusRaw := Coalesce(o.status, Fetched(data, (t: FetchedTask) => Some(t.status)), DefaultStatus);
      var createdBy := Coalesce(o.createdBy, Fetched(data, (t: FetchedTask) => t.createdByName), NotSpecified);
      var assignee := Coalesce(o.assignee, Fetched(data, (t: FetchedTask) => t.assigneeName), NotSpecified);
      var reviewer := Coalesce(o.reviewer, Fetched(data, (t: FetchedTask) => t.reviewerName), NotSpecified);
      var hasReviewer := reviewer != NotSpecified;
      Some(TaskView(
        data.Some? || Truthy(o.title), title, description, Capitalize(priority), statusRaw, DetailsStatusLabel(statusRaw),
        createdBy, InitialOf(createdBy), assignee, InitialOf(assignee), reviewer, InitialOf(reviewer),
        hasReviewer, hasReviewer && statusRaw == "completed", AssigneeList(o.assignees, assignee)))
  }

  /** The placeholder label's avatar initial is "N". */
  lemma PlaceholderInitial()
    ensures InitialOf(NotSpecified) == "N"
  {
    assert NotSpecified[0] == 'N';
    assert !IsBlank(NotSpecified);
    TrimStartOfClean(NotSpecified);
  }

  /** The default priority reads "Medium". */
  lemma DefaultPriorityLabel()
    ensures Capitalize(DefaultPriority) == "Medium"
  {
    var p := DefaultPriority;
    assert CharAt0(p) == "m";
    assert ToUpper("m") == "M" by { assert UpperChar('m') == 'M'; }
    var tail := p[1..];
    assert tail == "edium";
    assert ToLower(tail) == tail by {
      forall i | 0 <= i < |tail| ensures LowerChar(tail[i]) == tail[i] {
      }
    }
  }

  /**
   * With no overrides and no fetched task, every field holds its fallback,
   * and the details section is not drawn: no task field besides the heading
   * "Task" appears.
   */
  lemma FallbackView(taskId: string)
    requires taskId != ""
    ensures var r := TaskDetailsView(true, Some(taskId), None, Overrides(None, None, None, None, None, None, None, None));
            && r.Some? && !r.value.showsDetails
            && r.value.title == DefaultTitle && r.value.description == DefaultDescription
            && r.value.priorityLabel == "Medium" && r.value.statusLabel == "To do"
            && r.value.createdByLabel == NotSpecified && r.value.createdByInitial == "N"
            && !r.value.hasReviewer && !r.value.isApproved && r.value.assigneeList == []
  {
    DefaultPriorityLabel();
    PlaceholderInitial();
  }

  /**
   * Every label chain: an override, even an empty one, replaces the fetched
   * value, and a fetched value replaces the fallback.
   */
  lemma OverridesWin(open: bool, taskId: Option<string>, data: Option<FetchedTask>, o: Overrides)
    requires open && Truthy(taskId)
    ensures var v := TaskDetailsView(open, taskId, data, o).value;
            && (o.title.Some? ==> v.title == o.title.value)
            && (o.description.Some? ==> v.description == o.description.value)
            && (o.priority.Some? ==> v.priorityLabel == Capitalize(o.priority.value))
            && (o.status.Some? ==> v.statusRaw == o.status.value)
            && (o.createdBy.Some? ==> v.createdByLabel == o.createdBy.value)
            && (o.assignee.Some? ==> v.assigneeLabel == o.assignee.value)
            && (o.reviewer.Some? ==> v.reviewerLabel == o.reviewer.value)
  {
  }

  /** Without an override, the fetched task's value is shown, else the fallback. */
  lemma FetchedThenFallback(open: bool, taskId: Option<string>, data: Option<FetchedTask>, o: Overrides)
    requires open && Truthy(taskId)
    ensures var v := TaskDetailsView(open, taskId, data, o).value;
            var f := data.Some?;
            && (o.title.None? ==> v.title == (if f then data.value.title else DefaultTitle))
            && (o.description.None? ==> v.description == (if f then data.value.description else None).GetOr(DefaultDescription))
            && (o.priority.None? ==> v.priorityLabel == Capitalize(if f then data.value.priority else DefaultPriority))
            && (o.status.None? ==> v.statusRaw == (if f then data.value.status else DefaultStatus))
            && (o.createdBy.None? ==> v.createdByLabel == (if f then data.value.createdByName else None).GetOr(NotSpecified))
            && (o.assignee.None? ==> v.assigneeLabel == (if f then data.value.assigneeName else None).GetOr(NotSpecified))
            && (o.reviewer.None? ==> v.reviewerLabel == (if f then data.value.reviewerName else None).GetOr(NotSpecified))
  {
  }

  /** The four statuses the modal labels itself. */
  lemma DetailsStatusLabelTable()
    ensures DetailsStatusLabel("todo") == "To do"
    ensures DetailsStatusLabel("in_progress") == "In progress"
    ensures DetailsStatusLabel("review") == "Review"
    ensures DetailsStatusLabel("completed") == "Completed"
  {
  }

  /** The status label and the assignee list are derived from the resolved status and assignee label. */
  lemma DerivedLabels(open: bool, taskId: Option<string>, data: Option<FetchedTask>, o: Overrides)
    requires open && Truthy(taskId)
    ensures var v := TaskDetailsView(open, taskId, data, o).value;
            && v.statusLabel == DetailsStatusLabel(v.statusRaw)
            && v.assigneeList == AssigneeList(o.assignees, v.assigneeLabel)
  {
  }

  /** Each avatar initial is taken from the label it sits beside. */
  lemma InitialsFollowLabels(open: bool, taskId: Option<string>, data: Option<FetchedTask>, o: Overrides)
    requires open && Truthy(taskId)
    ensures var v := TaskDetailsView(open, taskId, data, o).value;
            && v.createdByInitial == InitialOf(v.createdByLabel)
            && v.assigneeInitial == InitialOf(v.assigneeLabel)
            && v.reviewerInitial == InitialOf(v.reviewerLabel)
            && (v.reviewerInitial == "" <==> IsBlank(v.reviewerLabel))
  {
  }

  /** A reviewer is shown exactly when the label is not the placeholder; approval also needs a completed status. */
  lemma ReviewerAndApproval(open: bool, taskId: Option<string>, data: Option<FetchedTask>, o: Overrides)
    requires open && Truthy(taskId)
    ensures var v := TaskDetailsView(open, taskId, data, o).value;
            && (v.hasReviewer <==> v.reviewerLabel != NotSpecified)
            && (v.isApproved <==> v.hasReviewer && v.statusRaw == "completed")
            && (v.isApproved ==> v.statusLabel == "Completed")
  {
  }

  /** The assignee list is never empty when an assignee other than the placeholder is known. */
  lemma AssigneeListNonEmpty(assignees: Option<seq<string>>, assigneeLabel: string)
    ensures AssigneeList(assignees, assigneeLabel) == [] <==>
              (assignees.None? || assignees.value == []) && assigneeLabel == NotSpecified
  {
  }

  /** Capitalising twice is capitalising once. */
  lemma {:induction false} CapitalizeIdempotent(p: string)
    ensures Capitalize(Capitalize(p)) == Capitalize(p)
  {
    var c := Capitalize(p);
    var cc := Capitalize(c);
    forall i | 0 <= i < |cc|
      ensures cc[i] == c[i]
    {
      if i == 0 {
        assert UpperChar(UpperChar(p[0])) == UpperChar(p[0]);
      } else {
        assert LowerChar(LowerChar(p[i])) == LowerChar(p[i]);
      }
    }
  }

  /**
   * Blocked and rejected tasks show their raw column key, while the other
   * four columns get a label; only review and completed agree with the
   * board's column headings.
   */
  lemma StatusLabelAgainstBoard(c: ColumnId)
    ensures c == Blocked || c == Rejected <==> DetailsStatusLabel(ColumnKey(c)) == ColumnKey(c)
    ensures c == Review || c == Completed <==> DetailsStatusLabel(ColumnKey(c)) == StatusLabel(c)
  {
  }
}
