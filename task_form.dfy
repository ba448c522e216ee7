/**
 * The new/edit task form: how the submitted payload is normalised (trimmed
 * title, cleaned assignee list with its fallback, priority default), which
 * assignees an edit starts from, and which directory entries each assignee
 * row offers.
 */
module TaskForm {
  import opened Wrappers
  import opened Text
  import opened Tasks
  import opened Directory

  /** The submitted payload `NewTaskFormValues`. */
  datatype FormValues = FormValues(
    title: string,
    description: string,
    dueDate: string,
    assigneeId: string,
    assigneeIds: seq<string>,
    priority: Priority)

  /** An assignee id as the payload keeps it: trimmed and non-empty. */
  predicate IsCleanId(id: string) {
    id != "" && Trim(id) == id
  }

  /** `ids.map(v => v.trim())`. */
  function TrimAll(ids: seq<string>): (r: seq<string>)
    ensures |r| == |ids|
    ensures forall i :: 0 <= i < |ids| ==> r[i] == Trim(ids[i])
  {
    seq(|ids|, i requires 0 <= i < |ids| => Trim(ids[i]))
  }

  /** `values.filter(Boolean)` on strings: the non-empty ones, in order. */
  function NonEmpty(values: seq<string>): (r: seq<string>)
    ensures |r| <= |values|
    ensures forall x :: x in r <==> x in values && x != ""
  {
    if values == [] then []
    else (if values[0] != "" then [values[0]] else []) + NonEmpty(values[1..])
  }

  lemma {:induction false} NonEmptyAppend(a: seq<string>, b: seq<string>)
    ensures NonEmpty(a + b) == NonEmpty(a) + NonEmpty(b)
  {
    if a == [] {
      assert a + b == b;
    } else {
      assert (a + b)[1..] == a[1..] + b;
      NonEmptyAppend(a[1..], b);
    }
  }

  /** `ids.map(v => v.trim()).filter(Boolean)`: the trimmed ids that are not empty. */
  function CleanAssigneeIds(ids: seq<string>): (r: seq<string>)
    ensures |r| <= |ids|
    ensures forall x :: x in r <==> x != "" && exists i :: 0 <= i < |ids| && Trim(ids[i]) == x
    ensures forall x :: x in r ==> IsCleanId(x)
  {
    var trimmed := TrimAll(ids);
    var r := NonEmpty(trimmed);
    assert forall x :: x in r ==> IsCleanId(x) by {
      forall x | x in r ensures IsCleanId(x) {
        var i :| 0 <= i < |trimmed| && trimmed[i] == x;
        TrimIdempotent(ids[i]);
      }
    }
    r
  }

  /** Cleaning works row by row, so it keeps the order of the rows. */
  lemma CleanAssigneeIdsAppend(a: seq<string>, b: seq<string>)
    ensures CleanAssigneeIds(a + b) == CleanAssigneeIds(a) + CleanAssigneeIds(b)
  {
    var ta, tb, tab := TrimAll(a), TrimAll(b), TrimAll(a + b);
    assert |tab| == |ta + tb|;
    forall i | 0 <= i < |tab| ensures tab[i] == (ta + tb)[i] {
      if i < |a| {
        assert (a + b)[i] == a[i];
      } else {
        assert (a + b)[i] == b[i - |a|];
      }
    }
    assert tab == ta + tb;
    NonEmptyAppend(TrimAll(a), TrimAll(b));
  }

  /** Ids that are already clean pass through unchanged. */
  lemma {:induction false} CleanAssigneeIdsOfClean(ids: seq<string>)
    requires forall i :: 0 <= i < |ids| ==> IsCleanId(ids[i])
    ensures CleanAssigneeIds(ids) == ids
  {
    assert TrimAll(ids) == ids;
    NonEmptyOfNonEmpty(ids);
  }

  lemma {:induction false} NonEmptyOfNonEmpty(values: seq<string>)
    requires forall i :: 0 <= i < |values| ==> values[i] != ""
    ensures NonEmpty(values) == values
  {
    if values != [] {
      NonEmptyOfNonEmpty(values[1..]);
    }
  }

  /** Cleaning one row. */
  lemma CleanSingle(id: string)
    ensures CleanAssigneeIds([id]) == if IsBlank(id) then [] else [Trim(id)]
  {
    assert TrimAll([id]) == [Trim(id)];
    assert NonEmpty([Trim(id)]) == (if Trim(id) != "" then [Trim(id)] else []) + NonEmpty([]);
  }

  /** The fallback when no assignee is chosen: the first directory entry, else one empty id. */
  function FallbackAssignees(directory: seq<AssigneeOption>): (r: seq<string>)
    ensures |r| == 1
    ensures directory != [] ==> r == [directory[0].id]
    ensures directory == [] ==> r == [""]
  {
    if |directory| > 0 then [directory[0].id] else [""]
  }

  /**
   * `handleSubmit`: nothing when the trimmed title is empty; otherwise the
   * payload with the trimmed title, the cleaned assignee list (or the
   * fallback when it is empty), the first assignee mirrored into
   * `assigneeId`, and the chosen priority, else the initial one, else medium.
   */
  function SubmitTask(
    title: string, description: string, dueDate: string, assigneeIds: seq<string>,
    priority: Option<Priority>, initialPriority: Option<Priority>,
    directory: seq<AssigneeOption>): (r: Option<FormValues>)
    ensures r.None? <==> IsBlank(title)
    ensures r.Some? ==> r.value.title == Trim(title) && r.value.title != ""
    ensures r.Some? ==> r.value.description == description && r.value.dueDate == dueDate
    ensures r.Some? ==> |r.value.assigneeIds| >= 1 && r.value.assigneeId == r.value.assigneeIds[0]
    ensures r.Some? && CleanAssigneeIds(assigneeIds) != [] ==>
      r.value.assigneeIds == CleanAssigneeIds(assigneeIds)
    ensures r.Some? && CleanAssigneeIds(assigneeIds) == [] ==>
      r.value.assigneeIds == FallbackAssignees(directory)
    ensures r.Some? ==> r.value.priority == priority.GetOr(initialPriority.GetOr(Medium))
  {
    var trimmedTitle := Trim(title);
    if trimmedTitle == "" then None
    else
      var cleaned := CleanAssigneeIds(assigneeIds);
      var finalIds := if |cleaned| > 0 then cleaned else FallbackAssignees(directory);
      var resolvedPriority :=
        if priority.Some? then priority.value
        else if initialPriority.Some? then initialPriority.value
        else Medium;
      Some(FormValues(trimmedTitle, description, dueDate, finalIds[0], finalIds, resolvedPriority))
  }

  /**
   * The assignee rows an edit starts from: the stored list if non-empty,
   * else the single stored id if non-empty, else the fallback.
   */
  function InitialAssignees(initialAssigneeIds: seq<string>, initialAssigneeId: string,
                            directory: seq<AssigneeOption>): (r: seq<string>)
    ensures |r| >= 1
    ensures initialAssigneeIds != [] ==> r == initialAssigneeIds
    ensures initialAssigneeIds == [] && initialAssigneeId != "" ==> r == [initialAssigneeId]
    ensures initialAssigneeIds == [] && initialAssigneeId == "" ==> r == FallbackAssignees(directory)
  {
    var base :=
      if |initialAssigneeIds| > 0 then initialAssigneeIds
      else if initialAssigneeId != "" then [initialAssigneeId]
      else [];
    if |base| > 0 then base else FallbackAssignees(directory)
  }

  /**
   * Saving an edit without touching the assignee rows submits exactly the
   * rows the edit started from, as long as the stored ids are clean.
   */
  lemma EditKeepsAssignees(
    title: string, description: string, dueDate: string,
    initialAssigneeIds: seq<string>, initialAssigneeId: string,
    priority: Option<Priority>, initialPriority: Option<Priority>,
    directory: seq<AssigneeOption>)
    requires !IsBlank(title)
    requires forall i :: 0 <= i < |initialAssigneeIds| ==> IsCleanId(initialAssigneeIds[i])
    requires initialAssigneeId == "" || IsCleanId(initialAssigneeId)
    requires directory == [] || Trim(directory[0].id) == directory[0].id
    ensures var rows := InitialAssignees(initialAssigneeIds, initialAssigneeId, directory);
            var r := SubmitTask(title, description, dueDate, rows, priority, initialPriority, directory);
            r.Some? && r.value.assigneeIds == rows
  {
    if initialAssigneeIds != [] {
      CleanAssigneeIdsOfClean(initialAssigneeIds);
    } else if initialAssigneeId != "" {
      CleanAssigneeIdsOfClean([initialAssigneeId]);
    } else {
      CleanSingle(FallbackAssignees(directory)[0]);
    }
  }

  /** The non-empty values chosen in rows other than `index`. */
  function OtherRowIds(rows: seq<string>, index: int): (used: seq<string>)
    ensures forall x :: x in used <==> exists j :: 0 <= j < |rows| && j != index && rows[j] != "" && rows[j] == x
    decreases |rows|
  {
    if rows == [] then []
    else
      var tail := OtherRowIds(rows[1..], index - 1);
      assert forall j :: 1 <= j < |rows| ==> rows[j] == rows[1..][j - 1];
      (if index != 0 && rows[0] != "" then [rows[0]] else []) + tail
  }

  /** Directory entries offered given the other rows' ids and this row's value. */
  function OfferedEntries(directory: seq<AssigneeOption>, used: seq<string>, current: string): (r: seq<AssigneeOption>)
    ensures |r| <= |directory|
    ensures forall a :: a in r <==> a in directory && (a.id !in used || a.id == current)
  {
    if directory == [] then []
    else
      var a := directory[0];
      (if a.id !in used || a.id == current then [a] else []) + OfferedEntries(directory[1..], used, current)
  }

  /** Offering works entry by entry, so the options keep the directory order. */
  lemma {:induction false} OfferedEntriesAppend(a: seq<AssigneeOption>, b: seq<AssigneeOption>,
                                                used: seq<string>, current: string)
    ensures OfferedEntries(a + b, used, current) == OfferedEntries(a, used, current) + OfferedEntries(b, used, current)
  {
    if a == [] {
      assert a + b == b;
    } else {
      assert (a + b)[0] == a[0];
      assert (a + b)[1..] == a[1..] + b;
      OfferedEntriesAppend(a[1..], b, used, current);
    }
  }

  /**
   * The options of assignee row `index`: every directory entry that no other
   * row has chosen, plus the entry the row itself holds, in directory order.
   */
  function AvailableAssignees(rows: seq<string>, index: nat, directory: seq<AssigneeOption>): (r: seq<AssigneeOption>)
    requires index < |rows|
    ensures |r| <= |directory|
    ensures forall a :: a in r <==>
      a in directory &&
      (a.id == rows[index] || forall j :: 0 <= j < |rows| && j != index && rows[j] != "" ==> rows[j] != a.id)
  {
    OfferedEntries(directory, OtherRowIds(rows, index), rows[index])
  }
}
