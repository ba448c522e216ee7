/**
 * The assignee filter on the task board: the button that shows how many
 * assignees are selected, its avatar badge, and the checked state of each
 * directory row in the drop-down.
 */
module AssigneeFilter {
  import opened Wrappers
  import opened Text
  import opened Directory

  /** `assignees.find(a => a.id === assigneeFilterIds[0])`; an empty filter reads `undefined`. */
  function SelectedAssignee(filterIds: seq<string>, directory: seq<AssigneeOption>): (r: Option<AssigneeOption>)
    ensures filterIds == [] ==> r.None?
    ensures filterIds != [] ==> r == FindAssignee(directory, Some(filterIds[0]))
  {
    FindAssignee(directory, if filterIds == [] then None else Some(filterIds[0]))
  }

  /** The text of the filter button. */
  function ButtonLabel(filterIds: seq<string>, directory: seq<AssigneeOption>): (text: string)
    ensures filterIds == [] ==> text == "All assignees"
    ensures |filterIds| == 1 && SelectedAssignee(filterIds, directory).None? ==> text == "Assignee"
    ensures |filterIds| == 1 && SelectedAssignee(filterIds, directory).Some? ==>
      exists a :: a in directory && a.id == filterIds[0] && text == a.name
    ensures |filterIds| >= 2 ==> text != [] && '1' <= text[0] <= '9'
  {
    if |filterIds| == 0 then "All assignees"
    else if |filterIds| == 1 then
      var selected := SelectedAssignee(filterIds, directory);
      if selected.Some? then selected.value.name else "Assignee"
    else Decimal(|filterIds|) + " assignees"
  }

  /** The letter in the button's avatar badge. */
  function BadgeInitial(filterIds: seq<string>, directory: seq<AssigneeOption>): (r: string)
    ensures |r| <= 1
  {
    if |filterIds| == 1 then
      var selected := SelectedAssignee(filterIds, directory);
      if selected.Some? then InitialOf(selected.value.name) else "A"
    else "A"
  }

  /** One drop-down row: a directory entry, its check mark and its avatar initial. */
  datatype FilterRow = FilterRow(id: string, name: string, checked: bool, initial: string)

  /** The drop-down rows, one per directory entry in directory order. */
  function FilterRows(filterIds: seq<string>, directory: seq<AssigneeOption>): (rows: seq<FilterRow>)
    ensures |rows| == |directory|
    ensures forall i :: 0 <= i < |rows| ==>
              && rows[i].id == directory[i].id && rows[i].name == directory[i].name
              && (rows[i].checked <==> directory[i].id in filterIds)
              && rows[i].initial == InitialOf(directory[i].name)
  {
    seq(|directory|, i requires 0 <= i < |directory| =>
      FilterRow(directory[i].id, directory[i].name, directory[i].id in filterIds,
                InitialOf(directory[i].name)))
  }

  /** Without a selection the button offers every assignee. */
  lemma EmptyFilterLabel(directory: seq<AssigneeOption>)
    ensures ButtonLabel([], directory) == "All assignees"
    ensures BadgeInitial([], directory) == "A"
  {
  }

  /** One selected id shows the first matching entry's name, or "Assignee" when none matches. */
  lemma SingleFilterLabel(id: string, directory: seq<AssigneeOption>)
    ensures var i := IndexOfAssignee(directory, id);
            && (i >= 0 ==> ButtonLabel([id], directory) == directory[i].name)
            && (i == -1 ==> ButtonLabel([id], directory) == "Assignee")
            && (i == -1 <==> forall a | a in directory :: a.id != id)
  {
    var i := IndexOfAssignee(directory, id);
    if i == -1 {
      forall a | a in directory ensures a.id != id {
        var j :| 0 <= j < |directory| && directory[j] == a;
      }
    }
  }

  /** Several selected ids show their count, whatever the directory holds. */
  lemma CountLabel(filterIds: seq<string>, directory: seq<AssigneeOption>)
    requires |filterIds| >= 2
    ensures ButtonLabel(filterIds, directory) == Decimal(|filterIds|) + " assignees"
    ensures ParseDecimal(ButtonLabel(filterIds, directory)[..|Decimal(|filterIds|)|]) == |filterIds|
  {
    var d := Decimal(|filterIds|);
    assert (d + " assignees")[..|d|] == d;
    ParseDecimalOfDecimal(|filterIds|);
  }

  /**
   * The badge shows a name's initial only for exactly one selected id that
   * is found; every other case shows "A". A found name that is blank gives
   * an empty badge.
   */
  lemma BadgeCases(filterIds: seq<string>, directory: seq<AssigneeOption>)
    ensures var selected := SelectedAssignee(filterIds, directory);
            && (|filterIds| == 1 && selected.Some? ==> BadgeInitial(filterIds, directory) == InitialOf(selected.value.name))
            && (|filterIds| != 1 || selected.None? ==> BadgeInitial(filterIds, directory) == "A")
            && (BadgeInitial(filterIds, directory) == "" <==>
                  |filterIds| == 1 && selected.Some? && IsBlank(selected.value.name))
  {
  }

  /** With one id selected, the badge is the initial of the label the button shows. */
  lemma BadgeMatchesLabel(id: string, directory: seq<AssigneeOption>)
    requires IndexOfAssignee(directory, id) >= 0
    ensures BadgeInitial([id], directory) == InitialOf(ButtonLabel([id], directory))
  {
  }

  /**
   * With one id selected and found, the first checked row of the drop-down
   * is the entry whose name the button shows.
   */
  lemma SingleFilterCheckedRow(id: string, directory: seq<AssigneeOption>)
    requires IndexOfAssignee(directory, id) >= 0
    ensures var i := IndexOfAssignee(directory, id);
            var rows := FilterRows([id], directory);
            && rows[i].checked
            && rows[i].name == ButtonLabel([id], directory)
            && forall j :: 0 <= j < i ==> !rows[j].checked
  {
    var i := IndexOfAssignee(directory, id);
    var rows := FilterRows([id], directory);
    assert SelectedAssignee([id], directory) == Some(directory[i]);
    assert ButtonLabel([id], directory) == directory[i].name;
    assert rows[i].checked && rows[i].name == directory[i].name;
    forall j | 0 <= j < i ensures !rows[j].checked {
      assert directory[j].id != id && (rows[j].checked <==> directory[j].id in [id]);
    }
  }
}
