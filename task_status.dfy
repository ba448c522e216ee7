/** Display label and text colour of each board column. */
module TaskStatus {
  import opened Tasks

  /** `getStatusLabel(column)`: the label record, total on the six columns, never empty. */
  function StatusLabel(c: ColumnId): (text: string)
    ensures text != ""
  {
    match c
    case Todo => "To Do"
    case InProgress => "In Progress"
    case Review => "Review"
    case Blocked => "Blocked"
    case Rejected => "Rejected"
    case Completed => "Completed"
  }

  /** The label of each column. */
  lemma StatusLabelTable()
    ensures StatusLabel(Todo) == "To Do"
    ensures StatusLabel(InProgress) == "In Progress"
    ensures StatusLabel(Review) == "Review"
    ensures StatusLabel(Blocked) == "Blocked"
    ensures StatusLabel(Rejected) == "Rejected"
    ensures StatusLabel(Completed) == "Completed"
  {
  }

  /** No two columns share a label. */
  lemma StatusLabelsDistinct(a: ColumnId, b: ColumnId)
    requires StatusLabel(a) == StatusLabel(b)
    ensures a == b
  {
  }

  /** The `switch` of `getStatusColorClass` over the column string; `completed` shares the `default` branch. */
  function ColorClassForKey(key: string): (cls: string)
    ensures ReachesDefault(key) <==> cls == "text-[#2F8F4E]"
  {
    if key == "todo" then "text-[#666666]"
    else if key == "in_progress" then "text-[#C97A16]"
    else if key == "review" then "text-[#4B7BF5]"
    else if key == "blocked" then "text-[#D23D3D]"
    else if key == "rejected" then "text-[#8A3FFC]"
    else "text-[#2F8F4E]"
  }

  /** A key that matches none of the explicit cases of the switch. */
  predicate ReachesDefault(key: string) {
    key != "todo" && key != "in_progress" && key != "review" && key != "blocked" && key != "rejected"
  }

  /** `getStatusColorClass(column)`. */
  function StatusColorClass(c: ColumnId): (cls: string)
    ensures c == Completed <==> cls == "text-[#2F8F4E]"
  {
    ColorClassForKey(ColumnKey(c))
  }

  /** The class each column is drawn in. */
  lemma StatusColorClassTable()
    ensures StatusColorClass(Todo) == "text-[#666666]"
    ensures StatusColorClass(InProgress) == "text-[#C97A16]"
    ensures StatusColorClass(Review) == "text-[#4B7BF5]"
    ensures StatusColorClass(Blocked) == "text-[#D23D3D]"
    ensures StatusColorClass(Rejected) == "text-[#8A3FFC]"
    ensures StatusColorClass(Completed) == "text-[#2F8F4E]"
  {
  }

  /** No two columns share a colour. */
  lemma StatusColorClassesDistinct(a: ColumnId, b: ColumnId)
    requires StatusColorClass(a) == StatusColorClass(b)
    ensures a == b
  {
  }

  /** Of the six columns only `completed` falls through to the default branch. */
  lemma OnlyCompletedReachesDefault(c: ColumnId)
    ensures ReachesDefault(ColumnKey(c)) <==> c == Completed
  {
  }
}
