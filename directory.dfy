/** The user directory the task forms and the assignee filter choose from. */
module Directory {
  import opened Wrappers

  /** A directory entry `{ id, name }`. */
  datatype AssigneeOption = AssigneeOption(id: string, name: string)

  /** Position of the first entry with the given id, or -1. */
  function IndexOfAssignee(directory: seq<AssigneeOption>, id: string): (i: int)
    ensures -1 <= i < |directory|
    ensures i >= 0 ==> directory[i].id == id
    ensures forall j :: 0 <= j < |directory| && (i == -1 || j < i) ==> directory[j].id != id
  {
    if directory == [] then -1
    else if directory[0].id == id then 0
    else
      var k := IndexOfAssignee(directory[1..], id);
      if k == -1 then -1 else k + 1
  }

  /** `directory.find(a => a.id === id)`; an absent id (`undefined`) matches no entry. */
  function FindAssignee(directory: seq<AssigneeOption>, id: Option<string>): (r: Option<AssigneeOption>)
    ensures r.Some? ==> id.Some? && r.value.id == id.value && r.value in directory
    ensures r.None? ==> id.None? || forall j :: 0 <= j < |directory| ==> directory[j].id != id.value
    ensures r.Some? ==> r.value == directory[IndexOfAssignee(directory, id.value)]
  {
    if id.None? then None
    else
      var i := IndexOfAssignee(directory, id.value);
      if i == -1 then None else Some(directory[i])
  }
}
