/**
 * The board transition `moveTaskInBoard`: take a card out of its column,
 * apply the column exit/entry rules to its fields, and insert it into the
 * target column at a clamped index, leaving every other column as it was.
 *
 * `MoveTaskInBoard` is the step-by-step procedure (copy, find, splice, four
 * sequential rewrites of the moved card, clamped splice); `Move` is the
 * specification it is proved equal to, and the lemmas below state what the
 * transition guarantees about `Move`. The clock read that stamps `closedAt`
 * is the parameter `now`.
 */
module TaskBoard {
  import opened Wrappers
  import opened Text
  import opened Tasks

  datatype MoveTaskArgs = MoveTaskArgs(
    fromColumn: ColumnId,
    toColumn: ColumnId,
    taskId: string,
    toIndex: int)

  /** `list.findIndex(task => task.id === taskId)`: the first position holding the id, or -1. */
  function FirstIndexOf(list: seq<Task>, taskId: string): (i: int)
    ensures -1 <= i < |list|
    ensures i >= 0 ==> list[i].id == taskId
    ensures forall j :: 0 <= j < |list| && (i == -1 || j < i) ==> list[j].id != taskId
  {
    if list == [] then -1
    else if list[0].id == taskId then 0
    else
      var k := FirstIndexOf(list[1..], taskId);
      if k == -1 then -1 else k + 1
  }

  /** The scan `findIndex` performs. */
  method FindTaskIndex(list: seq<Task>, taskId: string) returns (index: int)
    ensures index == FirstIndexOf(list, taskId)
  {
    index := 0;
    while index < |list| && list[index].id != taskId
      invariant 0 <= index <= |list|
      invariant forall j :: 0 <= j < index ==> list[j].id != taskId
    {
      index := index + 1;
    }
    if index == |list| {
      index := -1;
    }
  }

  /** The insertion position `Math.max(0, Math.min(toIndex, len))`. */
  function Clamp(toIndex: int, len: nat): (k: nat)
    ensures k <= len
    ensures 0 <= toIndex <= len ==> k == toIndex
    ensures toIndex < 0 ==> k == 0
    ensures toIndex > len ==> k == len
  {
    if toIndex < 0 then 0 else if toIndex > len then len else toIndex
  }

  /** The list without its element at `i` (`splice(i, 1)`). */
  function RemoveAt(s: seq<Task>, i: nat): (r: seq<Task>)
    requires i < |s|
    ensures |r| == |s| - 1
    ensures IdBag(r) + multiset{s[i].id} == IdBag(s)
  {
    var front, back := s[..i], s[i + 1..];
    IdBagAppend(front, back);
    IdBagAppend(front, s[i..]);
    assert s[i..][1..] == back;
    assert IdBag(s[i..]) == multiset{s[i].id} + IdBag(back);
    assert front + s[i..] == s;
    front + back
  }

  /** The list with `t` inserted before position `k` (`splice(k, 0, t)`). */
  function InsertAt(s: seq<Task>, k: nat, t: Task): (r: seq<Task>)
    requires k <= |s|
    ensures |r| == |s| + 1 && r[k] == t
    ensures RemoveAt(r, k) == s
    ensures IdBag(r) == IdBag(s) + multiset{t.id}
  {
    var r := s[..k] + [t] + s[k..];
    assert r[..k] == s[..k] && r[k + 1..] == s[k..];
    assert s == s[..k] + s[k..];
    r
  }

  /** Moving out of review to anywhere but review or completed voids the review assignment. */
  predicate LeavesReview(from: ColumnId, to: ColumnId) {
    from == Review && to != Review && to != Completed
  }

  /** Moving out of blocked to another column voids the blocker. */
  predicate LeavesBlocked(from: ColumnId, to: ColumnId) {
    from == Blocked && to != Blocked
  }

  /**
   * The moved card, one field at a time: what each field becomes for a move
   * from `from` to `to` at time `now`. Every field not listed is kept.
   */
  function MovedTask(t: Task, from: ColumnId, to: ColumnId, now: string): (m: Task)
    ensures m.id == t.id && m.title == t.title && m.description == t.description
    ensures m.dueDate == t.dueDate && m.priority == t.priority
    ensures m.assigneeId == t.assigneeId && m.assigneeIds == t.assigneeIds
    ensures m.assigneeName == t.assigneeName && m.assigneeInitial == t.assigneeInitial
    ensures m.createdByName == t.createdByName
    ensures LeavesReview(from, to) ==> m.reviewerId == None && m.reviewerName == None
    ensures !LeavesReview(from, to) ==> m.reviewerId == t.reviewerId && m.reviewerName == t.reviewerName
    ensures LeavesBlocked(from, to) ==> m.blockedByTaskId == None && m.blockedByTaskTitle == None
    ensures !LeavesBlocked(from, to) ==>
      m.blockedByTaskId == t.blockedByTaskId && m.blockedByTaskTitle == t.blockedByTaskTitle
    ensures to == Completed && Truthy(t.closedAt) ==> m.closedAt == t.closedAt
    ensures to == Completed && !Truthy(t.closedAt) ==> m.closedAt == Some(now)
    ensures from == Completed && to != Completed ==> !Truthy(m.closedAt)
    ensures from == Completed && to != Completed ==>
      m.closedAt == (if Truthy(t.closedAt) then None else t.closedAt)
    ensures from != Completed && to != Completed ==> m.closedAt == t.closedAt
  {
    var closedAt :=
      if to == Completed then (if Truthy(t.closedAt) then t.closedAt else Some(now))
      else if from == Completed && Truthy(t.closedAt) then None
      else t.closedAt;
    t.(reviewerId := if LeavesReview(from, to) then None else t.reviewerId,
       reviewerName := if LeavesReview(from, to) then None else t.reviewerName,
       closedAt := closedAt,
       blockedByTaskId := if LeavesBlocked(from, to) then None else t.blockedByTaskId,
       blockedByTaskTitle := if LeavesBlocked(from, to) then None else t.blockedByTaskTitle)
  }

  /** The list the card is inserted into: the source list after removal when the move stays in one column. */
  function TargetList(state: Board, args: MoveTaskArgs, rest: seq<Task>): seq<Task> {
    if args.fromColumn == args.toColumn then rest else state.Column(args.toColumn)
  }

  /** The board after the move (the specification of `MoveTaskInBoard`). */
  function Move(state: Board, args: MoveTaskArgs, now: string): (r: Board)
    ensures FirstIndexOf(state.Column(args.fromColumn), args.taskId) == -1 ==> r == state
    ensures forall c :: c != args.fromColumn && c != args.toColumn ==> r.Column(c) == state.Column(c)
  {
    var source := state.Column(args.fromColumn);
    var i := FirstIndexOf(source, args.taskId);
    if i == -1 then state
    else
      var rest := RemoveAt(source, i);
      var target := TargetList(state, args, rest);
      var moved := MovedTask(source[i], args.fromColumn, args.toColumn, now);
      state.WithColumn(args.fromColumn, rest)
           .WithColumn(args.toColumn, InsertAt(target, Clamp(args.toIndex, |target|), moved))
  }

  /** `moveTaskInBoard(state, args)` with the clock reading `now`. */
  method MoveTaskInBoard(state: Board, args: MoveTaskArgs, now: string) returns (r: Board)
    ensures r == Move(state, args, now)
  {
    var sourceList := state.Column(args.fromColumn);
    var fromIndex := FindTaskIndex(sourceList, args.taskId);
    if fromIndex == -1 {
      return state;
    }

    var originalTask := sourceList[fromIndex];
    sourceList := sourceList[..fromIndex] + sourceList[fromIndex + 1..];
    assert sourceList == RemoveAt(state.Column(args.fromColumn), fromIndex);

    var movedTask := originalTask;
    if args.fromColumn == Review && args.toColumn != Review && args.toColumn != Completed {
      movedTask := movedTask.(reviewerId := None, reviewerName := None);
    }
    if args.toColumn == Completed && !Truthy(movedTask.closedAt) {
      movedTask := movedTask.(closedAt := Some(now));
    }
    if args.fromColumn == Completed && args.toColumn != Completed && Truthy(movedTask.closedAt) {
      movedTask := movedTask.(closedAt := None);
    }
    if args.fromColumn == Blocked && args.toColumn != Blocked {
      movedTask := movedTask.(blockedByTaskId := None, blockedByTaskTitle := None);
    }

    var targetList := if args.fromColumn == args.toColumn then sourceList else state.Column(args.toColumn);
    var upper := if args.toIndex < |targetList| then args.toIndex else |targetList|;
    var clampedIndex := if 0 < upper then upper else 0;
    assert clampedIndex == Clamp(args.toIndex, |targetList|);
    assert movedTask == MovedTask(originalTask, args.fromColumn, args.toColumn, now);
    targetList := targetList[..clampedIndex] + [movedTask] + targetList[clampedIndex..];

    r := state.WithColumn(args.fromColumn, sourceList).WithColumn(args.toColumn, targetList);
  }

  /** A move keeps the number of cards and the multiset of their ids. */
  lemma MovePreservesIds(state: Board, args: MoveTaskArgs, now: string)
    ensures BoardIdBag(Move(state, args, now)) == BoardIdBag(state)
    ensures TotalCount(Move(state, args, now)) == TotalCount(state)
  {
    var source := state.Column(args.fromColumn);
    var i := FirstIndexOf(source, args.taskId);
    if i != -1 {
      var rest := RemoveAt(source, i);
      var target := TargetList(state, args, rest);
      var moved := MovedTask(source[i], args.fromColumn, args.toColumn, now);
      var placed := InsertAt(target, Clamp(args.toIndex, |target|), moved);
      var b1 := state.WithColumn(args.fromColumn, rest);
      var b2 := b1.WithColumn(args.toColumn, placed);
      assert b1.Column(args.toColumn) == target;
      BoardIdBagWithColumn(state, args.fromColumn, rest);
      BoardIdBagWithColumn(b1, args.toColumn, placed);
      TotalCountWithColumn(state, args.fromColumn, rest);
      TotalCountWithColumn(b1, args.toColumn, placed);
      ExchangeCancels(BoardIdBag(state), BoardIdBag(b1), BoardIdBag(b2),
                      IdBag(rest), IdBag(target), multiset{moved.id});
    }
  }

  /** Taking `e` out of one part and putting it into another leaves the whole unchanged. */
  lemma ExchangeCancels(whole: multiset<string>, mid: multiset<string>, last: multiset<string>,
                        rest: multiset<string>, target: multiset<string>, e: multiset<string>)
    requires mid + (rest + e) == whole + rest
    requires last + target == mid + (target + e)
    ensures last == whole
  {
    forall x ensures last[x] == whole[x] {
      assert (mid + (rest + e))[x] == (whole + rest)[x];
      assert (last + target)[x] == (mid + (target + e))[x];
    }
  }

  /** A board whose ids are distinct still has distinct ids after a move. */
  lemma MovePreservesDistinctIds(state: Board, args: MoveTaskArgs, now: string)
    requires DistinctIds(state)
    ensures DistinctIds(Move(state, args, now))
  {
    MovePreservesIds(state, args, now);
  }

  /**
   * Where the card lands: at the clamped index of the target list (the
   * source list after removal when the move stays in one column), with the
   * other cards of that list in their old order around it; the source column
   * loses exactly that card.
   */
  lemma MovePlacement(state: Board, args: MoveTaskArgs, now: string, i: nat)
    requires i == FirstIndexOf(state.Column(args.fromColumn), args.taskId)
    ensures var source := state.Column(args.fromColumn);
            var r := Move(state, args, now);
            var rest := RemoveAt(source, i);
            var target := if args.fromColumn == args.toColumn then rest else state.Column(args.toColumn);
            var k := Clamp(args.toIndex, |target|);
            && |r.Column(args.toColumn)| == |target| + 1
            && r.Column(args.toColumn)[k] == MovedTask(source[i], args.fromColumn, args.toColumn, now)
            && RemoveAt(r.Column(args.toColumn), k) == target
            && (args.fromColumn != args.toColumn ==> r.Column(args.fromColumn) == rest)
  {
  }

  /**
   * Moving a card to the index it already occupies in its own column gives
   * back the same board, except that a completed card without a close time
   * gets stamped.
   */
  lemma MoveInPlace(state: Board, c: ColumnId, taskId: string, i: nat, now: string)
    requires i == FirstIndexOf(state.Column(c), taskId)
    ensures var t := state.Column(c)[i];
            var r := Move(state, MoveTaskArgs(c, c, taskId, i), now);
            && (c == Completed && !Truthy(t.closedAt) ==>
                  r == state.WithColumn(c, state.Column(c)[i := t.(closedAt := Some(now))]))
            && (!(c == Completed && !Truthy(t.closedAt)) ==> r == state)
  {
    var col := state.Column(c);
    var t := col[i];
    var r := Move(state, MoveTaskArgs(c, c, taskId, i), now);
    var rest := RemoveAt(col, i);
    var m := MovedTask(t, c, c, now);
    assert Clamp(i, |rest|) == i;
    assert InsertAt(rest, i, m) == col[i := m];
    assert r.Column(c) == col[i := m];
    if c == Completed && !Truthy(t.closedAt) {
      assert m == t.(closedAt := Some(now));
      BoardEquality(r, state.WithColumn(c, col[i := t.(closedAt := Some(now))]));
    } else {
      assert m == t;
      assert col[i := t] == col;
      BoardEquality(r, state);
    }
  }

  /**
   * Re-applying a settled move is a no-op: on a board with distinct ids,
   * once a card has been moved (with a real, non-empty clock reading), moving
   * it again to the position it now occupies changes nothing.
   */
  lemma MoveAgainIsNoOp(state: Board, args: MoveTaskArgs, now: string, k: nat, later: string)
    requires DistinctIds(state)
    requires now != ""
    requires FirstIndexOf(state.Column(args.fromColumn), args.taskId) != -1
    requires var placed := Move(state, args, now).Column(args.toColumn);
             k < |placed| && placed[k].id == args.taskId
    ensures var r := Move(state, args, now);
            Move(r, MoveTaskArgs(args.toColumn, args.toColumn, args.taskId, k), later) == r
  {
    var r := Move(state, args, now);
    var source := state.Column(args.fromColumn);
    var i := FirstIndexOf(source, args.taskId);
    MovePreservesDistinctIds(state, args, now);
    MovePlacement(state, args, now, i);
    var rest := RemoveAt(source, i);
    var target := if args.fromColumn == args.toColumn then rest else state.Column(args.toColumn);
    var p := Clamp(args.toIndex, |target|);
    var placed := r.Column(args.toColumn);
    UniquePosition(r, args.toColumn, p, k);
    var f := FirstIndexOf(placed, args.taskId);
    UniquePosition(r, args.toColumn, f, k);
    MoveInPlace(r, args.toColumn, args.taskId, k, later);
  }

  /**
   * Closing, reopening and closing again: a card moved out of completed and
   * back in carries the close time of the second entry, whatever it had before.
   */
  lemma ReopenThenCompleteRestamps(t: Task, c: ColumnId, first: string, second: string)
    requires c != Completed
    ensures MovedTask(MovedTask(t, Completed, c, first), c, Completed, second).closedAt == Some(second)
  {
  }
}
