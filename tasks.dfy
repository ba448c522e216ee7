/**
 * The task-card data model of the board: the six columns, a task card with
 * its optional relational fields (assignees, reviewer, blocker, close time),
 * and the board as one ordered list of cards per column.
 */
module Tasks {
  import opened Wrappers

  /** A board lane. */
  datatype ColumnId = Todo | InProgress | Review | Blocked | Rejected | Completed

  /** The string the client stores for a column. */
  function ColumnKey(c: ColumnId): (key: string)
    ensures ParseColumn(key) == Some(c)
  {
    match c
    case Todo => "todo"
    case InProgress => "in_progress"
    case Review => "review"
    case Blocked => "blocked"
    case Rejected => "rejected"
    case Completed => "completed"
  }

  /** The column a stored string names, if any. */
  function ParseColumn(key: string): Option<ColumnId> {
    if key == "todo" then Some(Todo)
    else if key == "in_progress" then Some(InProgress)
    else if key == "review" then Some(Review)
    else if key == "blocked" then Some(Blocked)
    else if key == "rejected" then Some(Rejected)
    else if key == "completed" then Some(Completed)
    else None
  }

  datatype Priority = Low | Medium | High

  /** A task card; every optional property of the card is an `Option`. */
  datatype Task = Task(
    id: string,
    title: string,
    description: Option<string>,
    dueDate: Option<string>,
    assigneeInitial: Option<string>,
    assigneeId: Option<string>,
    assigneeIds: Option<seq<string>>,
    priority: Option<Priority>,
    createdByName: Option<string>,
    assigneeName: Option<string>,
    closedAt: Option<string>,
    reviewerId: Option<string>,
    reviewerName: Option<string>,
    blockedByTaskId: Option<string>,
    blockedByTaskTitle: Option<string>)

  /** The board: a total map from column to its ordered list of cards. */
  datatype Board = Board(
    todo: seq<Task>,
    inProgress: seq<Task>,
    review: seq<Task>,
    blocked: seq<Task>,
    rejected: seq<Task>,
    completed: seq<Task>)
  {
    /** `state[column]`. */
    function Column(c: ColumnId): seq<Task> {
      match c
      case Todo => todo
      case InProgress => inProgress
      case Review => review
      case Blocked => blocked
      case Rejected => rejected
      case Completed => completed
    }

    /** `{ ...state, [c]: list }`. */
    function WithColumn(c: ColumnId, list: seq<Task>): (b: Board)
      ensures b.Column(c) == list
      ensures forall d :: d != c ==> b.Column(d) == Column(d)
    {
      match c
      case Todo => this.(todo := list)
      case InProgress => this.(inProgress := list)
      case Review => this.(review := list)
      case Blocked => this.(blocked := list)
      case Rejected => this.(rejected := list)
      case Completed => this.(completed := list)
    }
  }

  /** Boards with the same columns are the same board. */
  lemma BoardEquality(a: Board, b: Board)
    requires forall c :: a.Column(c) == b.Column(c)
    ensures a == b
  {
    assert a.todo == b.todo by { assert a.Column(Todo) == b.Column(Todo); }
    assert a.inProgress == b.inProgress by { assert a.Column(InProgress) == b.Column(InProgress); }
    assert a.review == b.review by { assert a.Column(Review) == b.Column(Review); }
    assert a.blocked == b.blocked by { assert a.Column(Blocked) == b.Column(Blocked); }
    assert a.rejected == b.rejected by { assert a.Column(Rejected) == b.Column(Rejected); }
    assert a.completed == b.completed by { assert a.Column(Completed) == b.Column(Completed); }
  }

  /** Number of cards on the board. */
  function TotalCount(b: Board): nat {
    |b.todo| + |b.inProgress| + |b.review| + |b.blocked| + |b.rejected| + |b.completed|
  }

  /** The multiset of ids of a list of cards. */
  function IdBag(s: seq<Task>): (m: multiset<string>)
    ensures |m| == |s|
  {
    if s == [] then multiset{} else multiset{s[0].id} + IdBag(s[1..])
  }

  /** The multiset of ids of every card on the board. */
  function BoardIdBag(b: Board): multiset<string> {
    IdBag(b.todo) + IdBag(b.inProgress) + IdBag(b.review)
      + IdBag(b.blocked) + IdBag(b.rejected) + IdBag(b.completed)
  }

  /** No id occurs twice anywhere on the board. */
  predicate DistinctIds(b: Board) {
    forall id | id in BoardIdBag(b) :: BoardIdBag(b)[id] <= 1
  }

  lemma {:induction false} IdBagAppend(s: seq<Task>, t: seq<Task>)
    ensures IdBag(s + t) == IdBag(s) + IdBag(t)
  {
    if s != [] {
      assert (s + t)[1..] == s[1..] + t;
      IdBagAppend(s[1..], t);
    } else {
      assert s + t == t;
    }
  }

  /** A card at position `j` puts its id in the bag. */
  lemma {:induction false} IdBagHas(s: seq<Task>, j: nat)
    requires j < |s|
    ensures IdBag(s)[s[j].id] >= 1
  {
    if j > 0 {
      IdBagHas(s[1..], j - 1);
    }
  }

  /** Two cards with the same id put it in the bag twice. */
  lemma {:induction false} IdBagTwice(s: seq<Task>, j: nat, k: nat)
    requires j < k < |s| && s[j].id == s[k].id
    ensures IdBag(s)[s[j].id] >= 2
  {
    if j == 0 {
      IdBagHas(s[1..], k - 1);
    } else {
      IdBagTwice(s[1..], j - 1, k - 1);
    }
  }

  /** Swapping one term of a six-term bag sum for `l`. */
  lemma SwapInSum(t: multiset<string>, p: multiset<string>, r: multiset<string>, k: multiset<string>,
                  j: multiset<string>, d: multiset<string>, l: multiset<string>)
    ensures (l + p + r + k + j + d) + t == (t + p + r + k + j + d) + l
    ensures (t + l + r + k + j + d) + p == (t + p + r + k + j + d) + l
    ensures (t + p + l + k + j + d) + r == (t + p + r + k + j + d) + l
    ensures (t + p + r + l + j + d) + k == (t + p + r + k + j + d) + l
    ensures (t + p + r + k + l + d) + j == (t + p + r + k + j + d) + l
    ensures (t + p + r + k + j + l) + d == (t + p + r + k + j + d) + l
  {
  }

  /** Replacing one column changes the board's bag by that column's bag. */
  lemma BoardIdBagWithColumn(b: Board, c: ColumnId, list: seq<Task>)
    ensures BoardIdBag(b.WithColumn(c, list)) + IdBag(b.Column(c)) == BoardIdBag(b) + IdBag(list)
  {
    var t, p, r, k, j, d := IdBag(b.todo), IdBag(b.inProgress), IdBag(b.review),
      IdBag(b.blocked), IdBag(b.rejected), IdBag(b.completed);
    var l := IdBag(list);
    assert BoardIdBag(b) == t + p + r + k + j + d;
    SwapInSum(t, p, r, k, j, d, l);
    match c
    case Todo =>
      assert b.WithColumn(c, list) == b.(todo := list);
      assert BoardIdBag(b.(todo := list)) == l + p + r + k + j + d;
    case InProgress =>
      assert b.WithColumn(c, list) == b.(inProgress := list);
      assert BoardIdBag(b.(inProgress := list)) == t + l + r + k + j + d;
    case Review =>
      assert b.WithColumn(c, list) == b.(review := list);
      assert BoardIdBag(b.(review := list)) == t + p + l + k + j + d;
    case Blocked =>
      assert b.WithColumn(c, list) == b.(blocked := list);
      assert BoardIdBag(b.(blocked := list)) == t + p + r + l + j + d;
    case Rejected =>
      assert b.WithColumn(c, list) == b.(rejected := list);
      assert BoardIdBag(b.(rejected := list)) == t + p + r + k + l + d;
    case Completed =>
      assert b.WithColumn(c, list) == b.(completed := list);
      assert BoardIdBag(b.(completed := list)) == t + p + r + k + j + l;
  }

  /** Replacing one column changes the card count by the difference in length. */
  lemma TotalCountWithColumn(b: Board, c: ColumnId, list: seq<Task>)
    ensures TotalCount(b.WithColumn(c, list)) + |b.Column(c)| == TotalCount(b) + |list|
  {
  }

  /** On a board with distinct ids, an id occupies at most one position of a column. */
  lemma UniquePosition(b: Board, c: ColumnId, j: nat, k: nat)
    requires DistinctIds(b)
    requires j < |b.Column(c)| && k < |b.Column(c)|
    requires b.Column(c)[j].id == b.Column(c)[k].id
    ensures j == k
  {
    var s := b.Column(c);
    if j != k {
      if j < k { IdBagTwice(s, j, k); } else { IdBagTwice(s, k, j); }
      ColumnIdBagIncluded(b, c);
    }
  }

  /** A column's ids are among the board's. */
  lemma ColumnIdBagIncluded(b: Board, c: ColumnId)
    ensures IdBag(b.Column(c)) <= BoardIdBag(b)
  {
  }
}
