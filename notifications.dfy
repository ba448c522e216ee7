/**
 * The notification record and its factory `createNotification`. The clock
 * (`Date.now()` and the ISO timestamp) and `Math.random()` are inputs: the
 * millisecond reading `clock`, the text of the random number `random`, and
 * the ISO string `timestamp`.
 */
module Notifications {
  import opened Wrappers
  import opened Text
  import opened Tasks

  datatype Notification = Notification(
    id: string,
    userName: string,
    userInitial: string,
    taskTitle: string,
    fromStatus: ColumnId,
    toStatus: ColumnId,
    timestamp: string,
    read: bool,
    reviewerName: Option<string>,
    isApproval: Option<bool>)

  const IdPrefix: string := "notification-"

  /** `notification-${clock}-${random}`. */
  function NotificationId(clock: nat, random: string): (id: string)
    ensures |id| > |IdPrefix| && id[..|IdPrefix|] == IdPrefix
  {
    IdPrefix + Decimal(clock) + "-" + random
  }

  /** Distinct (clock, random) readings give distinct ids. */
  lemma NotificationIdInjective(c1: nat, r1: string, c2: nat, r2: string)
    requires NotificationId(c1, r1) == NotificationId(c2, r2)
    ensures c1 == c2 && r1 == r2
  {
    var d1, d2 := Decimal(c1), Decimal(c2);
    var s := NotificationId(c1, r1);
    var p := |IdPrefix|;
    var x := s[p..];
    assert s == IdPrefix + (d1 + "-" + r1) && x == d1 + "-" + r1;
    assert s == IdPrefix + (d2 + "-" + r2) && x == d2 + "-" + r2;
    FirstDashEndsNumber(d1, r1);
    FirstDashEndsNumber(d2, r2);
    assert |d1| == |d2|;
    assert d1 == x[..|d1|] == d2;
    DecimalInjective(c1, c2);
    assert r1 == x[|d1| + 1..] == r2;
  }

  /** In `digits + "-" + rest`, the first dash is the one right after the digits. */
  lemma FirstDashEndsNumber(digits: string, rest: string)
    requires forall i :: 0 <= i < |digits| ==> '0' <= digits[i] <= '9'
    ensures (digits + "-" + rest)[|digits|] == '-'
    ensures forall i :: 0 <= i < |digits| ==> (digits + "-" + rest)[i] != '-'
  {
  }

  /** `createNotification(userName, taskTitle, fromStatus, toStatus, reviewerName)`. */
  function CreateNotification(
    userName: string, taskTitle: string, fromStatus: ColumnId, toStatus: ColumnId,
    reviewerName: Option<string>, clock: nat, random: string, timestamp: string): (n: Notification)
    ensures n.id == NotificationId(clock, random) && n.timestamp == timestamp
    ensures n.userName == userName && n.taskTitle == taskTitle
    ensures n.fromStatus == fromStatus && n.toStatus == toStatus
    ensures |n.userInitial| <= 1 && (n.userInitial == "" <==> IsBlank(userName))
    ensures !IsBlank(userName) ==> n.userInitial == [UpperChar(userName[|userName| - |TrimStart(userName)|])]
    ensures !n.read
    ensures n.reviewerName == reviewerName
    ensures n.isApproval == None
  {
    Notification(
      NotificationId(clock, random), userName, InitialOf(userName), taskTitle,
      fromStatus, toStatus, timestamp, false, reviewerName, None)
  }

  /** The badge count of the dropdown: how many notifications are unread. */
  function UnreadCount(ns: seq<Notification>): (k: nat)
    ensures k <= |ns|
    ensures k == 0 <==> forall i :: 0 <= i < |ns| ==> ns[i].read
    ensures k == |ns| <==> forall i :: 0 <= i < |ns| ==> !ns[i].read
  {
    if ns == [] then 0 else (if ns[0].read then 0 else 1) + UnreadCount(ns[1..])
  }

  /** Unread counts add up over a split list. */
  lemma {:induction false} UnreadCountAppend(a: seq<Notification>, b: seq<Notification>)
    ensures UnreadCount(a + b) == UnreadCount(a) + UnreadCount(b)
  {
    if a == [] {
      assert a + b == b;
    } else {
      assert (a + b)[1..] == a[1..] + b;
      UnreadCountAppend(a[1..], b);
    }
  }

  /** A freshly created notification raises the unread count by one, wherever it is added. */
  lemma FreshNotificationIsUnread(
    before: seq<Notification>, after: seq<Notification>,
    userName: string, taskTitle: string, fromStatus: ColumnId, toStatus: ColumnId,
    reviewerName: Option<string>, clock: nat, random: string, timestamp: string)
    ensures var n := CreateNotification(userName, taskTitle, fromStatus, toStatus, reviewerName, clock, random, timestamp);
            UnreadCount(before + [n] + after) == UnreadCount(before + after) + 1
  {
    var n := CreateNotification(userName, taskTitle, fromStatus, toStatus, reviewerName, clock, random, timestamp);
    UnreadCountAppend(before + [n], after);
    UnreadCountAppend(before, [n]);
    UnreadCountAppend(before, after);
  }
}
