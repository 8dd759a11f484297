/**
 * `NotificationsMenu`: a fixed list of notifications, the unread count on the bell
 * badge, and the buttons each item shows.
 */
module Notifications {
  import opened Wrappers

  datatype Notification = Notification(id: nat, title: string, description: string, time: string, read: bool)

  /** The constant list the menu renders. */
  const NOTIFICATIONS: seq<Notification> := [
    Notification(1, "Data sync completed", "All metrics have been updated successfully", "2 min ago", false),
    Notification(2, "New client onboarded", "TechCorp has been added to your dashboard", "1 hour ago", false),
    Notification(3, "Server maintenance", "Scheduled maintenance completed", "3 hours ago", true)
  ]

  /** `notifications.filter(n => !n.read).length`. */
  function UnreadCount(ns: seq<Notification>): (n: nat)
    ensures n <= |ns|
  {
    if |ns| == 0 then 0 else UnreadCount(ns[..|ns| - 1]) + (if ns[|ns| - 1].read then 0 else 1)
  }

  /** The count is zero exactly when every notification is read. */
  lemma {:induction false} NoneUnread(ns: seq<Notification>)
    ensures UnreadCount(ns) == 0 <==> forall i :: 0 <= i < |ns| ==> ns[i].read
  {
    if |ns| > 0 {
      var n := |ns| - 1;
      NoneUnread(ns[..n]);
      assert forall i :: 0 <= i < n ==> ns[..n][i] == ns[i];
    }
  }

  /** Counting a list in two parts gives the sum of the parts' counts. */
  lemma {:induction false} UnreadAppend(a: seq<Notification>, b: seq<Notification>)
    ensures UnreadCount(a + b) == UnreadCount(a) + UnreadCount(b)
    decreases |b|
  {
    if |b| == 0 {
      assert a + b == a;
    } else {
      var n := |b| - 1;
      assert (a + b)[..|a + b| - 1] == a + b[..n];
      UnreadAppend(a, b[..n]);
    }
  }

  /** The bell badge: `unreadCount > 0 && <span>{unreadCount}</span>`. */
  function Badge(ns: seq<Notification>): (b: Option<nat>)
    ensures b.Some? <==> exists i :: 0 <= i < |ns| && !ns[i].read
    ensures b.Some? ==> b.value == UnreadCount(ns) && b.value > 0
  {
    NoneUnread(ns);
    var count := UnreadCount(ns);
    if count > 0 then Some(count) else None
  }

  /** The buttons beside one item: a check mark only while it is unread, a dismiss cross always. */
  datatype Buttons = Buttons(check: bool, dismiss: bool)

  function ItemButtons(n: Notification): (b: Buttons)
    ensures b.check <==> !n.read
    ensures b.dismiss
  {
    Buttons(!n.read, true)
  }

  /** The fixed list has two unread items, so the badge shows 2. */
  lemma {:induction false} FixedListBadge()
    ensures UnreadCount(NOTIFICATIONS) == 2
    ensures Badge(NOTIFICATIONS) == Some(2)
  {
    assert NOTIFICATIONS[..2][..1] == NOTIFICATIONS[..1];
    assert UnreadCount(NOTIFICATIONS[..1]) == 1;
    assert UnreadCount(NOTIFICATIONS[..2]) == 2;
  }
}
