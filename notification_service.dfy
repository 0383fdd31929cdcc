/** NotificationService: the in-app inbox. Push delivery through Firebase
    (sendPush) is not part of this model. */
module NotificationService {
  import opened Wrappers
  import opened Entities
  import opened Store
  import Sets

  /** UserService, as shipped, has no findByRole method, so notifyAdmins always
      returns at its first line. */
  const UserServiceHasFindByRole: bool := false

  /** The notifications addressed to a user. */
  function InboxOf(ns: map<Id, Notification>, user: Id): set<Id> {
    set k | k in ns && ns[k].user == user
  }

  /** The unread notifications addressed to a user. */
  function UnreadOf(ns: map<Id, Notification>, user: Id): (s: set<Id>)
    ensures s <= InboxOf(ns, user)
  {
    set k | k in ns && ns[k].user == user && ns[k].status == Unread
  }

  /** The users with the admin role. */
  function Admins(users: map<Id, User>): set<Id> {
    set u | u in users && users[u].role == RoleAdmin
  }

  /** The bulk UPDATE of markAllAsRead: the user's UNREAD rows become READ. */
  function MarkedAllRead(ns: map<Id, Notification>, user: Id): map<Id, Notification> {
    map k | k in ns :: if ns[k].user == user && ns[k].status == Unread then ns[k].(status := Read) else ns[k]
  }

  /** After markAllAsRead the user has nothing unread, keeps every notification,
      and every other user's unread set is as before. */
  lemma MarkAllReadClearsOnlyThatUser(ns: map<Id, Notification>, user: Id, other: Id)
    requires other != user
    ensures UnreadOf(MarkedAllRead(ns, user), user) == {}
    ensures InboxOf(MarkedAllRead(ns, user), user) == InboxOf(ns, user)
    ensures UnreadOf(MarkedAllRead(ns, user), other) == UnreadOf(ns, other)
  {
    var m := MarkedAllRead(ns, user);
    assert forall k :: k in UnreadOf(m, user) ==> false;
    assert forall k :: k in UnreadOf(m, other) <==> k in UnreadOf(ns, other);
  }

  /** notifyUser: NotFound for an unknown user, otherwise one new UNREAD row with
      the given title and message. The caller's notification type is dropped,
      so the row gets the column default. */
  method NotifyUser(db: Database, userId: Id, title: string, message: string) returns (r: Result<Id>)
    requires db.Valid()
    modifies db`notifications, db`nextId
    ensures db.Valid()
    ensures r.Fail? <==> userId !in db.users
    ensures r.Fail? ==> r.err == NotFound && db.notifications == old(db.notifications) && db.nextId == old(db.nextId)
    ensures r.Ok? ==> r.value !in old(db.notifications) && r.value == old(db.nextId) && db.nextId == old(db.nextId) + 1
    ensures r.Ok? ==> db.notifications == old(db.notifications)[r.value := NewNotification(userId, title, message)]
    ensures r.Ok? ==> |UnreadOf(db.notifications, userId)| == |UnreadOf(old(db.notifications), userId)| + 1
  {
    if userId !in db.users {
      return Fail(NotFound);
    }
    var id := db.NewId();
    ghost var before := db.notifications;
    db.notifications := db.notifications[id := NewNotification(userId, title, message)];
    assert UnreadOf(db.notifications, userId) == UnreadOf(before, userId) + {id};
    r := Ok(id);
  }

  /** listUserNotifications: exactly the user's notifications, newest first.
      Rows are created in key order, so newest first is descending key order. */
  method ListUserNotifications(db: Database, userId: Id) returns (ids: seq<Id>, rows: seq<Notification>)
    requires db.Valid()
    ensures forall i :: 0 <= i < |ids| ==> ids[i] in db.notifications && db.notifications[ids[i]].user == userId
    ensures forall k :: k in db.notifications && db.notifications[k].user == userId ==> k in ids
    ensures forall i, j :: 0 <= i < j < |ids| ==> ids[i] > ids[j]
    ensures |rows| == |ids| && forall i :: 0 <= i < |ids| ==> rows[i] == db.notifications[ids[i]]
  {
    ids, rows := [], [];
    var k := db.nextId;
    while k > 0
      invariant k <= db.nextId
      invariant |rows| == |ids|
      invariant forall i :: 0 <= i < |ids| ==> ids[i] in db.notifications && db.notifications[ids[i]].user == userId
      invariant forall i :: 0 <= i < |ids| ==> rows[i] == db.notifications[ids[i]]
      invariant forall i :: 0 <= i < |ids| ==> ids[i] >= k
      invariant forall j :: k <= j && j in db.notifications && db.notifications[j].user == userId ==> j in ids
      invariant forall i, j :: 0 <= i < j < |ids| ==> ids[i] > ids[j]
    {
      k := k - 1;
      if k in db.notifications && db.notifications[k].user == userId {
        ids, rows := ids + [k], rows + [db.notifications[k]];
      }
    }
  }

  /** unreadCount: how many of the user's notifications are UNREAD. */
  function UnreadCount(db: Database, userId: Id): (count: nat)
    reads db
    ensures count == |UnreadOf(db.notifications, userId)|
    ensures count <= |InboxOf(db.notifications, userId)|
  {
    Sets.SubsetCardinality(UnreadOf(db.notifications, userId), InboxOf(db.notifications, userId));
    |UnreadOf(db.notifications, userId)|
  }

  /** markAsRead: NotFound unless the notification exists and belongs to the
      user; otherwise that row becomes READ. Marking a READ row is a no-op. */
  method MarkAsRead(db: Database, userId: Id, notificationId: Id) returns (r: Result<Notification>)
    requires db.Valid()
    modifies db`notifications
    ensures db.Valid()
    ensures r.Fail? <==> !(notificationId in old(db.notifications) && old(db.notifications)[notificationId].user == userId)
    ensures r.Fail? ==> r.err == NotFound && db.notifications == old(db.notifications)
    ensures r.Ok? ==> r.value == old(db.notifications)[notificationId].(status := Read)
    ensures r.Ok? ==> db.notifications == old(db.notifications)[notificationId := r.value]
    ensures r.Ok? && old(db.notifications)[notificationId].status == Read ==> db.notifications == old(db.notifications)
  {
    if notificationId in db.notifications && db.notifications[notificationId].user == userId {
      var n := db.notifications[notificationId].(status := Read);
      db.notifications := db.notifications[notificationId := n];
      r := Ok(n);
    } else {
      r := Fail(NotFound);
    }
  }

  /** markAllAsRead: every UNREAD notification of the user becomes READ and no
      other row changes. */
  method MarkAllAsRead(db: Database, userId: Id)
    requires db.Valid()
    modifies db`notifications
    ensures db.Valid()
    ensures db.notifications == MarkedAllRead(old(db.notifications), userId)
    ensures UnreadCount(db, userId) == 0
  {
    ghost var before := db.notifications;
    db.notifications := MarkedAllRead(db.notifications, userId);
    MarkAllReadClearsOnlyThatUser(before, userId, userId + 1);
  }

  /** The rows notifyAdmins has added on top of `base`: each admin in `sent`
      has one new row, keyed sent[admin], with the shared title and message;
      no other row was added and no earlier row changed. */
  ghost predicate Delivered(ns: map<Id, Notification>, base: map<Id, Notification>, sent: map<Id, Id>,
                            title: string, message: string)
  {
    && (forall a :: a in sent ==> sent[a] !in base && sent[a] in ns && ns[sent[a]] == NewNotification(a, title, message))
    && ns.Keys == base.Keys + sent.Values
    && (forall k :: k in base ==> ns[k] == base[k])
  }

  lemma DeliveredStep(ns: map<Id, Notification>, base: map<Id, Notification>, sent: map<Id, Id>,
                      title: string, message: string, a: Id, id: Id)
    requires Delivered(ns, base, sent, title, message)
    requires a !in sent && id !in ns
    ensures Delivered(ns[id := NewNotification(a, title, message)], base, sent[a := id], title, message)
  {
    var sent' := sent[a := id];
    forall v | v in sent.Values ensures v in sent'.Values {
      var b :| b in sent && sent[b] == v;
      assert sent'[b] == v;
    }
    forall v | v in sent'.Values ensures v in sent.Values || v == id {
      var k :| k in sent' && sent'[k] == v;
      if k != a {
        assert sent[k] == v;
      }
    }
    assert sent'[a] == id;
    assert sent'.Values == sent.Values + {id};
  }

  /** One admin of notifyAdmins notified: the rows delivered so far stay
      delivered and `a` gets one more. */
  method NotifyOne(db: Database, a: Id, title: string, message: string, ghost base: map<Id, Notification>,
                   ghost sent: map<Id, Id>) returns (ghost sent': map<Id, Id>)
    requires db.Valid() && a in db.users && a !in sent
    requires Delivered(db.notifications, base, sent, title, message)
    modifies db`notifications, db`nextId
    ensures db.Valid()
    ensures sent'.Keys == sent.Keys + {a}
    ensures Delivered(db.notifications, base, sent', title, message)
  {
    ghost var before := db.notifications;
    var r := NotifyUser(db, a, title, message);
    if r.Fail? {
      assert false;
    }
    DeliveredStep(before, base, sent, title, message, a, r.value);
    sent' := sent[a := r.value];
  }

  /** notifyAdmins: nothing when UserService offers no findByRole (as shipped);
      otherwise one notifyUser per admin, with the same title and message.
      `sent` maps each admin to the key of the row made for them. */
  method NotifyAdmins(db: Database, title: string, message: string, hasFindByRole: bool)
    returns (ghost sent: map<Id, Id>)
    requires db.Valid()
    modifies db`notifications, db`nextId
    ensures db.Valid()
    ensures !hasFindByRole ==> db.notifications == old(db.notifications) && sent == map[]
    ensures hasFindByRole ==> sent.Keys == Admins(db.users)
    ensures Delivered(db.notifications, old(db.notifications), sent, title, message)
  {
    sent := map[];
    if !hasFindByRole {
      return;
    }
    var pending := Admins(db.users);
    ghost var admins := pending;
    while pending != {}
      invariant db.Valid() && db.users == old(db.users)
      invariant pending <= admins
      invariant sent.Keys == admins - pending
      invariant Delivered(db.notifications, old(db.notifications), sent, title, message)
      decreases pending
    {
      var a :| a in pending;
      assert admins - (pending - {a}) == (admins - pending) + {a};
      sent := NotifyOne(db, a, title, message, old(db.notifications), sent);
      pending := pending - {a};
    }
  }
}
