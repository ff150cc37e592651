/** Notifications of routes.py: who sees which (`notifications`), marking one
    read, deleting one, and the unread poll (`check_notifications`). Rows are
    listed newest first; the model orders them by id, which grows with
    `created_at` under a clock that never runs backwards. */
module Notify {
  import opened Wrappers
  import opened Models
  import opened Tables
  import opened Scope
  import State

  /** A global administrator sees the administrators' notifications (no
      `user_id`) and its own; anyone else only its own. */
  predicate Visible(v: SessionView, n: Notification) {
    if IsGlobal(v) then n.userId == None || n.userId == v.userId
    else n.userId == v.userId
  }

  /** Who may mark read or delete a notification: a global administrator any
      one, anyone else only its own. */
  predicate MayChange(v: SessionView, n: Notification) {
    IsGlobal(v) || n.userId == v.userId
  }

  /** A session may change every notification it sees; only a global
      administrator may change one it does not see, and a session that is not
      global sees exactly those it may change. */
  lemma VisibleMayChange(v: SessionView, n: Notification)
    ensures Visible(v, n) ==> MayChange(v, n)
    ensures !IsGlobal(v) ==> (Visible(v, n) <==> MayChange(v, n))
    ensures MayChange(v, n) && !Visible(v, n) ==> IsGlobal(v) && n.userId.Some? && n.userId != v.userId
  {
  }

  /** Listed on the page (every visible one) or in the poll (visible and unread). */
  predicate Shown(v: SessionView, n: Notification, unreadOnly: bool) {
    Visible(v, n) && (unreadOnly ==> !n.isRead)
  }

  /** The ids below `hi` of the notifications shown, newest first. */
  function Listed(db: Db, v: SessionView, unreadOnly: bool, hi: int): (r: seq<int>)
    ensures forall i :: 0 <= i < |r| ==>
              1 <= r[i] < hi && r[i] in db.notifications && Shown(v, db.notifications[r[i]], unreadOnly)
    ensures forall i, j :: 0 <= i < j < |r| ==> r[i] > r[j]
    ensures forall k :: 1 <= k < hi && k in db.notifications && Shown(v, db.notifications[k], unreadOnly) ==> k in r
    decreases hi
  {
    if hi <= 1 then []
    else
      var k := hi - 1;
      (if k in db.notifications && Shown(v, db.notifications[k], unreadOnly) then [k] else [])
      + Listed(db, v, unreadOnly, k)
  }

  /** The notifications page: every visible notification, newest first. */
  function Page(db: Db, v: SessionView): seq<int> {
    Listed(db, v, false, db.nextNotification)
  }

  /** The page lists exactly the visible notifications, each once, newest first. */
  lemma PageIsVisible(db: Db, v: SessionView)
    requires Valid(db)
    ensures var p := Page(db, v);
            && (forall k :: k in p <==> k in db.notifications && Visible(v, db.notifications[k]))
            && (forall i, j :: 0 <= i < j < |p| ==> p[i] > p[j])
  {
  }

  /** `check_notifications`: at most ten visible unread notifications, newest
      first; None when no one is signed in. */
  function Poll(db: Db, v: SessionView): (r: Option<seq<int>>)
    ensures r.None? <==> v.userId.None?
    ensures r.Some? ==> |r.value| <= 10
  {
    if v.userId.None? then None
    else
      var unread := Listed(db, v, true, db.nextNotification);
      Some(if |unread| <= 10 then unread else unread[..10])
  }

  /** The poll holds only visible unread notifications, newest first, and
      leaves one out only when ten newer ones fill it. */
  lemma PollNewestUnread(db: Db, v: SessionView)
    requires Valid(db) && v.userId.Some?
    ensures var r := Poll(db, v).value;
            && (forall i :: 0 <= i < |r| ==>
                  r[i] in db.notifications && Visible(v, db.notifications[r[i]]) && !db.notifications[r[i]].isRead)
            && (forall i, j :: 0 <= i < j < |r| ==> r[i] > r[j])
            && (forall k :: (k in db.notifications && Visible(v, db.notifications[k]) && !db.notifications[k].isRead
                             && k !in r) ==> |r| == 10 && forall i :: 0 <= i < |r| ==> r[i] > k)
  {
    var unread := Listed(db, v, true, db.nextNotification);
    var r := Poll(db, v).value;
    assert r == unread[..|r|];
    DescendingPrefix(unread, |r|);
    forall k | k in db.notifications && Visible(v, db.notifications[k]) && !db.notifications[k].isRead && k !in r
      ensures |r| == 10
    {
      assert 1 <= k < db.nextNotification;
      assert k in unread;
    }
  }

  /** A prefix of a strictly descending list is strictly descending, and every
      element it leaves out is smaller than all it keeps. */
  lemma DescendingPrefix(s: seq<int>, n: nat)
    requires n <= |s|
    requires forall i, j :: 0 <= i < j < |s| ==> s[i] > s[j]
    ensures forall i, j :: 0 <= i < j < n ==> s[..n][i] > s[..n][j]
    ensures forall k :: k in s && k !in s[..n] ==> forall i :: 0 <= i < n ==> s[..n][i] > k
  {
    forall k | k in s && k !in s[..n]
      ensures forall i :: 0 <= i < n ==> s[..n][i] > k
    {
      var j :| 0 <= j < |s| && s[j] == k;
      assert j >= n;
    }
  }

  /** `mark_notification_read`: 404 for a missing id, 403 for someone else's
      notification unless global; otherwise it is marked read. */
  function MarkReadStep(db: Db, v: SessionView, id: int): (s: Step)
    ensures s.outcome != Ok ==> s.db == db
    ensures s.db == db.(notifications := s.db.notifications)
    ensures s.db.notifications.Keys == db.notifications.Keys
  {
    if id !in db.notifications then Step(NotFound, db)
    else if !MayChange(v, db.notifications[id]) then Step(PermissionDenied, db)
    else Step(Ok, db.(notifications := db.notifications[id := db.notifications[id].(isRead := true)]))
  }

  /** Marking read succeeds exactly for a notification the session may change;
      it then drops out of every session's poll, no other row changes, and
      marking it again changes nothing more. */
  lemma MarkReadEffect(db: Db, v: SessionView, id: int, w: SessionView)
    requires Valid(db)
    ensures var s := MarkReadStep(db, v, id);
            && (s.outcome == Ok <==> id in db.notifications && MayChange(v, db.notifications[id]))
            && (s.outcome == NotFound <==> id !in db.notifications)
            && (s.outcome != Ok ==> s.db == db)
            && (s.outcome == Ok ==> Poll(s.db, w).None? || id !in Poll(s.db, w).value)
            && (s.outcome == Ok ==> MarkReadStep(s.db, v, id) == s)
            && s.db == db.(notifications := s.db.notifications)
            && s.db.notifications.Keys == db.notifications.Keys
            && (forall k :: k in db.notifications && k != id ==> s.db.notifications[k] == db.notifications[k])
  {
  }

  /** `delete_notification`: 404 for a missing id, 403 for someone else's
      notification unless global; otherwise it is removed. */
  function DeleteNotificationStep(db: Db, v: SessionView, id: int): (s: Step)
    ensures s.outcome != Ok ==> s.db == db
    ensures s.db == db.(notifications := s.db.notifications)
    ensures s.db.notifications.Keys <= db.notifications.Keys
  {
    if id !in db.notifications then Step(NotFound, db)
    else if !MayChange(v, db.notifications[id]) then Step(PermissionDenied, db)
    else Step(Ok, db.(notifications := db.notifications - {id}))
  }

  /** Deleting succeeds exactly for a notification the session may change; only
      that notification goes. */
  lemma DeleteNotificationEffect(db: Db, v: SessionView, id: int)
    ensures var s := DeleteNotificationStep(db, v, id);
            && (s.outcome == Ok <==> id in db.notifications && MayChange(v, db.notifications[id]))
            && (s.outcome == NotFound <==> id !in db.notifications)
            && (s.outcome == PermissionDenied <==>
                  id in db.notifications && !IsGlobal(v) && db.notifications[id].userId != v.userId)
            && (s.outcome != Ok ==> s.db == db)
            && (s.outcome == Ok ==> id !in s.db.notifications)
            && s.db == db.(notifications := s.db.notifications)
            && (forall k :: k in db.notifications && k != id ==> k in s.db.notifications && s.db.notifications[k] == db.notifications[k])
  {
  }

  // ---------------------------------------------------------------- handlers

  /** The notifications page of the session. */
  method ShowNotifications(store: State.Store, session: State.Session) returns (ids: seq<int>)
    requires store.Valid()
    ensures forall k :: k in ids <==> k in store.notifications && Visible(session.View(), store.notifications[k])
    ensures forall i, j :: 0 <= i < j < |ids| ==> ids[i] > ids[j]
  {
    ids := Page(store.Snapshot(), session.View());
    PageIsVisible(store.Snapshot(), session.View());
  }

  method MarkNotificationRead(store: State.Store, session: State.Session, id: int) returns (outcome: Outcome)
    requires store.Valid()
    modifies store
    ensures store.Valid()
    ensures Step(outcome, store.Snapshot()) == MarkReadStep(old(store.Snapshot()), session.View(), id)
  {
    if id !in store.notifications {
      return NotFound;
    }
    var n := store.notifications[id];
    if !IsGlobal(session.View()) && n.userId != session.userId {
      return PermissionDenied;
    }
    store.notifications := store.notifications[id := n.(isRead := true)];
    outcome := Ok;
  }

  method DeleteNotification(store: State.Store, session: State.Session, id: int) returns (outcome: Outcome)
    requires store.Valid()
    modifies store
    ensures store.Valid()
    ensures Step(outcome, store.Snapshot()) == DeleteNotificationStep(old(store.Snapshot()), session.View(), id)
  {
    if id !in store.notifications {
      return NotFound;
    }
    if !IsGlobal(session.View()) && store.notifications[id].userId != session.userId {
      return PermissionDenied;
    }
    store.notifications := store.notifications - {id};
    outcome := Ok;
  }

  /** `check_notifications`: 401 without a user id, else the poll. */
  method CheckNotifications(store: State.Store, session: State.Session) returns (outcome: Outcome, ids: seq<int>)
    requires store.Valid()
    ensures outcome == Ok <==> session.userId.Some?
    ensures outcome != Ok ==> outcome == Unauthenticated && ids == []
    ensures outcome == Ok ==> Some(ids) == Poll(store.Snapshot(), session.View())
  {
    var r := Poll(store.Snapshot(), session.View());
    if r.None? {
      return Unauthenticated, [];
    }
    return Ok, r.value;
  }
}
