/**
 * The host's notification bell (src/components/NotificationCenter.tsx): the notifications
 * derived from the host's pending check-ins, the Approve/Deny shortcuts, "Mark read",
 * "Mark all as read" and the unread counter kept beside the list. The bell is only rendered
 * for a signed-in host, so the host is a `User`.
 */
module NotificationCenter {
  import opened Wrappers
  import opened Text
  import opened Seqs
  import opened DataModel
  import opened DataMutations
  import opened DataViews
  import opened DataContext

  datatype NotificationKind = VisitorRequest | SystemAlert

  /** Every notification the bell creates names its visitor and check-in, so both are plain strings here. */
  datatype Notification = Notification(
    id: string,
    kind: NotificationKind,
    title: string,
    message: string,
    timestamp: int,
    read: bool,
    actionable: bool,
    visitorId: string,
    checkInId: string)

  /** The pending check-ins addressed to this host, in the queue's order (oldest first). */
  function HostPending(vs: seq<Visitor>, host: User): (r: seq<Entry>)
    ensures forall k :: 0 <= k < |r| ==> r[k].checkIn.hostId == host.id && r[k] in PendingApprovals(vs)
  {
    Filter(PendingApprovals(vs), (e: Entry) => e.checkIn.hostId == host.id)
  }

  /** An entry is in the host's queue exactly when it is pending and addressed to this host. */
  lemma HostPendingMembers(vs: seq<Visitor>, host: User, e: Entry)
    ensures e in HostPending(vs, host) <==> e in PendingApprovals(vs) && e.checkIn.hostId == host.id
  {
    FilterMembers(PendingApprovals(vs), (e: Entry) => e.checkIn.hostId == host.id);
  }

  /** A visit request: one per pending check-in, stamped with the arrival time. */
  function RequestFor(e: Entry): (n: Notification)
    ensures n.id == "pending_" + e.checkIn.id && n.kind == VisitorRequest && !n.read && n.actionable
    ensures n.visitorId == e.visitor.id && n.checkInId == e.checkIn.id && n.timestamp == e.checkIn.checkInTime
  {
    Notification("pending_" + e.checkIn.id, VisitorRequest, "New Visitor Request",
                 e.visitor.name + " from " + OrElse(e.visitor.company, "Unknown Company") + " is requesting to visit you.",
                 e.checkIn.checkInTime, false, true, e.visitor.id, e.checkIn.id)
  }

  /** The wait is more than 15 minutes (the fractional-minute comparison, on milliseconds). */
  predicate LongWaiting(e: Entry, now: int) {
    now - e.checkIn.checkInTime > 15 * MsPerMinute
  }

  /** `Math.floor` of the elapsed minutes (Dafny's division floors for a positive divisor). */
  function WaitedMinutes(e: Entry, now: int): int {
    (now - e.checkIn.checkInTime) / MsPerMinute
  }

  /** The minute count is the whole minutes elapsed, rounded down, so an alert never reports fewer than 15. */
  lemma WaitedMinutesIsFloor(e: Entry, now: int)
    ensures WaitedMinutes(e, now) * MsPerMinute <= now - e.checkIn.checkInTime < (WaitedMinutes(e, now) + 1) * MsPerMinute
    ensures LongWaiting(e, now) ==> WaitedMinutes(e, now) >= 15
  {
  }

  /** The urgent alert for a long wait, stamped with the time of derivation. */
  function AlertFor(e: Entry, now: int): (n: Notification)
    ensures n.id == "urgent_" + e.checkIn.id && n.kind == SystemAlert && !n.read && n.actionable
    ensures n.visitorId == e.visitor.id && n.checkInId == e.checkIn.id && n.timestamp == now
  {
    Notification("urgent_" + e.checkIn.id, SystemAlert, "Urgent: Visitor Waiting",
                 e.visitor.name + " has been waiting for " + IntText(WaitedMinutes(e, now)) + " minutes for your approval.",
                 now, false, true, e.visitor.id, e.checkIn.id)
  }

  /** The waits of the host's queue that are long. */
  function LongWaits(hp: seq<Entry>, now: int): (r: seq<Entry>)
    ensures |r| <= |hp|
    ensures forall k :: 0 <= k < |r| ==> LongWaiting(r[k], now) && r[k] in hp
    ensures forall k :: 0 <= k < |hp| && LongWaiting(hp[k], now) ==> hp[k] in r
  {
    var p := (e: Entry) => LongWaiting(e, now);
    var r := Filter(hp, p);
    assert forall k :: 0 <= k < |r| ==> p(r[k]);
    r
  }

  /** The notification names a pending check-in of one of the visitors, addressed to this host. */
  predicate RefersToPending(n: Notification, vs: seq<Visitor>, host: User) {
    exists v, c :: v in vs && c in v.checkIns && v.id == n.visitorId && c.id == n.checkInId
                   && c.status == Pending && c.hostId == host.id
  }

  /** Position `k` of the list made from the queue `hp` and its long waits `lw`. */
  function NotificationFor(hp: seq<Entry>, lw: seq<Entry>, now: int, k: nat): Notification
    requires k < |hp| + |lw|
  {
    if k < |hp| then RequestFor(hp[k]) else AlertFor(lw[k - |hp|], now)
  }

  /** The list made from a queue: its requests, then the alerts for its long waits. */
  function Notifications(hp: seq<Entry>, now: int): (r: seq<Notification>)
    ensures |r| == |hp| + |LongWaits(hp, now)|
    ensures forall k :: 0 <= k < |r| ==> r[k] == NotificationFor(hp, LongWaits(hp, now), now, k)
  {
    var lw := LongWaits(hp, now);
    seq(|hp| + |lw|, k requires 0 <= k < |hp| + |lw| => NotificationFor(hp, lw, now, k))
  }

  /** Position `k` of the list: the request of the `k`-th queued entry, or an alert after the requests. */
  lemma NotificationAt(hp: seq<Entry>, now: int, k: nat)
    requires k < |Notifications(hp, now)|
    ensures k < |hp| ==> Notifications(hp, now)[k] == RequestFor(hp[k])
    ensures k >= |hp| ==> Notifications(hp, now)[k] == AlertFor(LongWaits(hp, now)[k - |hp|], now)
  {
    assert Notifications(hp, now)[k] == NotificationFor(hp, LongWaits(hp, now), now, k);
  }

  /** Every position of the list was made from an entry of the queue. */
  lemma SourceOf(hp: seq<Entry>, now: int, k: nat) returns (e: Entry)
    requires k < |Notifications(hp, now)|
    ensures e in hp
    ensures Notifications(hp, now)[k] == RequestFor(e) || Notifications(hp, now)[k] == AlertFor(e, now)
  {
    NotificationAt(hp, now, k);
    if k < |hp| {
      e := hp[k];
    } else {
      e := LongWaits(hp, now)[k - |hp|];
    }
  }

  /** The requests come first, all unread, and the alerts after them carry the time of derivation. */
  lemma NotificationsShape(hp: seq<Entry>, now: int)
    ensures forall k :: 0 <= k < |hp| ==>
              Notifications(hp, now)[k].kind == VisitorRequest && Notifications(hp, now)[k].id == "pending_" + hp[k].checkIn.id
    ensures forall k :: |hp| <= k < |Notifications(hp, now)| ==>
              Notifications(hp, now)[k].kind == SystemAlert && Notifications(hp, now)[k].timestamp == now
    ensures forall k :: 0 <= k < |Notifications(hp, now)| ==> !Notifications(hp, now)[k].read && Notifications(hp, now)[k].actionable
  {
    forall k | 0 <= k < |Notifications(hp, now)| ensures
      (k < |hp| ==> Notifications(hp, now)[k].kind == VisitorRequest && Notifications(hp, now)[k].id == "pending_" + hp[k].checkIn.id)
      && (k >= |hp| ==> Notifications(hp, now)[k].kind == SystemAlert && Notifications(hp, now)[k].timestamp == now)
      && !Notifications(hp, now)[k].read && Notifications(hp, now)[k].actionable
    {
      NotificationAt(hp, now, k);
    }
  }

  /**
   * The effect that rebuilds the list: one request per pending check-in of this host, followed
   * by one alert per such check-in waiting more than 15 minutes; all of them unread.
   */
  function Derive(vs: seq<Visitor>, host: User, now: int): (r: seq<Notification>)
    ensures |r| == |HostPending(vs, host)| + |LongWaits(HostPending(vs, host), now)|
    ensures forall k :: 0 <= k < |HostPending(vs, host)| ==>
              r[k].kind == VisitorRequest && r[k].id == "pending_" + HostPending(vs, host)[k].checkIn.id
    ensures forall k :: |HostPending(vs, host)| <= k < |r| ==>
              r[k].kind == SystemAlert && r[k].timestamp == now
    ensures forall k :: 0 <= k < |r| ==> !r[k].read && r[k].actionable
  {
    NotificationsShape(HostPending(vs, host), now);
    Notifications(HostPending(vs, host), now)
  }

  /** A notification made from an entry of the host's queue points at that entry's pending check-in. */
  lemma QueueEntryRefersToPending(vs: seq<Visitor>, host: User, e: Entry, now: int)
    requires e in HostPending(vs, host)
    ensures RefersToPending(RequestFor(e), vs, host) && RefersToPending(AlertFor(e, now), vs, host)
  {
    var pa := PendingApprovals(vs);
    HostPendingMembers(vs, host, e);
    ListingMembers(vs, Some(Pending), true);
    var a :| 0 <= a < |pa| && pa[a] == e;
    assert Selected(pa[a].checkIn, Some(Pending)) && pa[a].visitor in vs && pa[a].checkIn in pa[a].visitor.checkIns;
  }

  /** One derived notification points at a pending check-in of this host. */
  lemma DerivedRefersToPendingAt(vs: seq<Visitor>, host: User, now: int, k: nat)
    requires k < |Derive(vs, host, now)|
    ensures RefersToPending(Derive(vs, host, now)[k], vs, host)
  {
    var e := SourceOf(HostPending(vs, host), now, k);
    QueueEntryRefersToPending(vs, host, e, now);
  }

  /** Every derived notification points at a pending check-in of this host. */
  lemma DerivedRefersToPending(vs: seq<Visitor>, host: User, now: int)
    ensures forall n :: n in Derive(vs, host, now) ==> RefersToPending(n, vs, host)
  {
    forall n | n in Derive(vs, host, now) ensures RefersToPending(n, vs, host) {
      var k :| 0 <= k < |Derive(vs, host, now)| && Derive(vs, host, now)[k] == n;
      DerivedRefersToPendingAt(vs, host, now, k);
    }
  }

  /** A queued entry's request is in the list made from the queue. */
  lemma RequestListed(hp: seq<Entry>, now: int, e: Entry)
    requires e in hp
    ensures RequestFor(e) in Notifications(hp, now)
  {
    var b :| 0 <= b < |hp| && hp[b] == e;
    NotificationAt(hp, now, b);
  }

  /** A queued entry that has waited long has its alert in the list made from the queue. */
  lemma AlertListed(hp: seq<Entry>, now: int, e: Entry)
    requires e in hp && LongWaiting(e, now)
    ensures AlertFor(e, now) in Notifications(hp, now)
  {
    var lw := LongWaits(hp, now);
    var b :| 0 <= b < |hp| && hp[b] == e;
    assert e in lw;
    var c :| 0 <= c < |lw| && lw[c] == e;
    NotificationAt(hp, now, |hp| + c);
  }

  /** Every pending check-in of this host has its request, and a long wait also its alert. */
  lemma DerivedCoversPending(vs: seq<Visitor>, host: User, now: int, i: nat, j: nat)
    requires i < |vs| && j < |vs[i].checkIns|
    requires vs[i].checkIns[j].status == Pending && vs[i].checkIns[j].hostId == host.id
    ensures RequestFor(Entry(vs[i], vs[i].checkIns[j])) in Derive(vs, host, now)
    ensures LongWaiting(Entry(vs[i], vs[i].checkIns[j]), now) ==>
              AlertFor(Entry(vs[i], vs[i].checkIns[j]), now) in Derive(vs, host, now)
  {
    var e := Entry(vs[i], vs[i].checkIns[j]);
    PendingApprovalsExact(vs);
    HostPendingMembers(vs, host, e);
    RequestListed(HostPending(vs, host), now, e);
    if LongWaiting(e, now) {
      AlertListed(HostPending(vs, host), now, e);
    }
  }

  /** The number of unread notifications (`notifications.filter(n => !n.read).length`). */
  function UnreadCount(ns: seq<Notification>): (c: nat)
    ensures c <= |ns|
  {
    if ns == [] then 0 else (if ns[0].read then 0 else 1) + UnreadCount(ns[1..])
  }

  /** A list with no read notification has as many unread as entries. */
  lemma {:induction false} AllUnreadCount(ns: seq<Notification>)
    requires forall k :: 0 <= k < |ns| ==> !ns[k].read
    ensures UnreadCount(ns) == |ns|
  {
    if ns != [] {
      AllUnreadCount(ns[1..]);
    }
  }

  /** A list that is all read has no unread notification. */
  lemma {:induction false} AllReadCount(ns: seq<Notification>)
    requires forall k :: 0 <= k < |ns| ==> ns[k].read
    ensures UnreadCount(ns) == 0
  {
    if ns != [] {
      AllReadCount(ns[1..]);
    }
  }

  /** `ms` marks as read what `ns` does, and possibly more. */
  predicate ReadsAtLeast(ms: seq<Notification>, ns: seq<Notification>) {
    |ms| == |ns| && forall k :: 0 <= k < |ns| && ns[k].read ==> ms[k].read
  }

  /** Marking more notifications read never raises the unread count; marking an unread one lowers it. */
  lemma {:induction false} MarkingLowersUnread(ms: seq<Notification>, ns: seq<Notification>)
    requires ReadsAtLeast(ms, ns)
    ensures UnreadCount(ms) <= UnreadCount(ns)
    ensures (exists k :: 0 <= k < |ns| && !ns[k].read && ms[k].read) ==> UnreadCount(ms) < UnreadCount(ns)
  {
    if ns != [] {
      assert ReadsAtLeast(ms[1..], ns[1..]);
      MarkingLowersUnread(ms[1..], ns[1..]);
      if exists k :: 0 <= k < |ns| && !ns[k].read && ms[k].read {
        var k :| 0 <= k < |ns| && !ns[k].read && ms[k].read;
        if k > 0 {
          assert !ns[1..][k - 1].read && ms[1..][k - 1].read;
        }
      }
    }
  }

  /** The list after Approve or Deny: every notification about that visit is read and no longer actionable. */
  function MarkHandled(ns: seq<Notification>, visitorId: string, checkInId: string): (r: seq<Notification>)
    ensures ReadsAtLeast(r, ns)
    ensures forall k :: 0 <= k < |ns| && ns[k].visitorId == visitorId && ns[k].checkInId == checkInId ==>
              r[k] == ns[k].(read := true, actionable := false)
    ensures forall k :: 0 <= k < |ns| && !(ns[k].visitorId == visitorId && ns[k].checkInId == checkInId) ==>
              r[k] == ns[k]
  {
    seq(|ns|, k requires 0 <= k < |ns| =>
      if ns[k].visitorId == visitorId && ns[k].checkInId == checkInId
      then ns[k].(read := true, actionable := false)
      else ns[k])
  }

  /** The list after "Mark read": every notification with that id is read, nothing else changes. */
  function MarkId(ns: seq<Notification>, id: string): (r: seq<Notification>)
    ensures ReadsAtLeast(r, ns)
    ensures forall k :: 0 <= k < |ns| && ns[k].id == id ==> r[k] == ns[k].(read := true)
    ensures forall k :: 0 <= k < |ns| && ns[k].id != id ==> r[k] == ns[k]
  {
    seq(|ns|, k requires 0 <= k < |ns| => if ns[k].id == id then ns[k].(read := true) else ns[k])
  }

  /** The list after "Mark all as read". */
  function MarkAll(ns: seq<Notification>): (r: seq<Notification>)
    ensures ReadsAtLeast(r, ns)
    ensures forall k :: 0 <= k < |ns| ==> r[k] == ns[k].(read := true)
  {
    seq(|ns|, k requires 0 <= k < |ns| => ns[k].(read := true))
  }

  /** `Math.max(0, prev - 1)`. */
  function Decremented(c: int): (r: int)
    ensures r >= 0 && (c > 0 ==> r == c - 1) && (c <= 0 ==> r == 0)
  {
    if c - 1 > 0 then c - 1 else 0
  }

  /** There is an unread notification with this id: exactly when the "Mark read" button for it is shown. */
  predicate ShowsMarkRead(ns: seq<Notification>, id: string) {
    exists k :: 0 <= k < |ns| && ns[k].id == id && !ns[k].read
  }

  /** Pressing a shown "Mark read" keeps the counter at or above the true number of unread notifications. */
  lemma MarkReadKeepsCounterAbove(ns: seq<Notification>, count: int, id: string)
    requires count >= UnreadCount(ns) && ShowsMarkRead(ns, id)
    ensures Decremented(count) >= UnreadCount(MarkId(ns, id))
  {
    var k :| 0 <= k < |ns| && ns[k].id == id && !ns[k].read;
    MarkingLowersUnread(MarkId(ns, id), ns);
    assert MarkId(ns, id)[k].read;
  }

  /** Without the button's guard the counter could drop below the unread notifications: here 0 against 1. */
  lemma MarkReadOfReadNotificationUndercounts()
    ensures var ns := [Notification("pending_1", VisitorRequest, "", "", 0, false, true, "v", "1"),
                       Notification("urgent_1", SystemAlert, "", "", 0, true, true, "v", "1")];
            UnreadCount(ns) == 1 && Decremented(1) == 0 && UnreadCount(MarkId(ns, "urgent_1")) == 1
  {
    var ns := [Notification("pending_1", VisitorRequest, "", "", 0, false, true, "v", "1"),
               Notification("urgent_1", SystemAlert, "", "", 0, true, true, "v", "1")];
    assert MarkId(ns, "urgent_1") == ns;
    assert ns[1..][1..] == [];
  }

  /**
   * Approve and Deny leave the counter as it was, so it can exceed the unread notifications: here
   * 1 against 0. The gap lasts only until the panel re-derives its list: the pending listing is
   * recomputed on every store change, so the next `NotificationPanel.Refresh` restores the exact count.
   */
  lemma HandledLeavesCounterStale()
    ensures var ns := [Notification("pending_1", VisitorRequest, "", "", 0, false, true, "v", "1")];
            UnreadCount(ns) == 1 && UnreadCount(MarkHandled(ns, "v", "1")) == 0
  {
    var ns := [Notification("pending_1", VisitorRequest, "", "", 0, false, true, "v", "1")];
    assert MarkHandled(ns, "v", "1")[0].read;
    assert MarkHandled(ns, "v", "1")[1..] == [];
  }

  /** The bell's Approve payload: status, badge and QR only; no approval time and no approver. */
  function ShortcutApprovalPatch(now: nat): (p: CheckInPatch)
    ensures p.status == Some(Approved) && p.badgeNumber == Some(BadgeNumber(now))
    ensures p.qrCode == Some("QR_" + BadgeNumber(now))
    ensures p.approvedAt.None? && p.approvedBy.None? && p.preApprovalId.None?
  {
    NoChanges.(status := Some(Approved), badgeNumber := Some(BadgeNumber(now)), qrCode := Some("QR_" + BadgeNumber(now)))
  }

  /** The bell's Deny payload: the status alone. */
  function ShortcutDenialPatch(): (p: CheckInPatch)
    ensures p.status == Some(Denied) && p.deniedAt.None? && p.deniedBy.None? && p.denialReason.None?
  {
    NoChanges.(status := Some(Denied))
  }

  /**
   * An approval from the bell is logged as done by the system, and the approved check-in keeps
   * whatever approval time and approver it had (none, for a pending one).
   */
  lemma ShortcutApprovalIsAnonymous(s: State, visitorId: string, checkInId: string, now: nat, k: nat, j: nat)
    requires k < |s.visitors| && s.visitors[k].id == visitorId
    requires j < |s.visitors[k].checkIns| && s.visitors[k].checkIns[j].id == checkInId
    ensures var r := UpdateVisitorCheckIn(s, visitorId, checkInId, ShortcutApprovalPatch(now), now);
            r.auditLog[0].actorId == "system" && r.auditLog[0].actorName == "System"
            && r.visitors[k].checkIns[j].status == Approved
            && r.visitors[k].checkIns[j].approvedAt == s.visitors[k].checkIns[j].approvedAt
            && r.visitors[k].checkIns[j].approvedBy == s.visitors[k].checkIns[j].approvedBy
  {
    var p := ShortcutApprovalPatch(now);
    var r := UpdateVisitorCheckIn(s, visitorId, checkInId, p, now);
    assert r.auditLog[0] == Stamp(StatusChangeEntry(s.visitors, visitorId, p), now);
    assert r.visitors[k].checkIns[j] == ApplyPatch(s.visitors[k].checkIns[j], p, now);
  }

  /** A check-in the update touched carries the payload's status. */
  lemma TouchedCarriesStatus(vs: seq<Visitor>, visitorId: string, checkInId: string, p: CheckInPatch, now: nat, v: Visitor, c: CheckIn)
    requires p.status.Some?
    requires v in UpdateVisitors(vs, visitorId, checkInId, p, now) && c in v.checkIns
    requires v.id == visitorId && c.id == checkInId
    ensures c.status == p.status.value
  {
    var r := UpdateVisitors(vs, visitorId, checkInId, p, now);
    var i :| 0 <= i < |r| && r[i] == v;
    var j :| 0 <= j < |v.checkIns| && v.checkIns[j] == c;
    assert v.checkIns == UpdateCheckIns(vs[i].checkIns, checkInId, p, now);
    assert c == ApplyPatch(vs[i].checkIns[j], p, now);
  }

  /** Once a visit is approved or denied, the next derivation has no notification about it. */
  lemma HandledVisitLeavesTheBell(s: State, host: User, visitorId: string, checkInId: string, p: CheckInPatch, now: nat, later: int)
    requires p.status == Some(Approved) || p.status == Some(Denied)
    ensures var vs := UpdateVisitorCheckIn(s, visitorId, checkInId, p, now).visitors;
            forall n :: n in Derive(vs, host, later) ==> !(n.visitorId == visitorId && n.checkInId == checkInId)
  {
    var vs := UpdateVisitors(s.visitors, visitorId, checkInId, p, now);
    assert vs == UpdateVisitorCheckIn(s, visitorId, checkInId, p, now).visitors;
    DerivedRefersToPending(vs, host, later);
    forall n | n in Derive(vs, host, later) ensures !(n.visitorId == visitorId && n.checkInId == checkInId) {
      var v, c :| v in vs && c in v.checkIns && v.id == n.visitorId && c.id == n.checkInId
                  && c.status == Pending && c.hostId == host.id;
      if n.visitorId == visitorId && n.checkInId == checkInId {
        TouchedCarriesStatus(s.visitors, visitorId, checkInId, p, now, v, c);
      }
    }
  }

  /** The bell's own state: the list and the unread counter kept beside it. */
  class NotificationPanel {
    var notifications: seq<Notification>
    var unreadCount: int

    /** The counter never understates the unread notifications. */
    predicate CounterCovers()
      reads this
    {
      unreadCount >= UnreadCount(notifications)
    }

    constructor()
      ensures notifications == [] && unreadCount == 0 && CounterCovers()
    {
      notifications, unreadCount := [], 0;
    }

    /** The effect that runs whenever the store changes: a fresh list, all unread, and the exact count. */
    method Refresh(vs: seq<Visitor>, host: User, now: int)
      modifies this
      ensures notifications == Derive(vs, host, now)
      ensures unreadCount == |notifications| == UnreadCount(notifications)
    {
      notifications := Derive(vs, host, now);
      AllUnreadCount(notifications);
      unreadCount := |notifications|;
    }

    /** `handleApprove`: the store update with the bell's payload, then the visit's notifications are marked. */
    method HandleApprove(store: DataStore, visitorId: string, checkInId: string, now: nat)
      modifies this, store
      ensures store.Snapshot() == UpdateVisitorCheckIn(old(store.Snapshot()), visitorId, checkInId, ShortcutApprovalPatch(now), now)
      ensures notifications == MarkHandled(old(notifications), visitorId, checkInId)
      ensures unreadCount == old(unreadCount)
      ensures old(CounterCovers()) ==> CounterCovers()
    {
      store.UpdateVisitorCheckIn(visitorId, checkInId, ShortcutApprovalPatch(now), now);
      MarkingLowersUnread(MarkHandled(notifications, visitorId, checkInId), notifications);
      notifications := MarkHandled(notifications, visitorId, checkInId);
    }

    /** `handleDeny`: the store update with status `denied` alone, then the visit's notifications are marked. */
    method HandleDeny(store: DataStore, visitorId: string, checkInId: string, now: nat)
      modifies this, store
      ensures store.Snapshot() == UpdateVisitorCheckIn(old(store.Snapshot()), visitorId, checkInId, ShortcutDenialPatch(), now)
      ensures notifications == MarkHandled(old(notifications), visitorId, checkInId)
      ensures unreadCount == old(unreadCount)
      ensures old(CounterCovers()) ==> CounterCovers()
    {
      store.UpdateVisitorCheckIn(visitorId, checkInId, ShortcutDenialPatch(), now);
      MarkingLowersUnread(MarkHandled(notifications, visitorId, checkInId), notifications);
      notifications := MarkHandled(notifications, visitorId, checkInId);
    }

    /** `markAsRead`: the id is marked and the counter goes down by one, never below zero. */
    method MarkAsRead(id: string)
      modifies this
      ensures notifications == MarkId(old(notifications), id)
      ensures unreadCount == Decremented(old(unreadCount))
      ensures old(CounterCovers()) && ShowsMarkRead(old(notifications), id) ==> CounterCovers()
    {
      if CounterCovers() && ShowsMarkRead(notifications, id) {
        MarkReadKeepsCounterAbove(notifications, unreadCount, id);
      }
      notifications := MarkId(notifications, id);
      unreadCount := Decremented(unreadCount);
    }

    /** "Mark all as read": everything read and the counter at zero, which is then exact. */
    method MarkAllAsRead()
      modifies this
      ensures notifications == MarkAll(old(notifications))
      ensures unreadCount == 0 == UnreadCount(notifications)
    {
      notifications := MarkAll(notifications);
      AllReadCount(notifications);
      unreadCount := 0;
    }
  }
}
