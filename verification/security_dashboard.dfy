/**
 * The security dashboard (src/pages/SecurityDashboard.tsx): its two store handlers, the
 * re-sort of the pending queue by wait, the high-priority count, the alerts, the priority band
 * of each queued card and the average-wait label. Wait comparisons the page makes in
 * fractional minutes or hours are stated on milliseconds.
 */
module SecurityDashboard {
  import opened Wrappers
  import opened Text
  import opened Seqs
  import opened DataModel
  import opened DataMutations
  import opened DataViews
  import PendingApprovalCard

  /** The payload of `handleCheckOut`. */
  function CheckOutPatch(now: nat): (p: CheckInPatch)
    ensures p.status == Some(CheckedOut) && p.checkOutTime == Some(now) && p.preApprovalId.None?
  {
    NoChanges.(status := Some(CheckedOut), checkOutTime := Some(now))
  }

  /**
   * `handleCheckOut`: the store update with the check-out payload. The check-in it touches is
   * no longer open and keeps its badge; pre-approvals are untouched.
   */
  function HandleCheckOut(s: State, visitorId: string, checkInId: string, now: nat): (r: State)
    ensures r == UpdateVisitorCheckIn(s, visitorId, checkInId, CheckOutPatch(now), now)
    ensures r.preApprovals == s.preApprovals
    ensures Prepended(r.auditLog, s.auditLog, 1) && r.auditLog[0].action == "visitor_checked-out"
    ensures r.auditLog[0].severity == Low
  {
    UpdateVisitorCheckIn(s, visitorId, checkInId, CheckOutPatch(now), now)
  }

  lemma CheckOutClosesVisit(s: State, visitorId: string, checkInId: string, now: nat, k: nat, j: nat)
    requires k < |s.visitors| && s.visitors[k].id == visitorId
    requires j < |s.visitors[k].checkIns| && s.visitors[k].checkIns[j].id == checkInId
    ensures var c := HandleCheckOut(s, visitorId, checkInId, now).visitors[k].checkIns[j];
            !c.IsOpenApproved() && c.status == CheckedOut && c.checkOutTime == Some(now)
            && c.badgeNumber == s.visitors[k].checkIns[j].badgeNumber
  {
    var vs := HandleCheckOut(s, visitorId, checkInId, now).visitors;
    assert vs[k].checkIns[j] == ApplyPatch(s.visitors[k].checkIns[j], CheckOutPatch(now), now);
  }

  /** `handleCancelCheckIn`: delegates to the store's `cancelCheckIn`. */
  function HandleCancelCheckIn(s: State, visitorId: string, checkInId: string, now: nat): (r: State)
    ensures r == CancelCheckIn(s, visitorId, checkInId, now)
    ensures r.auditLog[0].action == "visitor_cancelled"
  {
    CancelCheckIn(s, visitorId, checkInId, now)
  }

  /** Milliseconds the check-in has waited. */
  function WaitMs(now: int, e: Entry): int {
    now - e.checkIn.checkInTime
  }

  /** The comparator `bWait - aWait` placing `e` first when it has waited at least as long. */
  function InsertByWait(now: int, e: Entry, s: seq<Entry>): seq<Entry> {
    if s == [] || WaitMs(now, e) >= WaitMs(now, s[0]) then [e] + s
    else [s[0]] + InsertByWait(now, e, s[1..])
  }

  /** The page's stable sort of the pending queue, longest wait first. */
  function SortByWait(now: int, s: seq<Entry>): seq<Entry> {
    if s == [] then [] else InsertByWait(now, s[0], SortByWait(now, s[1..]))
  }

  lemma {:induction false} InsertByWaitIsInsertByTime(now: int, e: Entry, s: seq<Entry>)
    ensures InsertByWait(now, e, s) == InsertByTime(e, s, true)
  {
    if s != [] && WaitMs(now, e) < WaitMs(now, s[0]) {
      InsertByWaitIsInsertByTime(now, e, s[1..]);
    }
  }

  /** Longest wait first is earliest check-in first, whatever the clock reads. */
  lemma {:induction false} SortByWaitIsSortByTime(now: int, s: seq<Entry>)
    ensures SortByWait(now, s) == SortByTime(s, true)
  {
    if s != [] {
      SortByWaitIsSortByTime(now, s[1..]);
      InsertByWaitIsInsertByTime(now, s[0], SortByTime(s[1..], true));
    }
  }

  /** The queue the store hands over is already in that order, so the page's sort leaves it unchanged. */
  lemma PendingQueueAlreadyOrdered(now: int, vs: seq<Visitor>)
    ensures SortByWait(now, PendingApprovals(vs)) == PendingApprovals(vs)
  {
    SortByWaitIsSortByTime(now, PendingApprovals(vs));
    SortOfSortedIsIdentity(PendingApprovals(vs), true);
  }

  datatype Priority = HighPriority | MediumPriority | LowPriority {
    function Rank(): nat {
      match this
      case HighPriority => 2
      case MediumPriority => 1
      case LowPriority => 0
    }
  }

  /** The `priority` computed for each queued card: more than 20 minutes high, more than 10 medium. */
  function PriorityOf(now: int, e: Entry): Priority {
    var w := WaitMs(now, e);
    if w > 20 * MsPerMinute then HighPriority else if w > 10 * MsPerMinute then MediumPriority else LowPriority
  }

  predicate OverTwentyMinutes(now: int, e: Entry) {
    WaitMs(now, e) > 20 * MsPerMinute
  }

  /** `getHighPriorityCount`. */
  function HighPriorityCount(now: int, pending: seq<Entry>): (n: nat)
    ensures n <= |pending|
  {
    Count(pending, (e: Entry) => OverTwentyMinutes(now, e))
  }

  /** The count agrees with the cards: it is the number of queued cards given priority `high`. */
  lemma {:induction false} HighPriorityCountMatchesBand(now: int, pending: seq<Entry>)
    ensures HighPriorityCount(now, pending) == Count(pending, (e: Entry) => PriorityOf(now, e) == HighPriority)
  {
    if pending != [] {
      HighPriorityCountMatchesBand(now, pending[1..]);
      assert pending == [pending[0]] + pending[1..];
    }
  }

  /**
   * The band the card paints (whole minutes, rounded down) is never above the priority the
   * page computed for it (fractional minutes); the two differ, for instance, 20.5 minutes in.
   */
  lemma CardBandNeverAbovePriority(now: int, e: Entry)
    ensures PendingApprovalCard.PriorityColor(now, e.checkIn.checkInTime) == PendingApprovalCard.ErrorBorder ==> PriorityOf(now, e) == HighPriority
    ensures PendingApprovalCard.PriorityColor(now, e.checkIn.checkInTime) == PendingApprovalCard.WarningBorder ==> PriorityOf(now, e) != LowPriority
    ensures WaitMs(now, e) == 1230000 ==> (PriorityOf(now, e) == HighPriority
              && PendingApprovalCard.PriorityColor(now, e.checkIn.checkInTime) == PendingApprovalCard.WarningBorder)
  {
    PendingApprovalCard.ColorAndIconAgree(now, e.checkIn.checkInTime);
  }

  datatype AlertKind = CriticalAlert | WarningAlert
  datatype Alert = Alert(kind: AlertKind, count: nat, message: string, action: string)

  predicate OverThirtyMinutes(now: int, e: Entry) {
    WaitMs(now, e) > 30 * MsPerMinute
  }

  /** `visitor.checkIns.find(ci => ci.status === 'approved' && !ci.checkOutTime)`. */
  function FirstOpenVisit(cs: seq<CheckIn>): (r: Option<CheckIn>)
    ensures r.Some? ==> r.value in cs && r.value.IsOpenApproved()
    ensures r.Some? ==> exists k :: 0 <= k < |cs| && cs[k] == r.value && forall i :: 0 <= i < k ==> !cs[i].IsOpenApproved()
    ensures r.None? <==> forall j :: 0 <= j < |cs| ==> !cs[j].IsOpenApproved()
  {
    if cs == [] then None
    else if cs[0].IsOpenApproved() then (assert cs[0] == cs[0]; Some(cs[0]))
    else
      var r := FirstOpenVisit(cs[1..]);
      if r.Some? then
        var k :| 0 <= k < |cs[1..]| && cs[1..][k] == r.value && forall i :: 0 <= i < k ==> !cs[1..][i].IsOpenApproved();
        assert cs[k + 1] == r.value;
        r
      else r
  }

  /** The visitor's first open visit began more than 8 hours ago. */
  predicate StaysTooLong(now: int, v: Visitor) {
    var c := FirstOpenVisit(v.checkIns);
    c.Some? && now - c.value.checkInTime > 8 * MsPerHour
  }

  /** The number of queued check-ins waiting more than 30 minutes. */
  function LongWaitCount(now: int, pending: seq<Entry>): (n: nat)
    ensures n > 0 <==> exists k :: 0 <= k < |pending| && OverThirtyMinutes(now, pending[k])
  {
    var waiting := Filter(pending, (e: Entry) => OverThirtyMinutes(now, e));
    assert |waiting| > 0 ==> OverThirtyMinutes(now, waiting[0]) && waiting[0] in pending;
    |waiting|
  }

  /** The number of active visitors whose first open visit began more than 8 hours ago. */
  function LongStayCount(now: int, active: seq<Visitor>): (n: nat)
    ensures n > 0 <==> exists k :: 0 <= k < |active| && StaysTooLong(now, active[k])
  {
    var staying := Filter(active, (v: Visitor) => StaysTooLong(now, v));
    assert |staying| > 0 ==> StaysTooLong(now, staying[0]) && staying[0] in active;
    |staying|
  }

  function AlertIf(kind: AlertKind, count: nat, message: string, action: string): (r: seq<Alert>)
    ensures |r| <= 1
    ensures |r| == 1 <==> count > 0
    ensures |r| == 1 ==> r[0].kind == kind && r[0].count == count
  {
    if count > 0 then [Alert(kind, count, Decimal(count) + message, action)] else []
  }

  /** `getCriticalAlerts`: at most a `critical` alert for long waits, then a `warning` for long stays. */
  function CriticalAlerts(now: int, pending: seq<Entry>, active: seq<Visitor>): (r: seq<Alert>)
    ensures |r| <= 2
    ensures (exists a :: a in r && a.kind == CriticalAlert) <==> exists k :: 0 <= k < |pending| && OverThirtyMinutes(now, pending[k])
    ensures (exists a :: a in r && a.kind == WarningAlert) <==> exists k :: 0 <= k < |active| && StaysTooLong(now, active[k])
    ensures forall a :: a in r ==> a.count > 0
  {
    var critical := AlertIf(CriticalAlert, LongWaitCount(now, pending), " visitor(s) waiting over 30 minutes", "Review pending approvals");
    var warning := AlertIf(WarningAlert, LongStayCount(now, active), " visitor(s) in building over 8 hours", "Contact visitors for check-out");
    assert forall a :: a in critical + warning <==> a in critical || a in warning;
    critical + warning
  }

  /** The "Avg Wait Time" tile's caption. */
  function AverageWaitLabel(averageWaitTime: int): (caption: string)
    ensures caption == "Above target" <==> averageWaitTime > 15
    ensures caption == "Within target" <==> averageWaitTime <= 15
  {
    if averageWaitTime > 15 then "Above target" else "Within target"
  }

  /** "Recent Approved Visitors": the first five of the newest-first approved listing. */
  function RecentApproved(vs: seq<Visitor>): (r: seq<Entry>)
    ensures |r| == if |ApprovedVisitors(vs)| < 5 then |ApprovedVisitors(vs)| else 5
    ensures r == ApprovedVisitors(vs)[..|r|]
    ensures forall k :: 0 <= k < |r| ==> r[k].checkIn.status == Approved
  {
    var all := ApprovedVisitors(vs);
    ListingMembers(vs, Some(Approved), false);
    if |all| <= 5 then all else all[..5]
  }

  /**
   * The visit the "Check Out" button of an active visitor's card acts on: the first open visit;
   * a later open visit of the same visitor is not reachable from this page.
   */
  function CheckOutTarget(v: Visitor): (r: Option<CheckIn>)
    ensures HasOpenVisit(v) <==> r.Some?
  {
    FirstOpenVisit(v.checkIns)
  }
}
