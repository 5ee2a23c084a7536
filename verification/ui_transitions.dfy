/**
 * Which status changes the screens can cause. The store applies any payload to any check-in
 * (src/contexts/DataContext.tsx, `updateVisitorCheckIn`); the only guard is which buttons the
 * screens show: Approve/Deny on a pending check-in (src/components/VisitorCard.tsx on the
 * host dashboard, and the host's notification bell, whose entries are the host's pending
 * check-ins) and Check Out on an open approved one (src/components/VisitorCard.tsx on the
 * security dashboard).
 */
module UiTransitions {
  import opened Wrappers
  import opened DataModel
  import opened DataMutations
  import opened DataViews
  import opened VisitorCard
  import opened HostDashboard
  import opened SecurityDashboard
  import opened NotificationCenter

  /** A button press that reaches `updateVisitorCheckIn`. */
  datatype UiAction =
    | HostApproves(host: User)
    | HostDenies(host: User)
    | BellApproves
    | BellDenies
    | SecurityChecksOut

  /** The payload each button sends. */
  function PatchOf(a: UiAction, now: nat): (p: CheckInPatch)
    ensures p.status.Some?
  {
    match a
    case HostApproves(host) => ApprovalPatch(host, now)
    case HostDenies(host) => DenialPatch(host, now)
    case BellApproves => ShortcutApprovalPatch(now)
    case BellDenies => ShortcutDenialPatch()
    case SecurityChecksOut => CheckOutPatch(now)
  }

  /** The button is on screen for this check-in. */
  predicate Enabled(a: UiAction, c: CheckIn) {
    if a.SecurityChecksOut? then Offered(true, c).checkOut else Offered(true, c).approveOrDeny
  }

  /** The status each button moves its check-in to. */
  function Target(a: UiAction): CheckInStatus {
    match a
    case HostApproves(_) => Approved
    case BellApproves => Approved
    case HostDenies(_) => Denied
    case BellDenies => Denied
    case SecurityChecksOut => CheckedOut
  }

  /**
   * The store update a button press causes: every check-in with the ids gets the button's
   * payload, other visitors are untouched and the hosts and rules are kept.
   */
  function Press(s: State, a: UiAction, visitorId: string, checkInId: string, now: nat): (r: State)
    ensures |r.visitors| == |s.visitors|
    ensures forall k :: 0 <= k < |s.visitors| && s.visitors[k].id != visitorId ==> r.visitors[k] == s.visitors[k]
    ensures forall k, j ::
              0 <= k < |s.visitors| && s.visitors[k].id == visitorId && 0 <= j < |s.visitors[k].checkIns|
              && s.visitors[k].checkIns[j].id == checkInId
              ==> j < |r.visitors[k].checkIns| && r.visitors[k].checkIns[j] == ApplyPatch(s.visitors[k].checkIns[j], PatchOf(a, now), now)
    ensures r.hosts == s.hosts && r.rules == s.rules
  {
    UpdateVisitorCheckIn(s, visitorId, checkInId, PatchOf(a, now), now)
  }

  /** The press applies its payload to the pressed check-in. */
  lemma PressAppliesPatch(s: State, a: UiAction, now: nat, k: nat, j: nat)
    requires k < |s.visitors| && j < |s.visitors[k].checkIns|
    ensures Press(s, a, s.visitors[k].id, s.visitors[k].checkIns[j].id, now).visitors[k].checkIns[j]
            == ApplyPatch(s.visitors[k].checkIns[j], PatchOf(a, now), now)
  {
    var vs := s.visitors;
    var r := UpdateVisitors(vs, vs[k].id, vs[k].checkIns[j].id, PatchOf(a, now), now);
    assert r[k].checkIns == UpdateCheckIns(vs[k].checkIns, vs[k].checkIns[j].id, PatchOf(a, now), now);
  }

  /** Each payload sets its button's target status. */
  lemma PatchReachesTarget(a: UiAction, c: CheckIn, now: nat)
    ensures ApplyPatch(c, PatchOf(a, now), now).status == Target(a)
  {
  }

  /** The pressed check-in moves from pending to approved or denied, or from open approved to checked out. */
  lemma PressMovesAlongTheFlow(s: State, a: UiAction, now: nat, k: nat, j: nat)
    requires k < |s.visitors| && j < |s.visitors[k].checkIns|
    requires Enabled(a, s.visitors[k].checkIns[j])
    ensures var before := s.visitors[k].checkIns[j];
            var after := Press(s, a, s.visitors[k].id, before.id, now).visitors[k].checkIns[j];
            after.status == Target(a)
            && ((before.status == Pending && (after.status == Approved || after.status == Denied))
                || (before.IsOpenApproved() && after.status == CheckedOut))
  {
    PressAppliesPatch(s, a, now, k, j);
    PatchReachesTarget(a, s.visitors[k].checkIns[j], now);
  }

  /** The visitors' update leaves alone every check-in whose visitor id or check-in id differs. */
  lemma UpdateLeavesOthers(vs: seq<Visitor>, visitorId: string, checkInId: string, p: CheckInPatch, now: nat, k2: nat, j2: nat)
    requires k2 < |vs| && j2 < |vs[k2].checkIns|
    requires vs[k2].id != visitorId || vs[k2].checkIns[j2].id != checkInId
    ensures UpdateVisitors(vs, visitorId, checkInId, p, now)[k2].checkIns[j2] == vs[k2].checkIns[j2]
  {
    if vs[k2].id == visitorId {
      assert UpdateVisitors(vs, visitorId, checkInId, p, now)[k2].checkIns == UpdateCheckIns(vs[k2].checkIns, checkInId, p, now);
    }
  }

  /** One press touches no check-in other than the pressed one when ids are distinct. */
  lemma PressTouchesOnlyItsCheckIn(s: State, a: UiAction, now: nat, k: nat, j: nat, k2: nat, j2: nat)
    requires UniqueIds(s.visitors)
    requires k < |s.visitors| && j < |s.visitors[k].checkIns|
    requires k2 < |s.visitors| && j2 < |s.visitors[k2].checkIns| && (k2, j2) != (k, j)
    ensures Press(s, a, s.visitors[k].id, s.visitors[k].checkIns[j].id, now).visitors[k2].checkIns[j2]
            == s.visitors[k2].checkIns[j2]
  {
    var vs := s.visitors;
    if k2 != k {
      assert k2 < k || k < k2;
      assert vs[k2].id != vs[k].id;
    } else {
      assert j2 < j || j < j2;
      assert vs[k].checkIns[j2].id != vs[k].checkIns[j].id;
    }
    UpdateLeavesOthers(vs, vs[k].id, vs[k].checkIns[j].id, PatchOf(a, now), now, k2, j2);
  }

  /** A shown button is never on a denied, checked-out or cancelled check-in. */
  lemma EnabledIsLive(a: UiAction, c: CheckIn)
    requires Enabled(a, c)
    ensures !c.status.IsTerminal()
  {
  }

  /**
   * Through the screens, a check-in that is denied, checked out or cancelled never changes
   * again: the only check-in a shown button touches is pending or open, and with distinct ids
   * every other check-in is left as it was.
   */
  lemma TerminalCheckInsStayPut(s: State, a: UiAction, now: nat, k: nat, j: nat, k2: nat, j2: nat)
    requires UniqueIds(s.visitors)
    requires k < |s.visitors| && j < |s.visitors[k].checkIns|
    requires Enabled(a, s.visitors[k].checkIns[j])
    requires k2 < |s.visitors| && j2 < |s.visitors[k2].checkIns| && s.visitors[k2].checkIns[j2].status.IsTerminal()
    ensures Press(s, a, s.visitors[k].id, s.visitors[k].checkIns[j].id, now).visitors[k2].checkIns[j2]
            == s.visitors[k2].checkIns[j2]
  {
    EnabledIsLive(a, s.visitors[k].checkIns[j]);
    PressTouchesOnlyItsCheckIn(s, a, now, k, j, k2, j2);
  }

  /** The store itself has no such guard: an approval payload turns a denied check-in into an approved one. */
  lemma StoreRewritesTerminalCheckIns(s: State, host: User, now: nat, k: nat, j: nat)
    requires k < |s.visitors| && j < |s.visitors[k].checkIns|
    requires s.visitors[k].checkIns[j].status == Denied
    ensures UpdateVisitorCheckIn(s, s.visitors[k].id, s.visitors[k].checkIns[j].id, ApprovalPatch(host, now), now)
              .visitors[k].checkIns[j].status == Approved
  {
    var c := s.visitors[k].checkIns[j];
    var r := UpdateVisitorCheckIn(s, s.visitors[k].id, c.id, ApprovalPatch(host, now), now);
    assert r.visitors[k].checkIns[j] == ApplyPatch(c, ApprovalPatch(host, now), now);
  }
}
