/**
 * The host's dashboard (src/pages/HostDashboard.tsx): the host's own listings, the payloads
 * its Approve and Deny buttons send to the store, and the pre-approval form. The page is only
 * reachable signed in, so the host is a `User` rather than an optional one.
 */
module HostDashboard {
  import opened Wrappers
  import opened Text
  import opened Seqs
  import opened DataModel
  import opened DataMutations
  import opened DataViews

  predicate ForHost(c: CheckIn, host: User) {
    c.hostId == host.id
  }

  predicate PendingForHost(c: CheckIn, host: User) {
    ForHost(c, host) && c.status == Pending
  }

  predicate ActiveForHost(c: CheckIn, host: User) {
    ForHost(c, host) && c.IsOpenApproved()
  }

  predicate AwaitsHost(v: Visitor, host: User) {
    exists j :: 0 <= j < |v.checkIns| && PendingForHost(v.checkIns[j], host)
  }

  predicate VisitsHost(v: Visitor, host: User) {
    exists j :: 0 <= j < |v.checkIns| && ActiveForHost(v.checkIns[j], host)
  }

  /** `myPendingApprovals`: the visitors with a pending check-in for this host, in store order. */
  function MyPendingApprovals(vs: seq<Visitor>, host: User): (r: seq<Visitor>)
    ensures IsSubsequence(r, vs)
    ensures forall k :: 0 <= k < |r| ==> AwaitsHost(r[k], host)
    ensures forall k, j :: 0 <= k < |vs| && 0 <= j < |vs[k].checkIns| && PendingForHost(vs[k].checkIns[j], host) ==> vs[k] in r
  {
    var p := (v: Visitor) => AwaitsHost(v, host);
    FilterIsSubsequence(vs, p);
    var r := Filter(vs, p);
    assert forall k :: 0 <= k < |r| ==> p(r[k]);
    r
  }

  /** `myActiveVisitors`: the visitors with an approved, not checked-out check-in for this host. */
  function MyActiveVisitors(vs: seq<Visitor>, host: User): (r: seq<Visitor>)
    ensures IsSubsequence(r, vs)
    ensures forall k :: 0 <= k < |r| ==> VisitsHost(r[k], host)
    ensures forall k, j :: 0 <= k < |vs| && 0 <= j < |vs[k].checkIns| && ActiveForHost(vs[k].checkIns[j], host) ==> vs[k] in r
  {
    var p := (v: Visitor) => VisitsHost(v, host);
    FilterIsSubsequence(vs, p);
    var r := Filter(vs, p);
    assert forall k :: 0 <= k < |r| ==> p(r[k]);
    r
  }

  /** Each of the host's active visitors is also in the building-wide active list. */
  lemma MyActiveAreActive(vs: seq<Visitor>, host: User)
    ensures forall v :: v in MyActiveVisitors(vs, host) ==> v in ActiveVisitors(vs)
  {
    forall v | v in MyActiveVisitors(vs, host) ensures v in ActiveVisitors(vs) {
      var r := MyActiveVisitors(vs, host);
      var k :| 0 <= k < |r| && r[k] == v;
      assert VisitsHost(v, host);
      var j :| 0 <= j < |v.checkIns| && ActiveForHost(v.checkIns[j], host);
      assert HasOpenVisit(v);
      assert v in vs;
      var i :| 0 <= i < |vs| && vs[i] == v;
    }
  }

  /** `myPreApprovals`. */
  function MyPreApprovals(pas: seq<PreApproval>, host: User): (r: seq<PreApproval>)
    ensures forall k :: 0 <= k < |r| ==> r[k].hostId == host.id && r[k] in pas
    ensures forall k :: 0 <= k < |pas| && pas[k].hostId == host.id ==> pas[k] in r
  {
    Filter(pas, (pa: PreApproval) => pa.hostId == host.id)
  }

  /** The "Pre-approved" tile: the host's records whose status is still `active`, expired or not. */
  function PreApprovedCount(pas: seq<PreApproval>, host: User): (n: nat)
    ensures n <= |MyPreApprovals(pas, host)|
  {
    Count(MyPreApprovals(pas, host), (pa: PreApproval) => pa.status == Active)
  }

  /** A record the tile counts: this host's, with status `active`; its expiry plays no part. */
  predicate CountedOnTile(pa: PreApproval, host: User) {
    pa.hostId == host.id && pa.status == Active
  }

  /** One more record raises the tile by one exactly when it is the host's and `active`, whatever its expiry. */
  lemma PreApprovedCountAppend(pas: seq<PreApproval>, x: PreApproval, host: User)
    ensures PreApprovedCount(pas + [x], host) == PreApprovedCount(pas, host) + (if CountedOnTile(x, host) then 1 else 0)
  {
    var mine := (pa: PreApproval) => pa.hostId == host.id;
    var active := (pa: PreApproval) => pa.status == Active;
    assert MyPreApprovals(pas + [x], host) == Filter(pas + [x], mine);
    assert PreApprovedCount(pas, host) == |Filter(Filter(pas, mine), active)|;
    assert PreApprovedCount(pas + [x], host) == |Filter(MyPreApprovals(pas + [x], host), active)|;
    FilterAppend(pas, x, mine);
    if mine(x) {
      FilterAppend(Filter(pas, mine), x, active);
      assert MyPreApprovals(pas + [x], host) == Filter(pas, mine) + [x];
    } else {
      assert MyPreApprovals(pas + [x], host) == Filter(pas, mine);
    }
  }

  /** The positions holding one of this host's `active` records. */
  function TilePositions(pas: seq<PreApproval>, host: User): set<int> {
    set k | 0 <= k < |pas| && CountedOnTile(pas[k], host)
  }

  /** The last position joins the set exactly when its record is counted. */
  lemma TilePositionsStep(pas: seq<PreApproval>, host: User)
    requires pas != []
    ensures |TilePositions(pas, host)| == |TilePositions(pas[..|pas| - 1], host)| + (if CountedOnTile(pas[|pas| - 1], host) then 1 else 0)
  {
    var n := |pas| - 1;
    var init := pas[..n];
    var before := TilePositions(init, host);
    var after := TilePositions(pas, host);
    var last: set<int> := if CountedOnTile(pas[n], host) then {n} else {};
    forall k | k in after ensures k in before + last {
      if k < n { assert init[k] == pas[k]; }
    }
    forall k | k in before + last ensures k in after {
      if k < n { assert init[k] == pas[k]; }
    }
    assert after == before + last;
    assert before !! last;
  }

  /** The tile counts exactly the positions holding one of this host's `active` records. */
  lemma {:induction false} PreApprovedCountExact(pas: seq<PreApproval>, host: User)
    ensures PreApprovedCount(pas, host) == |TilePositions(pas, host)|
  {
    if pas == [] {
      assert TilePositions(pas, host) == {};
    } else {
      var n := |pas| - 1;
      assert pas == pas[..n] + [pas[n]];
      PreApprovedCountExact(pas[..n], host);
      PreApprovedCountAppend(pas[..n], pas[n], host);
      TilePositionsStep(pas, host);
    }
  }

  /** What the Approve button sends: a fresh badge and its QR payload, the approval time and approver. */
  function ApprovalPatch(host: User, now: nat): (p: CheckInPatch)
    ensures p.status == Some(Approved) && p.preApprovalId.None? && p.denialReason.None?
    ensures p.badgeNumber == Some(BadgeNumber(now)) && p.qrCode == Some("QR_" + BadgeNumber(now))
  {
    NoChanges.(status := Some(Approved), badgeNumber := Some(BadgeNumber(now)),
               qrCode := Some("QR_" + BadgeNumber(now)), approvedAt := Some(now), approvedBy := Some(host.name))
  }

  /** What the Deny button sends: no reason is ever given. */
  function DenialPatch(host: User, now: nat): (p: CheckInPatch)
    ensures p.status == Some(Denied) && p.denialReason.None? && p.preApprovalId.None?
    ensures p.deniedAt == Some(now) && p.deniedBy == Some(host.name)
  {
    NoChanges.(status := Some(Denied), deniedAt := Some(now), deniedBy := Some(host.name))
  }

  /** A handler's effect on the store, and whether it e-mails security about the visitor. */
  datatype Outcome = Outcome(state: State, notifiesSecurity: bool)

  /**
   * `handleApproveVisitor`: the store update with the approval payload; the pre-approvals are
   * untouched because the payload links none; security is notified exactly when the visitor exists.
   */
  function HandleApproveVisitor(s: State, host: User, visitorId: string, checkInId: string, now: nat): (o: Outcome)
    ensures o.state == UpdateVisitorCheckIn(s, visitorId, checkInId, ApprovalPatch(host, now), now)
    ensures o.state.preApprovals == s.preApprovals
    ensures o.state.auditLog[0].action == "visitor_approved"
    ensures host.name != "" ==> o.state.auditLog[0].actorName == host.name
    ensures o.notifiesSecurity <==> exists k :: 0 <= k < |s.visitors| && s.visitors[k].id == visitorId
  {
    var p := ApprovalPatch(host, now);
    assert !ConsumesPreApproval(p);
    var r := UpdateVisitorCheckIn(s, visitorId, checkInId, p, now);
    assert r.auditLog[0] == Stamp(StatusChangeEntry(s.visitors, visitorId, p), now);
    Outcome(r, FindVisitor(s.visitors, visitorId).Some?)
  }

  /** The check-in an approval touches is approved with the page's own badge and QR payload. */
  lemma ApprovalSetsBadge(s: State, host: User, visitorId: string, checkInId: string, now: nat, k: nat, j: nat)
    requires k < |s.visitors| && s.visitors[k].id == visitorId
    requires j < |s.visitors[k].checkIns| && s.visitors[k].checkIns[j].id == checkInId
    ensures var c := HandleApproveVisitor(s, host, visitorId, checkInId, now).state.visitors[k].checkIns[j];
            c.status == Approved && c.badgeNumber == Some(BadgeNumber(now))
            && c.qrCode == Some("QR_" + BadgeNumber(now)) && c.approvedAt == Some(now)
            && c.approvedBy == Some(host.name)
  {
    var p := ApprovalPatch(host, now);
    var vs := HandleApproveVisitor(s, host, visitorId, checkInId, now).state.visitors;
    assert vs[k].checkIns[j] == ApplyPatch(s.visitors[k].checkIns[j], p, now);
  }

  /** `handleDenyVisitor`: the store update with the denial payload; the audit entry carries no reason. */
  function HandleDenyVisitor(s: State, host: User, visitorId: string, checkInId: string, now: nat): (o: Outcome)
    ensures o.state == UpdateVisitorCheckIn(s, visitorId, checkInId, DenialPatch(host, now), now)
    ensures o.state.preApprovals == s.preApprovals
    ensures o.state.auditLog[0].details == "Visitor status changed to denied"
    ensures o.state.auditLog[0].severity == Medium
    ensures host.name != "" ==> o.state.auditLog[0].actorName == host.name
    ensures o.notifiesSecurity <==> exists k :: 0 <= k < |s.visitors| && s.visitors[k].id == visitorId
  {
    var p := DenialPatch(host, now);
    var r := UpdateVisitorCheckIn(s, visitorId, checkInId, p, now);
    assert r.auditLog[0] == Stamp(StatusChangeEntry(s.visitors, visitorId, p), now);
    Outcome(r, FindVisitor(s.visitors, visitorId).Some?)
  }

  /** The check-in a denial touches records the denial time and the denier, and no reason. */
  lemma DenialSetsDenier(s: State, host: User, visitorId: string, checkInId: string, now: nat, k: nat, j: nat)
    requires k < |s.visitors| && s.visitors[k].id == visitorId
    requires j < |s.visitors[k].checkIns| && s.visitors[k].checkIns[j].id == checkInId
    ensures var c := HandleDenyVisitor(s, host, visitorId, checkInId, now).state.visitors[k].checkIns[j];
            c.status == Denied && c.deniedAt == Some(now) && c.deniedBy == Some(host.name)
            && c.denialReason == s.visitors[k].checkIns[j].denialReason
  {
    var p := DenialPatch(host, now);
    var vs := HandleDenyVisitor(s, host, visitorId, checkInId, now).state.visitors;
    assert vs[k].checkIns[j] == ApplyPatch(s.visitors[k].checkIns[j], p, now);
  }

  /** The pre-approval form's fields; `scheduledAt` is the instant the date and time fields denote. */
  datatype PreApprovalForm = PreApprovalForm(
    visitorName: string,
    visitorEmail: string,
    visitorPhone: string,
    visitorCompany: string,
    scheduledAt: int,
    purpose: string)

  /** The record `onSubmitPreApproval` hands to the store: `active`, with the page's own expiry. */
  function PreApprovalDraftFor(f: PreApprovalForm, host: User, rules: SystemRules): (d: PreApprovalDraft)
    ensures d.status == Active && d.hostId == host.id && d.hostName == host.name
    ensures d.expiresAt == f.scheduledAt + rules.autoExpirePreApprovalsAfter * 3600000
  {
    PreApprovalDraft(f.visitorName, f.visitorEmail, f.visitorPhone, f.visitorCompany, host.id, host.name,
                     f.scheduledAt, f.purpose, Active, ExpiryFor(f.scheduledAt, rules))
  }

  /** The store recomputes the expiry and arrives at the same instant the page sent. */
  lemma PageAndStoreExpiryAgree(s: State, f: PreApprovalForm, host: User, now: nat)
    ensures var r := AddPreApproval(s, PreApprovalDraftFor(f, host, s.rules), now);
            r.preApprovals[|s.preApprovals|].expiresAt == PreApprovalDraftFor(f, host, s.rules).expiresAt
            && r.preApprovals[|s.preApprovals|].status == Active
  {
  }

  /**
   * The pass the page opens after submitting: the last of this host's pre-approvals in the list
   * the page rendered with, i.e. the list from before the submit.
   */
  function ShownAfterSubmit(before: seq<PreApproval>, host: User): (r: Option<PreApproval>)
    ensures r.Some? ==> r.value in before && r.value.hostId == host.id
    ensures r.None? <==> forall k :: 0 <= k < |before| ==> before[k].hostId != host.id
  {
    var mine := MyPreApprovals(before, host);
    if mine == [] then None else Some(mine[|mine| - 1])
  }

  /** A host's first pre-approval opens no pass at all; later ones open the previous one. */
  lemma FirstPreApprovalShowsNothing(s: State, f: PreApprovalForm, host: User, now: nat)
    requires forall k :: 0 <= k < |s.preApprovals| ==> s.preApprovals[k].hostId != host.id
    ensures var r := AddPreApproval(s, PreApprovalDraftFor(f, host, s.rules), now);
            r.preApprovals[|s.preApprovals|].hostId == host.id
            && ShownAfterSubmit(s.preApprovals, host).None?
  {
  }
}
