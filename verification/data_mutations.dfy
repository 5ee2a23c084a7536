/**
 * The mutators of the visitor-management store (src/contexts/DataContext.tsx), each as a pure
 * transition from the store's state before the call to its state after it. `now` is the clock
 * reading (`Date.now()`) of the call; the ids the store makes from it are its decimal string.
 */
module DataMutations {
  import opened Wrappers
  import opened Text
  import opened DataModel

  /** The five pieces of store state. */
  datatype State = State(
    visitors: seq<Visitor>,
    preApprovals: seq<PreApproval>,
    hosts: seq<Host>,
    auditLog: seq<AuditEntry>,
    rules: SystemRules)

  const InitialState := State([], [], [], [], DefaultRules)

  // ---------------------------------------------------------------- audit trail

  /** An audit entry as handed to `addAuditEntry`, before the store gives it an id and a time. */
  datatype AuditDraft = AuditDraft(
    action: string,
    actorId: string,
    actorName: string,
    actorRole: string,
    targetId: Option<string>,
    targetName: Option<string>,
    details: string,
    ipAddress: string,
    severity: Severity,
    category: Category)

  function Stamp(d: AuditDraft, now: nat): AuditEntry {
    AuditEntry(Decimal(now), now, d.action, d.actorId, d.actorName, d.actorRole,
               d.targetId, d.targetName, d.details, d.ipAddress, d.severity, d.category)
  }

  /** `newLog` is `oldLog` with exactly `added` entries put in front of it; the old entries keep their order. */
  predicate Prepended(newLog: seq<AuditEntry>, oldLog: seq<AuditEntry>, added: nat) {
    |newLog| == |oldLog| + added && newLog[added..] == oldLog
  }

  /** `addAuditEntry`: the stamped entry becomes the head of the log. */
  function AddAuditEntry(s: State, d: AuditDraft, now: nat): (r: State)
    ensures Prepended(r.auditLog, s.auditLog, 1)
    ensures r.auditLog[0].id == Decimal(now) && r.auditLog[0].timestamp == now
    ensures r.auditLog[0].action == d.action && r.auditLog[0].severity == d.severity
    ensures r.auditLog[0].category == d.category
    ensures r.(auditLog := s.auditLog) == s
  {
    s.(auditLog := [Stamp(d, now)] + s.auditLog)
  }

  // ---------------------------------------------------------------- hosts

  /** The host fields a caller of `addHost` supplies (Omit<Host, 'id' | 'createdAt' | 'isApproved'>). */
  datatype HostDraft = HostDraft(
    name: string,
    email: string,
    password: Option<string>,
    department: string,
    isActive: bool,
    maxVisitorsPerDay: int)

  function NewHost(d: HostDraft, now: nat): Host {
    Host(Decimal(now), d.name, d.email, d.password, d.department, d.isActive, false,
         d.maxVisitorsPerDay, now, None, None)
  }

  /** `addHost`: one unapproved host appended, one `host_registration` entry logged. */
  function AddHost(s: State, d: HostDraft, now: nat): (r: State)
    ensures r.hosts == s.hosts + [NewHost(d, now)]
    ensures !r.hosts[|s.hosts|].isApproved && r.hosts[|s.hosts|].email == d.email
    ensures Prepended(r.auditLog, s.auditLog, 1)
    ensures r.auditLog[0].action == "host_registration" && r.auditLog[0].category == UserManagement
    ensures r.visitors == s.visitors && r.preApprovals == s.preApprovals && r.rules == s.rules
  {
    var h := NewHost(d, now);
    AddAuditEntry(s.(hosts := s.hosts + [h]), HostRegisteredEntry(h), now)
  }

  function HostRegisteredEntry(h: Host): AuditDraft {
    AuditDraft("host_registration", h.id, h.name, "host", Some(h.id), Some(h.name),
               "New host " + h.name + " registered and pending approval",
               "192.168.1.100", Low, UserManagement)
  }

  /** `hosts.find(h => h.id === id)`. */
  function FindHost(hs: seq<Host>, id: string): (r: Option<Host>)
    ensures r.Some? ==> r.value in hs && r.value.id == id
    ensures r.Some? ==> exists k :: 0 <= k < |hs| && hs[k] == r.value && forall i :: 0 <= i < k ==> hs[i].id != id
    ensures r.None? <==> forall k :: 0 <= k < |hs| ==> hs[k].id != id
  {
    if hs == [] then None
    else if hs[0].id == id then (assert hs[0] == hs[0]; Some(hs[0]))
    else
      var r := FindHost(hs[1..], id);
      if r.Some? then
        var k :| 0 <= k < |hs[1..]| && hs[1..][k] == r.value && forall i :: 0 <= i < k ==> hs[1..][i].id != id;
        assert hs[k + 1] == r.value;
        r
      else r
  }

  /** One host approved: the four approval fields are set and every other field is kept. */
  function ApproveHostRecord(h: Host, approvedBy: string, password: string, now: nat): (r: Host)
    ensures r.isApproved && r.approvedBy == Some(approvedBy) && r.approvedAt == Some(now) && r.password == Some(password)
    ensures r.id == h.id && r.name == h.name && r.email == h.email && r.department == h.department
    ensures r.isActive == h.isActive && r.maxVisitorsPerDay == h.maxVisitorsPerDay && r.createdAt == h.createdAt
  {
    h.(isApproved := true, approvedBy := Some(approvedBy), approvedAt := Some(now), password := Some(password))
  }

  /** The `map` of `approveHost`: every host with the id approved with the password, the rest untouched. */
  function ApproveHosts(hs: seq<Host>, hostId: string, approvedBy: string, password: string, now: nat): (r: seq<Host>)
    ensures |r| == |hs|
    ensures forall k :: 0 <= k < |hs| && hs[k].id == hostId ==> r[k] == ApproveHostRecord(hs[k], approvedBy, password, now)
    ensures forall k :: 0 <= k < |hs| && hs[k].id != hostId ==> r[k] == hs[k]
  {
    seq(|hs|, k requires 0 <= k < |hs| =>
      if hs[k].id == hostId then ApproveHostRecord(hs[k], approvedBy, password, now) else hs[k])
  }

  /** `approveHost`, with the audit entry naming the host as it was found before the update. */
  function ApproveHost(s: State, hostId: string, approvedBy: string, password: string, now: nat): (r: State)
    ensures r.hosts == ApproveHosts(s.hosts, hostId, approvedBy, password, now)
    ensures Prepended(r.auditLog, s.auditLog, 1)
    ensures r.auditLog[0].action == "host_approved" && r.auditLog[0].targetId == Some(hostId)
    ensures r.visitors == s.visitors && r.preApprovals == s.preApprovals && r.rules == s.rules
  {
    AddAuditEntry(
      s.(hosts := ApproveHosts(s.hosts, hostId, approvedBy, password, now)),
      HostApprovedEntry(s.hosts, hostId, approvedBy),
      now)
  }

  /** Names the host as found before the update; a missing host reads as `undefined` in the details. */
  function HostApprovedEntry(hs: seq<Host>, hostId: string, approvedBy: string): AuditDraft {
    var found := FindHost(hs, hostId);
    var shownName := if found.Some? then found.value.name else "undefined";
    AuditDraft("host_approved", "admin", approvedBy, "admin", Some(hostId),
               Some(if found.Some? && found.value.name != "" then found.value.name else "Unknown"),
               "Host " + shownName + " approved by " + approvedBy,
               "192.168.1.100", Low, UserManagement)
  }

  // ---------------------------------------------------------------- rules

  /** A Partial<SystemRules>: the keys present are the ones to overwrite. */
  datatype RulesPatch = RulesPatch(
    maxVisitorsPerHostPerDay: Option<int>,
    requirePreApprovalForExternalVisitors: Option<bool>,
    maxWaitTimeBeforeAlert: Option<int>,
    autoExpirePreApprovalsAfter: Option<int>,
    requireGovernmentId: Option<bool>,
    allowWalkInVisitors: Option<bool>)

  function MergeRules(cur: SystemRules, p: RulesPatch): SystemRules {
    SystemRules(
      p.maxVisitorsPerHostPerDay.GetOr(cur.maxVisitorsPerHostPerDay),
      p.requirePreApprovalForExternalVisitors.GetOr(cur.requirePreApprovalForExternalVisitors),
      p.maxWaitTimeBeforeAlert.GetOr(cur.maxWaitTimeBeforeAlert),
      p.autoExpirePreApprovalsAfter.GetOr(cur.autoExpirePreApprovalsAfter),
      p.requireGovernmentId.GetOr(cur.requireGovernmentId),
      p.allowWalkInVisitors.GetOr(cur.allowWalkInVisitors))
  }

  /** `Object.keys(rules)`, in declaration order. */
  function PatchKeys(p: RulesPatch): seq<string> {
    (if p.maxVisitorsPerHostPerDay.Some? then ["maxVisitorsPerHostPerDay"] else [])
    + (if p.requirePreApprovalForExternalVisitors.Some? then ["requirePreApprovalForExternalVisitors"] else [])
    + (if p.maxWaitTimeBeforeAlert.Some? then ["maxWaitTimeBeforeAlert"] else [])
    + (if p.autoExpirePreApprovalsAfter.Some? then ["autoExpirePreApprovalsAfter"] else [])
    + (if p.requireGovernmentId.Some? then ["requireGovernmentId"] else [])
    + (if p.allowWalkInVisitors.Some? then ["allowWalkInVisitors"] else [])
  }

  /**
   * `updateSystemRules`: the keys present overwrite, the others keep their value; the records
   * already stored (expiry instants of pre-approvals included) are not touched.
   */
  function UpdateSystemRules(s: State, p: RulesPatch, now: nat): (r: State)
    ensures p.maxVisitorsPerHostPerDay.Some? ==> r.rules.maxVisitorsPerHostPerDay == p.maxVisitorsPerHostPerDay.value
    ensures p.maxVisitorsPerHostPerDay.None? ==> r.rules.maxVisitorsPerHostPerDay == s.rules.maxVisitorsPerHostPerDay
    ensures p.requirePreApprovalForExternalVisitors.Some? ==>
              r.rules.requirePreApprovalForExternalVisitors == p.requirePreApprovalForExternalVisitors.value
    ensures p.requirePreApprovalForExternalVisitors.None? ==>
              r.rules.requirePreApprovalForExternalVisitors == s.rules.requirePreApprovalForExternalVisitors
    ensures p.maxWaitTimeBeforeAlert.Some? ==> r.rules.maxWaitTimeBeforeAlert == p.maxWaitTimeBeforeAlert.value
    ensures p.maxWaitTimeBeforeAlert.None? ==> r.rules.maxWaitTimeBeforeAlert == s.rules.maxWaitTimeBeforeAlert
    ensures p.autoExpirePreApprovalsAfter.Some? ==> r.rules.autoExpirePreApprovalsAfter == p.autoExpirePreApprovalsAfter.value
    ensures p.autoExpirePreApprovalsAfter.None? ==> r.rules.autoExpirePreApprovalsAfter == s.rules.autoExpirePreApprovalsAfter
    ensures p.allowWalkInVisitors.Some? ==> r.rules.allowWalkInVisitors == p.allowWalkInVisitors.value
    ensures p.allowWalkInVisitors.None? ==> r.rules.allowWalkInVisitors == s.rules.allowWalkInVisitors
    ensures p.requireGovernmentId.Some? ==> r.rules.requireGovernmentId == p.requireGovernmentId.value
    ensures p.requireGovernmentId.None? ==> r.rules.requireGovernmentId == s.rules.requireGovernmentId
    ensures Prepended(r.auditLog, s.auditLog, 1) && r.auditLog[0].action == "system_rules_updated"
    ensures r.auditLog[0].severity == Medium && r.auditLog[0].category == SystemCategory
    ensures r.visitors == s.visitors && r.preApprovals == s.preApprovals && r.hosts == s.hosts
  {
    AddAuditEntry(s.(rules := MergeRules(s.rules, p)), RulesUpdatedEntry(p), now)
  }

  function RulesUpdatedEntry(p: RulesPatch): AuditDraft {
    AuditDraft("system_rules_updated", "admin", "Admin", "admin", None, None,
               "System rules updated: " + Join(PatchKeys(p), ", "),
               "192.168.1.100", Medium, SystemCategory)
  }

  // ---------------------------------------------------------------- visitors

  /** The visitor fields a caller of `addVisitor` supplies (Omit<Visitor, 'id' | 'createdAt' | 'totalVisits'>). */
  datatype VisitorDraft = VisitorDraft(
    name: string,
    email: Option<string>,
    phone: string,
    company: Option<string>,
    photoUrl: Option<string>,
    governmentId: Option<GovernmentId>,
    checkIns: seq<CheckIn>,
    isBlacklisted: Option<bool>,
    blacklistReason: Option<string>)

  function NewVisitor(d: VisitorDraft, now: nat): Visitor {
    Visitor(Decimal(now), d.name, d.email, d.phone, d.company, d.photoUrl, d.governmentId,
            d.checkIns, now, Some(now), 1, d.isBlacklisted, d.blacklistReason)
  }

  /** `canCreateWalkInVisit`. */
  predicate CanCreateWalkInVisit(s: State) {
    s.rules.allowWalkInVisitors
  }

  /**
   * `addVisitor`: `None` is the thrown error (walk-ins disallowed), which leaves every piece of
   * state as it was. Otherwise exactly one visitor is appended, as supplied, with one visit, and
   * one `visitor_created` entry is logged. Whether the draft says the person is blacklisted plays
   * no part.
   */
  function AddVisitor(s: State, d: VisitorDraft, now: nat): (r: Option<State>)
    ensures r.None? <==> !s.rules.allowWalkInVisitors
    ensures r.Some? ==> r.value.visitors == s.visitors + [NewVisitor(d, now)]
    ensures r.Some? ==> var v := r.value.visitors[|s.visitors|];
              v.totalVisits == 1 && v.checkIns == d.checkIns && v.name == d.name
              && v.createdAt == now && v.lastVisit == Some(now)
    ensures r.Some? ==> Prepended(r.value.auditLog, s.auditLog, 1)
    ensures r.Some? ==> (r.value.auditLog[0].action == "visitor_created"
              && r.value.auditLog[0].severity == Low && r.value.auditLog[0].category == VisitorManagement)
    ensures r.Some? ==> (r.value.preApprovals == s.preApprovals && r.value.hosts == s.hosts
              && r.value.rules == s.rules)
  {
    if !CanCreateWalkInVisit(s) then None
    else
      var v := NewVisitor(d, now);
      Some(AddAuditEntry(s.(visitors := s.visitors + [v]), VisitorCreatedEntry(v), now))
  }

  function VisitorCreatedEntry(v: Visitor): AuditDraft {
    AuditDraft("visitor_created", "system", "System", "system", Some(v.id), Some(v.name),
               "New visitor " + v.name + " registered for check-in",
               "system", Low, VisitorManagement)
  }

  /** `visitors.find(v => v.id === id)`. */
  function FindVisitor(vs: seq<Visitor>, id: string): (r: Option<Visitor>)
    ensures r.Some? ==> r.value in vs && r.value.id == id
    ensures r.Some? ==> exists k :: 0 <= k < |vs| && vs[k] == r.value && forall i :: 0 <= i < k ==> vs[i].id != id
    ensures r.None? <==> forall k :: 0 <= k < |vs| ==> vs[k].id != id
  {
    if vs == [] then None
    else if vs[0].id == id then (assert vs[0] == vs[0]; Some(vs[0]))
    else
      var r := FindVisitor(vs[1..], id);
      if r.Some? then
        var k :| 0 <= k < |vs[1..]| && vs[1..][k] == r.value && forall i :: 0 <= i < k ==> vs[1..][i].id != id;
        assert vs[k + 1] == r.value;
        r
      else r
  }

  // ---------------------------------------------------------------- check-in updates

  /** A Partial<VisitorCheckIn> as the handlers send it: the keys present are the ones to overwrite. */
  datatype CheckInPatch = CheckInPatch(
    status: Option<CheckInStatus>,
    checkOutTime: Option<int>,
    badgeNumber: Option<string>,
    qrCode: Option<string>,
    approvedAt: Option<int>,
    approvedBy: Option<string>,
    deniedAt: Option<int>,
    deniedBy: Option<string>,
    denialReason: Option<string>,
    preApprovalId: Option<string>)

  const NoChanges := CheckInPatch(None, None, None, None, None, None, None, None, None, None)

  /** A present key overwrites, an absent one keeps the old value. */
  function Over<T>(patch: Option<T>, cur: Option<T>): Option<T> {
    if patch.Some? then patch else cur
  }

  /** `{ ...checkIn, ...updates }`. */
  function Merge(c: CheckIn, p: CheckInPatch): CheckIn {
    c.(status := p.status.GetOr(c.status),
       checkOutTime := Over(p.checkOutTime, c.checkOutTime),
       badgeNumber := Over(p.badgeNumber, c.badgeNumber),
       qrCode := Over(p.qrCode, c.qrCode),
       approvedAt := Over(p.approvedAt, c.approvedAt),
       approvedBy := Over(p.approvedBy, c.approvedBy),
       deniedAt := Over(p.deniedAt, c.deniedAt),
       deniedBy := Over(p.deniedBy, c.deniedBy),
       denialReason := Over(p.denialReason, c.denialReason),
       preApprovalId := Over(p.preApprovalId, c.preApprovalId))
  }

  /** `VMS${String(Date.now()).slice(-3)}`. */
  function BadgeNumber(now: nat): (b: string)
    ensures 4 <= |b| <= 6 && b[..3] == "VMS"
  {
    "VMS" + Last(Decimal(now), 3)
  }

  /** The badge number repeats every second: two approvals 1000 ms apart get the same badge. */
  lemma {:induction false} BadgeNumberRepeatsEverySecond(now: nat)
    requires now >= 100
    ensures BadgeNumber(now) == BadgeNumber(now + 1000)
  {
    LastThreeDigits(now);
    LastThreeDigits(now + 1000);
    assert (now + 1000) / 100 % 10 == now / 100 % 10;
    assert (now + 1000) / 10 % 10 == now / 10 % 10;
  }

  /**
   * The update of one matching check-in: the payload is merged over the record; when the
   * payload approves and the merged record has no (or an empty) badge number, one is generated
   * from the clock together with its QR payload. The fields the payload cannot carry are kept.
   */
  function ApplyPatch(c: CheckIn, p: CheckInPatch, now: nat): (r: CheckIn)
    ensures r.id == c.id && r.hostId == c.hostId && r.hostName == c.hostName
    ensures r.checkInTime == c.checkInTime && r.purpose == c.purpose && r.governmentId == c.governmentId
    ensures r.status == p.status.GetOr(c.status)
    ensures r.checkOutTime == Over(p.checkOutTime, c.checkOutTime)
    ensures r.approvedAt == Over(p.approvedAt, c.approvedAt)
    ensures r.approvedBy == Over(p.approvedBy, c.approvedBy)
    ensures r.deniedAt == Over(p.deniedAt, c.deniedAt) && r.deniedBy == Over(p.deniedBy, c.deniedBy)
    ensures r.denialReason == Over(p.denialReason, c.denialReason) && r.preApprovalId == Over(p.preApprovalId, c.preApprovalId)
    ensures r.estimatedWaitTime == c.estimatedWaitTime && r.isPreApproved == c.isPreApproved
    ensures r.securityOfficerId == c.securityOfficerId && r.securityOfficerName == c.securityOfficerName
    ensures p.status == Some(Approved) ==> Truthy(r.badgeNumber)
    ensures p.status == Some(Approved) && !Truthy(Over(p.badgeNumber, c.badgeNumber)) ==>
              r.badgeNumber == Some(BadgeNumber(now)) && r.qrCode == Some("QR_" + BadgeNumber(now))
    ensures Truthy(Over(p.badgeNumber, c.badgeNumber)) || p.status != Some(Approved) ==>
              r.badgeNumber == Over(p.badgeNumber, c.badgeNumber) && r.qrCode == Over(p.qrCode, c.qrCode)
  {
    var m := Merge(c, p);
    if p.status == Some(Approved) && !Truthy(m.badgeNumber) then
      m.(badgeNumber := Some(BadgeNumber(now)), qrCode := Some("QR_" + BadgeNumber(now)))
    else m
  }

  /** The inner `map` over one visitor's check-ins. */
  function UpdateCheckIns(cs: seq<CheckIn>, checkInId: string, p: CheckInPatch, now: nat): (r: seq<CheckIn>)
    ensures |r| == |cs|
    ensures forall k :: 0 <= k < |cs| && cs[k].id == checkInId ==> r[k] == ApplyPatch(cs[k], p, now)
    ensures forall k :: 0 <= k < |cs| && cs[k].id != checkInId ==> r[k] == cs[k]
  {
    seq(|cs|, k requires 0 <= k < |cs| => if cs[k].id == checkInId then ApplyPatch(cs[k], p, now) else cs[k])
  }

  /** The outer `map` over the visitors: the matching visitor's check-ins are updated and its `lastVisit` set. */
  function UpdateVisitors(vs: seq<Visitor>, visitorId: string, checkInId: string, p: CheckInPatch, now: nat): (r: seq<Visitor>)
    ensures |r| == |vs|
    ensures forall k :: 0 <= k < |vs| && vs[k].id == visitorId ==>
              r[k] == vs[k].(checkIns := UpdateCheckIns(vs[k].checkIns, checkInId, p, now), lastVisit := Some(now))
    ensures forall k :: 0 <= k < |vs| && vs[k].id != visitorId ==> r[k] == vs[k]
  {
    seq(|vs|, k requires 0 <= k < |vs| =>
      if vs[k].id == visitorId
      then vs[k].(checkIns := UpdateCheckIns(vs[k].checkIns, checkInId, p, now), lastVisit := Some(now))
      else vs[k])
  }

  /** The pre-approval `map` of `updateVisitorCheckIn`: the linked record becomes used, with the payload's badge. */
  function ConsumePreApprovals(pas: seq<PreApproval>, id: string, visitorId: string, badge: Option<string>, now: nat): (r: seq<PreApproval>)
    ensures |r| == |pas|
    ensures forall k :: 0 <= k < |pas| && pas[k].id == id ==>
              r[k] == pas[k].(status := Used, usedAt := Some(now), approvedVisitorId := Some(visitorId), badgeNumber := badge)
    ensures forall k :: 0 <= k < |pas| && pas[k].id != id ==> r[k] == pas[k]
  {
    seq(|pas|, k requires 0 <= k < |pas| =>
      if pas[k].id == id
      then pas[k].(status := Used, usedAt := Some(now), approvedVisitorId := Some(visitorId), badgeNumber := badge)
      else pas[k])
  }

  /** The audit entry `updateVisitorCheckIn` writes for a payload that carries a status. */
  function StatusChangeEntry(vs: seq<Visitor>, visitorId: string, p: CheckInPatch): AuditDraft
    requires p.status.Some?
  {
    var actor := OrElse(p.approvedBy, OrElse(p.deniedBy, "system"));
    var actorName := OrElse(p.approvedBy, OrElse(p.deniedBy, "System"));
    AuditDraft("visitor_" + p.status.value.Name(), actor, actorName, "user", Some(visitorId),
               Some(VisitorNameOrUnknown(vs, visitorId)),
               "Visitor status changed to " + p.status.value.Name()
                 + (if Truthy(p.denialReason) then " - Reason: " + p.denialReason.value else ""),
               "192.168.1.100",
               if p.status.value == Denied then Medium else Low,
               VisitorManagement)
  }

  /** The payload approves and names a linked pre-approval. */
  predicate ConsumesPreApproval(p: CheckInPatch) {
    p.status == Some(Approved) && Truthy(p.preApprovalId)
  }

  /**
   * `updateVisitorCheckIn`: whatever the current status, the payload is applied to every
   * check-in with the id inside every visitor with the id. The linked pre-approval becomes used
   * only for an approving payload that names it; exactly one audit entry is added exactly when
   * the payload carries a status.
   */
  function UpdateVisitorCheckIn(s: State, visitorId: string, checkInId: string, p: CheckInPatch, now: nat): (r: State)
    ensures r.visitors == UpdateVisitors(s.visitors, visitorId, checkInId, p, now)
    ensures ConsumesPreApproval(p) ==>
              r.preApprovals == ConsumePreApprovals(s.preApprovals, p.preApprovalId.value, visitorId, p.badgeNumber, now)
    ensures !ConsumesPreApproval(p) ==> r.preApprovals == s.preApprovals
    ensures Prepended(r.auditLog, s.auditLog, if p.status.Some? then 1 else 0)
    ensures p.status.Some? ==> r.auditLog[0].action == "visitor_" + p.status.value.Name()
    ensures p.status.Some? ==> r.auditLog[0].severity == (if p.status.value == Denied then Medium else Low)
    ensures r.hosts == s.hosts && r.rules == s.rules
  {
    var s1 := s.(visitors := UpdateVisitors(s.visitors, visitorId, checkInId, p, now));
    var s2 := if ConsumesPreApproval(p)
              then s1.(preApprovals := ConsumePreApprovals(s1.preApprovals, p.preApprovalId.value, visitorId, p.badgeNumber, now))
              else s1;
    if p.status.Some? then AddAuditEntry(s2, StatusChangeEntry(s.visitors, visitorId, p), now) else s2
  }

  /** The payload of `cancelCheckIn`. */
  function CancelPatch(now: nat): CheckInPatch {
    NoChanges.(status := Some(Cancelled), checkOutTime := Some(now))
  }

  /** `cancelCheckIn`: the update with status `cancelled` and a check-out time. */
  function CancelCheckIn(s: State, visitorId: string, checkInId: string, now: nat): (r: State)
    ensures |r.visitors| == |s.visitors|
    ensures forall k :: 0 <= k < |s.visitors| && s.visitors[k].id == visitorId ==>
              |r.visitors[k].checkIns| == |s.visitors[k].checkIns| &&
              forall j :: 0 <= j < |s.visitors[k].checkIns| && s.visitors[k].checkIns[j].id == checkInId ==>
                r.visitors[k].checkIns[j].status == Cancelled && r.visitors[k].checkIns[j].checkOutTime == Some(now)
    ensures r == UpdateVisitorCheckIn(s, visitorId, checkInId, CancelPatch(now), now)
    ensures r.visitors == UpdateVisitors(s.visitors, visitorId, checkInId, CancelPatch(now), now)
    ensures r.preApprovals == s.preApprovals && r.hosts == s.hosts && r.rules == s.rules
    ensures Prepended(r.auditLog, s.auditLog, 1) && r.auditLog[0].action == "visitor_cancelled"
  {
    UpdateVisitorCheckIn(s, visitorId, checkInId, CancelPatch(now), now)
  }

  // ---------------------------------------------------------------- pre-approvals

  /** The fields a caller of `addPreApproval` supplies (those the host page sends). */
  datatype PreApprovalDraft = PreApprovalDraft(
    visitorName: string,
    visitorEmail: string,
    visitorPhone: string,
    visitorCompany: string,
    hostId: string,
    hostName: string,
    scheduledDate: int,
    purpose: string,
    status: PreApprovalStatus,
    expiresAt: int)

  /** `PA-${Date.now().toString().slice(-6).toUpperCase()}` (digits have no case). */
  function AccessCode(now: nat): (code: string)
    ensures 4 <= |code| <= 9 && code[..3] == "PA-"
  {
    "PA-" + Last(Decimal(now), 6)
  }

  /** The expiry instant: the scheduled instant plus the configured number of hours. */
  function ExpiryFor(scheduledDate: int, rules: SystemRules): int {
    scheduledDate + rules.autoExpirePreApprovalsAfter * MsPerHour
  }

  function NewPreApproval(d: PreApprovalDraft, rules: SystemRules, now: nat): PreApproval {
    var code := AccessCode(now);
    PreApproval(Decimal(now), d.visitorName, d.visitorEmail, d.visitorPhone, d.visitorCompany,
                d.hostId, d.hostName, d.scheduledDate, d.purpose, d.status,
                ExpiryFor(d.scheduledDate, rules), now, None, Some(code), Some("QR_" + code),
                Some(false), Some(false), Some([]), None, None)
  }

  /**
   * `addPreApproval`: one record appended whose expiry is computed from the rules, whatever
   * expiry the caller sent, with a fresh access code and its QR payload, no notification sent
   * yet and no reminders; one `preapproval_created` entry logged.
   */
  function AddPreApproval(s: State, d: PreApprovalDraft, now: nat): (r: State)
    ensures |r.preApprovals| == |s.preApprovals| + 1 && r.preApprovals[..|s.preApprovals|] == s.preApprovals
    ensures var pa := r.preApprovals[|s.preApprovals|];
              pa.expiresAt == d.scheduledDate + s.rules.autoExpirePreApprovalsAfter * 3600000
              && pa.status == d.status && pa.hostId == d.hostId && pa.scheduledDate == d.scheduledDate
              && pa.accessCode == Some(AccessCode(now)) && pa.qrCode == Some("QR_" + AccessCode(now))
              && pa.emailSent == Some(false) && pa.smsSent == Some(false) && pa.remindersSent == Some([])
              && pa.usedAt.None? && pa.approvedVisitorId.None? && pa.badgeNumber.None?
    ensures var pa := r.preApprovals[|s.preApprovals|];
              pa.id == Decimal(now) && pa.createdAt == now
              && pa.visitorName == d.visitorName && pa.visitorEmail == d.visitorEmail
              && pa.visitorPhone == d.visitorPhone && pa.visitorCompany == d.visitorCompany
              && pa.hostName == d.hostName && pa.purpose == d.purpose
    ensures Prepended(r.auditLog, s.auditLog, 1) && r.auditLog[0].action == "preapproval_created"
    ensures r.visitors == s.visitors && r.hosts == s.hosts && r.rules == s.rules
  {
    var pa := NewPreApproval(d, s.rules, now);
    AddAuditEntry(s.(preApprovals := s.preApprovals + [pa]), PreApprovalCreatedEntry(pa), now)
  }

  function PreApprovalCreatedEntry(pa: PreApproval): AuditDraft {
    AuditDraft("preapproval_created", pa.hostId, pa.hostName, "host", None, Some(pa.visitorName),
               "Pre-approval created for " + pa.visitorName + ", expires at " + IntText(pa.expiresAt),
               "192.168.1.100", Low, VisitorManagement)
  }

  /**
   * The deferred part of `addPreApproval`: the e-mail and then the SMS go out (the notifier
   * always reports success, each logging `notification_sent_<type>` at its own clock reading),
   * then the record with the id is flagged as notified.
   */
  function CompletePreApprovalDispatch(s: State, id: string, email: string, phone: string, emailAt: nat, smsAt: nat): (r: State)
    ensures |r.preApprovals| == |s.preApprovals|
    ensures forall k :: 0 <= k < |s.preApprovals| && s.preApprovals[k].id == id ==>
              r.preApprovals[k] == s.preApprovals[k].(emailSent := Some(true), smsSent := Some(true))
    ensures forall k :: 0 <= k < |s.preApprovals| && s.preApprovals[k].id != id ==> r.preApprovals[k] == s.preApprovals[k]
    ensures Prepended(r.auditLog, s.auditLog, 2)
    ensures r.auditLog[0].action == "notification_sent_sms" && r.auditLog[0].timestamp == smsAt
    ensures r.auditLog[1].action == "notification_sent_email" && r.auditLog[1].timestamp == emailAt
    ensures r.visitors == s.visitors && r.hosts == s.hosts && r.rules == s.rules
  {
    var s1 := AddAuditEntry(s, NotificationEntry("email", "EMAIL", email), emailAt);
    var s2 := AddAuditEntry(s1, NotificationEntry("sms", "SMS", phone), smsAt);
    s2.(preApprovals := MarkNotified(s2.preApprovals, id))
  }

  /** The final `map` of the dispatch: the record with the id is flagged as notified by e-mail and SMS. */
  function MarkNotified(pas: seq<PreApproval>, id: string): (r: seq<PreApproval>)
    ensures |r| == |pas|
    ensures forall k :: 0 <= k < |pas| && pas[k].id == id ==> r[k] == pas[k].(emailSent := Some(true), smsSent := Some(true))
    ensures forall k :: 0 <= k < |pas| && pas[k].id != id ==> r[k] == pas[k]
  {
    seq(|pas|, k requires 0 <= k < |pas| =>
      if pas[k].id == id then pas[k].(emailSent := Some(true), smsSent := Some(true)) else pas[k])
  }

  /** The entry `sendNotification` logs for one message. */
  function NotificationEntry(kind: string, shout: string, recipient: string): AuditDraft {
    AuditDraft("notification_sent_" + kind, "system", "Notification System", "system", None, None,
               shout + " notification sent to " + recipient, "system", Low, SystemCategory)
  }

  /**
   * `usePreApproval`: every record with the id becomes used, whatever its status and however
   * far past its expiry; one `preapproval_used` entry logged.
   */
  function UsePreApproval(s: State, id: string, visitorId: string, now: nat): (r: State)
    ensures |r.preApprovals| == |s.preApprovals|
    ensures forall k :: 0 <= k < |s.preApprovals| && s.preApprovals[k].id == id ==>
              r.preApprovals[k] == s.preApprovals[k].(status := Used, usedAt := Some(now), approvedVisitorId := Some(visitorId))
    ensures forall k :: 0 <= k < |s.preApprovals| && s.preApprovals[k].id != id ==> r.preApprovals[k] == s.preApprovals[k]
    ensures Prepended(r.auditLog, s.auditLog, 1) && r.auditLog[0].action == "preapproval_used"
    ensures r.visitors == s.visitors && r.hosts == s.hosts && r.rules == s.rules
  {
    AddAuditEntry(s.(preApprovals := MarkUsed(s.preApprovals, id, visitorId, now)), PreApprovalUsedEntry(id, visitorId), now)
  }

  /** The `updatePreApproval` call inside `usePreApproval`. */
  function MarkUsed(pas: seq<PreApproval>, id: string, visitorId: string, now: nat): (r: seq<PreApproval>)
    ensures |r| == |pas|
    ensures forall k :: 0 <= k < |pas| && pas[k].id == id ==>
              r[k] == pas[k].(status := Used, usedAt := Some(now), approvedVisitorId := Some(visitorId))
    ensures forall k :: 0 <= k < |pas| && pas[k].id != id ==> r[k] == pas[k]
  {
    seq(|pas|, k requires 0 <= k < |pas| =>
      if pas[k].id == id then pas[k].(status := Used, usedAt := Some(now), approvedVisitorId := Some(visitorId))
      else pas[k])
  }

  function PreApprovalUsedEntry(id: string, visitorId: string): AuditDraft {
    AuditDraft("preapproval_used", visitorId, "Visitor", "visitor", Some(id), Some("Pre-approval"),
               "Pre-approval " + id + " used for check-in", "192.168.1.100", Low, VisitorManagement)
  }

  // ---------------------------------------------------------------- blacklist

  function SetBlacklist(vs: seq<Visitor>, visitorId: string, flag: bool, reason: Option<string>): (r: seq<Visitor>)
    ensures |r| == |vs|
    ensures forall k :: 0 <= k < |vs| && vs[k].id == visitorId ==>
              r[k] == vs[k].(isBlacklisted := Some(flag), blacklistReason := reason)
    ensures forall k :: 0 <= k < |vs| && vs[k].id != visitorId ==> r[k] == vs[k]
  {
    seq(|vs|, k requires 0 <= k < |vs| =>
      if vs[k].id == visitorId then vs[k].(isBlacklisted := Some(flag), blacklistReason := reason) else vs[k])
  }

  /** `blacklistVisitor`: the visitor is flagged with the reason; a high-severity security entry is logged. */
  function BlacklistVisitor(s: State, visitorId: string, reason: string, now: nat): (r: State)
    ensures r.visitors == SetBlacklist(s.visitors, visitorId, true, Some(reason))
    ensures Prepended(r.auditLog, s.auditLog, 1) && r.auditLog[0].action == "visitor_blacklisted"
    ensures r.auditLog[0].severity == High && r.auditLog[0].category == SecurityCategory
    ensures r.preApprovals == s.preApprovals && r.hosts == s.hosts && r.rules == s.rules
  {
    AddAuditEntry(
      s.(visitors := SetBlacklist(s.visitors, visitorId, true, Some(reason))),
      BlacklistEntry(s.visitors, visitorId, "visitor_blacklisted", "Visitor blacklisted: " + reason, High),
      now)
  }

  /** The security entry of a blacklist change; the target is named as found before the change. */
  function BlacklistEntry(vs: seq<Visitor>, visitorId: string, action: string, details: string, severity: Severity): AuditDraft {
    AuditDraft(action, "admin", "Admin", "admin", Some(visitorId), Some(VisitorNameOrUnknown(vs, visitorId)),
               details, "192.168.1.100", severity, SecurityCategory)
  }

  /** `visitor?.name || 'Unknown'`. */
  function VisitorNameOrUnknown(vs: seq<Visitor>, visitorId: string): string {
    var found := FindVisitor(vs, visitorId);
    if found.Some? && found.value.name != "" then found.value.name else "Unknown"
  }

  /** `removeFromBlacklist`: the flag is cleared and the reason dropped; a medium-severity security entry is logged. */
  function RemoveFromBlacklist(s: State, visitorId: string, now: nat): (r: State)
    ensures r.visitors == SetBlacklist(s.visitors, visitorId, false, None)
    ensures Prepended(r.auditLog, s.auditLog, 1) && r.auditLog[0].action == "visitor_unblacklisted"
    ensures r.auditLog[0].severity == Medium && r.auditLog[0].category == SecurityCategory
    ensures r.preApprovals == s.preApprovals && r.hosts == s.hosts && r.rules == s.rules
  {
    AddAuditEntry(
      s.(visitors := SetBlacklist(s.visitors, visitorId, false, None)),
      BlacklistEntry(s.visitors, visitorId, "visitor_unblacklisted", "Visitor removed from blacklist", Medium),
      now)
  }
}
