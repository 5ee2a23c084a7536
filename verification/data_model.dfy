/**
 * The records of the visitor-management store (src/contexts/DataContext.tsx, interfaces
 * VisitorCheckIn, Visitor, PreApproval, Host, AuditEntry, SystemRules), with instants as
 * integer milliseconds since the epoch and optional fields as `Option`.
 */
module DataModel {
  import opened Wrappers

  const MsPerMinute: int := 60000
  const MsPerHour: int := 3600000
  const MsPerDay: int := 86400000

  datatype CheckInStatus = Pending | Approved | Denied | CheckedOut | Cancelled {
    /** The status string stored and shown by the application. */
    function Name(): string {
      match this
      case Pending => "pending"
      case Approved => "approved"
      case Denied => "denied"
      case CheckedOut => "checked-out"
      case Cancelled => "cancelled"
    }

    /** The states of the intended lifecycle from which no transition should leave. */
    predicate IsTerminal() {
      Denied? || CheckedOut? || Cancelled?
    }
  }

  datatype GovernmentId = GovernmentId(kind: string, number: string, verified: bool)

  /** One visit of a visitor. */
  datatype CheckIn = CheckIn(
    id: string,
    hostId: string,
    hostName: string,
    status: CheckInStatus,
    checkInTime: int,
    checkOutTime: Option<int>,
    purpose: string,
    badgeNumber: Option<string>,
    qrCode: Option<string>,
    estimatedWaitTime: Option<int>,
    securityOfficerId: Option<string>,
    securityOfficerName: Option<string>,
    governmentId: Option<GovernmentId>,
    approvedAt: Option<int>,
    approvedBy: Option<string>,
    deniedAt: Option<int>,
    deniedBy: Option<string>,
    denialReason: Option<string>,
    isPreApproved: Option<bool>,
    preApprovalId: Option<string>)
  {
    /** Approved and not yet checked out: the visitor is in the building. */
    predicate IsOpenApproved() {
      status == Approved && checkOutTime.None?
    }
  }

  datatype Visitor = Visitor(
    id: string,
    name: string,
    email: Option<string>,
    phone: string,
    company: Option<string>,
    photoUrl: Option<string>,
    governmentId: Option<GovernmentId>,
    checkIns: seq<CheckIn>,
    createdAt: int,
    lastVisit: Option<int>,
    totalVisits: int,
    isBlacklisted: Option<bool>,
    blacklistReason: Option<string>)

  /** `'cancelled'` of a pre-approval is `Withdrawn` here, to keep it apart from the check-in status. */
  datatype PreApprovalStatus = Active | Used | Expired | Withdrawn

  datatype PreApproval = PreApproval(
    id: string,
    visitorName: string,
    visitorEmail: string,
    visitorPhone: string,
    visitorCompany: string,
    hostId: string,
    hostName: string,
    scheduledDate: int,
    purpose: string,
    status: PreApprovalStatus,
    expiresAt: int,
    createdAt: int,
    usedAt: Option<int>,
    accessCode: Option<string>,
    qrCode: Option<string>,
    emailSent: Option<bool>,
    smsSent: Option<bool>,
    remindersSent: Option<seq<int>>,
    badgeNumber: Option<string>,
    approvedVisitorId: Option<string>)

  datatype Host = Host(
    id: string,
    name: string,
    email: string,
    password: Option<string>,
    department: string,
    isActive: bool,
    isApproved: bool,
    maxVisitorsPerDay: int,
    createdAt: int,
    approvedBy: Option<string>,
    approvedAt: Option<int>)
  {
    /** A host visitors may select: approved and active. */
    predicate IsVisitable() {
      isApproved && isActive
    }
  }

  /**
   * A self-registered host as kept in the browser's storage under 'vms_registered_hosts'
   * (the JSON record that src/components/HostRegistration.tsx writes and the admin page edits).
   */
  datatype StoredHost = StoredHost(
    id: string,
    name: string,
    email: string,
    password: string,
    department: string,
    isActive: bool,
    isApproved: bool,
    maxVisitorsPerDay: int,
    createdAt: int,
    approvedBy: Option<string>,
    approvedAt: Option<int>)

  datatype Severity = Low | Medium | High | Critical

  datatype Category = VisitorManagement | UserManagement | SecurityCategory | SystemCategory

  datatype AuditEntry = AuditEntry(
    id: string,
    timestamp: int,
    action: string,
    actorId: string,
    actorName: string,
    actorRole: string,
    targetId: Option<string>,
    targetName: Option<string>,
    details: string,
    ipAddress: string,
    severity: Severity,
    category: Category)

  datatype SystemRules = SystemRules(
    maxVisitorsPerHostPerDay: int,
    requirePreApprovalForExternalVisitors: bool,
    maxWaitTimeBeforeAlert: int,
    autoExpirePreApprovalsAfter: int,
    requireGovernmentId: bool,
    allowWalkInVisitors: bool)

  /** The rules the store starts with. */
  const DefaultRules := SystemRules(5, false, 15, 24, true, true)

  /** JavaScript truthiness of an optional string: absent and empty are both false. */
  predicate Truthy(s: Option<string>) {
    s.Some? && s.value != ""
  }

  /** `a || b` on an optional string with a string fallback. */
  function OrElse(a: Option<string>, b: string): (r: string)
    ensures Truthy(a) ==> r == a.value
    ensures !Truthy(a) ==> r == b
  {
    if Truthy(a) then a.value else b
  }

  /** The user signed in to the application (src/contexts/AuthContext.tsx, interface User). */
  datatype Role = SecurityRole | HostRole | AdminRole

  datatype User = User(id: string, name: string, email: string, role: Role, department: Option<string>)
}
