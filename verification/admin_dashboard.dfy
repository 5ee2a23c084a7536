/**
 * The administrator's dashboard (src/pages/AdminDashboard.tsx): the queue of hosts awaiting
 * approval, the Approve and Deny buttons, which edit both the store and the browser's
 * registration list, the rule editors and the host status label.
 */
module AdminDashboard {
  import opened Wrappers
  import opened Text
  import opened Seqs
  import opened DataModel
  import opened DataMutations
  import opened DataContext
  import opened BrowserStorage

  /** An entry of the approval queue: a store host or a record from the registration list. */
  datatype PendingHost = StoreHost(host: Host) | ListedHost(record: StoredHost) {
    /** `host.id || host.email`: the key the password box and both buttons use. */
    function Key(): string {
      match this
      case StoreHost(h) => if h.id != "" then h.id else h.email
      case ListedHost(h) => if h.id != "" then h.id else h.email
    }
  }

  function Unapproved(hosts: seq<Host>): (r: seq<Host>)
    ensures forall k :: 0 <= k < |r| ==> !r[k].isApproved && r[k] in hosts
    ensures forall k :: 0 <= k < |hosts| && !hosts[k].isApproved ==> hosts[k] in r
  {
    var p := (h: Host) => !h.isApproved;
    var r := Filter(hosts, p);
    assert forall k :: 0 <= k < |r| ==> p(r[k]);
    r
  }

  function UnapprovedListed(rs: seq<StoredHost>): (r: seq<StoredHost>)
    ensures forall k :: 0 <= k < |r| ==> !r[k].isApproved && r[k] in rs
    ensures forall k :: 0 <= k < |rs| && !rs[k].isApproved ==> rs[k] in r
  {
    var p := (h: StoredHost) => !h.isApproved;
    var r := Filter(rs, p);
    assert forall k :: 0 <= k < |r| ==> p(r[k]);
    r
  }

  /** `pendingHosts`: the unapproved store hosts, then the unapproved listed records, without merging. */
  function PendingHosts(hosts: seq<Host>, rs: seq<StoredHost>): (r: seq<PendingHost>)
    ensures |r| == |Unapproved(hosts)| + |UnapprovedListed(rs)|
    ensures forall k :: 0 <= k < |Unapproved(hosts)| ==> r[k] == StoreHost(Unapproved(hosts)[k])
    ensures forall k :: |Unapproved(hosts)| <= k < |r| ==> r[k] == ListedHost(UnapprovedListed(rs)[k - |Unapproved(hosts)|])
  {
    var a := Unapproved(hosts);
    var b := UnapprovedListed(rs);
    seq(|a|, k requires 0 <= k < |a| => StoreHost(a[k])) + seq(|b|, k requires 0 <= k < |b| => ListedHost(b[k]))
  }

  /** Every unapproved host of either source is in the queue, so one self-registration shows up twice. */
  lemma {:induction false} PendingHostsComplete(hosts: seq<Host>, rs: seq<StoredHost>)
    ensures forall k :: 0 <= k < |hosts| && !hosts[k].isApproved ==> StoreHost(hosts[k]) in PendingHosts(hosts, rs)
    ensures forall k :: 0 <= k < |rs| && !rs[k].isApproved ==> ListedHost(rs[k]) in PendingHosts(hosts, rs)
  {
    var a := Unapproved(hosts);
    var b := UnapprovedListed(rs);
    var r := PendingHosts(hosts, rs);
    forall k | 0 <= k < |hosts| && !hosts[k].isApproved ensures StoreHost(hosts[k]) in r {
      var i :| 0 <= i < |a| && a[i] == hosts[k];
      assert r[i] == StoreHost(hosts[k]);
    }
    forall k | 0 <= k < |rs| && !rs[k].isApproved ensures ListedHost(rs[k]) in r {
      var i :| 0 <= i < |b| && b[i] == rs[k];
      assert r[|a| + i] == ListedHost(rs[k]);
    }
  }

  /** Who the page records as approver. */
  const AdminName := "Admin User"

  /** The key matches a listed record by its id or by its e-mail. */
  predicate MatchesKey(h: StoredHost, key: string) {
    h.id == key || h.email == key
  }

  /** The list edit of `handleApproveHost`: every record the key matches is approved with the password. */
  function ApproveListed(rs: seq<StoredHost>, key: string, password: string, now: nat): (r: seq<StoredHost>)
    ensures |r| == |rs|
    ensures forall k :: 0 <= k < |rs| && MatchesKey(rs[k], key) ==>
              r[k] == rs[k].(isApproved := true, password := password, approvedBy := Some(AdminName), approvedAt := Some(now))
    ensures forall k :: 0 <= k < |rs| && !MatchesKey(rs[k], key) ==> r[k] == rs[k]
  {
    seq(|rs|, k requires 0 <= k < |rs| =>
      if MatchesKey(rs[k], key)
      then rs[k].(isApproved := true, password := password, approvedBy := Some(AdminName), approvedAt := Some(now))
      else rs[k])
  }

  /** The list edit of `handleDenyHost`: every record the key matches is dropped, the rest keep their order. */
  function DenyListed(rs: seq<StoredHost>, key: string): (r: seq<StoredHost>)
    ensures IsSubsequence(r, rs)
    ensures forall k :: 0 <= k < |r| ==> !MatchesKey(r[k], key)
    ensures forall k :: 0 <= k < |rs| && !MatchesKey(rs[k], key) ==> rs[k] in r
  {
    var p := (h: StoredHost) => !MatchesKey(h, key);
    FilterIsSubsequence(rs, p);
    var r := Filter(rs, p);
    assert forall k :: 0 <= k < |r| ==> p(r[k]);
    r
  }

  /** The password box holds something for the key: `hostPasswords[key]` is truthy. */
  predicate HasPassword(passwords: map<string, string>, key: string) {
    key in passwords && passwords[key] != ""
  }

  /** One rule input of the rules tab: each sends a patch with exactly its own key. */
  datatype RuleEdit =
    | MaxVisitorsEdit(maxVisitors: int)
    | MaxWaitEdit(maxWait: int)
    | ExpiryEdit(hours: int)
    | PreApprovalEdit(requirePreApproval: bool)
    | GovernmentIdEdit(requireId: bool)
    | WalkInEdit(allowWalkIns: bool)
  {
    /** The rule's property name. */
    function Key(): string {
      match this
      case MaxVisitorsEdit(_) => "maxVisitorsPerHostPerDay"
      case MaxWaitEdit(_) => "maxWaitTimeBeforeAlert"
      case ExpiryEdit(_) => "autoExpirePreApprovalsAfter"
      case PreApprovalEdit(_) => "requirePreApprovalForExternalVisitors"
      case GovernmentIdEdit(_) => "requireGovernmentId"
      case WalkInEdit(_) => "allowWalkInVisitors"
    }

    /** The patch the input sends. */
    function Patch(): RulesPatch {
      var none := RulesPatch(None, None, None, None, None, None);
      match this
      case MaxVisitorsEdit(n) => none.(maxVisitorsPerHostPerDay := Some(n))
      case MaxWaitEdit(n) => none.(maxWaitTimeBeforeAlert := Some(n))
      case ExpiryEdit(n) => none.(autoExpirePreApprovalsAfter := Some(n))
      case PreApprovalEdit(b) => none.(requirePreApprovalForExternalVisitors := Some(b))
      case GovernmentIdEdit(b) => none.(requireGovernmentId := Some(b))
      case WalkInEdit(b) => none.(allowWalkInVisitors := Some(b))
    }

    /** The rules with this one setting changed. */
    function AppliedTo(rules: SystemRules): SystemRules {
      match this
      case MaxVisitorsEdit(n) => rules.(maxVisitorsPerHostPerDay := n)
      case MaxWaitEdit(n) => rules.(maxWaitTimeBeforeAlert := n)
      case ExpiryEdit(n) => rules.(autoExpirePreApprovalsAfter := n)
      case PreApprovalEdit(b) => rules.(requirePreApprovalForExternalVisitors := b)
      case GovernmentIdEdit(b) => rules.(requireGovernmentId := b)
      case WalkInEdit(b) => rules.(allowWalkInVisitors := b)
    }
  }

  /** One rule input changes exactly that rule and logs its name alone. */
  lemma RuleEditChangesOneRule(s: State, e: RuleEdit, now: nat)
    ensures UpdateSystemRules(s, e.Patch(), now).rules == e.AppliedTo(s.rules)
    ensures UpdateSystemRules(s, e.Patch(), now).auditLog[0].details == "System rules updated: " + e.Key()
  {
    var r := UpdateSystemRules(s, e.Patch(), now);
    assert PatchKeys(e.Patch()) == [e.Key()];
    assert r.auditLog[0] == Stamp(RulesUpdatedEntry(e.Patch()), now);
  }

  /** The status chip's text for a store host. */
  function StatusLabel(h: Host): (text: string)
    ensures text == "Active" <==> h.isApproved && h.isActive
    ensures text == "Inactive" <==> h.isApproved && !h.isActive
    ensures text == "Pending" <==> !h.isApproved
  {
    if h.isApproved then (if h.isActive then "Active" else "Inactive") else "Pending"
  }

  datatype ChipStyle = SuccessChip | GreyChip | WarningChip

  /** The status chip's colour, chosen by its own chain of conditions. */
  function StatusChip(h: Host): ChipStyle {
    if h.isApproved && h.isActive then SuccessChip
    else if h.isApproved && !h.isActive then GreyChip
    else WarningChip
  }

  /** Colour and text always agree. */
  lemma ChipMatchesLabel(h: Host)
    ensures StatusChip(h) == SuccessChip <==> StatusLabel(h) == "Active"
    ensures StatusChip(h) == GreyChip <==> StatusLabel(h) == "Inactive"
    ensures StatusChip(h) == WarningChip <==> StatusLabel(h) == "Pending"
  {
  }

  class AdminPage {
    /** The password boxes of the approval queue, by key. */
    var hostPasswords: map<string, string>

    constructor()
      ensures hostPasswords == map[]
    {
      hostPasswords := map[];
    }

    /** Typing into a password box. */
    method SetPassword(key: string, password: string)
      modifies this
      ensures hostPasswords == old(hostPasswords)[key := password]
    {
      hostPasswords := hostPasswords[key := password];
    }

    /**
     * `handleApproveHost`: without a password for the key nothing happens; otherwise the store
     * approves the host with that id and the list approves every record the key matches.
     */
    method HandleApproveHost(store: DataStore, storage: Storage, key: string, now: nat) returns (approved: bool)
      modifies store, storage
      ensures approved == HasPassword(hostPasswords, key)
      ensures approved ==>
                store.Snapshot() == ApproveHost(old(store.Snapshot()), key, AdminName, hostPasswords[key], now)
                && storage.registeredHosts == ApproveListed(old(storage.registeredHosts), key, hostPasswords[key], now)
      ensures !approved ==> store.Snapshot() == old(store.Snapshot()) && storage.registeredHosts == old(storage.registeredHosts)
      ensures storage.sessionUser == old(storage.sessionUser)
    {
      if !HasPassword(hostPasswords, key) {
        return false;
      }
      var password := hostPasswords[key];
      store.ApproveHost(key, AdminName, password, now);
      storage.registeredHosts := ApproveListed(storage.registeredHosts, key, password, now);
      approved := true;
    }

    /**
     * `handleDenyHost`: the records the key matches leave the registration list, which outlives
     * the page; the page then reloads, so the store is rebuilt from its initial state and the
     * password boxes start empty. The store's hosts are never edited, only discarded.
     */
    method HandleDenyHost(store: DataStore, storage: Storage, key: string)
      modifies this, store, storage
      ensures storage.registeredHosts == DenyListed(old(storage.registeredHosts), key)
      ensures storage.sessionUser == old(storage.sessionUser)
      ensures store.Snapshot() == InitialState && hostPasswords == map[]
    {
      storage.registeredHosts := DenyListed(storage.registeredHosts, key);
      store.Reload();
      hostPasswords := map[];
    }

    /** `handleUpdateRules` for one rule input. */
    method HandleUpdateRules(store: DataStore, e: RuleEdit, now: nat)
      modifies store
      ensures store.Snapshot() == UpdateSystemRules(old(store.Snapshot()), e.Patch(), now)
    {
      store.UpdateSystemRules(e.Patch(), now);
    }
  }
}
