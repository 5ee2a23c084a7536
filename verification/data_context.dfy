/**
 * The store object itself (src/contexts/DataContext.tsx): five pieces of state that each
 * mutator replaces piece by piece, and the query methods that build their listings with
 * loops. Every mutator is proved to produce exactly the state the matching transition of
 * `DataMutations` describes; every listing method is proved to return exactly the listing
 * `DataViews` describes.
 */
module DataContext {
  import opened Wrappers
  import opened Text
  import opened DataModel
  import opened DataMutations
  import opened DataViews
  import opened BrowserStorage

  class DataStore {
    var visitors: seq<Visitor>
    var preApprovals: seq<PreApproval>
    var hosts: seq<Host>
    var auditLog: seq<AuditEntry>
    var rules: SystemRules

    /** The store's state as one value. */
    function Snapshot(): State
      reads this
    {
      State(visitors, preApprovals, hosts, auditLog, rules)
    }

    /** A fresh store holds no records and the default rules. */
    constructor()
      ensures Snapshot() == InitialState
    {
      visitors, preApprovals, hosts, auditLog := [], [], [], [];
      rules := DefaultRules;
    }

    /** A page reload rebuilds the provider: every piece of state is back at its initial value. */
    method Reload()
      modifies this
      ensures Snapshot() == InitialState
    {
      visitors, preApprovals, hosts, auditLog := [], [], [], [];
      rules := DefaultRules;
    }

    method AddAuditEntry(d: AuditDraft, now: nat)
      modifies this
      ensures Snapshot() == DataMutations.AddAuditEntry(old(Snapshot()), d, now)
    {
      auditLog := [Stamp(d, now)] + auditLog;
    }

    method AddHost(d: HostDraft, now: nat)
      modifies this
      ensures Snapshot() == DataMutations.AddHost(old(Snapshot()), d, now)
    {
      var h := NewHost(d, now);
      hosts := hosts + [h];
      AddAuditEntry(HostRegisteredEntry(h), now);
    }

    method ApproveHost(hostId: string, approvedBy: string, password: string, now: nat)
      modifies this
      ensures Snapshot() == DataMutations.ApproveHost(old(Snapshot()), hostId, approvedBy, password, now)
    {
      var entry := HostApprovedEntry(hosts, hostId, approvedBy);
      hosts := ApproveHosts(hosts, hostId, approvedBy, password, now);
      AddAuditEntry(entry, now);
    }

    method UpdateSystemRules(p: RulesPatch, now: nat)
      modifies this
      ensures Snapshot() == DataMutations.UpdateSystemRules(old(Snapshot()), p, now)
    {
      rules := MergeRules(rules, p);
      AddAuditEntry(RulesUpdatedEntry(p), now);
    }

    /** `addVisitor`; `ok` is false exactly when the call throws, and then nothing changed. */
    method AddVisitor(d: VisitorDraft, now: nat) returns (ok: bool)
      modifies this
      ensures ok == old(rules.allowWalkInVisitors)
      ensures ok ==> Snapshot() == DataMutations.AddVisitor(old(Snapshot()), d, now).value
      ensures !ok ==> Snapshot() == old(Snapshot())
    {
      if !rules.allowWalkInVisitors {
        return false;
      }
      var v := NewVisitor(d, now);
      visitors := visitors + [v];
      AddAuditEntry(VisitorCreatedEntry(v), now);
      ok := true;
    }

    method UpdateVisitorCheckIn(visitorId: string, checkInId: string, p: CheckInPatch, now: nat)
      modifies this
      ensures Snapshot() == DataMutations.UpdateVisitorCheckIn(old(Snapshot()), visitorId, checkInId, p, now)
    {
      var before := visitors;
      visitors := UpdateVisitors(visitors, visitorId, checkInId, p, now);
      if ConsumesPreApproval(p) {
        preApprovals := ConsumePreApprovals(preApprovals, p.preApprovalId.value, visitorId, p.badgeNumber, now);
      }
      if p.status.Some? {
        AddAuditEntry(StatusChangeEntry(before, visitorId, p), now);
      }
    }

    method CancelCheckIn(visitorId: string, checkInId: string, now: nat)
      modifies this
      ensures Snapshot() == DataMutations.CancelCheckIn(old(Snapshot()), visitorId, checkInId, now)
    {
      UpdateVisitorCheckIn(visitorId, checkInId, CancelPatch(now), now);
    }

    method AddPreApproval(d: PreApprovalDraft, now: nat)
      modifies this
      ensures Snapshot() == DataMutations.AddPreApproval(old(Snapshot()), d, now)
    {
      var pa := NewPreApproval(d, rules, now);
      preApprovals := preApprovals + [pa];
      AddAuditEntry(PreApprovalCreatedEntry(pa), now);
    }

    /** The deferred notification step of `addPreApproval`, run once both messages went out. */
    method CompletePreApprovalDispatch(id: string, email: string, phone: string, emailAt: nat, smsAt: nat)
      modifies this
      ensures Snapshot() == DataMutations.CompletePreApprovalDispatch(old(Snapshot()), id, email, phone, emailAt, smsAt)
    {
      AddAuditEntry(NotificationEntry("email", "EMAIL", email), emailAt);
      AddAuditEntry(NotificationEntry("sms", "SMS", phone), smsAt);
      preApprovals := MarkNotified(preApprovals, id);
    }

    method UsePreApproval(id: string, visitorId: string, now: nat)
      modifies this
      ensures Snapshot() == DataMutations.UsePreApproval(old(Snapshot()), id, visitorId, now)
    {
      preApprovals := MarkUsed(preApprovals, id, visitorId, now);
      AddAuditEntry(PreApprovalUsedEntry(id, visitorId), now);
    }

    method BlacklistVisitor(visitorId: string, reason: string, now: nat)
      modifies this
      ensures Snapshot() == DataMutations.BlacklistVisitor(old(Snapshot()), visitorId, reason, now)
    {
      var entry := BlacklistEntry(visitors, visitorId, "visitor_blacklisted", "Visitor blacklisted: " + reason, High);
      visitors := SetBlacklist(visitors, visitorId, true, Some(reason));
      AddAuditEntry(entry, now);
    }

    method RemoveFromBlacklist(visitorId: string, now: nat)
      modifies this
      ensures Snapshot() == DataMutations.RemoveFromBlacklist(old(Snapshot()), visitorId, now)
    {
      var entry := BlacklistEntry(visitors, visitorId, "visitor_unblacklisted", "Visitor removed from blacklist", Medium);
      visitors := SetBlacklist(visitors, visitorId, false, None);
      AddAuditEntry(entry, now);
    }

    /** The nested `forEach`/`push` walk over visitors and check-ins shared by the three listings. */
    method CollectPairs(only: Option<CheckInStatus>) returns (acc: seq<Entry>)
      ensures acc == Pairs(visitors, only)
    {
      acc := [];
      var i := 0;
      while i < |visitors|
        invariant 0 <= i <= |visitors|
        invariant acc == Pairs(visitors[..i], only)
      {
        var v := visitors[i];
        var j := 0;
        ghost var start := acc;
        while j < |v.checkIns|
          invariant 0 <= j <= |v.checkIns|
          invariant acc == start + PairsIn(v, v.checkIns[..j], only)
        {
          PairsInStep(v, v.checkIns, only, j);
          if Selected(v.checkIns[j], only) {
            acc := acc + [Entry(v, v.checkIns[j])];
          }
          j := j + 1;
        }
        assert v.checkIns[..j] == v.checkIns;
        PairsStep(visitors, only, i);
        i := i + 1;
      }
      assert visitors[..i] == visitors;
    }

    /** `getPendingApprovals`: exactly the pending pairs, oldest check-in first. */
    method GetPendingApprovals() returns (r: seq<Entry>)
      ensures r == PendingApprovals(visitors)
      ensures SortedByTime(r, true) && multiset(r) == multiset(Pairs(visitors, Some(Pending)))
    {
      var acc := CollectPairs(Some(Pending));
      r := SortByTime(acc, true);
    }

    /** `getAllVisitorHistory`: every pair, newest check-in first. */
    method GetAllVisitorHistory() returns (r: seq<Entry>)
      ensures r == AllVisitorHistory(visitors)
      ensures SortedByTime(r, false) && multiset(r) == multiset(Pairs(visitors, None))
    {
      var acc := CollectPairs(None);
      r := SortByTime(acc, false);
    }

    /** `getApprovedVisitors`: exactly the approved pairs, newest check-in first. */
    method GetApprovedVisitors() returns (r: seq<Entry>)
      ensures r == ApprovedVisitors(visitors)
      ensures SortedByTime(r, false) && multiset(r) == multiset(Pairs(visitors, Some(Approved)))
    {
      var acc := CollectPairs(Some(Approved));
      r := SortByTime(acc, false);
    }

    /**
     * `getAllHosts`: the store's hosts followed by each registered host whose e-mail is not yet
     * listed; every appended host is active and carries an e-mail not seen before it.
     */
    method GetAllHosts(storage: Storage) returns (all: seq<Host>)
      ensures all == MergeHosts(hosts, storage.registeredHosts)
      ensures all[..|hosts|] == hosts && FreshEmailsFrom(all, |hosts|) && ActiveFrom(all, |hosts|)
    {
      var registered := storage.registeredHosts;
      all := hosts;
      var i := 0;
      while i < |registered|
        invariant 0 <= i <= |registered|
        invariant all == MergeHosts(hosts, registered[..i])
      {
        assert registered[..i + 1][..i] == registered[..i];
        if !HasEmail(all, registered[i].email) {
          all := all + [FromStored(registered[i])];
        }
        i := i + 1;
      }
      assert registered[..i] == registered;
      MergeAddsNoDuplicateEmail(hosts, registered);
      MergedHostsActive(hosts, registered);
    }
  }
}
