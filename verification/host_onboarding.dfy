/**
 * The path of a self-registered host from the registration form, through the administrator's
 * queue, to sign-in: src/components/HostRegistration.tsx writes both copies,
 * src/pages/AdminDashboard.tsx approves or drops them, and src/contexts/AuthContext.tsx reads
 * the listed copy back.
 */
module HostOnboarding {
  import opened Wrappers
  import opened Text
  import opened DataModel
  import opened DataMutations
  import opened Auth
  import opened HostRegistration
  import opened AdminDashboard
  import opened DataViews
  import opened WalkIn

  /**
   * A fresh registration is queued twice: once from the store and once from the list. The two
   * entries share a key only when both clock readings of the submit handler agree.
   */
  lemma SelfRegistrationQueuedTwice(s: State, rs: seq<StoredHost>, f: RegistrationForm, now: nat, later: nat)
    requires f.maxVisitorsPerDay.Some?
    ensures var queue := PendingHosts(AddHost(s, HostDraftFor(f), now).hosts, rs + [StoredRecordFor(f, later)]);
            StoreHost(NewHost(HostDraftFor(f), now)) in queue && ListedHost(StoredRecordFor(f, later)) in queue
            && StoreHost(NewHost(HostDraftFor(f), now)).Key() == Decimal(now)
            && ListedHost(StoredRecordFor(f, later)).Key() == Decimal(later)
            && (StoreHost(NewHost(HostDraftFor(f), now)).Key() == ListedHost(StoredRecordFor(f, later)).Key() <==> now == later)
  {
    var hosts := AddHost(s, HostDraftFor(f), now).hosts;
    var listed := rs + [StoredRecordFor(f, later)];
    PendingHostsComplete(hosts, listed);
    assert hosts[|s.hosts|] == NewHost(HostDraftFor(f), now);
    assert listed[|rs|] == StoredRecordFor(f, later);
    DecimalInjective(now, later);
  }

  /** Until an administrator approves it, the new registration opens no session of its own. */
  lemma RegistrationAloneDoesNotSignIn(rs: seq<StoredHost>, f: RegistrationForm, now: nat)
    requires f.maxVisitorsPerDay.Some?
    requires FindMock(MockUsers, f.email).None?
    requires forall k :: 0 <= k < |rs| ==> !Accepts(rs[k], f.email, f.password)
    ensures Authenticate(rs + [StoredRecordFor(f, now)], f.email, f.password).None?
  {
    var listed := rs + [StoredRecordFor(f, now)];
    forall k | 0 <= k < |listed| ensures !Accepts(listed[k], f.email, f.password) {
      if k < |rs| {
        assert listed[k] == rs[k];
      }
    }
  }

  /** The list after registering and then approving the registration's key with a password. */
  function RegisteredThenApproved(rs: seq<StoredHost>, f: RegistrationForm, now: nat, password: string, later: nat): (r: seq<StoredHost>)
    requires f.maxVisitorsPerDay.Some?
    ensures |r| == |rs| + 1
    ensures r[|rs|].email == f.email && r[|rs|].password == password && r[|rs|].isApproved
  {
    var listed := rs + [StoredRecordFor(f, now)];
    assert MatchesKey(listed[|rs|], Decimal(now));
    ApproveListed(listed, Decimal(now), password, later)
  }

  /** After approval the host signs in with the password the administrator typed, as a host. */
  lemma ApprovedRegistrationSignsIn(rs: seq<StoredHost>, f: RegistrationForm, now: nat, password: string, later: nat)
    requires f.maxVisitorsPerDay.Some?
    requires FindMock(MockUsers, f.email).None?
    ensures var u := Authenticate(RegisteredThenApproved(rs, f, now, password, later), f.email, password);
            u.Some? && u.value.role == HostRole && u.value.email == f.email
  {
    var r := RegisteredThenApproved(rs, f, now, password, later);
    assert Accepts(r[|rs|], f.email, password);
  }

  /**
   * The administrator's password replaces the one the host chose: when the two differ and no
   * other record carries the e-mail, the host's own password no longer signs in.
   */
  lemma ChosenPasswordStopsWorking(rs: seq<StoredHost>, f: RegistrationForm, now: nat, password: string, later: nat)
    requires f.maxVisitorsPerDay.Some?
    requires FindMock(MockUsers, f.email).None?
    requires password != f.password
    requires forall k :: 0 <= k < |rs| ==> rs[k].email != f.email
    ensures Authenticate(RegisteredThenApproved(rs, f, now, password, later), f.email, f.password).None?
  {
    var listed := rs + [StoredRecordFor(f, now)];
    var r := ApproveListed(listed, Decimal(now), password, later);
    assert r == RegisteredThenApproved(rs, f, now, password, later);
    forall k | 0 <= k < |r| ensures !Accepts(r[k], f.email, f.password) {
      if k < |rs| {
        assert listed[k] == rs[k];
        assert r[k].email == rs[k].email;
      }
    }
  }

  /**
   * An approved registration reaches the walk-in pages: when it is the first record with its
   * e-mail and the store has no host with that e-mail, the merged host list offers it.
   */
  lemma ApprovedRegistrationSelectable(hosts: seq<Host>, registered: seq<StoredHost>, i: nat)
    requires i < |registered| && registered[i].isApproved && FirstUnlisted(hosts, registered, i)
    ensures FromStored(registered[i]) in ApprovedHosts(MergeHosts(hosts, registered))
    ensures FromStored(registered[i]).email == registered[i].email
  {
    var all := MergeHosts(hosts, registered);
    var h := FromStored(registered[i]);
    var k :| 0 <= k < |all| && all[k] == h;
    assert all[k].isApproved && all[k].isActive;
  }

  /**
   * Approving the listed copy's id approves the store's copy too, with the same password, exactly
   * when the two copies were made at one clock reading; otherwise the store's copy stays unapproved.
   */
  lemma StoreCopyApprovedToo(s: State, f: RegistrationForm, now: nat, later: nat, password: string, t: nat)
    requires f.maxVisitorsPerDay.Some?
    ensures var r := ApproveHost(AddHost(s, HostDraftFor(f), now), Decimal(later), AdminName, password, t);
            (r.hosts[|s.hosts|].isApproved <==> later == now)
            && (later == now ==> r.hosts[|s.hosts|].password == Some(password))
            && (later != now ==> r.hosts[|s.hosts|] == NewHost(HostDraftFor(f), now))
  {
    var s1 := AddHost(s, HostDraftFor(f), now);
    assert s1.hosts[|s.hosts|].id == Decimal(now);
    DecimalInjective(now, later);
  }

  /**
   * Once a queued record is denied by its key, no session opens for a record the key matches:
   * whoever still signs in from the list carries another id and another e-mail.
   */
  lemma DeniedKeyCannotSignIn(rs: seq<StoredHost>, denied: PendingHost, email: string, password: string)
    requires FindMock(MockUsers, email).None?
    ensures var u := Authenticate(DenyListed(rs, denied.Key()), email, password);
            u.Some? ==> u.value.id != denied.Key() && u.value.email != denied.Key()
  {
    var r := DenyListed(rs, denied.Key());
    var found := FindRegistered(r, email, password);
    if found.Some? {
      var k :| 0 <= k < |r| && r[k] == found.value;
      assert !MatchesKey(r[k], denied.Key());
    }
  }

  /**
   * The button denies by id, not by e-mail: a second approved record with the same e-mail and
   * another id stays in the list and still signs in.
   */
  lemma SameEmailRecordSurvivesDenial(rs: seq<StoredHost>, i: nat, j: nat)
    requires i < |rs| && j < |rs| && rs[i].id != ""
    requires rs[j].isApproved && rs[j].email == rs[i].email && rs[j].id != rs[i].id && rs[j].email != rs[i].id
    ensures var u := Authenticate(DenyListed(rs, ListedHost(rs[i]).Key()), rs[j].email, rs[j].password);
            u.Some? && u.value.email == rs[i].email
  {
    var r := DenyListed(rs, ListedHost(rs[i]).Key());
    assert !MatchesKey(rs[j], rs[i].id);
    var k :| 0 <= k < |r| && r[k] == rs[j];
    assert Accepts(r[k], rs[j].email, rs[j].password);
  }
}
