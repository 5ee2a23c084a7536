/**
 * The security officer's walk-in check-in page (src/pages/SecurityCheckIn.tsx): the page
 * state (photo, ID verification, submitted flag, estimated wait), the guards of its submit
 * handler in their order, and the visitor record it hands to the store.
 */
module SecurityCheckIn {
  import opened Wrappers
  import opened Text
  import opened DataModel
  import opened DataMutations
  import opened DataViews
  import opened BrowserStorage
  import opened DataContext
  import opened WalkIn

  datatype SecurityForm = SecurityForm(
    name: string,
    phone: string,
    company: string,
    hostName: string,
    purpose: string,
    governmentIdType: string,
    governmentIdNumber: string)

  /** The `required` rules: ID type and number only while the rules require an ID. */
  predicate FieldsFilled(f: SecurityForm, rules: SystemRules) {
    f.name != "" && f.phone != "" && f.hostName != "" && f.purpose != ""
    && (rules.requireGovernmentId ==> f.governmentIdType != "" && f.governmentIdNumber != "")
  }

  /** The guards in the order the handler tests them. */
  function Decide(f: SecurityForm, rules: SystemRules, photo: Option<string>, idVerified: bool): (o: CheckInOutcome)
    ensures o == Submitted <==> FieldsFilled(f, rules) && rules.allowWalkInVisitors && Truthy(photo)
                                && (rules.requireGovernmentId ==> idVerified)
    ensures o == WalkInsDisallowed <==> FieldsFilled(f, rules) && !rules.allowWalkInVisitors
    ensures o == NoPhoto <==> FieldsFilled(f, rules) && rules.allowWalkInVisitors && !Truthy(photo)
    ensures o == IdNotVerified ==> rules.requireGovernmentId && !idVerified
  {
    if !FieldsFilled(f, rules) then InvalidForm
    else if !rules.allowWalkInVisitors then WalkInsDisallowed
    else if !Truthy(photo) then NoPhoto
    else if rules.requireGovernmentId && !idVerified then IdNotVerified
    else Submitted
  }

  /** The ID record attached to visitor and visit, only while the rules require one. */
  function IdRecord(f: SecurityForm, rules: SystemRules, idVerified: bool): (g: Option<GovernmentId>)
    ensures g.Some? <==> rules.requireGovernmentId
    ensures g.Some? ==> g.value.number == f.governmentIdNumber && g.value.verified == idVerified
  {
    if rules.requireGovernmentId then Some(GovernmentId(f.governmentIdType, f.governmentIdNumber, idVerified)) else None
  }

  /**
   * The visitor the handler builds: one pending visit for the selected host, processed by the
   * signed-in officer, with the same ID record on visitor and visit.
   */
  function VisitorDraftFor(f: SecurityForm, rules: SystemRules, photo: string, idVerified: bool,
                           offered: seq<Host>, officer: Option<User>, estimatedWaitTime: int, now: nat): (d: VisitorDraft)
    ensures |d.checkIns| == 1 && d.name == f.name && d.photoUrl == Some(photo)
    ensures var c := d.checkIns[0];
            c.status == Pending && c.id == Decimal(now) && c.checkInTime == now
            && c.hostId == SelectedHostId(offered, f.hostName) && c.hostName == f.hostName
            && c.checkOutTime.None? && c.badgeNumber.None? && c.estimatedWaitTime == Some(estimatedWaitTime)
            && c.governmentId == d.governmentId
    ensures d.governmentId.Some? <==> rules.requireGovernmentId
  {
    var id := IdRecord(f, rules, idVerified);
    var c := CheckIn(Decimal(now), SelectedHostId(offered, f.hostName), f.hostName, Pending, now, None, f.purpose,
                     None, None, Some(estimatedWaitTime),
                     if officer.Some? then Some(officer.value.id) else None,
                     if officer.Some? then Some(officer.value.name) else None,
                     id, None, None, None, None, None, None, None);
    VisitorDraft(f.name, None, f.phone, Some(f.company), Some(photo), id, [c], None, None)
  }

  class SecurityCheckInPage {
    var photo: Option<string>
    var idVerified: bool
    var isSubmitted: bool
    var estimatedWaitTime: int

    constructor()
      ensures photo.None? && !idVerified && !isSubmitted && estimatedWaitTime == 15
    {
      photo, idVerified, isSubmitted, estimatedWaitTime := None, false, false, 15;
    }

    /** The photo-capture callback. */
    method CapturePhoto(p: string)
      modifies this
      ensures photo == Some(p)
      ensures idVerified == old(idVerified) && isSubmitted == old(isSubmitted)
      ensures estimatedWaitTime == old(estimatedWaitTime)
    {
      photo := Some(p);
    }

    /** `handleIdVerification`: verified once both the name and the ID number are filled; never un-verified. */
    method HandleIdVerification(name: string, idNumber: string)
      modifies this
      ensures idVerified == (old(idVerified) || (name != "" && idNumber != ""))
      ensures photo == old(photo) && isSubmitted == old(isSubmitted)
      ensures estimatedWaitTime == old(estimatedWaitTime)
    {
      if name != "" && idNumber != "" {
        idVerified := true;
      }
    }

    /**
     * The submit button: the form rules, then `onSubmit`. The visitor reaches the store only
     * when every guard passes, and then the store accepts it (its own walk-in test is the
     * page's first guard), so the page always ends up submitted on that path.
     */
    method OnSubmit(store: DataStore, storage: Storage, f: SecurityForm, officer: Option<User>, now: nat)
      returns (outcome: CheckInOutcome)
      modifies this, store
      ensures outcome == Decide(f, old(store.rules), old(photo), old(idVerified))
      ensures outcome == Submitted ==>
                isSubmitted
                && store.Snapshot() == AddVisitor(old(store.Snapshot()),
                     VisitorDraftFor(f, old(store.rules), old(photo).value, old(idVerified),
                                     ApprovedHosts(MergeHosts(old(store.hosts), storage.registeredHosts)),
                                     officer, old(estimatedWaitTime), now), now).value
      ensures outcome != Submitted ==> store.Snapshot() == old(store.Snapshot()) && isSubmitted == old(isSubmitted)
      ensures photo == old(photo) && idVerified == old(idVerified) && estimatedWaitTime == old(estimatedWaitTime)
    {
      outcome := Decide(f, store.rules, photo, idVerified);
      if outcome != Submitted {
        return;
      }
      var all := store.GetAllHosts(storage);
      var offered := ApprovedHosts(all);
      var draft := VisitorDraftFor(f, store.rules, photo.value, idVerified, offered, officer, estimatedWaitTime, now);
      var ok := store.AddVisitor(draft, now);
      if ok {
        isSubmitted := true;
      }
    }
  }
}
