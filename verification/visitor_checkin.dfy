/**
 * The visitor's self-service check-in page (src/pages/VisitorCheckIn.tsx): the form rules,
 * the two guards of its submit handler, and the visitor record it hands to the store. Unlike
 * the security desk, this page never records an ID, whatever the rules say.
 */
module VisitorCheckIn {
  import opened Wrappers
  import opened Text
  import opened DataModel
  import opened DataMutations
  import opened DataViews
  import opened BrowserStorage
  import opened DataContext
  import opened WalkIn
  import opened EmailPattern

  datatype VisitorForm = VisitorForm(
    name: string,
    email: string,
    phone: string,
    company: string,
    hostName: string,
    purpose: string)

  /**
   * The browser's check of the e-mail input, then the form rules: every field is required, and
   * the e-mail must fit the pattern. Either refusal keeps the handler from running.
   */
  predicate FormValid(f: VisitorForm) {
    BrowserAcceptsEmail(f.email)
    && f.name != "" && f.email != "" && IsValidEmail(f.email) && f.phone != "" && f.company != ""
    && f.hostName != "" && f.purpose != ""
  }

  /** The guards in the order the handler tests them. */
  function Decide(f: VisitorForm, rules: SystemRules, photo: Option<string>): (o: CheckInOutcome)
    ensures o == Submitted <==> FormValid(f) && rules.allowWalkInVisitors && Truthy(photo)
    ensures o == WalkInsDisallowed <==> FormValid(f) && !rules.allowWalkInVisitors
    ensures o == NoPhoto <==> FormValid(f) && rules.allowWalkInVisitors && !Truthy(photo)
    ensures o != IdNotVerified
  {
    if !FormValid(f) then InvalidForm
    else if !rules.allowWalkInVisitors then WalkInsDisallowed
    else if !Truthy(photo) then NoPhoto
    else Submitted
  }

  /** The visitor the handler builds: one pending visit for the selected host, and no ID anywhere. */
  function VisitorDraftFor(f: VisitorForm, photo: string, offered: seq<Host>, now: nat): (d: VisitorDraft)
    ensures |d.checkIns| == 1 && d.name == f.name && d.email == Some(f.email) && d.company == Some(f.company)
    ensures d.governmentId.None? && d.photoUrl == (if photo != "" then Some(photo) else None)
    ensures var c := d.checkIns[0];
            c.status == Pending && c.id == Decimal(now) && c.checkInTime == now
            && c.hostId == SelectedHostId(offered, f.hostName) && c.hostName == f.hostName
            && c.governmentId.None? && c.securityOfficerId.None? && c.estimatedWaitTime.None?
  {
    var c := CheckIn(Decimal(now), SelectedHostId(offered, f.hostName), f.hostName, Pending, now, None, f.purpose,
                     None, None, None, None, None, None, None, None, None, None, None, None, None);
    VisitorDraft(f.name, Some(f.email), f.phone, Some(f.company), if photo != "" then Some(photo) else None,
                 None, [c], None, None)
  }

  class VisitorCheckInPage {
    var photo: Option<string>
    var isSubmitted: bool

    constructor()
      ensures photo.None? && !isSubmitted
    {
      photo, isSubmitted := None, false;
    }

    method CapturePhoto(p: string)
      modifies this
      ensures photo == Some(p) && isSubmitted == old(isSubmitted)
    {
      photo := Some(p);
    }

    /**
     * The submit button: the form rules, then `onSubmit`. The visitor reaches the store only
     * when both guards pass; the page is then always marked submitted.
     */
    method OnSubmit(store: DataStore, storage: Storage, f: VisitorForm, now: nat) returns (outcome: CheckInOutcome)
      modifies this, store
      ensures outcome == Decide(f, old(store.rules), old(photo))
      ensures outcome == Submitted ==>
                isSubmitted
                && store.Snapshot() == AddVisitor(old(store.Snapshot()),
                     VisitorDraftFor(f, old(photo).value,
                                     ApprovedHosts(MergeHosts(old(store.hosts), storage.registeredHosts)), now), now).value
      ensures outcome != Submitted ==> store.Snapshot() == old(store.Snapshot()) && isSubmitted == old(isSubmitted)
      ensures photo == old(photo)
    {
      outcome := Decide(f, store.rules, photo);
      if outcome != Submitted {
        return;
      }
      var all := store.GetAllHosts(storage);
      var draft := VisitorDraftFor(f, photo.value, ApprovedHosts(all), now);
      var ok := store.AddVisitor(draft, now);
      if ok {
        isSubmitted := true;
      }
    }
  }
}
