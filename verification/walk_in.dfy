/**
 * What the two walk-in check-in pages share (src/pages/SecurityCheckIn.tsx,
 * src/pages/VisitorCheckIn.tsx): only approved and active hosts are offered, a new visit
 * records the id of the first offered host with the chosen name, or `'2'` when there is none,
 * and a submission ends in one of a few outcomes.
 */
module WalkIn {
  import opened Seqs
  import opened DataModel

  /** `allHosts.filter(host => host.isApproved && host.isActive)`. */
  function ApprovedHosts(all: seq<Host>): (r: seq<Host>)
    ensures IsSubsequence(r, all)
    ensures forall k :: 0 <= k < |r| ==> r[k].isApproved && r[k].isActive && r[k] in all
    ensures forall k :: 0 <= k < |all| && all[k].isApproved && all[k].isActive ==> all[k] in r
  {
    FilterIsSubsequence(all, (h: Host) => h.IsVisitable());
    Filter(all, (h: Host) => h.IsVisitable())
  }

  /** The id fallback used when no offered host carries the chosen name (or its id is empty). */
  const FallbackHostId := "2"

  /** `approvedHosts.find(h => h.name === hostName)?.id || '2'`. */
  function SelectedHostId(offered: seq<Host>, hostName: string): (id: string)
    ensures id == FallbackHostId || exists k :: 0 <= k < |offered| && offered[k].name == hostName && offered[k].id == id
    ensures (forall k :: 0 <= k < |offered| ==> offered[k].name != hostName) ==> id == FallbackHostId
    ensures id != ""
  {
    if offered == [] then FallbackHostId
    else if offered[0].name == hostName then (if offered[0].id != "" then offered[0].id else FallbackHostId)
    else
      var id := SelectedHostId(offered[1..], hostName);
      assert id != FallbackHostId ==> exists k :: 0 <= k < |offered[1..]| && offered[1..][k].name == hostName && offered[1..][k].id == id;
      id
  }

  /** The first offered host with the name decides, when its id is non-empty. */
  lemma {:induction false} FirstNamedHostDecides(offered: seq<Host>, hostName: string, k: nat)
    requires k < |offered| && offered[k].name == hostName && offered[k].id != ""
    requires forall i :: 0 <= i < k ==> offered[i].name != hostName
    ensures SelectedHostId(offered, hostName) == offered[k].id
  {
    if k > 0 {
      FirstNamedHostDecides(offered[1..], hostName, k - 1);
    }
  }

  /** How a press of the submit button ends. */
  datatype CheckInOutcome =
    | InvalidForm        // a field rule failed, so the form handler never ran
    | WalkInsDisallowed  // the rules forbid walk-ins
    | NoPhoto            // no photo was captured
    | IdNotVerified      // an ID is required and was not verified
    | Submitted          // the visitor was handed to the store
}
