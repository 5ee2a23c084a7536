/**
 * The read-only queries of the visitor-management store (src/contexts/DataContext.tsx):
 * visitor/check-in pairs and their orderings, the dashboard statistics, badges, the report
 * and the merged host directory.
 */
module DataViews {
  import opened Wrappers
  import opened Seqs
  import opened DataModel
  import opened DataMutations

  /** One `{ visitor, checkIn }` pair. */
  datatype Entry = Entry(visitor: Visitor, checkIn: CheckIn)

  /** Which check-ins a listing takes: all of them, or those with one status. */
  predicate Selected(c: CheckIn, only: Option<CheckInStatus>) {
    only.None? || c.status == only.value
  }

  /** The pairs pushed for one visitor while walking its check-ins in order. */
  function PairsIn(v: Visitor, cs: seq<CheckIn>, only: Option<CheckInStatus>): (r: seq<Entry>)
    ensures |r| <= |cs|
    ensures forall k :: 0 <= k < |r| ==> r[k].visitor == v && r[k].checkIn in cs && Selected(r[k].checkIn, only)
  {
    if cs == [] then []
    else PairsIn(v, cs[..|cs| - 1], only)
         + (if Selected(cs[|cs| - 1], only) then [Entry(v, cs[|cs| - 1])] else [])
  }

  /** The pairs pushed by the nested `forEach` over the visitors and their check-ins, in push order. */
  function Pairs(vs: seq<Visitor>, only: Option<CheckInStatus>): (r: seq<Entry>)
    ensures forall k :: 0 <= k < |r| ==> r[k].visitor in vs && r[k].checkIn in r[k].visitor.checkIns
                                         && Selected(r[k].checkIn, only)
  {
    if vs == [] then []
    else Pairs(vs[..|vs| - 1], only) + PairsIn(vs[|vs| - 1], vs[|vs| - 1].checkIns, only)
  }

  /** Walking one more check-in pushes it when it is selected. */
  lemma PairsInStep(v: Visitor, cs: seq<CheckIn>, only: Option<CheckInStatus>, j: nat)
    requires j < |cs|
    ensures PairsIn(v, cs[..j + 1], only)
            == PairsIn(v, cs[..j], only) + (if Selected(cs[j], only) then [Entry(v, cs[j])] else [])
  {
    assert cs[..j + 1][..j] == cs[..j];
  }

  /** Walking one more visitor pushes its selected check-ins. */
  lemma PairsStep(vs: seq<Visitor>, only: Option<CheckInStatus>, i: nat)
    requires i < |vs|
    ensures Pairs(vs[..i + 1], only) == Pairs(vs[..i], only) + PairsIn(vs[i], vs[i].checkIns, only)
  {
    assert vs[..i + 1][..i] == vs[..i];
  }

  lemma {:induction false} PairsInComplete(v: Visitor, cs: seq<CheckIn>, only: Option<CheckInStatus>, j: nat)
    requires j < |cs| && Selected(cs[j], only)
    ensures Entry(v, cs[j]) in PairsIn(v, cs, only)
  {
    if j < |cs| - 1 {
      PairsInComplete(v, cs[..|cs| - 1], only, j);
    }
  }

  /** Every selected check-in of every visitor is listed with its visitor. */
  lemma {:induction false} PairsComplete(vs: seq<Visitor>, only: Option<CheckInStatus>, k: nat, j: nat)
    requires k < |vs| && j < |vs[k].checkIns| && Selected(vs[k].checkIns[j], only)
    ensures Entry(vs[k], vs[k].checkIns[j]) in Pairs(vs, only)
  {
    if k < |vs| - 1 {
      PairsComplete(vs[..|vs| - 1], only, k, j);
    } else {
      PairsInComplete(vs[k], vs[k].checkIns, only, j);
    }
  }

  /** Two different statuses select disjoint check-ins, so their listings together are no longer than the full one. */
  lemma {:induction false} StatusListingsBounded(vs: seq<Visitor>, a: CheckInStatus, b: CheckInStatus)
    requires a != b
    ensures |Pairs(vs, Some(a))| + |Pairs(vs, Some(b))| <= |Pairs(vs, None)|
  {
    if vs != [] {
      var v := vs[|vs| - 1];
      StatusListingsBounded(vs[..|vs| - 1], a, b);
      PairsInBounded(v, v.checkIns, a, b);
    }
  }

  lemma {:induction false} PairsInBounded(v: Visitor, cs: seq<CheckIn>, a: CheckInStatus, b: CheckInStatus)
    requires a != b
    ensures |PairsIn(v, cs, Some(a))| + |PairsIn(v, cs, Some(b))| <= |PairsIn(v, cs, None)|
  {
    if cs != [] {
      PairsInBounded(v, cs[..|cs| - 1], a, b);
    }
  }

  // ---------------------------------------------------------------- ordering by check-in time

  /** `x` may come before `y`: ascending or descending check-in time. */
  predicate InOrder(x: Entry, y: Entry, ascending: bool) {
    if ascending then x.checkIn.checkInTime <= y.checkIn.checkInTime
    else x.checkIn.checkInTime >= y.checkIn.checkInTime
  }

  predicate SortedByTime(s: seq<Entry>, ascending: bool) {
    forall i, j :: 0 <= i < j < |s| ==> InOrder(s[i], s[j], ascending)
  }

  /** `e` placed in front of the first element it may precede (before equal keys, which keeps the sort stable). */
  function InsertByTime(e: Entry, s: seq<Entry>, ascending: bool): (r: seq<Entry>)
    ensures multiset(r) == multiset(s) + multiset{e}
    ensures |r| == |s| + 1 && (r[0] == e || (s != [] && r[0] == s[0]))
  {
    if s == [] || InOrder(e, s[0], ascending) then [e] + s
    else
      var rest := InsertByTime(e, s[1..], ascending);
      assert s == [s[0]] + s[1..];
      [s[0]] + rest
  }

  /** Putting in front an element that may precede the first keeps the listing sorted. */
  lemma InsertFrontKeepsOrder(e: Entry, s: seq<Entry>, ascending: bool)
    requires SortedByTime(s, ascending)
    requires s == [] || InOrder(e, s[0], ascending)
    ensures SortedByTime([e] + s, ascending)
  {
    var r := [e] + s;
    forall i, j | 0 <= i < j < |r| ensures InOrder(r[i], r[j], ascending) {
      assert r[j] == s[j - 1];
      if i == 0 {
        assert InOrder(s[0], s[j - 1], ascending) || j == 1;
      } else {
        assert r[i] == s[i - 1];
      }
    }
  }

  /** Putting in front an element that may precede every other keeps the listing sorted. */
  lemma ConsKeepsOrder(x: Entry, rest: seq<Entry>, ascending: bool)
    requires SortedByTime(rest, ascending)
    requires forall y :: y in rest ==> InOrder(x, y, ascending)
    ensures SortedByTime([x] + rest, ascending)
  {
    var r := [x] + rest;
    forall i, j | 0 <= i < j < |r| ensures InOrder(r[i], r[j], ascending) {
      assert r[j] == rest[j - 1] && rest[j - 1] in rest;
      if i > 0 {
        assert r[i] == rest[i - 1];
      }
    }
  }

  /** Inserting into a sorted listing keeps it sorted. */
  lemma {:induction false} InsertKeepsOrder(e: Entry, s: seq<Entry>, ascending: bool)
    requires SortedByTime(s, ascending)
    ensures SortedByTime(InsertByTime(e, s, ascending), ascending)
  {
    if s == [] || InOrder(e, s[0], ascending) {
      InsertFrontKeepsOrder(e, s, ascending);
    } else {
      assert SortedByTime(s[1..], ascending);
      InsertKeepsOrder(e, s[1..], ascending);
      var rest := InsertByTime(e, s[1..], ascending);
      forall x | x in rest ensures InOrder(s[0], x, ascending) {
        assert x in multiset(rest);
        if x != e {
          assert x in multiset(s[1..]);
          var m :| 0 <= m < |s[1..]| && s[1..][m] == x;
          assert s[m + 1] == x;
        }
      }
      ConsKeepsOrder(s[0], rest, ascending);
    }
  }

  /**
   * `Array.prototype.sort` with the comparator on check-in times: a stable sort, ascending
   * for the pending queue, descending (newest first) for history and approved listings.
   */
  function SortByTime(s: seq<Entry>, ascending: bool): (r: seq<Entry>)
    ensures SortedByTime(r, ascending)
    ensures multiset(r) == multiset(s)
  {
    if s == [] then []
    else
      assert s == [s[0]] + s[1..];
      InsertKeepsOrder(s[0], SortByTime(s[1..], ascending), ascending);
      InsertByTime(s[0], SortByTime(s[1..], ascending), ascending)
  }

  /** Sorting a listing that is already in order leaves it exactly as it was. */
  lemma {:induction false} SortOfSortedIsIdentity(s: seq<Entry>, ascending: bool)
    requires SortedByTime(s, ascending)
    ensures SortByTime(s, ascending) == s
  {
    if s != [] {
      assert SortedByTime(s[1..], ascending);
      SortOfSortedIsIdentity(s[1..], ascending);
    }
  }

  /** `getPendingApprovals`: every pending check-in, oldest arrival first. */
  function PendingApprovals(vs: seq<Visitor>): seq<Entry> {
    SortByTime(Pairs(vs, Some(Pending)), true)
  }

  /** `getAllVisitorHistory`: every check-in, newest first. */
  function AllVisitorHistory(vs: seq<Visitor>): seq<Entry> {
    SortByTime(Pairs(vs, None), false)
  }

  /** `getApprovedVisitors`: every approved check-in, newest first. */
  function ApprovedVisitors(vs: seq<Visitor>): seq<Entry> {
    SortByTime(Pairs(vs, Some(Approved)), false)
  }

  /** Sorting a listing keeps exactly its members: each is a selected check-in with its own visitor. */
  lemma ListingMembers(vs: seq<Visitor>, only: Option<CheckInStatus>, ascending: bool)
    ensures forall k :: 0 <= k < |SortByTime(Pairs(vs, only), ascending)| ==>
              var e := SortByTime(Pairs(vs, only), ascending)[k];
              Selected(e.checkIn, only) && e.visitor in vs && e.checkIn in e.visitor.checkIns
  {
    var r := SortByTime(Pairs(vs, only), ascending);
    forall k | 0 <= k < |r|
      ensures Selected(r[k].checkIn, only) && r[k].visitor in vs && r[k].checkIn in r[k].visitor.checkIns
    {
      assert r[k] in multiset(Pairs(vs, only));
    }
  }

  /** The pending queue holds exactly the pending check-ins, each with its own visitor, oldest first. */
  lemma PendingApprovalsExact(vs: seq<Visitor>)
    ensures SortedByTime(PendingApprovals(vs), true)
    ensures forall e :: e in PendingApprovals(vs) ==> e.checkIn.status == Pending && e.visitor in vs
                                                      && e.checkIn in e.visitor.checkIns
    ensures forall k, j :: 0 <= k < |vs| && 0 <= j < |vs[k].checkIns| && vs[k].checkIns[j].status == Pending ==>
              Entry(vs[k], vs[k].checkIns[j]) in PendingApprovals(vs)
  {
    var ps := Pairs(vs, Some(Pending));
    forall e | e in PendingApprovals(vs)
      ensures e.checkIn.status == Pending && e.visitor in vs && e.checkIn in e.visitor.checkIns
    {
      assert e in multiset(ps);
    }
    forall k, j | 0 <= k < |vs| && 0 <= j < |vs[k].checkIns| && vs[k].checkIns[j].status == Pending
      ensures Entry(vs[k], vs[k].checkIns[j]) in PendingApprovals(vs)
    {
      PairsComplete(vs, Some(Pending), k, j);
      assert Entry(vs[k], vs[k].checkIns[j]) in multiset(PendingApprovals(vs));
    }
  }

  // ---------------------------------------------------------------- active visitors and badges

  /** The visitor has a check-in that is approved and not checked out. */
  predicate HasOpenVisit(v: Visitor) {
    exists j :: 0 <= j < |v.checkIns| && v.checkIns[j].IsOpenApproved()
  }

  /** `getActiveVisitors`: the visitors with an open approved visit, in store order. */
  function ActiveVisitors(vs: seq<Visitor>): (r: seq<Visitor>)
    ensures |r| <= |vs| && IsSubsequence(r, vs)
    ensures forall k :: 0 <= k < |r| ==> HasOpenVisit(r[k]) && r[k] in vs
    ensures forall k :: 0 <= k < |vs| && HasOpenVisit(vs[k]) ==> vs[k] in r
  {
    FilterIsSubsequence(vs, HasOpenVisit);
    Filter(vs, HasOpenVisit)
  }

  /** `visitor.checkIns.find(ci => ci.id === id)`. */
  function FindCheckIn(cs: seq<CheckIn>, id: string): (r: Option<CheckIn>)
    ensures r.Some? ==> r.value.id == id
    ensures r.Some? ==> exists j :: 0 <= j < |cs| && cs[j] == r.value && forall i :: 0 <= i < j ==> cs[i].id != id
    ensures r.None? <==> forall j :: 0 <= j < |cs| ==> cs[j].id != id
  {
    if cs == [] then None
    else if cs[0].id == id then (assert cs[0] == cs[0]; Some(cs[0]))
    else
      var r := FindCheckIn(cs[1..], id);
      if r.Some? then
        var j :| 0 <= j < |cs[1..]| && cs[1..][j] == r.value && forall i :: 0 <= i < j ==> cs[1..][i].id != id;
        assert cs[j + 1] == r.value;
        r
      else r
  }

  /** `getVisitorBadge`: the pair for an approved check-in, or nothing. */
  function GetVisitorBadge(vs: seq<Visitor>, visitorId: string, checkInId: string): (r: Option<Entry>)
    ensures r.Some? ==> r.value.visitor in vs && r.value.visitor.id == visitorId
                        && r.value.checkIn in r.value.visitor.checkIns
                        && r.value.checkIn.id == checkInId && r.value.checkIn.status == Approved
  {
    var v := FindVisitor(vs, visitorId);
    if v.None? then None
    else
      var c := FindCheckIn(v.value.checkIns, checkInId);
      if c.None? || c.value.status != Approved then None else Some(Entry(v.value, c.value))
  }

  /** Visitor ids are distinct, and check-in ids are distinct within each visitor. */
  predicate UniqueIds(vs: seq<Visitor>) {
    (forall a, b :: 0 <= a < b < |vs| ==> vs[a].id != vs[b].id)
    && forall k :: 0 <= k < |vs| ==>
         forall a, b :: 0 <= a < b < |vs[k].checkIns| ==> vs[k].checkIns[a].id != vs[k].checkIns[b].id
  }

  lemma FindVisitorIndex(vs: seq<Visitor>, id: string, k: nat)
    requires UniqueIds(vs) && k < |vs| && vs[k].id == id
    ensures FindVisitor(vs, id) == Some(vs[k])
  {
    if vs[0].id != id {
      assert UniqueIds(vs[1..]) by {
        forall a, b | 0 <= a < b < |vs[1..]| ensures vs[1..][a].id != vs[1..][b].id {
          assert vs[1..][a] == vs[a + 1] && vs[1..][b] == vs[b + 1];
        }
      }
      FindVisitorIndex(vs[1..], id, k - 1);
    }
  }

  /** With distinct ids, an approved check-in of a visitor has its badge found. */
  lemma BadgeFoundWhenApproved(vs: seq<Visitor>, k: nat, j: nat)
    requires UniqueIds(vs)
    requires k < |vs| && j < |vs[k].checkIns| && vs[k].checkIns[j].status == Approved
    ensures GetVisitorBadge(vs, vs[k].id, vs[k].checkIns[j].id).Some?
  {
    var checkInId := vs[k].checkIns[j].id;
    FindVisitorIndex(vs, vs[k].id, k);
    var c := FindCheckIn(vs[k].checkIns, checkInId);
    assert c.Some?;
    var j' :| 0 <= j' < |vs[k].checkIns| && vs[k].checkIns[j'] == c.value
              && forall i :: 0 <= i < j' ==> vs[k].checkIns[i].id != checkInId;
    assert j' == j;
  }

  /** A badge found points at an approved check-in of the visitor with the id. */
  lemma BadgeOnlyWhenApproved(vs: seq<Visitor>, visitorId: string, checkInId: string)
    requires GetVisitorBadge(vs, visitorId, checkInId).Some?
    ensures exists k, j :: 0 <= k < |vs| && 0 <= j < |vs[k].checkIns| && vs[k].id == visitorId
                           && vs[k].checkIns[j].id == checkInId && vs[k].checkIns[j].status == Approved
  {
    var e := GetVisitorBadge(vs, visitorId, checkInId).value;
    var k :| 0 <= k < |vs| && vs[k] == e.visitor;
    var j :| 0 <= j < |vs[k].checkIns| && vs[k].checkIns[j] == e.checkIn;
    assert vs[k].id == visitorId && vs[k].checkIns[j].id == checkInId && vs[k].checkIns[j].status == Approved;
  }

  /**
   * With distinct ids, a badge is produced exactly for a visitor/check-in pair that exists and
   * is approved.
   */
  lemma VisitorBadgeExactly(vs: seq<Visitor>, visitorId: string, checkInId: string)
    requires UniqueIds(vs)
    ensures GetVisitorBadge(vs, visitorId, checkInId).Some? <==>
              exists k, j :: 0 <= k < |vs| && 0 <= j < |vs[k].checkIns| && vs[k].id == visitorId
                             && vs[k].checkIns[j].id == checkInId && vs[k].checkIns[j].status == Approved
  {
    if GetVisitorBadge(vs, visitorId, checkInId).Some? {
      BadgeOnlyWhenApproved(vs, visitorId, checkInId);
    }
    forall k, j | 0 <= k < |vs| && 0 <= j < |vs[k].checkIns| && vs[k].id == visitorId
                  && vs[k].checkIns[j].id == checkInId && vs[k].checkIns[j].status == Approved
      ensures GetVisitorBadge(vs, visitorId, checkInId).Some?
    {
      BadgeFoundWhenApproved(vs, k, j);
    }
  }

  /** `preApprovals.find(pa => pa.id === id) || null`. */
  function GetPreApprovalBadge(pas: seq<PreApproval>, id: string): (r: Option<PreApproval>)
    ensures r.Some? ==> r.value in pas && r.value.id == id
    ensures r.Some? ==> exists k :: 0 <= k < |pas| && pas[k] == r.value && forall i :: 0 <= i < k ==> pas[i].id != id
    ensures r.None? <==> forall k :: 0 <= k < |pas| ==> pas[k].id != id
  {
    if pas == [] then None
    else if pas[0].id == id then (assert pas[0] == pas[0]; Some(pas[0]))
    else
      var r := GetPreApprovalBadge(pas[1..], id);
      if r.Some? then
        var k :| 0 <= k < |pas[1..]| && pas[1..][k] == r.value && forall i :: 0 <= i < k ==> pas[1..][i].id != id;
        assert pas[k + 1] == r.value;
        r
      else r
  }

  // ---------------------------------------------------------------- statistics

  /** `Math.round(num / den)` for a positive denominator: the nearest integer, halves rounded up. */
  function RoundHalfUp(num: int, den: int): (r: int)
    requires den > 0
    ensures 2 * num - den < 2 * den * r <= 2 * num + den
    ensures num >= 0 ==> r >= 0
  {
    (2 * num + den) / (2 * den)
  }

  /** The check-ins the average wait is taken over: approved ones with an approval time. */
  predicate Completed(e: Entry) {
    e.checkIn.status == Approved && e.checkIn.approvedAt.Some?
  }

  /** The approval delay of a completed check-in, in milliseconds. */
  function Wait(e: Entry): int
    requires Completed(e)
  {
    e.checkIn.approvedAt.value - e.checkIn.checkInTime
  }

  function TotalWait(es: seq<Entry>): (r: int)
    requires forall k :: 0 <= k < |es| ==> Completed(es[k])
  {
    if es == [] then 0 else TotalWait(es[..|es| - 1]) + Wait(es[|es| - 1])
  }

  /** The approved check-ins that carry an approval time, the ones the average is taken over. */
  function CompletedPairs(vs: seq<Visitor>): seq<Entry> {
    Filter(Pairs(vs, None), Completed)
  }

  /**
   * Mean approval delay in whole minutes, `Math.round(total / n / 60000)`: 0 when no visit has
   * been approved, otherwise the integer nearest to the mean, halves rounded up.
   */
  function AverageWaitMinutes(vs: seq<Visitor>): (r: int)
    ensures CompletedPairs(vs) == [] ==> r == 0
    ensures CompletedPairs(vs) != [] ==>
              var n := |CompletedPairs(vs)| * MsPerMinute;
              var total := TotalWait(CompletedPairs(vs));
              2 * total - n < 2 * n * r <= 2 * total + n
  {
    var done := Filter(Pairs(vs, None), Completed);
    if |done| > 0 then RoundHalfUp(TotalWait(done), |done| * MsPerMinute) else 0
  }

  /** Approved no earlier than arrived: the wait sums to a non-negative total. */
  lemma {:induction false} TotalWaitNonNegative(es: seq<Entry>)
    requires forall k :: 0 <= k < |es| ==> Completed(es[k]) && Wait(es[k]) >= 0
    ensures TotalWait(es) >= 0
  {
    if es != [] {
      TotalWaitNonNegative(es[..|es| - 1]);
    }
  }

  /** Waits that are all `m` whole minutes add up to `m` minutes per check-in. */
  lemma {:induction false} TotalWaitOfEqualWaits(es: seq<Entry>, m: int)
    requires forall k :: 0 <= k < |es| ==> Completed(es[k]) && Wait(es[k]) == m * MsPerMinute
    ensures TotalWait(es) == |es| * (m * MsPerMinute)
  {
    if es != [] {
      TotalWaitOfEqualWaits(es[..|es| - 1], m);
    }
  }

  lemma CancelPositive(a: int, b: int, d: int)
    requires d > 0 && a * d < b * d
    ensures a < b
  {
    assert (b - a) * d == b * d - a * d;
  }

  /** Rounding an exact multiple gives the multiplier back. */
  lemma RoundOfMultiple(total: int, n: int, r: int, m: int)
    requires n > 0 && total == m * n
    requires 2 * total - n < 2 * n * r <= 2 * total + n
    ensures r == m
  {
    assert (2 * m - 1) * n < (2 * r) * n;
    assert (2 * r) * n < (2 * m + 2) * n;
    CancelPositive(2 * m - 1, 2 * r, n);
    CancelPositive(2 * r, 2 * m + 2, n);
  }

  /** When every approved visit waited exactly `m` minutes, the average is `m`. */
  lemma AverageOfEqualWaits(vs: seq<Visitor>, m: int)
    requires CompletedPairs(vs) != []
    requires forall k :: 0 <= k < |CompletedPairs(vs)| ==> Wait(CompletedPairs(vs)[k]) == m * MsPerMinute
    ensures AverageWaitMinutes(vs) == m
  {
    var done := CompletedPairs(vs);
    assert forall k :: 0 <= k < |done| ==> Completed(done[k]);
    TotalWaitOfEqualWaits(done, m);
    var n := |done| * MsPerMinute;
    assert TotalWait(done) == m * n;
    RoundOfMultiple(TotalWait(done), n, AverageWaitMinutes(vs), m);
  }

  /** No approval time precedes its check-in time. */
  predicate ApprovalsAfterArrival(vs: seq<Visitor>) {
    forall k, j :: 0 <= k < |vs| && 0 <= j < |vs[k].checkIns| && vs[k].checkIns[j].approvedAt.Some? ==>
      vs[k].checkIns[j].approvedAt.value >= vs[k].checkIns[j].checkInTime
  }

  lemma CompletedWaitNonNegative(vs: seq<Visitor>, e: Entry)
    requires ApprovalsAfterArrival(vs) && Completed(e)
    requires e.visitor in vs && e.checkIn in e.visitor.checkIns
    ensures Wait(e) >= 0
  {
    var k :| 0 <= k < |vs| && vs[k] == e.visitor;
    var j :| 0 <= j < |vs[k].checkIns| && vs[k].checkIns[j] == e.checkIn;
  }

  /** The average wait is never negative while approvals come after arrivals. */
  lemma AverageWaitNonNegative(vs: seq<Visitor>)
    ensures ApprovalsAfterArrival(vs) ==> AverageWaitMinutes(vs) >= 0
  {
    if ApprovalsAfterArrival(vs) {
      var all := Pairs(vs, None);
      var done := Filter(all, Completed);
      forall k | 0 <= k < |done| ensures Completed(done[k]) && Wait(done[k]) >= 0 {
        assert done[k] in all;
        CompletedWaitNonNegative(vs, done[k]);
      }
      TotalWaitNonNegative(done);
      if |done| > 0 {
        assert AverageWaitMinutes(vs) == RoundHalfUp(TotalWait(done), |done| * MsPerMinute);
      }
    }
  }

  datatype VisitorStats = VisitorStats(
    totalToday: nat,
    activeNow: nat,
    pendingApproval: nat,
    preApprovedToday: nat,
    averageWaitTime: int,
    totalCheckOuts: nat)

  /**
   * `getVisitorStats`; `todayStart` is the local midnight that begins the current day (the
   * store takes it from the clock).
   */
  function GetVisitorStats(s: State, todayStart: int): (r: VisitorStats)
    ensures r.totalToday <= |s.visitors| && r.activeNow <= |s.visitors|
    ensures r.activeNow == |ActiveVisitors(s.visitors)|
    ensures r.pendingApproval == |PendingApprovals(s.visitors)| == |Pairs(s.visitors, Some(Pending))|
    ensures r.totalCheckOuts == |Pairs(s.visitors, Some(CheckedOut))|
    ensures r.averageWaitTime == AverageWaitMinutes(s.visitors)
    ensures r.pendingApproval + r.totalCheckOuts <= |Pairs(s.visitors, None)|
    ensures r.preApprovedToday <= |s.preApprovals|
    ensures ApprovalsAfterArrival(s.visitors) ==> r.averageWaitTime >= 0
  {
    StatusListingsBounded(s.visitors, Pending, CheckedOut);
    AverageWaitNonNegative(s.visitors);
    assert |multiset(PendingApprovals(s.visitors))| == |multiset(Pairs(s.visitors, Some(Pending)))|;
    VisitorStats(
      Count(s.visitors, (v: Visitor) => v.createdAt >= todayStart),
      |ActiveVisitors(s.visitors)|,
      |PendingApprovals(s.visitors)|,
      Count(s.preApprovals, (pa: PreApproval) => todayStart <= pa.scheduledDate < todayStart + MsPerDay),
      AverageWaitMinutes(s.visitors),
      |Pairs(s.visitors, Some(CheckedOut))|)
  }

  // ---------------------------------------------------------------- report

  datatype VisitorReport = VisitorReport(
    startDate: int,
    endDate: int,
    totalVisitors: nat,
    totalCheckIns: nat,
    approvedVisits: nat,
    deniedVisits: nat,
    averageVisitDuration: int,
    securityIncidents: nat)

  /** The report's period test: created within the closed range. */
  predicate CreatedIn(v: Visitor, startDate: int, endDate: int) {
    startDate <= v.createdAt <= endDate
  }

  predicate Incident(e: AuditEntry) {
    e.severity == High || e.severity == Critical
  }

  /**
   * `generateVisitorReport`: counts over the visitors created in the closed period; the
   * incident count is over the whole log, whatever the period, and the average duration is
   * always 0.
   */
  function GenerateVisitorReport(s: State, startDate: int, endDate: int): (r: VisitorReport)
    ensures var inPeriod := Filter(s.visitors, (v: Visitor) => CreatedIn(v, startDate, endDate));
            r.totalVisitors == |inPeriod| && r.totalCheckIns == |Pairs(inPeriod, None)|
            && r.approvedVisits == |Pairs(inPeriod, Some(Approved))| && r.deniedVisits == |Pairs(inPeriod, Some(Denied))|
    ensures r.securityIncidents == Count(s.auditLog, Incident)
    ensures r.totalVisitors <= |s.visitors|
    ensures r.approvedVisits + r.deniedVisits <= r.totalCheckIns
    ensures r.securityIncidents <= |s.auditLog|
    ensures endDate < startDate ==> r.totalVisitors == 0 && r.totalCheckIns == 0
    ensures r.averageVisitDuration == 0
  {
    var inPeriod := Filter(s.visitors, (v: Visitor) => CreatedIn(v, startDate, endDate));
    StatusListingsBounded(inPeriod, Approved, Denied);
    assert endDate < startDate ==> inPeriod == [];
    VisitorReport(startDate, endDate, |inPeriod|, |Pairs(inPeriod, None)|,
                  |Pairs(inPeriod, Some(Approved))|, |Pairs(inPeriod, Some(Denied))|, 0,
                  Count(s.auditLog, Incident))
  }
  /** A period that covers every visitor's creation reports the whole store. */
  lemma WholeRangeReport(s: State, startDate: int, endDate: int)
    requires forall k :: 0 <= k < |s.visitors| ==> CreatedIn(s.visitors[k], startDate, endDate)
    ensures GenerateVisitorReport(s, startDate, endDate).totalVisitors == |s.visitors|
    ensures GenerateVisitorReport(s, startDate, endDate).totalCheckIns == |Pairs(s.visitors, None)|
  {
    FilterKeepsAll(s.visitors, (v: Visitor) => CreatedIn(v, startDate, endDate));
  }


  // ---------------------------------------------------------------- host directory

  /** A record from the browser's registration list as the store reads it back. */
  function FromStored(h: StoredHost): (r: Host)
    ensures h.id != "" ==> r.id == h.id
    ensures h.id == "" ==> r.id == h.email
    ensures r.name == h.name && r.email == h.email && r.password == Some(h.password) && r.department == h.department
    ensures r.isActive && r.isApproved == h.isApproved
    ensures h.maxVisitorsPerDay != 0 ==> r.maxVisitorsPerDay == h.maxVisitorsPerDay
    ensures h.maxVisitorsPerDay == 0 ==> r.maxVisitorsPerDay == 5
    ensures r.createdAt == h.createdAt && r.approvedBy == h.approvedBy && r.approvedAt == h.approvedAt
  {
    Host(if h.id != "" then h.id else h.email, h.name, h.email, Some(h.password), h.department,
         true, h.isApproved, if h.maxVisitorsPerDay != 0 then h.maxVisitorsPerDay else 5,
         h.createdAt, h.approvedBy, h.approvedAt)
  }

  predicate HasEmail(hs: seq<Host>, email: string) {
    exists k :: 0 <= k < |hs| && hs[k].email == email
  }

  /** The registered record at `i` is the first with its e-mail, and no store host has that e-mail. */
  predicate FirstUnlisted(hosts: seq<Host>, registered: seq<StoredHost>, i: nat)
    requires i < |registered|
  {
    !HasEmail(hosts, registered[i].email) && forall j :: 0 <= j < i ==> registered[j].email != registered[i].email
  }

  /**
   * `getAllHosts`: the store's hosts, then each registered host whose e-mail is not already
   * in the list built so far, in registration order.
   */
  function MergeHosts(hosts: seq<Host>, registered: seq<StoredHost>): (r: seq<Host>)
    ensures |hosts| <= |r| <= |hosts| + |registered|
    ensures r[..|hosts|] == hosts
    ensures forall k :: 0 <= k < |registered| ==> HasEmail(r, registered[k].email)
    ensures FromRegistered(hosts, registered, r) && ListsFirstUnlisted(hosts, registered, r)
  {
    if registered == [] then hosts
    else
      var n := |registered| - 1;
      var prev := MergeHosts(hosts, registered[..n]);
      var h := registered[n];
      var r := if HasEmail(prev, h.email) then prev else prev + [FromStored(h)];
      assert r[..|prev|] == prev;
      MergeStepFromRegistered(hosts, registered, prev, r);
      MergeStepListsFirstUnlisted(hosts, registered, prev, r);
      forall k | 0 <= k < |registered| ensures HasEmail(r, registered[k].email) {
        if k < |registered| - 1 {
          assert registered[..|registered| - 1][k] == registered[k];
          var i :| 0 <= i < |prev| && prev[i].email == registered[k].email;
          assert r[i] == prev[i];
        } else if !HasEmail(prev, h.email) {
          assert r[|prev|].email == h.email;
        }
      }
      r
  }

  /** The host is one of the registered records as the store reads it back. */
  predicate IsReadBack(registered: seq<StoredHost>, h: Host) {
    exists i :: 0 <= i < |registered| && h == FromStored(registered[i])
  }

  /** Every host after the store's own is a registered record as the store reads it back. */
  predicate FromRegistered(hosts: seq<Host>, registered: seq<StoredHost>, r: seq<Host>) {
    forall k :: |hosts| <= k < |r| ==> IsReadBack(registered, r[k])
  }

  /** Every registered record that is the first with an e-mail the store lacks is in the list. */
  predicate ListsFirstUnlisted(hosts: seq<Host>, registered: seq<StoredHost>, r: seq<Host>) {
    forall i :: 0 <= i < |registered| && FirstUnlisted(hosts, registered, i) ==> FromStored(registered[i]) in r
  }

  /** One more registered record keeps every appended host a read-back record. */
  lemma MergeStepFromRegistered(hosts: seq<Host>, registered: seq<StoredHost>, prev: seq<Host>, r: seq<Host>)
    requires registered != [] && FromRegistered(hosts, registered[..|registered| - 1], prev)
    requires r == prev || r == prev + [FromStored(registered[|registered| - 1])]
    ensures FromRegistered(hosts, registered, r)
  {
    var n := |registered| - 1;
    forall k | |hosts| <= k < |r| ensures IsReadBack(registered, r[k]) {
      if k < |prev| {
        assert r[k] == prev[k];
        var i :| 0 <= i < n && prev[k] == FromStored(registered[..n][i]);
        assert registered[..n][i] == registered[i];
        assert r[k] == FromStored(registered[i]);
      } else {
        assert r[k] == FromStored(registered[n]);
      }
    }
  }

  /** One more registered record: the new one is appended when it is the first with a missing e-mail. */
  lemma MergeStepListsFirstUnlisted(hosts: seq<Host>, registered: seq<StoredHost>, prev: seq<Host>, r: seq<Host>)
    requires registered != [] && |hosts| <= |prev| && prev[..|hosts|] == hosts
    requires FromRegistered(hosts, registered[..|registered| - 1], prev)
    requires ListsFirstUnlisted(hosts, registered[..|registered| - 1], prev)
    requires r == if HasEmail(prev, registered[|registered| - 1].email) then prev else prev + [FromStored(registered[|registered| - 1])]
    ensures ListsFirstUnlisted(hosts, registered, r)
  {
    var n := |registered| - 1;
    var h := registered[n];
    forall i | 0 <= i < |registered| && FirstUnlisted(hosts, registered, i) ensures FromStored(registered[i]) in r {
      if i < n {
        assert registered[..n][i] == registered[i];
        assert FirstUnlisted(hosts, registered[..n], i);
      } else {
        NewEmailNotInPrefix(hosts, registered, prev);
      }
    }
  }

  /** An e-mail that is neither a store host's nor an earlier record's is not in the list built so far. */
  lemma NewEmailNotInPrefix(hosts: seq<Host>, registered: seq<StoredHost>, prev: seq<Host>)
    requires registered != [] && |hosts| <= |prev| && prev[..|hosts|] == hosts
    requires FromRegistered(hosts, registered[..|registered| - 1], prev)
    requires FirstUnlisted(hosts, registered, |registered| - 1)
    ensures !HasEmail(prev, registered[|registered| - 1].email)
  {
    var n := |registered| - 1;
    forall k | 0 <= k < |prev| ensures prev[k].email != registered[n].email {
      if k < |hosts| {
        assert prev[k] == hosts[k];
      } else {
        assert IsReadBack(registered[..n], prev[k]);
        var i :| 0 <= i < n && prev[k] == FromStored(registered[..n][i]);
        assert registered[..n][i] == registered[i];
      }
    }
  }

  /** From position `n` on, no host shares an e-mail with any host before it. */
  predicate FreshEmailsFrom(r: seq<Host>, n: nat) {
    forall i, j :: 0 <= i < j < |r| && j >= n ==> r[i].email != r[j].email
  }

  /** From position `n` on, every host is active. */
  predicate ActiveFrom(r: seq<Host>, n: nat) {
    forall j :: n <= j < |r| ==> r[j].isActive
  }

  /** No host the merge appends shares an e-mail with any host before it. */
  lemma {:induction false} MergeAddsNoDuplicateEmail(hosts: seq<Host>, registered: seq<StoredHost>)
    ensures FreshEmailsFrom(MergeHosts(hosts, registered), |hosts|)
  {
    if registered != [] {
      var prev := MergeHosts(hosts, registered[..|registered| - 1]);
      var h := registered[|registered| - 1];
      MergeAddsNoDuplicateEmail(hosts, registered[..|registered| - 1]);
      if !HasEmail(prev, h.email) {
        var r := prev + [FromStored(h)];
        assert MergeHosts(hosts, registered) == r;
        forall i, j | 0 <= i < j < |r| && j >= |hosts| ensures r[i].email != r[j].email {
          if j < |prev| {
            assert r[i] == prev[i] && r[j] == prev[j];
          } else {
            assert r[i] == prev[i];
          }
        }
      }
    }
  }

  /** Every host the merge appends is active, whatever the stored record says. */
  lemma {:induction false} MergedHostsActive(hosts: seq<Host>, registered: seq<StoredHost>)
    ensures ActiveFrom(MergeHosts(hosts, registered), |hosts|)
  {
    if registered != [] {
      var prev := MergeHosts(hosts, registered[..|registered| - 1]);
      var h := registered[|registered| - 1];
      MergedHostsActive(hosts, registered[..|registered| - 1]);
      if !HasEmail(prev, h.email) {
        var r := prev + [FromStored(h)];
        assert MergeHosts(hosts, registered) == r;
        forall j | |hosts| <= j < |r| ensures r[j].isActive {
          if j < |prev| { assert r[j] == prev[j]; }
        }
      }
    }
  }
}
