/**
 * The visit history table (src/components/VisitorHistory.tsx): the status and search filters
 * over the newest-first history, the duration column and the badge button.
 */
module VisitorHistory {
  import opened Wrappers
  import opened Text
  import opened Seqs
  import opened DataModel
  import opened DataViews

  /** The status drop-down: `None` is "all". */
  predicate MatchesStatus(e: Entry, only: Option<CheckInStatus>) {
    only.None? || e.checkIn.status == only.value
  }

  /** The search box: empty matches everything, otherwise a case-insensitive substring of name, company or host. */
  predicate MatchesSearch(e: Entry, term: string) {
    term == ""
    || ContainsIgnoringCase(e.visitor.name, term)
    || (Truthy(e.visitor.company) && ContainsIgnoringCase(e.visitor.company.value, term))
    || ContainsIgnoringCase(e.checkIn.hostName, term)
  }

  predicate Shown(e: Entry, only: Option<CheckInStatus>, term: string) {
    MatchesStatus(e, only) && MatchesSearch(e, term)
  }

  /** A filter keeps a sorted listing sorted. */
  lemma {:induction false} FilterKeepsTimeOrder(s: seq<Entry>, p: Entry -> bool, ascending: bool)
    requires SortedByTime(s, ascending)
    ensures SortedByTime(Filter(s, p), ascending)
  {
    if s != [] {
      assert SortedByTime(s[1..], ascending);
      FilterKeepsTimeOrder(s[1..], p, ascending);
      var rest := Filter(s[1..], p);
      if p(s[0]) {
        var r := [s[0]] + rest;
        forall i, j | 0 <= i < j < |r| ensures InOrder(r[i], r[j], ascending) {
          if i == 0 {
            var m :| 0 <= m < |s[1..]| && s[1..][m] == r[j];
            assert s[m + 1] == r[j];
          } else {
            assert r[i] == rest[i - 1] && r[j] == rest[j - 1];
          }
        }
      }
    }
  }

  /** `filteredHistory`: the history entries passing both tests, still newest first. */
  function FilteredHistory(vs: seq<Visitor>, only: Option<CheckInStatus>, term: string): (r: seq<Entry>)
    ensures IsSubsequence(r, AllVisitorHistory(vs))
    ensures SortedByTime(r, false)
    ensures forall k :: 0 <= k < |r| ==> Shown(r[k], only, term)
    ensures forall k :: 0 <= k < |AllVisitorHistory(vs)| && Shown(AllVisitorHistory(vs)[k], only, term) ==>
              AllVisitorHistory(vs)[k] in r
  {
    var p := (e: Entry) => Shown(e, only, term);
    FilterIsSubsequence(AllVisitorHistory(vs), p);
    FilterKeepsTimeOrder(AllVisitorHistory(vs), p, false);
    var r := Filter(AllVisitorHistory(vs), p);
    assert forall k :: 0 <= k < |r| ==> p(r[k]);
    r
  }

  /** With "all" and an empty search box the table is the whole history. */
  lemma NoFilterShowsEverything(vs: seq<Visitor>)
    ensures FilteredHistory(vs, None, "") == AllVisitorHistory(vs)
  {
    FilterKeepsAll(AllVisitorHistory(vs), (e: Entry) => Shown(e, None, ""));
  }

  /** JavaScript's `%`: the remainder takes the sign of the dividend. */
  function JsRemainder(a: int, b: int): (r: int)
    requires b > 0
    ensures a >= 0 ==> r == a % b
    ensures -b < r < b
  {
    if a >= 0 then a % b else -((-a) % b)
  }

  /** The hours and minutes of a stay: `floor(d / 1h)` and `floor((d % 1h) / 1min)`. */
  function DurationParts(d: int): (hm: (int, int))
    ensures d >= 0 ==> hm.0 >= 0 && 0 <= hm.1 < 60
    ensures d >= 0 ==> hm.0 * MsPerHour + hm.1 * MsPerMinute <= d < hm.0 * MsPerHour + (hm.1 + 1) * MsPerMinute
  {
    (d / MsPerHour, JsRemainder(d, MsPerHour) / MsPerMinute)
  }

  /** `calculateDuration`. */
  function Duration(c: CheckIn): (text: string)
    ensures c.checkOutTime.None? ==> text == "Still visiting"
    ensures c.checkOutTime.Some? ==> |text| >= 2 && text[|text| - 1] == 'm'
  {
    if c.checkOutTime.None? then "Still visiting"
    else
      var hm := DurationParts(c.checkOutTime.value - c.checkInTime);
      if hm.0 > 0 then IntText(hm.0) + "h " + IntText(hm.1) + "m" else IntText(hm.1) + "m"
  }

  /** A stay of 1 h 30 min reads "1h 30m"; one of 45 min reads "45m". */
  lemma DurationExamples(c: CheckIn)
    ensures c.checkOutTime == Some(c.checkInTime + 90 * MsPerMinute) ==> Duration(c) == "1h 30m"
    ensures c.checkOutTime == Some(c.checkInTime + 45 * MsPerMinute) ==> Duration(c) == "45m"
  {
    assert Decimal(30) == "30" by { assert Decimal(3) == "3"; }
    assert Decimal(45) == "45" by { assert Decimal(4) == "4"; }
  }

  /** A check-out recorded before the arrival shows a negative minute count. */
  lemma NegativeStayShowsNegativeMinutes(c: CheckIn)
    requires c.checkOutTime == Some(c.checkInTime - MsPerMinute)
    ensures Duration(c) == "-1m"
  {
  }

  /** The badge button: an approved check-in with a badge number. */
  predicate BadgeActionShown(c: CheckIn) {
    c.status == Approved && Truthy(c.badgeNumber)
  }

  /** With distinct ids, the badge button of a history row always finds that row's badge. */
  lemma BadgeActionFindsBadge(vs: seq<Visitor>, e: Entry)
    requires UniqueIds(vs)
    requires e in AllVisitorHistory(vs) && BadgeActionShown(e.checkIn)
    ensures GetVisitorBadge(vs, e.visitor.id, e.checkIn.id) == Some(e)
  {
    ListingMembers(vs, None, false);
    var h := AllVisitorHistory(vs);
    var n :| 0 <= n < |h| && h[n] == e;
    assert e.visitor in vs && e.checkIn in e.visitor.checkIns;
    var k :| 0 <= k < |vs| && vs[k] == e.visitor;
    var j :| 0 <= j < |e.visitor.checkIns| && e.visitor.checkIns[j] == e.checkIn;
    FindVisitorIndex(vs, e.visitor.id, k);
    var c := FindCheckIn(e.visitor.checkIns, e.checkIn.id);
    assert c.Some?;
    var j' :| 0 <= j' < |e.visitor.checkIns| && e.visitor.checkIns[j'] == c.value
              && forall i :: 0 <= i < j' ==> e.visitor.checkIns[i].id != e.checkIn.id;
    assert j' == j;
  }
}
