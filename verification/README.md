# SecureVMS visitor management: a Dafny model

SecureVMS is a browser application for reception desks. Visitors check themselves in, or a security
officer checks them in. The host they came to see approves or denies the visit from a dashboard or
from a notification bell. Security checks approved visitors out. Hosts issue pre-approvals.
Self-registered hosts wait for an administrator, who approves them with a password or drops them.
Every change is written to an audit log.

This project models the application's in-memory store and the decision logic of its screens.

- `DataModel` holds the records.
- `DataMutations` gives each store mutation as a pure state transition.
- `DataViews` holds the listings and lookups.
- `DataContext.DataStore` is a class holding the five pieces of store state. Each of its methods is
  proved to perform exactly the corresponding transition.
- `BrowserStorage.Storage` models the two browser-storage keys: the self-registered host list and
  the signed-in session.
- One module per page or component holds that screen's guards, payloads, filters and page state.
  Screens that keep state of their own become classes.
- `HostOnboarding` and `UiTransitions` state properties that span several files. The first follows
  a self-registered host from the form to sign-in. The second says which status changes the
  buttons can cause.

## Modelling conventions

- **Time** is an integer count of milliseconds. Each operation receives one clock reading `now`; the host-registration submit handler receives two, `now` and `later`.
  Ids the source makes from the clock are `Decimal(now)`, its decimal digits.
- **JavaScript truthiness of optional strings** is `DataModel.Truthy`: absent and empty are both false.
- **Fractional-minute comparisons** such as "wait / 60000 > 20" are stated exactly on milliseconds.
- **`Math.floor` and `Math.round`** are Dafny's floor division and `DataViews.RoundHalfUp`.
- **JavaScript's `%`** takes the sign of the dividend. It is `VisitorHistory.JsRemainder`.
- **Array sorts** are stable insertion sorts on sequences. They are proved sorted and a permutation
  of their input.
- **The store's `setState` calls** are applied in program order within one handler.

## Model

| member | source | states |
|---|---|---|
| `DataContext.DataStore.constructor` | src/contexts/DataContext.tsx:161-172 | A new store holds no visitors, pre-approvals, hosts or audit entries, and the default rules (5, false, 15, 24, true, true). |
| `DataContext.DataStore.AddAuditEntry` | src/contexts/DataContext.tsx:361-368 | The store moves to `DataMutations.AddAuditEntry` of its old state. |
| `DataMutations.AddAuditEntry` | src/contexts/DataContext.tsx:361-368 | The stamped entry is the new head of the log, with the clock as id and timestamp and the caller's action, severity and category. The old entries follow in order. Nothing else changes. |
| `DataContext.DataStore.AddHost` | src/contexts/DataContext.tsx:370-391 | The store moves to `DataMutations.AddHost` of its old state. |
| `DataMutations.AddHost` | src/contexts/DataContext.tsx:370-391 | Exactly one host is appended: unapproved, with the caller's e-mail. One `host_registration` user-management entry is logged. Visitors, pre-approvals and rules are unchanged. |
| `DataMutations.FindHost` | src/contexts/DataContext.tsx:400 | The result is the first host with the id. No host is found only when no host has it. |
| `DataMutations.ApproveHostRecord` | src/contexts/DataContext.tsx:394-397 | The host becomes approved, with the approver, the time and the new password. Its id, name, e-mail, department, activity, visitor limit and creation time are kept. |
| `DataMutations.ApproveHosts` | src/contexts/DataContext.tsx:394-398 | Every host with the id becomes exactly `ApproveHostRecord` of itself. Every other host is unchanged, and the length is kept. |
| `DataContext.DataStore.ApproveHost` | src/contexts/DataContext.tsx:393-413 | The store moves to `DataMutations.ApproveHost` of its old state. |
| `DataMutations.ApproveHost` | src/contexts/DataContext.tsx:393-413 | The hosts become `ApproveHosts` of the old hosts. One `host_approved` entry targeting the id is logged. The other state is unchanged. |
| `DataContext.DataStore.UpdateSystemRules` | src/contexts/DataContext.tsx:415-428 | The store moves to `DataMutations.UpdateSystemRules` of its old state. |
| `DataMutations.UpdateSystemRules` | src/contexts/DataContext.tsx:415-428 | Each of the six rules present in the patch is overwritten and each absent one is kept. One medium-severity system entry is logged. Visitors, pre-approvals and hosts are unchanged. |
| `DataContext.DataStore.AddVisitor` | src/contexts/DataContext.tsx:430-462 | The call succeeds exactly when walk-ins are allowed; then the store moves to `DataMutations.AddVisitor`. A refused call (the thrown error) changes nothing. |
| `DataMutations.AddVisitor` | src/contexts/DataContext.tsx:430-462 | The result is `None` exactly when walk-ins are disallowed. Otherwise exactly the supplied visitor is appended, with one visit counted and `lastVisit` set to now, and one low-severity `visitor_created` entry is logged. Pre-approvals, hosts and rules are unchanged. |
| `DataMutations.FindVisitor` | src/contexts/DataContext.tsx:508 | The result is the first visitor with the id. No visitor is found only when no visitor has it. |
| `DataMutations.BadgeNumber` | src/contexts/DataContext.tsx:473 | A badge is "VMS" followed by one to three characters. |
| `DataMutations.BadgeNumberRepeatsEverySecond` | src/contexts/DataContext.tsx:473 | Two approvals 1000 ms apart get the same badge number. |
| `DataMutations.ApplyPatch` | src/contexts/DataContext.tsx:469-477 | Each of status, check-out time, approval and denial time and person, denial reason and linked pre-approval is overwritten when present in the payload and kept when absent. Id, host, arrival time, purpose, ID record, wait estimate, security officer and pre-approved flag never change. An approval always ends with a truthy badge. If the merged badge is falsy, a clock badge and its "QR_" code are generated. Otherwise the payload's badge and QR code stand. |
| `DataMutations.UpdateCheckIns` | src/contexts/DataContext.tsx:467-480 | Every check-in with the id gets the patch applied. The others are unchanged, and the length is kept. |
| `DataMutations.UpdateVisitors` | src/contexts/DataContext.tsx:465-489 | For the visitor with the id, the check-ins are updated and `lastVisit` is set to now. Other visitors are unchanged, and the length is kept. |
| `DataMutations.ConsumePreApprovals` | src/contexts/DataContext.tsx:492-504 | The pre-approval with the id becomes used, at now, for the visitor, with the payload's badge. The others are unchanged. |
| `DataContext.DataStore.UpdateVisitorCheckIn` | src/contexts/DataContext.tsx:464-522 | The store moves to `DataMutations.UpdateVisitorCheckIn` of its old state. |
| `DataMutations.UpdateVisitorCheckIn` | src/contexts/DataContext.tsx:464-522 | The visitors become `UpdateVisitors`. Pre-approvals are consumed only for an approving payload that names one, and are unchanged otherwise. One `visitor_<status>` entry is logged exactly when the payload carries a status: medium for a denial, low otherwise. Hosts and rules are unchanged. |
| `DataContext.DataStore.CancelCheckIn` | src/contexts/DataContext.tsx:524-529 | The store moves to `DataMutations.CancelCheckIn` of its old state. |
| `DataMutations.CancelCheckIn` | src/contexts/DataContext.tsx:524-529 | The state is the general check-in update with the cancel payload, so only matching check-ins of matching visitors change and those visitors get `lastVisit` now. Each matching check-in is `cancelled` with a check-out time of now. Pre-approvals, hosts and rules are unchanged. One `visitor_cancelled` entry is logged. |
| `DataMutations.AccessCode` | src/contexts/DataContext.tsx:532 | An access code is "PA-" followed by one to six characters. |
| `DataContext.DataStore.AddPreApproval` | src/contexts/DataContext.tsx:531-549 | The store moves to `DataMutations.AddPreApproval` of its old state. |
| `DataMutations.AddPreApproval` | src/contexts/DataContext.tsx:531-549 | Exactly one record is appended, the old ones kept. Its expiry is the scheduled time plus the rule's hours, whatever the caller sent. Its id is the clock reading's digits and its creation time that reading. The visitor's name, e-mail, phone and company, the host's id and name, the purpose, the status and the scheduled time are copied from the draft. It gets a fresh access code with its QR code, no messages sent, no reminders, no badge and no use. One `preapproval_created` entry is logged. |
| `DataContext.DataStore.CompletePreApprovalDispatch` | src/contexts/DataContext.tsx:551-585 | The store moves to `DataMutations.CompletePreApprovalDispatch` of its old state. |
| `DataMutations.CompletePreApprovalDispatch` | src/contexts/DataContext.tsx:551-585 | The record with the id is flagged as e-mailed and texted, and the others are unchanged. Two entries are logged, the SMS in front of the e-mail, each at its own clock reading. |
| `DataMutations.MarkNotified` | src/contexts/DataContext.tsx:578-583 | Every record with the id is flagged as sent by e-mail and SMS, every other record is unchanged, and the length is kept. |
| `DataContext.DataStore.UsePreApproval` | src/contexts/DataContext.tsx:607-627 | The store moves to `DataMutations.UsePreApproval` of its old state. |
| `DataMutations.UsePreApproval` | src/contexts/DataContext.tsx:601-627 | Every record with the id becomes used for the visitor at now, whatever its status or expiry. The others are unchanged. One `preapproval_used` entry is logged. |
| `DataMutations.MarkUsed` | src/contexts/DataContext.tsx:601-605 | Every record with the id becomes `used`, with the use time and the visitor, every other record is unchanged, and the length is kept. |
| `DataMutations.SetBlacklist` | src/contexts/DataContext.tsx:630-634 | The visitor with the id gets the flag and the reason. The others are unchanged. |
| `DataContext.DataStore.BlacklistVisitor` | src/contexts/DataContext.tsx:629-650 | The store moves to `DataMutations.BlacklistVisitor` of its old state. |
| `DataMutations.BlacklistVisitor` | src/contexts/DataContext.tsx:629-650 | The visitor is flagged with the reason. One high-severity security entry is logged. Pre-approvals, hosts and rules are unchanged. |
| `DataContext.DataStore.RemoveFromBlacklist` | src/contexts/DataContext.tsx:652-673 | The store moves to `DataMutations.RemoveFromBlacklist` of its old state. |
| `DataMutations.RemoveFromBlacklist` | src/contexts/DataContext.tsx:652-673 | The flag is cleared and the reason dropped. One medium-severity security entry is logged. The other state is unchanged. |
| `DataContext.DataStore.CollectPairs` | src/contexts/DataContext.tsx:715-722 | The nested walk pushes exactly `Pairs(visitors, only)`. |
| `DataContext.DataStore.GetPendingApprovals` | src/contexts/DataContext.tsx:714-726 | The result is the pending queue: sorted oldest first and a permutation of the pending pairs. |
| `DataContext.DataStore.GetAllVisitorHistory` | src/contexts/DataContext.tsx:728-738 | The result is sorted newest first and a permutation of all pairs. |
| `DataContext.DataStore.GetApprovedVisitors` | src/contexts/DataContext.tsx:740-752 | The result is sorted newest first and a permutation of the approved pairs. |
| `DataContext.DataStore.GetAllHosts` | src/contexts/DataContext.tsx:330-359 | The result equals `MergeHosts`. The store's hosts come first and unchanged. No appended host repeats an earlier e-mail. Every appended host is active. |
| `DataViews.PairsIn` | src/contexts/DataContext.tsx:717-721 | Each pushed pair is this visitor with one of its selected check-ins. |
| `DataViews.Pairs` | src/contexts/DataContext.tsx:716-722 | Each pushed pair is a visitor of the store with one of its own check-ins. |
| `DataViews.PairsInStep` | src/contexts/DataContext.tsx:717-721 | Walking one more check-in appends it exactly when it is selected. |
| `DataViews.PairsStep` | src/contexts/DataContext.tsx:716-722 | Walking one more visitor appends exactly its selected pairs. |
| `DataViews.PairsComplete` | src/contexts/DataContext.tsx:716-722 | Every selected check-in is listed with its visitor. |
| `DataViews.PairsInComplete` | src/contexts/DataContext.tsx:717-721 | Every selected check-in of the visitor is listed. |
| `DataViews.StatusListingsBounded` | src/contexts/DataContext.tsx:714-752 | Listings for two different statuses together are no longer than the full history. |
| `DataViews.PairsInBounded` | src/contexts/DataContext.tsx:717-721 | The same bound holds for one visitor. |
| `DataViews.InsertByTime` | src/contexts/DataContext.tsx:723-725 | Insertion adds exactly the element: the multiset grows by it, the length by one, and the head is the element or the old head. |
| `DataViews.InsertKeepsOrder` | src/contexts/DataContext.tsx:723-725 | Inserting into a sorted listing keeps it sorted. |
| `DataViews.InsertFrontKeepsOrder` | src/contexts/DataContext.tsx:723-725 | An element that may precede the head can be put in front of a sorted listing, which stays sorted. |
| `DataViews.ConsKeepsOrder` | src/contexts/DataContext.tsx:723-725 | An element that may precede every other can be put in front, and the listing stays sorted. |
| `DataViews.SortByTime` | src/contexts/DataContext.tsx:723-725 | The result is sorted in the requested direction and is a permutation of the input. |
| `DataViews.SortOfSortedIsIdentity` | src/contexts/DataContext.tsx:723-725 | Sorting an already sorted listing returns it unchanged (the sort is stable). |
| `DataViews.ListingMembers` | src/contexts/DataContext.tsx:714-752 | Every entry of a sorted listing is a selected check-in paired with its own visitor. |
| `DataViews.PendingApprovalsExact` | src/contexts/DataContext.tsx:714-726 | The queue is sorted oldest first. It holds only pending check-ins with their visitors, and every pending check-in is in it. |
| `DataViews.ActiveVisitors` | src/contexts/DataContext.tsx:706-712 | The result is an order-preserving subsequence holding exactly the visitors with an open approved visit. |
| `DataViews.FindCheckIn` | src/contexts/DataContext.tsx:758 | The result is the first check-in with the id. Nothing is found only when none has it. |
| `DataViews.GetVisitorBadge` | src/contexts/DataContext.tsx:754-762 | A badge found belongs to a stored visitor with the id and one of its approved check-ins with the id. |
| `DataViews.FindVisitorIndex` | src/contexts/DataContext.tsx:755 | With distinct ids, the lookup finds the visitor at its position. |
| `DataViews.BadgeFoundWhenApproved` | src/contexts/DataContext.tsx:754-762 | With distinct ids, every approved check-in has its badge found. |
| `DataViews.BadgeOnlyWhenApproved` | src/contexts/DataContext.tsx:754-762 | A badge is found only for an approved check-in of a visitor with that id. |
| `DataViews.VisitorBadgeExactly` | src/contexts/DataContext.tsx:754-762 | With distinct ids, a badge is found exactly when the visitor has an approved check-in with the id. |
| `DataViews.GetPreApprovalBadge` | src/contexts/DataContext.tsx:764-766 | The result is the first record with the id. Nothing is found only when no record has it. |
| `DataViews.RoundHalfUp` | src/contexts/DataContext.tsx:791 | The result is the nearest integer to num/den, with halves rounded up, and it is non-negative for a non-negative numerator. |
| `DataViews.AverageWaitMinutes` | src/contexts/DataContext.tsx:779-792 | With no completed approval the average is 0. Otherwise it is the total wait over the count, in minutes, rounded half up: 2·total − n < 2·n·r ≤ 2·total + n, with n the count times 60000. |
| `DataViews.TotalWaitNonNegative` | src/contexts/DataContext.tsx:783-788 | Non-negative waits sum to a non-negative total. |
| `DataViews.TotalWaitOfEqualWaits` | src/contexts/DataContext.tsx:783-788 | When every wait is m minutes, the total is m minutes per approval. |
| `DataViews.AverageOfEqualWaits` | src/contexts/DataContext.tsx:779-792 | When every completed approval waited m minutes, the average is exactly m. |
| `DataViews.CompletedWaitNonNegative` | src/contexts/DataContext.tsx:780-786 | An approval recorded after arrival gives a non-negative wait. |
| `DataViews.AverageWaitNonNegative` | src/contexts/DataContext.tsx:779-792 | While approvals come after arrivals, the average wait is never negative. |
| `DataViews.GetVisitorStats` | src/contexts/DataContext.tsx:768-805 | The active count is the length of the active-visitor listing. The pending count is the length of the pending listing, which equals the number of pending pairs. The checked-out count is the number of checked-out pairs. The average is `AverageWaitMinutes`. Today's count and pre-approved today are bounded by the visitors and the pre-approvals. The average is non-negative while approvals follow arrivals. |
| `DataViews.GenerateVisitorReport` | src/contexts/DataContext.tsx:807-826 | The visitors counted are those created in the closed period. The check-ins, approved and denied counts are the pairs of those visitors with each status. Incidents are the high and critical entries of the whole log. Approved plus denied is at most the check-ins. An inverted range counts nothing. The average visit duration is always 0. |
| `DataViews.WholeRangeReport` | src/contexts/DataContext.tsx:807-815 | A period covering every creation counts every visitor and every check-in. |
| `DataViews.FromStored` | src/contexts/DataContext.tsx:340-353 | The id is the record's id, or its e-mail when that is empty. The visitor limit is the record's, or 5 when that is 0. The host is always active. Approval flag, name, e-mail, password, department, creation and approval fields are carried over. |
| `DataViews.MergeHosts` | src/contexts/DataContext.tsx:330-359 | The store's hosts come first and unchanged, and at most the registered ones are added. Every registered e-mail ends up present. Every appended host is `FromStored` of a registered record. Every registered record that is the first with an e-mail the store lacks is appended. |
| `HostOnboarding.ApprovedRegistrationSelectable` | src/pages/SecurityCheckIn.tsx:44 | An approved registration whose e-mail is new is offered by the walk-in pages' host list. |
| `DataViews.MergeAddsNoDuplicateEmail` | src/contexts/DataContext.tsx:337-356 | No host the merge appends repeats an e-mail that comes before it. |
| `DataViews.MergedHostsActive` | src/contexts/DataContext.tsx:340-353 | Every host the merge appends is active, whatever the stored record says. |
| `DataModel.OrElse` | src/components/NotificationCenter.tsx:37 | `x \|\| fallback`: the value when it is truthy, the fallback otherwise. |
| `BrowserStorage.Storage.constructor` | src/contexts/AuthContext.tsx:59 | The storage holds the given registration list and session. |
| `Text.Lower` | src/components/VisitorHistory.tsx:52 | Lower-casing keeps the length and maps each character. |
| `Text.ContainsIffOccurs` | src/components/VisitorHistory.tsx:52 | `includes` holds exactly when the needle occurs at some index. |
| `Text.Decimal` | src/contexts/DataContext.tsx:364 | `String(n)` is a non-empty run of digits, one digit long exactly below 10. |
| `Text.DecimalInjective` | src/components/HostRegistration.tsx:56 | Two clock readings give the same id exactly when they are equal. |
| `Text.Last` | src/contexts/DataContext.tsx:473 | `slice(-n)` is the last `min(n, length)` characters. |
| `Text.LastThreeDigits` | src/contexts/DataContext.tsx:473 | From 100 on, the last three characters are the hundreds, tens and units digits. |
| `Text.JoinCountsSeparators` | src/components/AuditLog.tsx:135 | A join holds the parts' occurrences of a character plus one per separator. |
| `Seqs.Filter` | src/contexts/DataContext.tsx:707 | A filter keeps exactly the elements passing the test, and never lengthens the sequence. |
| `Seqs.FilterIsSubsequence` | src/contexts/DataContext.tsx:707 | A filter keeps the original order. |
| `Seqs.FilterMembers` | src/contexts/DataContext.tsx:707 | An element is in a filter exactly when it is in the input and passes. |
| `Seqs.FilterKeepsAll` | src/components/AuditLog.tsx:110-120 | A test everything passes keeps the whole sequence. |
| `Seqs.FilterAppend` | src/pages/HostDashboard.tsx:196 | Filtering one more element appends it exactly when it passes. |
| `WalkIn.ApprovedHosts` | src/pages/SecurityCheckIn.tsx:44 | The offered hosts are exactly the approved and active ones, in order. |
| `WalkIn.SelectedHostId` | src/pages/SecurityCheckIn.tsx:90-105 | The id is non-empty. It is "2" or the id of an offered host with the chosen name, and it is "2" when no offered host has that name. |
| `WalkIn.FirstNamedHostDecides` | src/pages/VisitorCheckIn.tsx:48-59 | The first offered host with the name decides, when its id is non-empty. |
| `EmailPattern.FirstIndexOf` | src/pages/VisitorCheckIn.tsx:211-217 | The result is the first position of the character, or nothing when it is absent. |
| `EmailPattern.LastIndexOf` | src/components/HostRegistration.tsx:131-137 | The result is the last position of the character, or nothing when it is absent. |
| `EmailPattern.SplitPointsAreForced` | src/components/HostRegistration.tsx:134 | Any split the pattern admits sits at the first `@` and at the last dot. |
| `EmailPattern.ValidEmailIffMatches` | src/components/HostRegistration.tsx:134 | The decision procedure accepts exactly the strings the e-mail pattern matches. |
| `EmailPattern.PatternExamples` | src/pages/VisitorCheckIn.tsx:211-217 | "a@b.co" is accepted and "a@b.c" is refused. |
| `EmailPattern.DomainLabelsWellFormed` | src/pages/VisitorCheckIn.tsx:210 | A domain the browser accepts is non-empty, has no leading, trailing or doubled dot, and every hyphen sits inside a label. |
| `EmailPattern.BrowserRefusesEmptyLabel` | src/components/HostRegistration.tsx:130-137 | "a@b..co" fits the pattern but the browser refuses it. |
| `EmailPattern.BrowserRefusesLeadingHyphen` | src/components/HostRegistration.tsx:130-137 | "a@-b.co" fits the pattern but the browser refuses it. |
| `EmailPattern.BrowserRefusesTrailingHyphen` | src/components/HostRegistration.tsx:130-137 | "a@b-.co" fits the pattern but the browser refuses it. |
| `EmailPattern.BrowserAcceptsPlainAddress` | src/pages/VisitorCheckIn.tsx:210-217 | "a@b.co" passes both the browser and the pattern. |
| `VisitorCheckIn.Decide` | src/pages/VisitorCheckIn.tsx:36-46 | Submission happens exactly when the form is valid (the browser accepts the e-mail and the field rules hold), walk-ins are allowed and a photo exists. Each refusal names the first failed guard. An ID is never asked for. |
| `VisitorCheckIn.VisitorDraftFor` | src/pages/VisitorCheckIn.tsx:48-65 | The visitor has one pending visit, for the selected host, with the clock as id, and no ID record anywhere. |
| `VisitorCheckIn.VisitorCheckInPage.constructor` | src/pages/VisitorCheckIn.tsx:19-22 | No photo and not submitted. |
| `VisitorCheckIn.VisitorCheckInPage.CapturePhoto` | src/pages/VisitorCheckIn.tsx:19-22 | The photo is set, and nothing else changes. |
| `VisitorCheckIn.VisitorCheckInPage.OnSubmit` | src/pages/VisitorCheckIn.tsx:36-76 | The outcome is `Decide`, so an e-mail the browser refuses stops it. On submission the store adds the built visitor and the page is marked submitted. Otherwise neither store nor page changes. |
| `SecurityCheckIn.Decide` | src/pages/SecurityCheckIn.tsx:73-88 | Submission happens exactly when the fields are filled, walk-ins are allowed, a photo exists and, if the rules require it, the ID is verified. Earlier guards take precedence. |
| `SecurityCheckIn.IdRecord` | src/pages/SecurityCheckIn.tsx:98-102 | An ID record exists exactly when the rules require one, and then it carries the number and the verification flag. |
| `SecurityCheckIn.VisitorDraftFor` | src/pages/SecurityCheckIn.tsx:90-119 | The visitor has one pending visit for the selected host, with the page's wait estimate. The visit and the visitor carry the same ID record, present exactly when required. |
| `SecurityCheckIn.SecurityCheckInPage.constructor` | src/pages/SecurityCheckIn.tsx:33-36 | No photo, not verified, not submitted, and an estimate of 15. |
| `SecurityCheckIn.SecurityCheckInPage.CapturePhoto` | src/pages/SecurityCheckIn.tsx:33 | Only the photo changes. |
| `SecurityCheckIn.SecurityCheckInPage.HandleIdVerification` | src/pages/SecurityCheckIn.tsx:60-71 | The ID becomes verified once name and number are both filled, and is never un-verified. Nothing else changes. |
| `SecurityCheckIn.SecurityCheckInPage.OnSubmit` | src/pages/SecurityCheckIn.tsx:73-130 | The outcome is `Decide`. On submission the store adds the built visitor and the page is marked submitted. Otherwise nothing changes. |
| `PendingApprovalCard.WaitMinutes` | src/components/PendingApprovalCard.tsx:25-30 | The result is the whole minutes elapsed, rounded down. |
| `PendingApprovalCard.ColorAndIconAgree` | src/components/PendingApprovalCard.tsx:32-44 | Colour and icon always agree. The error band starts at 21 whole minutes, and the plain band ends before 11. |
| `PendingApprovalCard.Buttons` | src/components/PendingApprovalCard.tsx:146-170 | Approve and Deny appear exactly with `showActions`. Cancel appears exactly with `showActions` and a cancel handler. |
| `VisitorCard.StatusStylesTotal` | src/components/VisitorCard.tsx:23-51 | Every status has a style. `checked-out` and `cancelled` share the grey style, and `pending` and `cancelled` share the alert icon. |
| `VisitorCard.Offered` | src/components/VisitorCard.tsx:116-133 | Approve/Deny is offered only on a pending check-in, Check Out only on an open approved one, and nothing without `showActions`. |
| `VisitorCard.OffersExclusive` | src/components/VisitorCard.tsx:116-133 | The two groups never appear together, a terminal check-in is offered nothing, and both conditions are also sufficient. |
| `HostDashboard.MyPendingApprovals` | src/pages/HostDashboard.tsx:42-46 | The result is an order-preserving subsequence of the visitors awaiting this host. Every visitor with a pending check-in for the host is in it. |
| `HostDashboard.MyActiveVisitors` | src/pages/HostDashboard.tsx:48-52 | The same, for open approved visits to this host. |
| `HostDashboard.MyActiveAreActive` | src/pages/HostDashboard.tsx:48-52 | Each of the host's active visitors is in the building-wide active list. |
| `HostDashboard.MyPreApprovals` | src/pages/HostDashboard.tsx:54 | The result holds exactly the host's pre-approvals. |
| `HostDashboard.PreApprovedCount` | src/pages/HostDashboard.tsx:196 | The tile counts at most the host's pre-approvals. Its exact value is pinned by `PreApprovedCountExact`. |
| `HostDashboard.PreApprovedCountAppend` | src/pages/HostDashboard.tsx:196 | One more record raises the tile by one exactly when it is the host's and `active`, whatever its expiry. |
| `HostDashboard.PreApprovedCountExact` | src/pages/HostDashboard.tsx:196 | The tile equals the number of positions holding one of the host's `active` records, expiry not considered. |
| `HostDashboard.TilePositionsStep` | src/pages/HostDashboard.tsx:196 | One more record adds its position exactly when the tile counts it. |
| `HostDashboard.ApprovalPatch` | src/pages/HostDashboard.tsx:56-64 | The payload approves, with a clock badge and its QR code, and names no pre-approval and no reason. |
| `HostDashboard.DenialPatch` | src/pages/HostDashboard.tsx:77-82 | The payload denies, with the time and the host's name, and gives no reason. |
| `HostDashboard.HandleApproveVisitor` | src/pages/HostDashboard.tsx:56-75 | The store update uses the approval payload and leaves pre-approvals untouched. The log head is `visitor_approved` by the host. Security is e-mailed exactly when the visitor exists. |
| `HostDashboard.ApprovalSetsBadge` | src/pages/HostDashboard.tsx:56-64 | The approved check-in gets the page's badge, QR code, time and approver. |
| `HostDashboard.DenialSetsDenier` | src/pages/HostDashboard.tsx:77-82 | The denied check-in records the denial time and the host as denier, and its reason is left as it was. |
| `HostDashboard.HandleDenyVisitor` | src/pages/HostDashboard.tsx:77-93 | The store update uses the denial payload. The medium entry carries no reason. Security is e-mailed exactly when the visitor exists. |
| `HostDashboard.PreApprovalDraftFor` | src/pages/HostDashboard.tsx:95-113 | The record is `active`, for this host, and expires the rule's hours after the scheduled time. |
| `HostDashboard.PageAndStoreExpiryAgree` | src/pages/HostDashboard.tsx:98-100 | The store's recomputed expiry equals the one the page sent. |
| `HostDashboard.ShownAfterSubmit` | src/pages/HostDashboard.tsx:120-125 | The pass shown is the host's last record in the list from before the submit. Nothing is shown when the host had none. |
| `HostDashboard.FirstPreApprovalShowsNothing` | src/pages/HostDashboard.tsx:115-125 | A host's first pre-approval opens no pass, although the store has added it. |
| `SecurityDashboard.CheckOutPatch` | src/pages/SecurityDashboard.tsx:37-42 | The payload sets `checked-out` and the time, and names no pre-approval. |
| `SecurityDashboard.HandleCheckOut` | src/pages/SecurityDashboard.tsx:37-42 | The store update uses that payload, leaves pre-approvals untouched and logs one low `visitor_checked-out` entry. |
| `SecurityDashboard.CheckOutClosesVisit` | src/pages/SecurityDashboard.tsx:37-42 | The checked-out visit is no longer open and keeps its badge. |
| `SecurityDashboard.HandleCancelCheckIn` | src/pages/SecurityDashboard.tsx:44-46 | The handler is the store's cancel, which logs `visitor_cancelled`. |
| `SecurityDashboard.InsertByWaitIsInsertByTime` | src/pages/SecurityDashboard.tsx:71-75 | Inserting by longest wait is inserting by earliest arrival. |
| `SecurityDashboard.SortByWaitIsSortByTime` | src/pages/SecurityDashboard.tsx:71-75 | The wait sort is the ascending time sort, whatever the clock reads. |
| `SecurityDashboard.PendingQueueAlreadyOrdered` | src/pages/SecurityDashboard.tsx:71-75 | The page's re-sort leaves the store's queue unchanged. |
| `SecurityDashboard.HighPriorityCount` | src/pages/SecurityDashboard.tsx:77-82 | The count is at most the queue length. |
| `SecurityDashboard.HighPriorityCountMatchesBand` | src/pages/SecurityDashboard.tsx:77-82 | The count equals the number of queued cards given priority `high`. |
| `SecurityDashboard.CardBandNeverAbovePriority` | src/pages/SecurityDashboard.tsx:288-289 | The card's band (whole minutes) is never above the computed priority. At 20.5 minutes they disagree. |
| `SecurityDashboard.FirstOpenVisit` | src/pages/SecurityDashboard.tsx:103 | The result is the first open approved check-in of the visitor. It is missing exactly when the visitor has none. |
| `SecurityDashboard.LongWaitCount` | src/pages/SecurityDashboard.tsx:88-91 | The count is positive exactly when some queued wait exceeds 30 minutes. |
| `SecurityDashboard.LongStayCount` | src/pages/SecurityDashboard.tsx:102-109 | The count is positive exactly when some active visitor's first open visit exceeds 8 hours. |
| `SecurityDashboard.AlertIf` | src/pages/SecurityDashboard.tsx:93-99 | One alert of the kind and count exactly when the count is positive. |
| `SecurityDashboard.CriticalAlerts` | src/pages/SecurityDashboard.tsx:84-120 | At most two alerts. A critical one exists exactly when someone waited over 30 minutes, and a warning exactly when someone stayed over 8 hours. Every count is positive. |
| `SecurityDashboard.AverageWaitLabel` | src/pages/SecurityDashboard.tsx:238 | "Above target" exactly above 15, "Within target" otherwise. |
| `SecurityDashboard.RecentApproved` | src/pages/SecurityDashboard.tsx:362 | The result is the first five (or fewer) of the newest-first approved listing, all approved. |
| `SecurityDashboard.CheckOutTarget` | src/pages/SecurityDashboard.tsx:325-337 | A Check Out target exists exactly when the visitor has an open visit. |
| `NotificationCenter.HostPending` | src/components/NotificationCenter.tsx:28-31 | Each entry is in the pending queue and addressed to this host. |
| `NotificationCenter.HostPendingMembers` | src/components/NotificationCenter.tsx:28-31 | An entry is in the host's queue exactly when it is pending and addressed to the host. |
| `NotificationCenter.RequestFor` | src/components/NotificationCenter.tsx:33-43 | A request is unread, actionable, named `pending_<id>` and stamped with the arrival time. |
| `NotificationCenter.WaitedMinutesIsFloor` | src/components/NotificationCenter.tsx:55 | The minute count is the floor of the wait, so an alert never reports fewer than 15. |
| `NotificationCenter.AlertFor` | src/components/NotificationCenter.tsx:51-61 | An alert is unread, actionable, named `urgent_<id>` and stamped with now. |
| `NotificationCenter.LongWaits` | src/components/NotificationCenter.tsx:46-50 | The result holds exactly the queued entries waiting over 15 minutes. |
| `NotificationCenter.Notifications` | src/components/NotificationCenter.tsx:63 | The list is as long as requests plus alerts, and each position holds the request or alert for that position. |
| `NotificationCenter.NotificationAt` | src/components/NotificationCenter.tsx:63 | Requests come first, in queue order, and alerts follow. |
| `NotificationCenter.SourceOf` | src/components/NotificationCenter.tsx:33-63 | Every notification was made from an entry of the host's queue. |
| `NotificationCenter.NotificationsShape` | src/components/NotificationCenter.tsx:33-63 | Requests are first with their ids. Alerts carry now. Everything is unread and actionable. |
| `NotificationCenter.Derive` | src/components/NotificationCenter.tsx:27-66 | One request per pending check-in of the host, then one alert per long wait, all unread and actionable. |
| `NotificationCenter.QueueEntryRefersToPending` | src/components/NotificationCenter.tsx:33-61 | A notification from the queue names a pending check-in of this host. |
| `NotificationCenter.DerivedRefersToPendingAt` | src/components/NotificationCenter.tsx:27-66 | Each derived notification names a pending check-in of this host. |
| `NotificationCenter.DerivedRefersToPending` | src/components/NotificationCenter.tsx:27-66 | The same fact, for every notification of the list. |
| `NotificationCenter.RequestListed` | src/components/NotificationCenter.tsx:33-43 | Each queued entry has its request in the list. |
| `NotificationCenter.AlertListed` | src/components/NotificationCenter.tsx:46-63 | Each long-waiting queued entry has its alert in the list. |
| `NotificationCenter.DerivedCoversPending` | src/components/NotificationCenter.tsx:27-66 | Every pending check-in of the host has its request, and after 15 minutes also its alert. |
| `NotificationCenter.UnreadCount` | src/components/NotificationCenter.tsx:65 | The unread count is at most the list length. |
| `NotificationCenter.AllUnreadCount` | src/components/NotificationCenter.tsx:65 | In an all-unread list, the count equals the length. |
| `NotificationCenter.AllReadCount` | src/components/NotificationCenter.tsx:241-242 | In an all-read list, the count is zero. |
| `NotificationCenter.MarkingLowersUnread` | src/components/NotificationCenter.tsx:101-108 | Marking more notifications read never raises the count, and marking an unread one lowers it. |
| `NotificationCenter.MarkHandled` | src/components/NotificationCenter.tsx:77-83 | The visit's notifications become read and not actionable, and the others are unchanged. |
| `NotificationCenter.MarkId` | src/components/NotificationCenter.tsx:102-106 | Notifications with the id become read, and the others are unchanged. |
| `NotificationCenter.MarkAll` | src/components/NotificationCenter.tsx:241 | Every notification becomes read. |
| `NotificationCenter.Decremented` | src/components/NotificationCenter.tsx:107 | `Math.max(0, c - 1)`: one less, never below zero. |
| `NotificationCenter.MarkReadKeepsCounterAbove` | src/components/NotificationCenter.tsx:200-207 | Pressing a shown "Mark read" keeps the counter at or above the true unread count. |
| `NotificationCenter.MarkReadOfReadNotificationUndercounts` | src/components/NotificationCenter.tsx:101-108 | Without the button's guard, the counter could drop to 0 with one notification unread. |
| `NotificationCenter.HandledLeavesCounterStale` | src/components/NotificationCenter.tsx:68-99 | Approve or Deny clears the unread notification while the counter stays at 1, until the next `Refresh` restores the exact count. |
| `NotificationCenter.ShortcutApprovalPatch` | src/components/NotificationCenter.tsx:69-74 | The bell's approval sends the status, badge and QR code only. |
| `NotificationCenter.ShortcutDenialPatch` | src/components/NotificationCenter.tsx:87-89 | The bell's denial sends the status alone. |
| `NotificationCenter.ShortcutApprovalIsAnonymous` | src/components/NotificationCenter.tsx:68-74 | The bell's approval is logged as "System", and the check-in keeps its former approval time and approver. |
| `NotificationCenter.TouchedCarriesStatus` | src/contexts/DataContext.tsx:465-489 | The updated check-in carries the payload's status. |
| `NotificationCenter.HandledVisitLeavesTheBell` | src/components/NotificationCenter.tsx:27-99 | Once a visit is approved or denied, the next derivation has nothing about it. |
| `NotificationCenter.NotificationPanel.constructor` | src/components/NotificationCenter.tsx:22-24 | The panel starts empty with a counter of 0. |
| `NotificationCenter.NotificationPanel.Refresh` | src/components/NotificationCenter.tsx:27-66 | The list becomes `Derive`, and the counter is exact. |
| `NotificationCenter.NotificationPanel.HandleApprove` | src/components/NotificationCenter.tsx:68-84 | The store is updated with the bell's payload, the visit's notifications are marked, and the counter is kept and never understates. |
| `NotificationCenter.NotificationPanel.HandleDeny` | src/components/NotificationCenter.tsx:86-99 | The same, with the denial payload. |
| `NotificationCenter.NotificationPanel.MarkAsRead` | src/components/NotificationCenter.tsx:101-108 | The id is marked and the counter decremented. Pressed on a shown button, the counter still never understates. |
| `NotificationCenter.NotificationPanel.MarkAllAsRead` | src/components/NotificationCenter.tsx:237-243 | Everything becomes read, and the counter is 0 and exact. |
| `Auth.FindMock` | src/contexts/AuthContext.tsx:68 | The result is the first account with the e-mail. No account is found only when none has it. |
| `Auth.FindRegistered` | src/contexts/AuthContext.tsx:77-78 | The result is the first record that is approved with this e-mail and password. No record is found only when none qualifies. |
| `Auth.HostUser` | src/contexts/AuthContext.tsx:81-87 | The session user keeps the record's id and e-mail, with the host role. |
| `Auth.Authenticate` | src/contexts/AuthContext.tsx:66-95 | Sign-in succeeds exactly for a demo e-mail with "password" or an approved matching record. A demo account wins. Any other success is a host. |
| `Auth.EveryDemoAccountSignsIn` | src/contexts/AuthContext.tsx:29-51 | Each built-in account signs in as itself with the shared password. |
| `Auth.WrongDemoPasswordFallsThrough` | src/contexts/AuthContext.tsx:68-92 | With another password, only the registered list decides. |
| `Auth.AuthSession.Restore` | src/contexts/AuthContext.tsx:57-64 | A stored session is taken over, and the flag follows it. |
| `Auth.AuthSession.Login` | src/contexts/AuthContext.tsx:66-95 | The result is `Authenticate`. Success sets, flags and stores the user. Failure changes nothing. The session invariant is kept. |
| `Auth.AuthSession.Logout` | src/contexts/AuthContext.tsx:97-101 | No user, not authenticated, nothing stored. |
| `HostRegistration.Validate` | src/components/HostRegistration.tsx:115-211 | No error exactly when the name is filled, the e-mail matches, the password has at least 6 characters, the confirmation equals it, and the department and the limit are set. At most one error per field. |
| `HostRegistration.PasswordLengthBoundary` | src/components/HostRegistration.tsx:153-159 | Five characters are refused and six accepted. |
| `HostRegistration.HostDraftFor` | src/components/HostRegistration.tsx:41-48 | The host handed over is active and carries the chosen password. |
| `HostRegistration.StoredRecordFor` | src/components/HostRegistration.tsx:53-59 | The stored copy is unapproved and active. Its id is the digits of the clock reading it is given, and its creation time is that reading. |
| `HostRegistration.BothCopiesAgree` | src/components/HostRegistration.tsx:40-60 | Store copy and stored copy share e-mail and password, and neither is approved. Their ids come from two clock readings and are equal exactly when the readings are. |
| `HostRegistration.HostRegistrationPage.constructor` | src/components/HostRegistration.tsx:40-63 | The page starts not submitted. |
| `HostRegistration.SubmitErrors` | src/components/HostRegistration.tsx:108-137 | An e-mail the browser refuses gives that one error before any rule runs. Otherwise the errors are `Validate`. No error exactly when the browser accepts and no rule is broken. |
| `HostRegistration.HostRegistrationPage.OnSubmit` | src/components/HostRegistration.tsx:40-63 | The errors are `SubmitErrors`. If there are none, the store adds the host at the first clock reading, one record is appended with the second reading as its id, and the page is submitted. Otherwise nothing changes. |
| `AdminDashboard.Unapproved` | src/pages/AdminDashboard.tsx:48 | The result holds exactly the unapproved store hosts. |
| `AdminDashboard.UnapprovedListed` | src/pages/AdminDashboard.tsx:48 | The result holds exactly the unapproved listed records. |
| `AdminDashboard.PendingHosts` | src/pages/AdminDashboard.tsx:47-48 | The queue is the unapproved store hosts, then the unapproved listed records, unmerged. |
| `AdminDashboard.PendingHostsComplete` | src/pages/AdminDashboard.tsx:47-48 | Every unapproved host from either source is queued. |
| `AdminDashboard.ApproveListed` | src/pages/AdminDashboard.tsx:113-119 | Every record matching the key by id or e-mail is approved with the password. The others are unchanged. |
| `AdminDashboard.DenyListed` | src/pages/AdminDashboard.tsx:126-128 | Every matching record is dropped, and the rest keep their order. |
| `AdminDashboard.RuleEditChangesOneRule` | src/pages/AdminDashboard.tsx:611-680 | Each rule input changes exactly its own rule and logs only its name. |
| `AdminDashboard.StatusLabel` | src/pages/AdminDashboard.tsx:582 | The label is "Active", "Inactive" or "Pending" exactly for the matching approval and activity flags. |
| `AdminDashboard.ChipMatchesLabel` | src/pages/AdminDashboard.tsx:575-582 | The chip's colour always agrees with its text. |
| `AdminDashboard.AdminPage.constructor` | src/pages/AdminDashboard.tsx:42 | No passwords are typed yet. |
| `AdminDashboard.AdminPage.SetPassword` | src/pages/AdminDashboard.tsx:515-522 | The key's box holds the typed password. |
| `AdminDashboard.AdminPage.HandleApproveHost` | src/pages/AdminDashboard.tsx:102-122 | The approval happens exactly when the key has a password: the store approves that id and the list approves every match. Otherwise nothing changes. The session is kept. |
| `AdminDashboard.AdminPage.HandleDenyHost` | src/pages/AdminDashboard.tsx:124-132 | The matching records leave the registration list and the session is kept. The reload then resets the store to its initial state and empties the password boxes. |
| `DataContext.DataStore.Reload` | src/contexts/DataContext.tsx:161-172 | After a reload the store is back at its initial state. |
| `AdminDashboard.AdminPage.HandleUpdateRules` | src/pages/AdminDashboard.tsx:134-137 | The store applies the input's one-rule patch. |
| `AuditLog.FilteredEntries` | src/components/AuditLog.tsx:110-120 | The result is an order-preserving subsequence holding exactly the rows passing search, severity and action. |
| `AuditLog.NoFilterListsEverything` | src/components/AuditLog.tsx:110-120 | With no filters, every row is listed. |
| `AuditLog.CsvFields` | src/components/AuditLog.tsx:125-134 | There are as many fields as header columns. |
| `AuditLog.CsvLines` | src/components/AuditLog.tsx:122-135 | The header comes first, then one line per row in order. |
| `AuditLog.LineLacks` | src/components/AuditLog.tsx:135 | Fields lacking a non-comma character give a line lacking it. |
| `AuditLog.HeaderLacksNewline` | src/components/AuditLog.tsx:124 | The header has no line break. |
| `AuditLog.OneLineBreakPerRow` | src/components/AuditLog.tsx:122-135 | Without line breaks in fields, the file has exactly one line break per row. |
| `AuditLog.CommaInFieldShiftsColumns` | src/components/AuditLog.tsx:122-135 | Nothing is quoted, so a comma inside a field gives its line more than seven separators. |
| `VisitorHistory.FilterKeepsTimeOrder` | src/components/VisitorHistory.tsx:49-57 | Filtering keeps a sorted listing sorted. |
| `VisitorHistory.FilteredHistory` | src/components/VisitorHistory.tsx:49-57 | The result is an order-preserving, newest-first subsequence of the history holding exactly the rows passing both filters. |
| `VisitorHistory.NoFilterShowsEverything` | src/components/VisitorHistory.tsx:49-57 | With no filters, the whole history is shown. |
| `VisitorHistory.JsRemainder` | src/components/VisitorHistory.tsx:73 | JavaScript's `%` agrees with the mathematical remainder for non-negative dividends, and its magnitude stays below the divisor. |
| `VisitorHistory.DurationParts` | src/components/VisitorHistory.tsx:71-73 | For a non-negative stay, the hours and the minutes (below 60) bracket the stay to the minute. |
| `VisitorHistory.Duration` | src/components/VisitorHistory.tsx:68-79 | "Still visiting" without a check-out, otherwise text ending in "m". |
| `VisitorHistory.DurationExamples` | src/components/VisitorHistory.tsx:68-79 | 90 minutes read "1h 30m" and 45 minutes read "45m". |
| `VisitorHistory.NegativeStayShowsNegativeMinutes` | src/components/VisitorHistory.tsx:71-78 | A check-out one minute before arrival reads "-1m". |
| `VisitorHistory.BadgeActionFindsBadge` | src/components/VisitorHistory.tsx:59-66 | With distinct ids, a shown badge button always finds its row's badge. |
| `HostOnboarding.SelfRegistrationQueuedTwice` | src/pages/AdminDashboard.tsx:47-48 | A fresh registration appears twice in the admin queue, under the two clock readings' keys. The keys are equal exactly when the readings are. |
| `HostOnboarding.RegistrationAloneDoesNotSignIn` | src/contexts/AuthContext.tsx:77-80 | Before approval, the registration opens no session. |
| `HostOnboarding.RegisteredThenApproved` | src/pages/AdminDashboard.tsx:113-119 | The registered record ends up approved with the admin's password. |
| `HostOnboarding.ApprovedRegistrationSignsIn` | src/contexts/AuthContext.tsx:76-92 | After approval, the host signs in as a host with the admin's password. |
| `HostOnboarding.ChosenPasswordStopsWorking` | src/pages/AdminDashboard.tsx:116 | The host's own password no longer signs in once the admin set a different one. |
| `HostOnboarding.StoreCopyApprovedToo` | src/pages/AdminDashboard.tsx:110 | Approving the listed copy's id also approves the store's copy, with that password, exactly when both copies were made at one clock reading. Otherwise the store's copy is left as it was added. |
| `HostOnboarding.DeniedKeyCannotSignIn` | src/pages/AdminDashboard.tsx:124-128 | After a queued record is denied by its key (`host.id || host.email`), any listed sign-in carries another id and another e-mail. |
| `HostOnboarding.SameEmailRecordSurvivesDenial` | src/pages/AdminDashboard.tsx:535 | The button denies by id, so a second approved record with the same e-mail and another id still signs in. |
| `UiTransitions.PatchOf` | src/components/NotificationCenter.tsx:68-99 | Every button's payload carries a status. |
| `UiTransitions.Press` | src/contexts/DataContext.tsx:464-522 | Each check-in with the ids gets the button's payload applied. Other visitors, hosts and rules are unchanged, and the visitor count is kept. |
| `UiTransitions.PressAppliesPatch` | src/contexts/DataContext.tsx:464-489 | The pressed check-in gets the payload applied. |
| `UiTransitions.PatchReachesTarget` | src/pages/HostDashboard.tsx:56-82 | Each payload sets its button's target status. |
| `UiTransitions.PressMovesAlongTheFlow` | src/components/VisitorCard.tsx:116-133 | A shown button moves its check-in from pending to approved or denied, or from open approved to checked out. |
| `UiTransitions.UpdateLeavesOthers` | src/contexts/DataContext.tsx:465-489 | Check-ins with another visitor id or check-in id are left alone. |
| `UiTransitions.PressTouchesOnlyItsCheckIn` | src/contexts/DataContext.tsx:465-489 | With distinct ids, one press touches only its own check-in. |
| `UiTransitions.EnabledIsLive` | src/components/VisitorCard.tsx:116-133 | A shown button is never on a terminal check-in. |
| `UiTransitions.TerminalCheckInsStayPut` | src/components/VisitorCard.tsx:116-133 | Through the screens, a denied, checked-out or cancelled check-in never changes again. |
| `UiTransitions.StoreRewritesTerminalCheckIns` | src/contexts/DataContext.tsx:464-489 | The store itself has no such guard: an approval payload turns a denied check-in approved. |

## Left out

- `sendNotification` (src/contexts/DataContext.tsx:675-704) talks to the user through `alert` and always reports success. Only its audit entries are modelled, as part of `CompletePreApprovalDispatch`. The timer of `addPreApproval` is a separate step with two clock readings. The message texts are not modelled.
- `HostDashboard.HandleApproveVisitor` and `HostDashboard.HandleDenyVisitor`: the e-mail to security (src/pages/HostDashboard.tsx:69, 87) is only a flag. The deferred `notification_sent_email` audit entry that `sendNotification` logs for it (src/contexts/DataContext.tsx:684-693) is not modelled.
- Seed data, charts and mock statistics arrays, `window.print`, `alert`, `console.log` and navigation are not modelled.
- `AdminDashboard.AdminPage.HandleDenyHost`: the reload re-runs the store's seeding effect (src/contexts/DataContext.tsx:175 onwards), which is not modelled. The model resets the store to its initial state without the seed records.
- Rendering is not modelled. This covers photo capture, the QR code and badge components, the layout, the statistics cards and the offline-mode component, which are not part of this model.
- Locale and date formatting are not modelled. The CSV timestamp formatter is a function parameter, and the report's dates are integers.
- JSON encoding of the storage keys is not modelled. Each key holds its decoded value, and an absent list reads as empty.
- `Text.Lower` lower-cases ASCII letters only. Unicode case mapping is not modelled.
- `DataViews.SortByTime`: `Array.prototype.sort` sorts in place. The model sorts a sequence with a stable insertion sort and proves it sorted and a permutation. An in-place engine sort is not modelled.
- The `Number(...)` conversion of the admin's numeric rule inputs is not modelled. A rule edit carries an integer.
- `DataMutations.ApplyPatch`: a key present with the value `undefined` (such as `approvedBy: user?.name` without a user) is treated like an absent key.
- `DataViews.GetVisitorStats`: today's count and pre-approved today are stated as bounds, not as exact counts. Their exact values are plain counts over the source's own date filters (src/contexts/DataContext.tsx:770-776 and 796-800), so an equality would only restate the body.
- `HostRegistration.HostDraftFor`: the visitor-limit `<select>` (src/components/HostRegistration.tsx:210-219) hands over the option's value as a string such as "5". The model carries it as an integer, so the string-typed `maxVisitorsPerDay` the store then holds is not modelled.
- `EmailPattern.BrowserAcceptsEmail` follows the browser's valid-e-mail syntax for `type="email"` inputs. The browser's trimming of surrounding whitespace and its handling of internationalised domain names are not modelled.
- `HostDashboard.PreApprovalDraftFor`: the pre-approval form's field rules and the browser's e-mail check (src/pages/HostDashboard.tsx:244) are not modelled. The form's values arrive as given.
- `NotificationCenter.WaitedMinutes` carries no contract of its own. Its floor bounds are the lemma `WaitedMinutesIsFloor`.
- `SecurityDashboard.CardBandNeverAbovePriority`: the dashboard renders its cards with `showActions` false, so their Cancel button never appears (`PendingApprovalCard.Buttons`).
- `updatePreApproval` (src/contexts/DataContext.tsx:601-605) is modelled only through its single caller, `usePreApproval`, as `DataMutations.MarkUsed`.
- Concurrency between React state updates is not modelled. Each handler's updates are applied in program order at one clock reading. The registration handler is the exception: its two readings (src/contexts/DataContext.tsx:373 and src/components/HostRegistration.tsx:56) are separate parameters, because the admin's approval depends on whether they agree.
- `DataMutations.AddPreApproval`: the access code (src/contexts/DataContext.tsx:532) and the id (src/contexts/DataContext.tsx:540) come from two clock readings in the source. The model takes both from one reading. Nothing in the source relates the two, so no modelled property depends on it.
