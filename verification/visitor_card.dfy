/**
 * The visitor card (src/components/VisitorCard.tsx): the style of each status and the
 * buttons offered. These buttons are the only place the application restricts which status
 * change a check-in may undergo.
 */
module VisitorCard {
  import opened DataModel

  /** `getStatusColor`: `cancelled` has no case of its own and falls to the default. */
  function StatusColor(s: CheckInStatus): string {
    match s
    case Approved => "bg-success-50 text-success-700 border-success-200"
    case Denied => "bg-error-50 text-error-700 border-error-200"
    case Pending => "bg-warning-50 text-warning-700 border-warning-200"
    case CheckedOut => "bg-gray-50 text-gray-700 border-gray-200"
    case _ => "bg-gray-50 text-gray-700 border-gray-200"
  }

  datatype StatusIconKind = CheckCircleIcon | XCircleIcon | AlertCircleIcon | ClockIcon

  /** `getStatusIcon`: `cancelled` shares the default alert icon with `pending`. */
  function StatusIcon(s: CheckInStatus): StatusIconKind {
    match s
    case Approved => CheckCircleIcon
    case Denied => XCircleIcon
    case Pending => AlertCircleIcon
    case CheckedOut => ClockIcon
    case _ => AlertCircleIcon
  }

  /**
   * Every status has a style; the grey style is shared by exactly `checked-out` and
   * `cancelled`, so a cancelled visit looks like a finished one.
   */
  lemma StatusStylesTotal(s: CheckInStatus)
    ensures StatusColor(s) != ""
    ensures StatusColor(s) == StatusColor(CheckedOut) <==> s == CheckedOut || s == Cancelled
    ensures StatusIcon(s) == AlertCircleIcon <==> s == Pending || s == Cancelled
  {
  }

  /** The action groups the card renders. */
  datatype Offer = Offer(approveOrDeny: bool, checkOut: bool)

  /** The card's two action conditions. */
  function Offered(showActions: bool, c: CheckIn): (o: Offer)
    ensures o.approveOrDeny ==> c.status == Pending
    ensures o.checkOut ==> c.IsOpenApproved()
    ensures !showActions ==> !o.approveOrDeny && !o.checkOut
  {
    Offer(showActions && c.status == Pending, showActions && c.status == Approved && c.checkOutTime.None?)
  }

  /** No check-in is offered both groups at once, and a terminal one is offered nothing. */
  lemma OffersExclusive(showActions: bool, c: CheckIn)
    ensures !(Offered(showActions, c).approveOrDeny && Offered(showActions, c).checkOut)
    ensures c.status.IsTerminal() ==> Offered(showActions, c) == Offer(false, false)
    ensures showActions && c.status == Pending ==> Offered(showActions, c).approveOrDeny
    ensures showActions && c.IsOpenApproved() ==> Offered(showActions, c).checkOut
  {
  }
}
