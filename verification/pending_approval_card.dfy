/**
 * The pending-approval card (src/components/PendingApprovalCard.tsx): the wait shown in whole
 * minutes, the colour and icon chosen from it, and which buttons are rendered. The card's
 * `priority` property never reaches any of these; the band depends on the wait alone.
 */
module PendingApprovalCard {
  import opened DataModel

  /** `getWaitTime`: whole minutes elapsed since check-in, rounded down. */
  function WaitMinutes(now: int, checkInTime: int): (m: int)
    ensures MsPerMinute * m <= now - checkInTime < MsPerMinute * (m + 1)
  {
    (now - checkInTime) / MsPerMinute
  }

  datatype CardColor = ErrorBorder | WarningBorder | PlainBorder {
    /** The class string of the card's border and background. */
    function ClassName(): string {
      match this
      case ErrorBorder => "border-error-300 bg-error-50"
      case WarningBorder => "border-warning-300 bg-warning-50"
      case PlainBorder => "border-gray-200 bg-white"
    }
  }

  datatype CardIcon = ErrorTriangle | WarningClock | GreyClock

  /** `getPriorityColor`. */
  function PriorityColor(now: int, checkInTime: int): CardColor {
    var w := WaitMinutes(now, checkInTime);
    if w > 20 then ErrorBorder else if w > 10 then WarningBorder else PlainBorder
  }

  /** `getPriorityIcon`. */
  function PriorityIcon(now: int, checkInTime: int): CardIcon {
    var w := WaitMinutes(now, checkInTime);
    if w > 20 then ErrorTriangle else if w > 10 then WarningClock else GreyClock
  }

  /**
   * Colour and icon always tell the same story, and the error band starts once 21 whole
   * minutes have passed, the warning band once 11 have.
   */
  lemma ColorAndIconAgree(now: int, checkInTime: int)
    ensures PriorityColor(now, checkInTime) == ErrorBorder <==> PriorityIcon(now, checkInTime) == ErrorTriangle
    ensures PriorityColor(now, checkInTime) == WarningBorder <==> PriorityIcon(now, checkInTime) == WarningClock
    ensures PriorityColor(now, checkInTime) == ErrorBorder <==> now - checkInTime >= 21 * MsPerMinute
    ensures PriorityColor(now, checkInTime) == PlainBorder <==> now - checkInTime < 11 * MsPerMinute
  {
  }

  /** The buttons the card renders. */
  datatype CardButtons = CardButtons(approve: bool, deny: bool, cancel: bool)

  /** Approve and Deny need `showActions`; Cancel needs it as well as a cancel handler. */
  function Buttons(showActions: bool, hasCancelHandler: bool): (b: CardButtons)
    ensures b.approve == b.deny == showActions
    ensures b.cancel <==> showActions && hasCancelHandler
  {
    CardButtons(showActions, showActions, showActions && hasCancelHandler)
  }
}
