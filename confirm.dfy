/** The confirmation popup's dispatch: the pending callback tag chosen by
    `confirmAction` decides which message `confirmYes` shows. */
module Confirm {
  import opened Wrappers

  /** The seven recognised callback tags, and every other value. */
  datatype Action =
    | CancelBooking | DeleteRoom | DeleteStaff | DeleteService
    | ExportPdf | ExportExcel | BlacklistGuest
    | Other

  /** The callback string that selects a recognised action. */
  function Tag(a: Action): string
    requires a != Other
  {
    match a
    case CancelBooking => "cancelBooking"
    case DeleteRoom => "deleteRoom"
    case DeleteStaff => "deleteStaff"
    case DeleteService => "deleteService"
    case ExportPdf => "exportPDF"
    case ExportExcel => "exportExcel"
    case BlacklistGuest => "blacklistGuest"
  }

  /** The `===` chain of `confirmYes`; `None` is a null or undefined callback. */
  function Classify(callback: Option<string>): Action {
    if callback == Some("cancelBooking") then CancelBooking
    else if callback == Some("deleteRoom") then DeleteRoom
    else if callback == Some("deleteStaff") then DeleteStaff
    else if callback == Some("deleteService") then DeleteService
    else if callback == Some("exportPDF") then ExportPdf
    else if callback == Some("exportExcel") then ExportExcel
    else if callback == Some("blacklistGuest") then BlacklistGuest
    else Other
  }

  /** The toast each action ends with. */
  function Message(a: Action): string {
    match a
    case CancelBooking => "Booking cancelled successfully!"
    case DeleteRoom => "Room deleted successfully!"
    case DeleteStaff => "Staff member removed!"
    case DeleteService => "Item deleted!"
    case ExportPdf => "Report exported as PDF!"
    case ExportExcel => "Report exported as Excel!"
    case BlacklistGuest => "Guest has been blacklisted."
    case Other => "Action completed!"
  }

  const DefaultMessage: string := Message(Other)

  /** The message `confirmYes` shows for a pending callback. */
  function ConfirmMessage(callback: Option<string>): string {
    Message(Classify(callback))
  }

  /** Each recognised tag selects its own action. */
  lemma ClassifyTag(a: Action)
    requires a != Other
    ensures Classify(Some(Tag(a))) == a
  {
  }

  /** Anything but the seven tags, null included, falls through to `Other`. */
  lemma ClassifyOther(callback: Option<string>)
    ensures Classify(callback) == Other <==>
      forall a: Action :: a != Other ==> callback != Some(Tag(a))
  {
    if Classify(callback) != Other {
      var a := Classify(callback);
      ClassifyTag(a);
    }
  }

  /** The seven messages are distinct from each other and from the default. */
  lemma MessageInjective(a: Action, b: Action)
    ensures Message(a) == Message(b) <==> a == b
  {
  }

  /** The default message appears exactly for unrecognised callbacks. */
  lemma ConfirmMessageDefault(callback: Option<string>)
    ensures ConfirmMessage(callback) == DefaultMessage <==>
      forall a: Action :: a != Other ==> callback != Some(Tag(a))
  {
    ClassifyOther(callback);
    MessageInjective(Classify(callback), Other);
  }
}
