/** How one delivery attempt of an Artifact result can end. */
module Outcomes {

  datatype DeliveryStatus =
    | Applied | Rejected | FailedByApp                      // said by the application's receipt
    | TargetMismatch | DeliveryTimeout | NotConnected       // said by the platform
    | Unavailable                                           // an outcome that could not be read

  predicate FromApplication(s: DeliveryStatus) {
    s in {Applied, Rejected, FailedByApp}
  }

  function Text(s: DeliveryStatus): string {
    match s
    case Applied => "applied"
    case Rejected => "rejected"
    case FailedByApp => "failed"
    case TargetMismatch => "target_mismatch"
    case DeliveryTimeout => "delivery_timeout"
    case NotConnected => "not_connected"
    case Unavailable => "unavailable"
  }

  datatype Outcome = Outcome(status: DeliveryStatus, code: string, message: string, receipt: string)
}
