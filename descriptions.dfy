/**
 * The human-readable descriptions shown by the preview for the speech
 * authorization verdict and for the recognition status.
 */
module Descriptions {
  import opened SpeechRecognitionStatus

  /**
   * A raw value the platform does not name: the four known verdicts have raw
   * values 0 to 3.
   */
  type UnknownRawValue = r: int | r < 0 || 3 < r witness 4

  /**
   * The platform's speech authorization verdict. `Unrecognized` stands for
   * any raw value added by a later platform release.
   */
  datatype AuthorizationStatus =
    | NotDetermined
    | Denied
    | Restricted
    | Authorized
    | Unrecognized(rawValue: UnknownRawValue)

  /** The description of an authorization verdict. */
  function AuthorizationDescription(a: AuthorizationStatus): (r: string)
    ensures r == "unknown!" <==> a.Unrecognized?
    ensures r == "authorized" <==> a == Authorized
  {
    match a
    case NotDetermined => "not determined"
    case Denied => "denied"
    case Restricted => "restricted"
    case Authorized => "authorized"
    case Unrecognized(_) => "unknown!"
  }

  /** Known verdicts have pairwise distinct descriptions; unknown ones share one. */
  lemma AuthorizationDescriptionDistinguishesKnown(a: AuthorizationStatus, b: AuthorizationStatus)
    ensures AuthorizationDescription(a) == AuthorizationDescription(b) <==>
            (a == b || (a.Unrecognized? && b.Unrecognized?))
  {
  }

  /** The description of a recognition status; the `stopped` outcome is not shown. */
  function StatusDescription(s: Status): (r: string)
    ensures r == "stopped" <==> s.Stopped?
  {
    match s
    case NotStarted => "not started"
    case Recording => "recording"
    case Stopping => "stopping"
    case Stopped(_) => "stopped"
  }

  /** Two statuses read the same exactly when status equality holds between them. */
  lemma StatusDescriptionAgreesWithEq(a: Status, b: Status)
    ensures StatusDescription(a) == StatusDescription(b) <==> Eq(a, b)
  {
  }
}
