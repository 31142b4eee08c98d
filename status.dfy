/**
 * The lifecycle status of a recognition session and its deliberately coarse
 * equality: two statuses are equal when they are the same case, whatever the
 * outcome carried by `stopped`.
 */
module SpeechRecognitionStatus {

  /** The errors the recognition engine reports. */
  datatype EngineError =
    | SpeechAudioBufferRecognitionRequestInitFailed
    | SpeechRecognizerInitFailed
    | NotAvailable

  /** The `Result<Void, Error>` carried by a stopped session. */
  datatype Outcome = Success | Failure(error: EngineError)

  datatype Status =
    | NotStarted
    | Recording
    | Stopping
    | Stopped(outcome: Outcome)

  /** Both statuses are the same case of `Status`, payload aside. */
  predicate SameCase(a: Status, b: Status) {
    || (a.NotStarted? && b.NotStarted?)
    || (a.Recording? && b.Recording?)
    || (a.Stopping? && b.Stopping?)
    || (a.Stopped? && b.Stopped?)
  }

  /** The identifier of a status: 1 to 4, in declaration order of the cases. */
  function Id(s: Status): (r: int)
    ensures 1 <= r <= 4
    ensures r == 1 <==> s.NotStarted?
    ensures r == 2 <==> s.Recording?
    ensures r == 3 <==> s.Stopping?
    ensures r == 4 <==> s.Stopped?
  {
    match s
    case NotStarted => 1
    case Recording => 2
    case Stopping => 3
    case Stopped(_) => 4
  }

  /** Status equality: compares identifiers only. */
  function Eq(a: Status, b: Status): (r: bool)
    ensures r <==> SameCase(a, b)
  {
    Id(a) == Id(b)
  }

  lemma EqReflexive(a: Status)
    ensures Eq(a, a)
  {
  }

  lemma EqSymmetric(a: Status, b: Status)
    ensures Eq(a, b) <==> Eq(b, a)
  {
  }

  lemma EqTransitive(a: Status, b: Status, c: Status)
    ensures Eq(a, b) && Eq(b, c) ==> Eq(a, c)
  {
  }

  /** Every two stopped statuses are equal, a failure included. */
  lemma StoppedAllEqual(x: Outcome, y: Outcome)
    ensures Eq(Stopped(x), Stopped(y))
  {
  }

  /** The identifier tells the cases apart, so distinct cases are never equal. */
  lemma DistinctCasesNotEqual(a: Status, b: Status)
    requires !SameCase(a, b)
    ensures Id(a) != Id(b) && !Eq(a, b)
  {
  }

  /** Tag equality is coarser than value equality, and strictly so for `stopped`. */
  lemma EqCoarserThanValueEquality(a: Status, b: Status)
    ensures a == b ==> Eq(a, b)
    ensures !a.Stopped? ==> (Eq(a, b) <==> a == b)
    ensures Eq(Stopped(Success), Stopped(Failure(NotAvailable)))
    ensures Stopped(Success) != Stopped(Failure(NotAvailable))
  {
  }
}
