/**
 * The decision the preview's single button makes from the current
 * recognition status: what a tap does, what the button says, and whether it
 * is disabled.
 */
module PreviewView {
  import opened SpeechRecognitionStatus

  /** The call a tap on the button makes. */
  datatype Tap = StartRecording | StopRecording

  /** A tap starts a session when none is running and stops it otherwise. */
  function OnTap(s: Status): (t: Tap)
    ensures t == StartRecording <==> Eq(s, NotStarted) || Eq(s, Stopped(Success))
  {
    match s
    case NotStarted | Stopped(_) => StartRecording
    case _ => StopRecording
  }

  /** The button's title. */
  function Label(s: Status): (r: string)
    ensures r == "Stopping" <==> s.Stopping?
    ensures r == "Start recording" <==> OnTap(s) == StartRecording
  {
    match s
    case NotStarted | Stopped(_) => "Start recording"
    case Stopping => "Stopping"
    case _ => "Stop recording"
  }

  /** The button is disabled while the session is stopping. */
  function Disabled(s: Status): (r: bool)
    ensures r <==> s.Stopping?
  {
    Eq(s, Stopping)
  }

  /** Equal statuses, in the tag-only sense, drive the button identically. */
  lemma ButtonRespectsEq(a: Status, b: Status)
    requires Eq(a, b)
    ensures OnTap(a) == OnTap(b) && Label(a) == Label(b) && Disabled(a) == Disabled(b)
  {
  }

  /**
   * A disabled button never hides a start: it is disabled only in a state
   * whose tap would stop, and it then reads "Stopping".
   */
  lemma DisabledOnlyWhileStopping(s: Status)
    requires Disabled(s)
    ensures OnTap(s) == StopRecording && Label(s) == "Stopping"
  {
  }

  /** Every enabled state offers the tap its label announces. */
  lemma EnabledLabelMatchesTap(s: Status)
    requires !Disabled(s)
    ensures Label(s) == (if OnTap(s) == StartRecording then "Start recording" else "Stop recording")
  {
  }
}
