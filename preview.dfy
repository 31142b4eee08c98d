/**
 * The scripted preview recogniser: a recogniser that needs no microphone and
 * no speech engine. Starting it runs the registered start callbacks, which
 * put `nil` on the utterance stream, launch a task that "hears" a fixed word
 * list one word at a time, and put `recording` on the status stream; stopping
 * it runs the stop callbacks, which cancel that task and put `stopping` and
 * then `stopped(.success)` on the status stream.
 *
 * Each stream is modelled as the trace of everything yielded on it so far.
 * Timing is not modelled: the recording task advances only when the caller
 * lets it (`AdvanceTask`), which stands for the scheduler running it between
 * the caller's own calls.
 */
module Preview {
  import opened Wrappers
  import opened SpeechRecognitionStatus
  import opened Utterance
  import opened Descriptions

  /** The closures the preview registers on start and stop, by their effect. */
  datatype Callback =
    | YieldNilAndStartTask      // the utterance stream's start callback
    | CancelTask                // the utterance stream's stop callback
    | YieldRecording            // the status stream's start callback
    | YieldStoppingThenStopped  // the status stream's stop callback

  /** The callbacks in registration order: the utterance stream is built first. */
  const StartCallbacks: seq<Callback> := [YieldNilAndStartTask, YieldRecording]
  const StopCallbacks: seq<Callback> := [CancelTask, YieldStoppingThenStopped]

  /**
   * The state of the task that accumulates the utterance: the index of the
   * next word, the utterance so far and whether it has been cancelled.
   */
  datatype RecordingTask = RecordingTask(next: nat, utterance: Option<string>, cancelled: bool)

  const FreshTask := RecordingTask(0, None, false)

  /** What the preview's streams have yielded so far, and its task. */
  datatype Streams = Streams(
    utterances: seq<Option<string>>,
    statuses: seq<Status>,
    task: Option<RecordingTask>)

  /** `s` is a prefix of `t`. */
  predicate IsPrefix<T(==)>(s: seq<T>, t: seq<T>) {
    |s| <= |t| && s == t[..|s|]
  }

  /** A later observation only extends each stream: nothing yielded is taken back. */
  predicate Extends(before: Streams, after: Streams) {
    IsPrefix(before.utterances, after.utterances) && IsPrefix(before.statuses, after.statuses)
  }

  /** The effect of running one callback. */
  function Apply(cb: Callback, s: Streams): (r: Streams)
    ensures Extends(s, r)
    ensures |r.utterances| + |r.statuses| > |s.utterances| + |s.statuses| <==> !cb.CancelTask?
  {
    match cb
    case YieldNilAndStartTask =>
      s.(utterances := s.utterances + [None], task := Some(FreshTask))
    case CancelTask =>
      s.(task := if s.task.Some? then Some(s.task.value.(cancelled := true)) else None)
    case YieldRecording =>
      s.(statuses := s.statuses + [Recording])
    case YieldStoppingThenStopped =>
      s.(statuses := s.statuses + [Stopping, Stopped(Success)])
  }

  /** The effect of running callbacks one after the other, first to last. */
  function ApplyAll(cbs: seq<Callback>, s: Streams): (r: Streams)
    ensures Extends(s, r)
    decreases |cbs|
  {
    if cbs == [] then s else ApplyAll(cbs[1..], Apply(cbs[0], s))
  }

  lemma {:induction false} ApplyAllSnoc(cbs: seq<Callback>, cb: Callback, s: Streams)
    ensures ApplyAll(cbs + [cb], s) == Apply(cb, ApplyAll(cbs, s))
    decreases |cbs|
  {
    if cbs == [] {
      assert [cb][1..] == [];
    } else {
      assert (cbs + [cb])[1..] == cbs[1..] + [cb];
      ApplyAllSnoc(cbs[1..], cb, Apply(cbs[0], s));
    }
  }

  /** What starting does to the streams. */
  lemma StartEffect(s: Streams)
    ensures ApplyAll(StartCallbacks, s) ==
            Streams(s.utterances + [None], s.statuses + [Recording], Some(FreshTask))
  {
  }

  /** What stopping does to the streams: no utterance, and the task is cancelled. */
  lemma StopEffect(s: Streams)
    ensures ApplyAll(StopCallbacks, s) ==
            Streams(s.utterances, s.statuses + [Stopping, Stopped(Success)],
                    if s.task.Some? then Some(s.task.value.(cancelled := true)) else None)
  {
  }

  /**
   * The status events after the initial `notStarted`: a sequence of
   * `recording` (one per start) and `stopping, stopped(.success)` (one pair
   * per stop).
   */
  predicate StatusEvents(e: seq<Status>)
    decreases |e|
  {
    || e == []
    || (e[|e| - 1] == Recording && StatusEvents(e[..|e| - 1]))
    || (|e| >= 2 && e[|e| - 2] == Stopping && e[|e| - 1] == Stopped(Success) && StatusEvents(e[..|e| - 2]))
  }

  /** The status stream: `notStarted` first, then start and stop events. */
  predicate WellFormedStatuses(t: seq<Status>) {
    |t| >= 1 && t[0] == NotStarted && StatusEvents(t[1..])
  }

  /**
   * In a well-formed status stream `notStarted` comes only first, every
   * `stopping` is followed at once by `stopped(.success)`, and every `stopped`
   * is a success that directly follows a `stopping`.
   */
  lemma {:induction false} StatusEventsShape(e: seq<Status>)
    requires StatusEvents(e)
    ensures forall i :: 0 <= i < |e| ==> !e[i].NotStarted?
    ensures forall i :: 0 <= i < |e| && e[i] == Stopping ==> i + 1 < |e| && e[i + 1] == Stopped(Success)
    ensures forall i :: 0 <= i < |e| && e[i].Stopped? ==> e[i] == Stopped(Success) && 0 < i && e[i - 1] == Stopping
    decreases |e|
  {
    if e != [] {
      if e[|e| - 1] == Recording && StatusEvents(e[..|e| - 1]) {
        StatusEventsShape(e[..|e| - 1]);
      } else {
        StatusEventsShape(e[..|e| - 2]);
      }
    }
  }

  /** The utterance stream of a session whose task has read `n` words. */
  function Session(n: nat): (r: seq<Option<string>>)
    requires n <= |Words|
    ensures |r| == n + 1
  {
    [None] + Wrap(Utterances(Words[..n]))
  }

  /** A session is `nil` followed by the first 1, 2, ..., n words joined. */
  lemma SessionAt(n: nat, j: nat)
    requires j <= n <= |Words|
    ensures Session(n)[j] == if j == 0 then None else Some(Joined(Words[..j]))
  {
    if j > 0 {
      assert Words[..n][..j] == Words[..j];
    }
  }

  /** Reading one more word extends the session by the next text. */
  lemma SessionStep(n: nat)
    requires n < |Words|
    ensures Session(n + 1) == Session(n) + [Some(Joined(Words[..n + 1]))]
  {
    UtterancesSnoc(Words, n);
    assert Wrap(Utterances(Words[..n + 1])) == Wrap(Utterances(Words[..n])) + [Some(Joined(Words[..n + 1]))];
  }

  /**
   * The task's bookkeeping agrees with the utterance stream: the stream ends
   * with the current session, `nil` followed by one text per word read, and
   * the task's utterance is the last entry. Before any start there is no task
   * and nothing has been yielded.
   */
  predicate TaskInvariant(task: Option<RecordingTask>, trace: seq<Option<string>>) {
    match task
    case None => trace == []
    case Some(t) =>
      && t.next <= |Words|
      && t.next < |trace|
      && trace[|trace| - 1 - t.next..] == Session(t.next)
      && t.utterance == trace[|trace| - 1]
  }

  /** The invariants the preview keeps between calls, over an observation. */
  predicate Consistent(s: Streams) {
    WellFormedStatuses(s.statuses) && TaskInvariant(s.task, s.utterances)
  }

  /**
   * Starting yields `nil` (dropped by `newUtterance`) and `recording`, and
   * begins a fresh session; the invariants survive.
   */
  lemma StartOutcome(before: Streams)
    requires Consistent(before)
    ensures var after := ApplyAll(StartCallbacks, before);
            && after == Streams(before.utterances + [None], before.statuses + [Recording], Some(FreshTask))
            && Consistent(after)
            && Compact(after.utterances) == Compact(before.utterances)
  {
    StartEffect(before);
    StatusesAfterStart(before.statuses);
    SessionAfterStart(before.utterances);
    CompactAppend(before.utterances, [None]);
    CompactSingletons<string>("");
  }

  lemma StatusesAfterStart(st: seq<Status>)
    requires WellFormedStatuses(st)
    ensures WellFormedStatuses(st + [Recording])
  {
    var e := (st + [Recording])[1..];
    assert e[..|e| - 1] == st[1..];
  }

  lemma StatusesAfterStop(st: seq<Status>)
    requires WellFormedStatuses(st)
    ensures WellFormedStatuses(st + [Stopping, Stopped(Success)])
  {
    var e := (st + [Stopping, Stopped(Success)])[1..];
    assert e[..|e| - 2] == st[1..];
  }

  lemma SessionAfterStart(ut: seq<Option<string>>)
    ensures TaskInvariant(Some(FreshTask), ut + [None])
  {
  }

  /**
   * Stopping yields `stopping` and `stopped(.success)`, cancels the task and
   * yields no utterance; the invariants survive.
   */
  lemma StopOutcome(before: Streams)
    requires Consistent(before)
    ensures var after := ApplyAll(StopCallbacks, before);
            && after == Streams(before.utterances, before.statuses + [Stopping, Stopped(Success)],
                                if before.task.Some? then Some(before.task.value.(cancelled := true)) else None)
            && Consistent(after)
  {
    StopEffect(before);
    StatusesAfterStop(before.statuses);
  }

  /**
   * Stopping is not guarded: a second stop yields `stopping` and
   * `stopped(.success)` again.
   */
  lemma StopTwice(s: Streams)
    ensures ApplyAll(StopCallbacks, ApplyAll(StopCallbacks, s)).statuses ==
            s.statuses + [Stopping, Stopped(Success), Stopping, Stopped(Success)]
  {
  }

  /**
   * The utterance after the next word: that word, after a space unless it is
   * the first. The new utterance ends with the word and extends the old one.
   */
  function NextUtterance(t: RecordingTask): (r: string)
    requires t.next < |Words|
    ensures |Words[t.next]| <= |r| && r[|r| - |Words[t.next]|..] == Words[t.next]
    ensures t.utterance.Some? ==> StrictPrefix(t.utterance.value, r)
    ensures t.utterance.None? ==> r == Words[t.next]
  {
    match t.utterance
    case Some(existing) => existing + " " + Words[t.next]
    case None => Words[t.next]
  }

  /** A task that holds the words read so far, joined, next holds them and one more word. */
  lemma NextUtteranceJoined(t: RecordingTask)
    requires t.next < |Words|
    requires t.utterance == if t.next == 0 then None else Some(Joined(Words[..t.next]))
    ensures NextUtterance(t) == Joined(Words[..t.next + 1])
  {
    var n := t.next;
    if n > 0 {
      assert Words[..n + 1] == Words[..n] + [Words[n]];
      JoinedSnoc(Words[..n], Words[n]);
    }
  }

  /**
   * One iteration of the word loop yields the first `next + 1` words joined,
   * and the stream still ends with the current session.
   */
  lemma WordStep(t: RecordingTask, trace: seq<Option<string>>, before: seq<Option<string>>, n0: nat)
    requires TaskInvariant(Some(t), trace) && t.next < |Words|
    requires n0 <= t.next && trace == before + Wrap(Utterances(Words[..t.next])[n0..])
    ensures NextUtterance(t) == Joined(Words[..t.next + 1])
    ensures var trace' := trace + [Some(NextUtterance(t))];
            && TaskInvariant(Some(RecordingTask(t.next + 1, Some(NextUtterance(t)), t.cancelled)), trace')
            && trace' == before + Wrap(Utterances(Words[..t.next + 1])[n0..])
  {
    var n := t.next;
    assert t.utterance == Session(n)[n];
    SessionAt(n, n);
    NextUtteranceJoined(t);
    SessionStep(n);
    var trace' := trace + [Some(NextUtterance(t))];
    assert trace'[|trace'| - 1 - (n + 1)..] == trace[|trace| - 1 - n..] + [Some(NextUtterance(t))];
    UtterancesSnoc(Words, n);
    assert Utterances(Words[..n + 1])[n0..] == Utterances(Words[..n])[n0..] + [Joined(Words[..n + 1])];
    assert Wrap(Utterances(Words[..n + 1])[n0..]) == Wrap(Utterances(Words[..n])[n0..]) + [Some(Joined(Words[..n + 1]))];
  }

  /** What `newUtterance` gains from the texts the word loop yields. */
  lemma NewUtterancesGain(before: seq<Option<string>>, texts: seq<string>)
    ensures Compact(before + Wrap(texts)) == Compact(before) + texts
  {
    CompactAppend(before, Wrap(texts));
    CompactWrap(texts);
  }

  function Min(a: nat, b: nat): (r: nat) {
    if a < b then a else b
  }

  /**
   * The effect of letting the recording task run through at most `steps`
   * more words: nothing without a live task (none started, cancelled, or
   * through the word list); otherwise one new text per word read.
   */
  function Advance(s: Streams, steps: nat): (r: Streams)
    ensures Extends(s, r) && r.statuses == s.statuses
  {
    match s.task
    case None => s
    case Some(t) =>
      if t.cancelled || t.next >= |Words| then s
      else
        var n := Min(t.next + steps, |Words|);
        s.(utterances := s.utterances + Wrap(Utterances(Words[..n])[t.next..]),
           task := Some(t.(next := n, utterance := if n == t.next then t.utterance else Some(Joined(Words[..n])))))
  }

  /** Wherever the word loop stops, it has done what `Advance` says. */
  lemma LoopExit(before: Streams, steps: nat, i: nat, t: RecordingTask, trace: seq<Option<string>>)
    requires before.task.Some?
    requires var t0 := before.task.value;
      && i <= steps && t.next == t0.next + i <= |Words|
      && (i == 0 ==> t == t0)
      && (i > 0 ==> !t0.cancelled && !t.cancelled && t.utterance == Some(Joined(Words[..t.next])))
      && (t.cancelled || i == steps || t.next == |Words|)
      && trace == before.utterances + Wrap(Utterances(Words[..t.next])[t0.next..])
    ensures Advance(before, steps) == Streams(trace, before.statuses, Some(t))
  {
    var t0 := before.task.value;
    if t0.cancelled || t0.next >= |Words| {
      assert i == 0;
      assert Utterances(Words[..t0.next])[t0.next..] == [];
      assert trace == before.utterances;
    } else {
      assert t.next == Min(t0.next + steps, |Words|);
    }
  }

  /** Once cancelled, the task yields nothing more, however long it runs. */
  lemma CancelledTaskYieldsNothing(s: Streams, steps: nat)
    requires s.task.Some? && s.task.value.cancelled
    ensures Advance(s, steps) == s
  {
  }

  /** What the `newUtterance` stream gains while the task runs: the new texts, one for one. */
  lemma AdvanceNewUtterances(s: Streams, steps: nat)
    requires s.task.Some? && !s.task.value.cancelled && s.task.value.next < |Words|
    ensures var t := s.task.value;
            Compact(Advance(s, steps).utterances) ==
            Compact(s.utterances) + Utterances(Words[..Min(t.next + steps, |Words|)])[t.next..]
  {
    var t := s.task.value;
    NewUtterancesGain(s.utterances, Utterances(Words[..Min(t.next + steps, |Words|)])[t.next..]);
  }

  /** The streams right after the preview is built. */
  const Initial := Streams([], [NotStarted], None)

  /**
   * One session: start, let the task read `heard` words, stop, and let the
   * cancelled task run `later` more steps. The status stream reads
   * `notStarted, recording, stopping, stopped(.success)`; the utterance
   * stream reads `nil` and then the first 1, 2, ... words joined, and stops
   * growing at the stop.
   */
  lemma {:induction false} OneSession(heard: nat, later: nat)
    ensures var started := ApplyAll(StartCallbacks, Initial);
            var stopped := ApplyAll(StopCallbacks, Advance(started, heard));
            var after := Advance(stopped, later);
            var n := Min(heard, |Words|);
            && after.statuses == [NotStarted, Recording, Stopping, Stopped(Success)]
            && after.utterances == [None] + Wrap(Utterances(Words[..n]))
            && Compact(after.utterances) == Utterances(Words[..n])
  {
    var started := ApplyAll(StartCallbacks, Initial);
    StartEffect(Initial);
    var n := Min(heard, |Words|);
    var texts := Utterances(Words[..n]);
    assert texts[0..] == texts;
    var heardSome := Advance(started, heard);
    assert heardSome.utterances == [None] + Wrap(texts);
    StopEffect(heardSome);
    var stopped := ApplyAll(StopCallbacks, heardSome);
    CancelledTaskYieldsNothing(stopped, later);
    CompactAppend([None], Wrap(texts));
    CompactSingletons<string>("");
    CompactWrap(texts);
  }

  class PreviewRecognizer {
    var startRecordingCallbacks: seq<Callback>
    var stopRecordingCallbacks: seq<Callback>
    var recordingTask: Option<RecordingTask>
    // what each stream has yielded so far
    var authorizationTrace: seq<AuthorizationStatus>
    var utteranceTrace: seq<Option<string>>
    var statusTrace: seq<Status>
    // every callback run so far, in order
    ghost var invoked: seq<Callback>

    ghost function Observed(): Streams
      reads this
    {
      Streams(utteranceTrace, statusTrace, recordingTask)
    }

    /** The `newUtterance` stream: the utterance stream with its `nil`s dropped. */
    ghost function NewUtterances(): (r: seq<string>)
      reads this
      ensures |r| <= |utteranceTrace|
    {
      Compact(utteranceTrace)
    }

    ghost predicate Valid()
      reads this
    {
      && startRecordingCallbacks == StartCallbacks
      && stopRecordingCallbacks == StopCallbacks
      && Consistent(Observed())
    }

    /** Builds the preview: each stream registers its callbacks as it is created. */
    constructor ()
      ensures Valid()
      ensures authorizationTrace == [] && utteranceTrace == [] && statusTrace == [NotStarted]
      ensures recordingTask == None && invoked == []
      ensures Observed() == Initial
    {
      var starts: seq<Callback> := [];
      var stops: seq<Callback> := [];
      // the utterance stream yields nothing yet and registers its callbacks
      starts := starts + [YieldNilAndStartTask];
      stops := stops + [CancelTask];
      // the status stream yields `notStarted` at once and registers its callbacks
      statusTrace := [NotStarted];
      starts := starts + [YieldRecording];
      stops := stops + [YieldStoppingThenStopped];
      startRecordingCallbacks, stopRecordingCallbacks := starts, stops;
      authorizationTrace, utteranceTrace, recordingTask := [], [], None;
      invoked := [];
    }

    /** The authorization request: the preview grants access. */
    method RequestAuthorization()
      modifies this`authorizationTrace
      ensures authorizationTrace == old(authorizationTrace) + [Authorized]
    {
      authorizationTrace := authorizationTrace + [Authorized];
    }

    /** Runs one registered callback. */
    method Invoke(cb: Callback)
      modifies this`utteranceTrace, this`statusTrace, this`recordingTask, this`invoked
      ensures Observed() == Apply(cb, old(Observed()))
      ensures invoked == old(invoked) + [cb]
    {
      match cb {
        case YieldNilAndStartTask =>
          utteranceTrace := utteranceTrace + [None];
          recordingTask := Some(FreshTask);
        case CancelTask =>
          if recordingTask.Some? {
            recordingTask := Some(recordingTask.value.(cancelled := true));
          }
        case YieldRecording =>
          statusTrace := statusTrace + [Recording];
        case YieldStoppingThenStopped =>
          statusTrace := statusTrace + [Stopping, Stopped(Success)];
      }
      invoked := invoked + [cb];
    }

    /** Runs each callback of `cbs` once, first to last. */
    method RunCallbacks(cbs: seq<Callback>)
      modifies this`utteranceTrace, this`statusTrace, this`recordingTask, this`invoked
      ensures invoked == old(invoked) + cbs
      ensures Observed() == ApplyAll(cbs, old(Observed()))
    {
      var i := 0;
      while i < |cbs|
        invariant i <= |cbs|
        invariant invoked == old(invoked) + cbs[..i]
        invariant Observed() == ApplyAll(cbs[..i], old(Observed()))
      {
        Invoke(cbs[i]);
        ApplyAllSnoc(cbs[..i], cbs[i], old(Observed()));
        assert cbs[..i + 1] == cbs[..i] + [cbs[i]];
        i := i + 1;
      }
      assert cbs[..i] == cbs;
    }

    /** Starting runs every start callback once, in registration order. */
    method StartRecording()
      requires Valid()
      modifies this`utteranceTrace, this`statusTrace, this`recordingTask, this`invoked
      ensures Valid()
      ensures invoked == old(invoked) + startRecordingCallbacks
      ensures Observed() == ApplyAll(StartCallbacks, old(Observed()))
      ensures utteranceTrace == old(utteranceTrace) + [None]
      ensures statusTrace == old(statusTrace) + [Recording]
      ensures recordingTask == Some(FreshTask)
      ensures NewUtterances() == old(NewUtterances())
    {
      RunCallbacks(startRecordingCallbacks);
      StartOutcome(old(Observed()));
    }

    /**
     * Stopping runs every stop callback once, in registration order: the
     * task is cancelled, the utterances already yielded stay as they are,
     * and the status stream gets `stopping` then `stopped(.success)`.
     */
    method StopRecording()
      requires Valid()
      modifies this`utteranceTrace, this`statusTrace, this`recordingTask, this`invoked
      ensures Valid()
      ensures invoked == old(invoked) + stopRecordingCallbacks
      ensures Observed() == ApplyAll(StopCallbacks, old(Observed()))
      ensures utteranceTrace == old(utteranceTrace)
      ensures statusTrace == old(statusTrace) + [Stopping, Stopped(Success)]
      ensures recordingTask == if old(recordingTask).Some?
                               then Some(old(recordingTask).value.(cancelled := true))
                               else None
    {
      RunCallbacks(stopRecordingCallbacks);
      StopOutcome(old(Observed()));
    }

    /**
     * Lets the recording task run through at most `steps` more words. Before
     * each word it checks for cancellation and gives up if cancelled;
     * otherwise it appends the word to the utterance, after a single space
     * unless the utterance is still empty, and yields the new utterance.
     */
    method AdvanceTask(steps: nat)
      requires Valid()
      modifies this`utteranceTrace, this`recordingTask
      ensures Valid()
      ensures Observed() == Advance(old(Observed()), steps)
    {
      if recordingTask.None? {
        return;
      }
      var t := recordingTask.value;
      ghost var n0 := t.next;
      var i := 0;
      while i < steps && t.next < |Words|
        invariant i <= steps
        invariant t.next == n0 + i <= |Words|
        invariant i == 0 ==> t == old(recordingTask).value
        invariant i > 0 ==> !t.cancelled && t.utterance == Some(Joined(Words[..t.next]))
        invariant old(recordingTask).value.cancelled ==> i == 0
        invariant TaskInvariant(Some(t), utteranceTrace)
        invariant utteranceTrace == old(utteranceTrace) + Wrap(Utterances(Words[..t.next])[n0..])
      {
        if t.cancelled {
          break;
        }
        var utterance := NextUtterance(t);
        WordStep(t, utteranceTrace, old(utteranceTrace), n0);
        t := RecordingTask(t.next + 1, Some(utterance), false);
        utteranceTrace := utteranceTrace + [Some(utterance)];
        i := i + 1;
      }
      recordingTask := Some(t);
      LoopExit(old(Observed()), steps, i, t, utteranceTrace);
    }
  }

  /**
   * One session driven through the recogniser itself: start, let the task
   * read `heard` words, stop, and let the cancelled task run `later` more
   * steps. The streams read as `OneSession` says.
   */
  method RecordOneSession(p: PreviewRecognizer, heard: nat, later: nat)
    requires p.Valid() && p.Observed() == Initial
    modifies p`utteranceTrace, p`statusTrace, p`recordingTask, p`invoked
    ensures p.Valid()
    ensures p.statusTrace == [NotStarted, Recording, Stopping, Stopped(Success)]
    ensures p.utteranceTrace == [None] + Wrap(Utterances(Words[..Min(heard, |Words|)]))
    ensures p.NewUtterances() == Utterances(Words[..Min(heard, |Words|)])
  {
    p.StartRecording();
    p.AdvanceTask(heard);
    p.StopRecording();
    p.AdvanceTask(later);
    OneSession(heard, later);
  }
}
