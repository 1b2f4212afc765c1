/** The typing-test session as a value: what the `App` component holds in its
    React state and in the output panel, and the effect of each event on it.
    The class `App.Session` is proved to perform exactly these transitions. */
module Scoring {
  import opened JsString

  /** An error count above this ends the session. */
  const ErrorCeiling := 50
  /** Live metrics are refreshed only once the cursor is past this position. */
  const MetricsFrom := 5
  /** Initial countdown, in seconds. */
  const TotalSeconds := 300

  /** One entry of the output panel: the key as typed, styled as an error or not. */
  datatype Stroke = Stroke(key: string, isError: bool)

  /** Everything the component keeps for one session. `quote` and
      `allowedKeys` are fixed once the quote is chosen; `input` is the part
      of the quote still displayed; `transcript` is the output panel. */
  datatype Snapshot = Snapshot(
    quote: string,
    allowedKeys: set<string>,
    index: nat,
    correctCount: nat,
    errorCount: nat,
    isError: bool,
    input: string,
    transcript: seq<Stroke>,
    cpm: int,
    accuracy: int,
    duration: int,
    timerActive: bool,
    started: bool,
    ended: bool)

  datatype Phase = NotStarted | Running | Ended

  /** The render branch that is shown: the result once ended, the live
      quote (which receives keys) once started, the GO button before. */
  function PhaseOf(s: Snapshot): Phase
  {
    if s.ended then Ended else if s.started then Running else NotStarted
  }

  /** The concatenated keys of the unstyled strokes: the text typed correctly. */
  function Typed(t: seq<Stroke>): string
  {
    if t == [] then [] else Typed(t[..|t| - 1]) + (if t[|t| - 1].isError then [] else t[|t| - 1].key)
  }

  /** How many strokes are styled as errors. */
  function Mistakes(t: seq<Stroke>): nat
  {
    if t == [] then 0 else Mistakes(t[..|t| - 1]) + (if t[|t| - 1].isError then 1 else 0)
  }

  /** The state after mounting, once the quote has been chosen and displayed. */
  function Initial(quote: string, allowedKeys: set<string>): Snapshot
  {
    Snapshot(quote, allowedKeys, 0, 0, 0, false, quote, [], 0, 0, TotalSeconds, false, false, false)
  }

  /** `handleStart`: enter the running phase, show the whole quote, start the timer. */
  function AfterStart(s: Snapshot): Snapshot
  {
    s.(started := true, ended := false, input := s.quote, timerActive := true)
  }

  /** `handleEnd`: enter the ended phase and cancel the timer. */
  function AfterEnd(s: Snapshot): Snapshot
  {
    s.(ended := true, started := false, timerActive := false)
  }

  /** One timer callback that computed `secondsLeft` remaining seconds. */
  function AfterTick(s: Snapshot, secondsLeft: int): Snapshot
  {
    var t := s.(duration := secondsLeft);
    if secondsLeft == 0 then AfterEnd(t) else t
  }

  /** What a key does to the counters, decided against the cursor position. */
  datatype Outcome = Match | Mistake | Ignored

  function Classify(s: Snapshot, key: string): Outcome
  {
    if key == CharAt(s.quote, s.index) then Match
    else if key in s.allowedKeys then Mistake
    else Ignored
  }

  /** The end test of the handler, on the counters it read. */
  predicate EndCheck(quoteLength: int, index: int, errors: int)
  {
    index + 1 == quoteLength || errors > ErrorCeiling
  }

  /** The counter, display and transcript updates of one key. */
  function Score(s: Snapshot, key: string): Snapshot
  {
    match Classify(s, key)
    case Match =>
      s.(index := s.index + 1,
         input := Substring(s.quote, s.index + 1, s.index + |s.quote|),
         correctCount := s.correctCount + 1,
         isError := false,
         transcript := s.transcript + [Stroke(key, false)])
    case Mistake =>
      s.(errorCount := s.errorCount + 1,
         isError := true,
         transcript := s.transcript + [Stroke(key, true)])
    case Ignored => s
  }

  /** `handleKeyDown`: score the key, then refresh the metrics and test for
      the end. Both of the latter read the counters from before the key,
      because the handler's closure holds the values of the render that
      attached it. */
  function AfterKey(s: Snapshot, key: string): Snapshot
  {
    var scored := Score(s, key);
    var measured :=
      if s.index > MetricsFrom
      then scored.(accuracy := Accuracy(s.index, s.errorCount), cpm := s.correctCount)
      else scored;
    if EndCheck(|s.quote|, s.index, s.errorCount) then AfterEnd(measured) else measured
  }

  /** What holds of every reachable state: the typing progress, the
      lifecycle and the metrics. */
  ghost predicate Inv(s: Snapshot)
  {
    Progress(s) && Lifecycle(s) && MetricsBounded(s)
  }

  /** The cursor counts the correct keys, the transcript holds one stroke per
      counted key, its unstyled keys spell the quote up to the cursor, and
      the display shows the quote from the cursor on. */
  ghost predicate Progress(s: Snapshot)
  {
    && s.correctCount == s.index
    && s.index <= |s.quote|
    && |s.transcript| == s.correctCount + s.errorCount
    && Typed(s.transcript) == s.quote[..s.index]
    && Mistakes(s.transcript) == s.errorCount
    && s.input == s.quote[s.index..]
  }

  /** The timer runs exactly while the session does; nothing is typed before
      the start; a running session is below both end conditions' reach. */
  ghost predicate Lifecycle(s: Snapshot)
  {
    && !(s.started && s.ended)
    && s.timerActive == (PhaseOf(s) == Running)
    && (PhaseOf(s) == NotStarted ==> s.index == 0 && s.errorCount == 0)
    && (PhaseOf(s) == Running ==> s.errorCount <= ErrorCeiling + 1 && (s.quote == [] || s.index < |s.quote|))
    && s.errorCount <= ErrorCeiling + 2
  }

  /** The displayed CPM never exceeds the correct count and accuracy never
      exceeds 100. */
  ghost predicate MetricsBounded(s: Snapshot)
  {
    0 <= s.cpm <= s.correctCount && s.accuracy <= 100
  }

  lemma InitialState(quote: string, allowedKeys: set<string>)
    ensures Inv(Initial(quote, allowedKeys))
    ensures PhaseOf(Initial(quote, allowedKeys)) == NotStarted
    ensures Initial(quote, allowedKeys).input == quote
  {
  }

  /** Starting moves a fresh session to the running phase, with the whole
      quote displayed and nothing typed. */
  lemma StartRuns(s: Snapshot)
    requires Inv(s) && PhaseOf(s) == NotStarted
    ensures Inv(AfterStart(s))
    ensures PhaseOf(AfterStart(s)) == Running && AfterStart(s).timerActive
    ensures AfterStart(s).input == s.quote && AfterStart(s).index == 0 && AfterStart(s).transcript == []
  {
  }

  /** Ending always lands in the ended phase with the timer cancelled; a
      second end changes nothing. */
  lemma EndIdempotent(s: Snapshot)
    requires Inv(s)
    ensures Inv(AfterEnd(s))
    ensures PhaseOf(AfterEnd(s)) == Ended && !AfterEnd(s).timerActive
    ensures AfterEnd(AfterEnd(s)) == AfterEnd(s)
    ensures AfterEnd(s).(started := s.started, ended := s.ended, timerActive := s.timerActive) == s
  {
  }

  /** A timer tick records the remaining seconds and ends the session exactly
      when they reach zero. */
  lemma TickEnds(s: Snapshot, secondsLeft: int)
    requires Inv(s) && PhaseOf(s) == Running
    ensures Inv(AfterTick(s, secondsLeft))
    ensures AfterTick(s, secondsLeft).duration == secondsLeft
    ensures PhaseOf(AfterTick(s, secondsLeft)) == (if secondsLeft == 0 then Ended else Running)
    ensures AfterTick(s, secondsLeft).(duration := s.duration, started := s.started, ended := s.ended, timerActive := s.timerActive) == s
  {
  }

  /** A key equal to the character under the cursor advances the cursor and
      the correct count by one, clears the error flag, shows the rest of the
      quote and adds the key unstyled. It can only happen inside the quote. */
  lemma MatchAdvances(s: Snapshot, key: string)
    requires Inv(s) && PhaseOf(s) == Running && key != []
    requires key == CharAt(s.quote, s.index)
    ensures s.index < |s.quote| && key == [s.quote[s.index]]
    ensures AfterKey(s, key).index == s.index + 1
    ensures AfterKey(s, key).correctCount == s.correctCount + 1
    ensures AfterKey(s, key).errorCount == s.errorCount
    ensures !AfterKey(s, key).isError
    ensures AfterKey(s, key).input == s.quote[s.index + 1..]
    ensures AfterKey(s, key).transcript == s.transcript + [Stroke(key, false)]
  {
  }

  /** A wrong key from the allowed set counts an error, raises the error flag
      and adds the key styled as an error; cursor and display stay. */
  lemma MistakeCounts(s: Snapshot, key: string)
    requires key != CharAt(s.quote, s.index) && key in s.allowedKeys
    ensures AfterKey(s, key).errorCount == s.errorCount + 1
    ensures AfterKey(s, key).isError
    ensures AfterKey(s, key).transcript == s.transcript + [Stroke(key, true)]
    ensures AfterKey(s, key).index == s.index
    ensures AfterKey(s, key).correctCount == s.correctCount
    ensures AfterKey(s, key).input == s.input
  {
  }

  /** Any other key leaves the counters, the flag, the display and the
      transcript as they were. */
  lemma OtherKeyIgnored(s: Snapshot, key: string)
    requires key != CharAt(s.quote, s.index) && key !in s.allowedKeys
    ensures AfterKey(s, key).(accuracy := s.accuracy, cpm := s.cpm, started := s.started,
                              ended := s.ended, timerActive := s.timerActive) == s
  {
  }

  /** The metrics move only when the cursor was past position 5 before the
      key, and then take the counters from before the key. */
  lemma MetricsLag(s: Snapshot, key: string)
    ensures s.index <= MetricsFrom ==>
      AfterKey(s, key).cpm == s.cpm && AfterKey(s, key).accuracy == s.accuracy
    ensures s.index > MetricsFrom ==>
      AfterKey(s, key).cpm == s.correctCount &&
      AfterKey(s, key).accuracy * s.index <= (s.index - s.errorCount) * 100 < (AfterKey(s, key).accuracy + 1) * s.index
  {
  }

  /** A running session ends on a key exactly when, before that key, the
      cursor was on the last character or the errors were above the
      ceiling, whatever the key. */
  lemma KeyEnds(s: Snapshot, key: string)
    requires Inv(s) && PhaseOf(s) == Running
    ensures PhaseOf(AfterKey(s, key)) ==
      (if s.index + 1 == |s.quote| || s.errorCount > ErrorCeiling then Ended else Running)
    ensures AfterKey(s, key).timerActive == (PhaseOf(AfterKey(s, key)) == Running)
  {
  }

  /** Because the end test reads the old cursor, any key pressed on the last
      character ends the session, and a key other than that character ends
      it with the character still untyped. */
  lemma LastCharacterEndsOnAnyKey(s: Snapshot, key: string)
    requires Inv(s) && PhaseOf(s) == Running && key != []
    requires s.index + 1 == |s.quote|
    ensures PhaseOf(AfterKey(s, key)) == Ended
    ensures AfterKey(s, key).index == (if key == [s.quote[s.index]] then |s.quote| else |s.quote| - 1)
  {
  }

  /** Appending a stroke extends the typed text by its key when unstyled. */
  lemma {:induction false} TypedAppend(t: seq<Stroke>, x: Stroke)
    ensures Typed(t + [x]) == Typed(t) + (if x.isError then [] else x.key)
    ensures Mistakes(t + [x]) == Mistakes(t) + (if x.isError then 1 else 0)
  {
    assert (t + [x])[..|t + [x]| - 1] == t;
  }

  /** Every key handled in the running phase keeps the invariant. */
  lemma KeyKeepsInv(s: Snapshot, key: string)
    requires Inv(s) && PhaseOf(s) == Running && key != []
    ensures Inv(AfterKey(s, key))
  {
    KeyKeepsProgress(s, key);
    KeyEnds(s, key);
  }

  lemma KeyKeepsProgress(s: Snapshot, key: string)
    requires Inv(s) && PhaseOf(s) == Running && key != []
    ensures Progress(AfterKey(s, key))
  {
    match Classify(s, key)
    case Match => MatchKeepsProgress(s, key);
    case Mistake => MistakeKeepsProgress(s, key);
    case Ignored =>
    ProgressAfterScore(s, key);
  }

  /** The metric refresh and the end test touch no field that `Progress` reads. */
  lemma ProgressAfterScore(s: Snapshot, key: string)
    ensures Progress(AfterKey(s, key)) == Progress(Score(s, key))
  {
    ScoreFields(s, key);
  }

  /** After the scoring step, the handler changes only the metrics and the
      lifecycle flags. */
  lemma ScoreFields(s: Snapshot, key: string)
    ensures var t, u := AfterKey(s, key), Score(s, key);
      && t.quote == u.quote && t.allowedKeys == u.allowedKeys
      && t.index == u.index && t.correctCount == u.correctCount && t.errorCount == u.errorCount
      && t.transcript == u.transcript && t.input == u.input && t.isError == u.isError
  {
  }

  lemma MatchKeepsProgress(s: Snapshot, key: string)
    requires Progress(s) && key != [] && Classify(s, key) == Match
    ensures Progress(Score(s, key))
  {
    assert s.index < |s.quote| && key == [s.quote[s.index]];
    TypedAppend(s.transcript, Stroke(key, false));
    assert s.quote[..s.index] + key == s.quote[..s.index + 1];
  }

  lemma MistakeKeepsProgress(s: Snapshot, key: string)
    requires Progress(s) && Classify(s, key) == Mistake
    ensures Progress(Score(s, key))
  {
    TypedAppend(s.transcript, Stroke(key, true));
  }

  /** A key never shrinks the cursor, the counters or the transcript, which
      it can only extend. */
  lemma KeyOnlyGrows(s: Snapshot, key: string)
    ensures s.index <= AfterKey(s, key).index
    ensures s.correctCount <= AfterKey(s, key).correctCount
    ensures s.errorCount <= AfterKey(s, key).errorCount
    ensures s.transcript <= AfterKey(s, key).transcript
    ensures s.quote == AfterKey(s, key).quote && s.allowedKeys == AfterKey(s, key).allowedKeys
  {
    ScoreFields(s, key);
    var u := Score(s, key);
    assert s.transcript <= u.transcript;
  }
}
