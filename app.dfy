/** The `App` component's session state and its event handlers, as a class
    whose methods update the fields one assignment at a time, in the order the
    handlers call their state setters. */
module App {
  import opened JsString
  import opened Scoring

  class Session {
    /** The chosen quote's text and the keys that count as typing attempts. */
    const quote: string
    const allowedKeys: set<string>

    var index: nat
    var correctCount: nat
    var errorCount: nat
    var isError: bool
    /** The part of the quote still displayed. */
    var input: string
    /** The output panel, one stroke per appended key. */
    var transcript: seq<Stroke>
    var cpm: int
    var accuracy: int
    /** Remaining seconds of the countdown. */
    var duration: int
    /** Whether the recurring countdown callback is scheduled. */
    var timerActive: bool
    var started: bool
    var ended: bool

    ghost function View(): Snapshot
      reads this
    {
      Snapshot(quote, allowedKeys, index, correctCount, errorCount, isError, input, transcript,
               cpm, accuracy, duration, timerActive, started, ended)
    }

    ghost predicate Valid()
      reads this
    {
      Inv(View())
    }

    /** Mounting with the chosen quote: its text is displayed, nothing is
        counted, the test has not started. */
    constructor (quote: string, allowedKeys: set<string>)
      ensures Valid()
      ensures View() == Initial(quote, allowedKeys)
      ensures PhaseOf(View()) == NotStarted
    {
      this.quote := quote;
      this.allowedKeys := allowedKeys;
      index, correctCount, errorCount := 0, 0, 0;
      isError := false;
      input := quote;
      transcript := [];
      cpm, accuracy := 0, 0;
      duration := TotalSeconds;
      timerActive := false;
      started, ended := false, false;
      InitialState(quote, allowedKeys);
    }

    /** The GO button, shown only before the start. */
    method HandleStart()
      requires Valid() && PhaseOf(View()) == NotStarted
      modifies this
      ensures Valid()
      ensures View() == AfterStart(old(View()))
      ensures PhaseOf(View()) == Running && timerActive
      ensures input == quote && index == 0 && transcript == []
    {
      started := true;
      ended := false;
      input := quote;
      timerActive := true;
      StartRuns(old(View()));
    }

    /** Ends the session and cancels the countdown; calling it again changes
        nothing. */
    method HandleEnd()
      modifies this
      ensures View() == AfterEnd(old(View()))
      ensures PhaseOf(View()) == Ended && !timerActive
      ensures old(PhaseOf(View()) == Ended && !timerActive && !started) ==> View() == old(View())
      ensures old(Valid()) ==> Valid()
    {
      ended := true;
      started := false;
      timerActive := false;
      if old(Valid()) {
        EndIdempotent(old(View()));
      }
    }

    /** One countdown callback, given the remaining seconds it computed from
        the clock. */
    method Tick(secondsLeft: int)
      requires Valid() && timerActive
      modifies this
      ensures Valid()
      ensures View() == AfterTick(old(View()), secondsLeft)
      ensures duration == secondsLeft
      ensures PhaseOf(View()) == (if secondsLeft == 0 then Ended else Running)
    {
      duration := secondsLeft;
      if secondsLeft == 0 {
        HandleEnd();
      }
      TickEnds(old(View()), secondsLeft);
    }

    /** A key pressed on the live quote, which only the running phase shows. */
    method HandleKeyDown(key: string)
      requires Valid() && PhaseOf(View()) == Running && key != []
      modifies this
      ensures Valid()
      ensures View() == AfterKey(old(View()), key)
    {
      // the handler reads the counters of the render that attached it
      var index0, correct0, errors0 := index, correctCount, errorCount;
      ScoreKey(key);
      if index0 > MetricsFrom {
        accuracy := Accuracy(index0, errors0);
        cpm := correct0;
      }
      if EndCheck(|quote|, index0, errors0) {
        HandleEnd();
      }
      KeyKeepsInv(old(View()), key);
    }

    /** The counter, display and output-panel updates of one key. */
    method ScoreKey(key: string)
      modifies this
      ensures View() == Score(old(View()), key)
    {
      var index0 := index;
      if key == CharAt(quote, index0) {
        index := index0 + 1;
        input := Substring(quote, index0 + 1, index0 + |quote|);
        correctCount := correctCount + 1;
        isError := false;
        transcript := transcript + [Stroke(key, false)];
      } else if key in allowedKeys {
        errorCount := errorCount + 1;
        isError := true;
        transcript := transcript + [Stroke(key, true)];
      }
    }
  }
}
