# Typing-speed test: the keystroke-scoring session

This project models the session logic of a browser typing-speed test. The
`App` component shows a quote. After the GO button it receives the user's
keys on the live quote. Each key is scored against the character under the
cursor:

- the right key advances the cursor;
- a wrong key from the allowed set counts an error and leaves the cursor;
- any other key is ignored.

Every matching key and every allowed wrong key is written to an output
panel. Once the cursor is past position 5, the CPM and accuracy tiles are
refreshed. A session ends when a key is pressed on the quote's last
character, when a key is pressed after more than 50 errors, or when the
countdown reaches zero.

Modules:

- `JsString`: the JavaScript built-ins the handler depends on. `charAt`
  returns the empty string past the end. `substring` clamps and swaps its
  bounds. The accuracy expression is a floor of a percentage.
- `Scoring`: the session as a value (`Snapshot`). It defines the effect of
  each event (`AfterStart`, `AfterEnd`, `AfterTick`, `AfterKey`) and the
  invariant `Inv` that every reachable state keeps. Lemmas give the effect
  of each kind of key.
- `Traces`: whole sessions as sequences of keys. It proves the invariant,
  monotonicity and the error ceiling by induction, and checks the two
  "abc" scenarios.
- `WpmBands`: the five colour bands of the WPM tile.
- `App`: the class `Session`. Its fields are the component's state, and its
  methods are the event handlers, updating fields in the handler's order.
  Each method is proved to perform exactly the matching `Scoring`
  transition. The constructor, `HandleStart`, `Tick` and `HandleKeyDown`
  establish or keep `Inv`; `HandleEnd` keeps it when it held before.

The key handler reads the counters as they were before the key. Its closure
holds the values of the render that attached it, and React setters do not
change them. So the metric refresh uses the pre-key cursor, correct count and
error count. The end test does too, so any key pressed while the cursor is on
the last character ends the session, even a wrong or ignored one. A
non-matching key then leaves that character untyped
(`Scoring.LastCharacterEndsOnAnyKey`). The session ends on the key that
finds more than 50 errors already counted. So a session with `e` errors ends
after `52 - e` wrong keys, with 52 errors (`Traces.ErrorCeilingEnds`).

Keys are strings, as `KeyboardEvent.key` is. The allowed keys are a set of
strings given to the constructor. The output panel is a sequence of
`Stroke(key, isError)` records rather than HTML markup.

## Model

| member | source | states |
|---|---|---|
| `JsString.CharAt` | src/App.tsx:66 | `charAt` gives the one-character string at an index inside the text and the empty string at any index outside it |
| `JsString.Substring` | src/App.tsx:68-71 | `substring` never returns more than the text; when the start is inside the text and the end at or past its end, the result is the text from the start on |
| `JsString.Accuracy` | src/App.tsx:85 | the accuracy for a positive cursor is the floor of `(index - errors) / index` in percent; it is at most 100, exactly 100 when there are no errors, and negative exactly when errors outnumber the cursor |
| `Scoring.InitialState` | src/App.tsx:15-33 | after mounting, the whole quote is displayed, nothing is counted, the test has not started and the invariant holds |
| `Scoring.StartRuns` | src/App.tsx:53-59 | starting a fresh session enters the running phase with the timer on, the whole quote displayed and an empty transcript, keeping the invariant |
| `Scoring.EndIdempotent` | src/App.tsx:35-39 | ending enters the ended phase with the timer cancelled, changes nothing else, keeps the invariant, and a second end changes nothing |
| `Scoring.TickEnds` | src/App.tsx:44-50 | a countdown tick records the remaining seconds, ends the session exactly when they are zero, and changes nothing else |
| `Scoring.MatchAdvances` | src/App.tsx:66-75 | a key equal to the character under the cursor is possible only inside the quote; it advances the cursor and correct count by one, keeps the error count, clears the error flag, displays the quote after the old cursor and appends the key unstyled |
| `Scoring.MistakeCounts` | src/App.tsx:76-81 | a non-matching allowed key adds one error, sets the error flag and appends the key styled as an error; cursor, correct count and display are unchanged |
| `Scoring.OtherKeyIgnored` | src/App.tsx:76-82 | a non-matching key outside the allowed set changes no counter, flag, display or transcript |
| `Scoring.MetricsLag` | src/App.tsx:84-92 | CPM and accuracy change only when the pre-key cursor is past 5; then CPM becomes the pre-key correct count and accuracy the floor percentage of the pre-key cursor and errors |
| `Scoring.KeyEnds` | src/App.tsx:94-96 | a running session ends on a key exactly when the pre-key cursor is on the last character or the pre-key errors exceed 50, whatever the key; otherwise it keeps running |
| `Scoring.LastCharacterEndsOnAnyKey` | src/App.tsx:94-96 | any key pressed on the last character ends the session; the cursor reaches the end only if the key was that character |
| `Scoring.KeyOnlyGrows` | src/App.tsx:66-81 | a key never lowers the cursor or the counters and only appends to the transcript |
| `Scoring.KeyKeepsInv` | src/App.tsx:61-97 | every key in the running phase keeps the invariant: cursor equals correct count and stays within the quote, one stroke per counted key, the unstyled strokes spell the quote up to the cursor, the display is the rest of the quote, and the timer runs exactly while the session does |
| `Traces.RunKeepsInv` | src/App.tsx:174-191 | over any key sequence, with keys delivered only in the running phase, the invariant holds |
| `Traces.RunOnlyGrows` | src/App.tsx:66-81 | over a session the cursor and counters never decrease, the transcript only grows by appending, and an ended session stays ended |
| `Traces.ErrorCeilingEnds` | src/App.tsx:76-96 | away from the last character, `n` wrong allowed keys from `e` errors end the session exactly when `e + n >= 52`, leaving the cursor where it was and the error count at `min(e + n, 52)` |
| `Traces.TypingAbc` | src/App.tsx:66-96 | typing "abc" moves the cursor 0, 1, 2, 3 and ends the session on the third key with three correct keys and no errors |
| `Traces.TypingAbcWithSlip` | src/App.tsx:66-96 | in "abc", a wrong allowed key after "a" counts one error and keeps the cursor at 1; the remaining correct keys complete and end the session |
| `WpmBands.BandOf` | src/App.tsx:118-130 | every positive WPM falls in a band |
| `WpmBands.BandsPartition` | src/App.tsx:118-130 | the five bands cover every positive WPM and never overlap |
| `WpmBands.TileStyleByBand` | src/App.tsx:118-130 | the tile is unstyled exactly when the WPM is not positive, and otherwise has white text on its band's colour |
| `WpmBands.BandMonotone` | src/App.tsx:118-130 | a higher WPM never gets a slower band |
| `App.Session.constructor` | src/App.tsx:15-33 | a new session is the mounted state: quote displayed, counters zero, not started, invariant holds |
| `App.Session.HandleStart` | src/App.tsx:53-59 | the GO button performs the start transition and leaves a running session with the timer on |
| `App.Session.HandleEnd` | src/App.tsx:35-39 | ending performs the end transition, from any state, and keeps the invariant when it held; on an ended session it changes nothing |
| `App.Session.Tick` | src/App.tsx:44-50 | a countdown callback stores the seconds left and ends the session exactly at zero, keeping the invariant |
| `App.Session.HandleKeyDown` | src/App.tsx:61-97 | the key handler performs exactly the key transition on the pre-key values and keeps the invariant |
| `App.Session.ScoreKey` | src/App.tsx:66-82 | the three-way scoring branch performs exactly the match, mistake or ignore update |

## Left out

- The live WPM (src/App.tsx:86): it divides by `(300 - duration) / 300`, which is zero at the start, and rounds a floating-point value. No `wpm` field is kept; the colour bands take the WPM as a parameter.
- The last score and its `localStorage` write and read (src/App.tsx:27, 99-106): a foreign key-value store.
- The clock: `setTimer` (src/App.tsx:41-51) computes the seconds left from `Date.now()`. `App.Session.Tick` takes that rounded value as a parameter. The module-level `interval` handle is the `timerActive` flag.
- Quote selection (`random(quotesArray)`) and the contents of `allowedKeys` come from a helper module that is not part of this model. Both are constructor parameters.
- DOM and React plumbing: `preventDefault`, `focus()`, the HTML markup appended to the output panel, JSX rendering, and the Reload button's page reload, which starts a new `Session`.
- The score tiles' "%" suffix shown only for positive values (src/components/ItemList.tsx:14): presentation only.
- JsString.Accuracy computes the floor exactly over the rationals. The source computes `((index - errors) / index) * 100` in doubles before `Math.floor`, which can land one lower. For index 100 and 43 errors, `0.57 * 100` is `56.99999999999999`, so the source shows 56 where the model gives 57.
- App.Session.HandleKeyDown requires a non-empty key, as browsers always deliver. An empty key would match `charAt` past the end of an empty quote; that case is not modelled.
- App.Session.HandleStart requires a session that has not started, the only state in which the GO button is rendered (src/App.tsx:162-168). Calling it on a running or ended session is not modelled.
- Quotes are assumed to lie in the Basic Multilingual Plane, where UTF-16 code units and characters coincide. The source's `charAt` and `length` count UTF-16 code units, so a character outside that plane (an emoji, say) can never be typed there and counts twice in the end test, while the model matches it with one key and counts it once.
- Counters are unbounded integers. JavaScript numbers are exact far beyond the at most 52 errors and the quote length reachable here.
