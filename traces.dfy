/** Whole sessions: a sequence of keys fed to the component. A key reaches the
    handler only while the session is running, because only that render
    branch attaches `onKeyDown`; keys pressed in any other phase go nowhere. */
module Traces {
  import opened JsString
  import opened Scoring

  function Run(s: Snapshot, keys: seq<string>): Snapshot
    decreases |keys|
  {
    if keys == [] || PhaseOf(s) != Running then s else Run(AfterKey(s, keys[0]), keys[1..])
  }

  /** Key events carry a non-empty key name. */
  predicate KeyNames(keys: seq<string>)
  {
    forall k :: k in keys ==> k != []
  }

  /** The invariant holds after any sequence of keys. */
  lemma {:induction false} RunKeepsInv(s: Snapshot, keys: seq<string>)
    requires Inv(s) && KeyNames(keys)
    ensures Inv(Run(s, keys))
    decreases |keys|
  {
    if keys != [] && PhaseOf(s) == Running {
      assert keys[0] in keys;
      KeyKeepsInv(s, keys[0]);
      assert KeyNames(keys[1..]) by {
        forall k | k in keys[1..] ensures k != [] {
          assert k in keys;
        }
      }
      RunKeepsInv(AfterKey(s, keys[0]), keys[1..]);
    }
  }

  /** Over a session the cursor, both counters and the transcript only grow
      (the transcript by appending), and an ended session stays ended. */
  lemma {:induction false} RunOnlyGrows(s: Snapshot, keys: seq<string>)
    ensures s.index <= Run(s, keys).index
    ensures s.correctCount <= Run(s, keys).correctCount
    ensures s.errorCount <= Run(s, keys).errorCount
    ensures s.transcript <= Run(s, keys).transcript
    ensures s.quote == Run(s, keys).quote && s.allowedKeys == Run(s, keys).allowedKeys
    ensures PhaseOf(s) == Ended ==> Run(s, keys) == s
    decreases |keys|
  {
    if keys != [] && PhaseOf(s) == Running {
      KeyOnlyGrows(s, keys[0]);
      RunOnlyGrows(AfterKey(s, keys[0]), keys[1..]);
    }
  }

  /** Allowed keys that all differ from the character under the cursor count
      one error each and end the session on the key that finds more than 50
      errors already counted: a session with `e` errors ends after exactly
      `52 - e` such keys, with 52 errors. */
  lemma {:induction false} ErrorCeilingEnds(s: Snapshot, keys: seq<string>)
    requires Inv(s) && PhaseOf(s) == Running && KeyNames(keys)
    requires s.index + 1 != |s.quote|
    requires forall k :: k in keys ==> k in s.allowedKeys && k != CharAt(s.quote, s.index)
    ensures PhaseOf(Run(s, keys)) == (if s.errorCount + |keys| >= ErrorCeiling + 2 then Ended else Running)
    ensures Run(s, keys).errorCount == (if s.errorCount + |keys| >= ErrorCeiling + 2 then ErrorCeiling + 2 else s.errorCount + |keys|)
    ensures Run(s, keys).index == s.index
    decreases |keys|
  {
    if keys != [] {
      var k, rest := keys[0], keys[1..];
      var t := AfterKey(s, k);
      assert k in keys;
      MistakeCounts(s, k);
      KeyEnds(s, k);
      assert Run(s, keys) == Run(t, rest);
      if s.errorCount > ErrorCeiling {
        assert PhaseOf(t) == Ended;
      } else {
        assert PhaseOf(t) == Running;
        KeyKeepsInv(s, k);
        assert KeyNames(rest) && forall k' :: k' in rest ==> k' in t.allowedKeys && k' != CharAt(t.quote, t.index) by {
          assert forall k' :: k' in rest ==> k' in keys;
        }
        ErrorCeilingEnds(t, rest);
      }
    }
  }

  /** Typing "abc" correctly moves the cursor 0, 1, 2, 3 and ends the session
      on the third key with three correct keys. */
  lemma TypingAbc(allowedKeys: set<string>)
    ensures var s := AfterStart(Initial("abc", allowedKeys));
      && Run(s, ["a"]).index == 1
      && Run(s, ["a", "b"]).index == 2
      && PhaseOf(Run(s, ["a", "b"])) == Running
      && Run(s, ["a", "b", "c"]).index == 3
      && Run(s, ["a", "b", "c"]).correctCount == 3
      && Run(s, ["a", "b", "c"]).errorCount == 0
      && PhaseOf(Run(s, ["a", "b", "c"])) == Ended
  {
    var s := AfterStart(Initial("abc", allowedKeys));
    var s1 := AfterKey(s, "a");
    var s2 := AfterKey(s1, "b");
    assert Run(s, ["a"]) == Run(s1, []);
    assert Run(s, ["a", "b"]) == Run(s1, ["b"]) == Run(s2, []);
    assert Run(s, ["a", "b", "c"]) == Run(s1, ["b", "c"]) == Run(s2, ["c"]) == Run(AfterKey(s2, "c"), []);
  }

  /** With a wrong allowed key in between, "abc" still completes: the error is
      counted, the cursor waits at 1, and the remaining correct keys finish. */
  lemma TypingAbcWithSlip(allowedKeys: set<string>)
    requires "x" in allowedKeys
    ensures var s := AfterStart(Initial("abc", allowedKeys));
      && Run(s, ["a", "x"]).errorCount == 1
      && Run(s, ["a", "x"]).index == 1
      && Run(s, ["a", "x", "b", "c"]).index == 3
      && Run(s, ["a", "x", "b", "c"]).errorCount == 1
      && Run(s, ["a", "x", "b", "c"]).transcript
         == [Stroke("a", false), Stroke("x", true), Stroke("b", false), Stroke("c", false)]
      && PhaseOf(Run(s, ["a", "x", "b", "c"])) == Ended
  {
    var s := AfterStart(Initial("abc", allowedKeys));
    var s1 := AfterKey(s, "a");
    var s2 := AfterKey(s1, "x");
    var s3 := AfterKey(s2, "b");
    assert Run(s, ["a", "x"]) == Run(s1, ["x"]) == Run(s2, []);
    assert Run(s, ["a", "x", "b", "c"]) == Run(s1, ["x", "b", "c"]) == Run(s2, ["b", "c"])
      == Run(s3, ["c"]) == Run(AfterKey(s3, "c"), []);
  }
}
