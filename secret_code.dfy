/** The secret-word detector: a buffer of the most recent letter keys, compared with the
    upper-cased target word after every accepted keystroke. */
module SecretCode {
  import opened Common
  import Text

  /** One `keydown`: the key's name and whether it was typed into an input or a text area. */
  datatype KeyEvent = KeyEvent(key: string, inTextField: bool)

  /** The buffer after a keystroke and whether the keystroke fired the trigger. */
  datatype Outcome = Outcome(buffer: string, fired: bool)

  /** `s.slice(-n)`: the last `n` characters, and for `n = 0` (`slice(-0)`, that is
      `slice(0)`) the whole string. */
  function SliceLast(s: string, n: nat): (r: string)
    ensures n == 0 ==> r == s
    ensures n > 0 ==> |r| == (if |s| <= n then |s| else n) && r == s[|s| - |r|..]
  {
    if n == 0 then s else Last(s, n)
  }

  lemma SliceLastAppend(s: string, t: string, n: nat)
    ensures SliceLast(SliceLast(s, n) + t, n) == SliceLast(s + t, n)
  {
    if n > 0 {
      LastAppend(s, t, n);
    }
  }

  /** Whether the keystroke is counted: not typed into a field, and a single letter A-Z
      once upper-cased. */
  predicate Accepts(e: KeyEvent)
  {
    var key := Text.Upper(e.key);
    !e.inTextField && |key| == 1 && Text.IsUpperLetter(key[0])
  }

  /** The letter a counted keystroke adds to the buffer; nothing for the others. */
  function Letter(e: KeyEvent): (r: string)
    ensures |r| <= 1
    ensures r != [] <==> Accepts(e)
  {
    if Accepts(e) then Text.Upper(e.key) else ""
  }

  /** One keystroke: the buffer extended by the letter and cut to the target's length; when
      that equals the upper-cased target, the trigger fires and the buffer empties. */
  function KeyStep(target: string, buffer: string, e: KeyEvent): (r: Outcome)
    ensures !Accepts(e) ==> r == Outcome(buffer, false)
    ensures Accepts(e) ==>
      r.fired == (SliceLast(buffer + Letter(e), |target|) == Text.Upper(target))
      && r.buffer == if r.fired then "" else SliceLast(buffer + Letter(e), |target|)
  {
    if !Accepts(e) then Outcome(buffer, false)
    else
      var next := SliceLast(buffer + Text.Upper(e.key), |target|);
      if next == Text.Upper(target) then Outcome("", true) else Outcome(next, false)
  }

  /** A sequence of keystrokes: the final buffer, and whether any of them fired. */
  function Feed(target: string, buffer: string, events: seq<KeyEvent>): Outcome
  {
    if events == [] then Outcome(buffer, false)
    else
      var before := Feed(target, buffer, events[..|events| - 1]);
      var step := KeyStep(target, before.buffer, events[|events| - 1]);
      Outcome(step.buffer, before.fired || step.fired)
  }

  /** The letters of the counted keystrokes, in typing order. */
  function Letters(events: seq<KeyEvent>): string
  {
    if events == [] then "" else Letters(events[..|events| - 1]) + Letter(events[|events| - 1])
  }

  /** A buffer no longer than the target (or any buffer when the target is empty, which
      `slice(-0)` never shortens). */
  predicate Bounded(target: string, buffer: string)
  {
    |target| == 0 || |buffer| <= |target|
  }

  /** A keystroke keeps the buffer bounded. */
  lemma KeyStepBounded(target: string, buffer: string, e: KeyEvent)
    requires Bounded(target, buffer)
    ensures Bounded(target, KeyStep(target, buffer, e).buffer)
  {
  }

  /** As long as nothing fires, the buffer holds the last |target| letters typed, oldest
      first, after what it held at the start. */
  lemma {:induction false} FeedWithoutTrigger(target: string, buffer: string, events: seq<KeyEvent>)
    requires Bounded(target, buffer)
    ensures !Feed(target, buffer, events).fired ==>
      Feed(target, buffer, events).buffer == SliceLast(buffer + Letters(events), |target|)
  {
    if events == [] {
      assert buffer + Letters(events) == buffer;
    } else {
      var init := events[..|events| - 1];
      var e := events[|events| - 1];
      var before := Feed(target, buffer, init);
      var step := KeyStep(target, before.buffer, e);
      assert Feed(target, buffer, events) == Outcome(step.buffer, before.fired || step.fired);
      if !before.fired && !step.fired {
        var prefix := buffer + Letters(init);
        FeedWithoutTrigger(target, buffer, init);
        FeedBounded(target, buffer, init);
        StepWithoutTrigger(target, before.buffer, e, prefix);
        LettersSnoc(buffer, events);
      }
    }
  }

  /** The letters of a run, after a buffer, are those of all but the last keystroke and
      then the last one's. */
  lemma LettersSnoc(buffer: string, events: seq<KeyEvent>)
    requires events != []
    ensures buffer + Letters(events)
         == (buffer + Letters(events[..|events| - 1])) + Letter(events[|events| - 1])
  {
    var init, e := events[..|events| - 1], events[|events| - 1];
    assert Letters(events) == Letters(init) + Letter(e);
    ConcatAssoc(buffer, Letters(init), Letter(e));
  }

  /** One keystroke that does not fire, on a buffer holding the tail of `prefix`. */
  lemma StepWithoutTrigger(target: string, buffer: string, e: KeyEvent, prefix: string)
    requires Bounded(target, buffer) && buffer == SliceLast(prefix, |target|)
    requires !KeyStep(target, buffer, e).fired
    ensures KeyStep(target, buffer, e).buffer == SliceLast(prefix + Letter(e), |target|)
  {
    SliceLastAppend(prefix, Letter(e), |target|);
    if !Accepts(e) {
      assert prefix + Letter(e) == prefix;
    }
  }

  /** Every buffer a run of keystrokes leaves is bounded. */
  lemma {:induction false} FeedBounded(target: string, buffer: string, events: seq<KeyEvent>)
    requires Bounded(target, buffer)
    ensures Bounded(target, Feed(target, buffer, events).buffer)
  {
    if events != [] {
      FeedBounded(target, buffer, events[..|events| - 1]);
      KeyStepBounded(target, Feed(target, buffer, events[..|events| - 1]).buffer, events[|events| - 1]);
    }
  }

  /** Typing the letters of the target, in any case, fires the trigger by the last of
      them, whatever the buffer held before. */
  lemma TypingTargetTriggers(target: string, buffer: string, events: seq<KeyEvent>)
    requires |target| > 0 && Bounded(target, buffer)
    requires |events| == |target|
    requires forall i :: 0 <= i < |events| ==> Accepts(events[i]) && Text.Upper(events[i].key) == [Text.Upper(target)[i]]
    ensures Feed(target, buffer, events).fired
  {
    var t := Text.Upper(target);
    LettersOfAccepted(events, t);
    FeedWithoutTrigger(target, buffer, events);
    assert t[..|events|] == t;
  }

  lemma {:induction false} LettersOfAccepted(events: seq<KeyEvent>, t: string)
    requires |events| <= |t|
    requires forall i :: 0 <= i < |events| ==> Accepts(events[i]) && Text.Upper(events[i].key) == [t[i]]
    ensures Letters(events) == t[..|events|]
  {
    if events != [] {
      LettersOfAccepted(events[..|events| - 1], t);
      assert t[..|events|] == t[..|events| - 1] + [t[|events| - 1]];
    }
  }

  /** Matching ignores case: a key and its upper-case form have the same effect, and so do a
      target and its lower-case form. */
  lemma KeyStepIgnoresCase(target: string, buffer: string, e: KeyEvent)
    ensures KeyStep(target, buffer, e) == KeyStep(target, buffer, e.(key := Text.Upper(e.key)))
    ensures KeyStep(target, buffer, e) == KeyStep(Text.Lower(target), buffer, e)
  {
    Text.UpperIdempotent(e.key);
    Text.UpperOfLower(target);
  }

  /** With an empty target every letter lengthens the buffer by one and nothing fires. */
  lemma EmptyTargetGrows(buffer: string, e: KeyEvent)
    requires Accepts(e)
    ensures KeyStep("", buffer, e) == Outcome(buffer + Text.Upper(e.key), false)
  {
  }

  /** The hook's state. */
  class Detector {
    const targetCode: string
    var buffer: string
    var triggered: bool

    ghost predicate Valid()
      reads this
    {
      Bounded(targetCode, buffer)
    }

    constructor (targetCode: string)
      ensures this.targetCode == targetCode && buffer == "" && !triggered && Valid()
    {
      this.targetCode := targetCode;
      buffer := "";
      triggered := false;
    }

    /** `handleKeyDown`. */
    method HandleKeyDown(e: KeyEvent)
      requires Valid()
      modifies this
      ensures var step := KeyStep(targetCode, old(buffer), e);
        buffer == step.buffer && triggered == (old(triggered) || step.fired)
      ensures Valid()
    {
      if e.inTextField {
        return;
      }
      var key := Text.Upper(e.key);
      if |key| == 1 && Text.IsUpperLetter(key[0]) {
        var newBuffer := SliceLast(buffer + key, |targetCode|);
        if newBuffer == Text.Upper(targetCode) {
          triggered := true;
          buffer := "";
        } else {
          buffer := newBuffer;
        }
      }
    }
  }
}
