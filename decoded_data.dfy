/** The decoded-data panel: which intercepted message is shown for a coherence, and how much
    of each of its lines is readable. */
module DecodedData {
  import opened Common

  const MessageCount: int := 3
  const Mask: char := '█'

  /** `Math.floor(coherence / 100 * 3) % 3`. */
  function MessageIndex(coherence: real): (r: int)
    ensures coherence >= 0.0 ==> 0 <= r < MessageCount
  {
    JsRem((coherence / 100.0 * MessageCount as real).Floor, MessageCount)
  }

  /** The coherence bands: below a third the first message, up to two thirds the second,
      below 100 the third, and exactly 100 wraps round to the first. */
  lemma MessageBands(coherence: real)
    requires 0.0 <= coherence <= 100.0
    ensures coherence * 3.0 < 100.0 ==> MessageIndex(coherence) == 0
    ensures 100.0 <= coherence * 3.0 < 200.0 ==> MessageIndex(coherence) == 1
    ensures 200.0 <= coherence * 3.0 < 300.0 ==> MessageIndex(coherence) == 2
    ensures coherence == 100.0 ==> MessageIndex(coherence) == 0
  {
    var x := coherence / 100.0 * 3.0;
    assert x == coherence * 3.0 / 100.0;
  }

  /** A negative coherence, which the signal engine never produces, gives a negative index
      and so no message. */
  lemma NegativeCoherenceHasNoMessage(coherence: real)
    requires -100.0 < coherence * 3.0 < 0.0
    ensures MessageIndex(coherence) == -1
  {
    var x := coherence / 100.0 * 3.0;
    assert -1.0 < x < 0.0;
  }

  /** The threshold of character `i` of a `len`-character line: `(i / len) * 100`. */
  function Threshold(i: nat, len: nat): real
    requires len > 0
  {
    (i as real / len as real) * 100.0
  }

  predicate Revealed(coherence: real, i: nat, len: nat)
    requires len > 0
  {
    coherence > Threshold(i, len)
  }

  /** `resolveText`: every character above the coherence is shown as a block. */
  function ResolveText(text: string, coherence: real): (r: string)
    ensures |r| == |text|
    ensures forall i :: 0 <= i < |text| ==> r[i] == if Revealed(coherence, i, |text|) then text[i] else Mask
  {
    seq(|text|, i requires 0 <= i < |text| => if Revealed(coherence, i, |text|) then text[i] else Mask)
  }

  /** Thresholds grow along the line. */
  lemma ThresholdMonotone(i: nat, j: nat, len: nat)
    requires len > 0 && i <= j
    ensures Threshold(i, len) <= Threshold(j, len)
  {
    assert i as real / len as real <= j as real / len as real;
  }

  /** The revealed characters form a prefix of the line. */
  lemma RevealedPrefix(coherence: real, i: nat, j: nat, len: nat)
    requires len > 0 && i <= j && Revealed(coherence, j, len)
    ensures Revealed(coherence, i, len)
  {
    ThresholdMonotone(i, j, len);
  }

  /** Raising the coherence never masks a character again. */
  lemma RaisingRevealsMore(text: string, low: real, high: real, i: nat)
    requires low <= high && i < |text|
    requires Revealed(low, i, |text|)
    ensures Revealed(high, i, |text|) && ResolveText(text, high)[i] == text[i]
  {
  }

  /** At or below zero every character is masked. */
  lemma NoCoherenceMasksAll(text: string, coherence: real)
    requires coherence <= 0.0
    ensures ResolveText(text, coherence) == seq(|text|, _ => Mask)
  {
    forall i | 0 <= i < |text|
      ensures !Revealed(coherence, i, |text|)
    {
      ThresholdMonotone(0, i, |text|);
    }
  }

  /** At 100 or above every character is shown. */
  lemma FullCoherenceRevealsAll(text: string, coherence: real)
    requires coherence >= 100.0
    ensures ResolveText(text, coherence) == text
  {
    forall i | 0 <= i < |text|
      ensures Revealed(coherence, i, |text|)
    {
      var len := |text| as real;
      assert i as real / len < 1.0;
    }
  }
}
