/** The system-monitor graph's sample buffer: every tick appends a sample to a copy of the
    buffer and, above fifty samples, shifts the oldest out of that copy. */
module MonitorGraph {
  import opened Common

  const Capacity: nat := 50

  /** The buffer after one tick, as a value. */
  function Ticked(prev: seq<real>, sample: real): (r: seq<real>)
    ensures |r| == if |prev| >= Capacity then |prev| else |prev| + 1
    ensures r[|r| - 1] == sample
  {
    var next := prev + [sample];
    if |next| > Capacity then next[1..] else next
  }

  /** A buffer that held at most fifty samples still does. */
  lemma TickBounded(prev: seq<real>, sample: real)
    requires |prev| <= Capacity
    ensures |Ticked(prev, sample)| <= Capacity
  {
  }

  /** Below capacity the earlier samples stay where they were. */
  lemma TickGrows(prev: seq<real>, sample: real)
    requires |prev| < Capacity
    ensures Ticked(prev, sample)[..|prev|] == prev
  {
  }

  /** At capacity the oldest sample is dropped and every other moves down one place. */
  lemma TickShifts(prev: seq<real>, sample: real)
    requires |prev| == Capacity
    ensures forall i :: 0 <= i < Capacity - 1 ==> Ticked(prev, sample)[i] == prev[i + 1]
  {
  }

  /** The buffer after a run of ticks from empty. */
  function Run(samples: seq<real>): (r: seq<real>)
    ensures |r| <= Capacity
    ensures samples != [] ==> r != [] && r[|r| - 1] == samples[|samples| - 1]
  {
    if samples == [] then [] else Ticked(Run(samples[..|samples| - 1]), samples[|samples| - 1])
  }

  /** After any run of ticks the buffer holds the last fifty samples, oldest first. */
  lemma {:induction false} RunKeepsLatest(samples: seq<real>)
    ensures Run(samples) == Last(samples, Capacity)
  {
    if samples != [] {
      var init := samples[..|samples| - 1];
      var x := samples[|samples| - 1];
      RunKeepsLatest(init);
      LastAppend(init, [x], Capacity);
      assert init + [x] == samples;
    }
  }

  /** The component's state. */
  class Graph {
    var dataPoints: seq<real>

    constructor ()
      ensures dataPoints == []
    {
      dataPoints := [];
    }

    /** One tick, with the random sample passed in. `newData` is a fresh copy, so the
        previous buffer is never written; the shift moves its elements down in place. */
    method Tick(sample: real)
      modifies this
      ensures dataPoints == Ticked(old(dataPoints), sample)
    {
      var prev := dataPoints;
      ghost var full := prev + [sample];
      var newData := new real[|prev| + 1];
      var i := 0;
      while i < |prev|
        invariant 0 <= i <= |prev|
        invariant forall k :: 0 <= k < i ==> newData[k] == full[k]
      {
        newData[i] := prev[i];
        i := i + 1;
      }
      newData[|prev|] := sample;
      if newData.Length > Capacity {
        var j := 0;
        while j < newData.Length - 1
          invariant 0 <= j <= newData.Length - 1
          invariant forall k :: 0 <= k < j ==> newData[k] == full[k + 1]
          invariant forall k :: j <= k < newData.Length ==> newData[k] == full[k]
        {
          newData[j] := newData[j + 1];
          j := j + 1;
        }
        assert newData[..newData.Length - 1] == full[1..];
        dataPoints := newData[..newData.Length - 1];
      } else {
        assert newData[..] == full;
        dataPoints := newData[..];
      }
    }
  }
}
