/**
 * The beat detector: every animation frame hands it the byte frequency data
 * of the audio analyser. The loudest of the low bins 1..5 goes into a queue of
 * the last two amplitudes, and a beat fires when a full-scale amplitude (255)
 * is followed by a quieter one. A beat is dispatched as the "beat" event.
 *
 * The Web Audio graph and the animation-frame loop are outside the model: the
 * frame data arrives as the argument of `DeclareEvent`.
 */
module BeatDetect {
  import opened Wrappers
  import D3Array
  import D3Dispatch

  /** An element of a `Uint8Array`. */
  newtype byte = x: int | 0 <= x < 256

  /** The event object handed to the "beat" listeners. */
  datatype BeatEvent = BeatEvent(message: string, beat: bool, firstBeat: bool)

  const Message: string := "It's a beat it is"

  /** The amplitude that saturates a bin. */
  const Saturated: int := 255

  /** `Math.round`: the floor of the value plus one half. */
  function Round(x: real): int
  {
    (x + 0.5).Floor
  }

  /** Rounding a whole number gives the number back. */
  lemma RoundWhole(n: int)
    ensures Round(n as real) == n
  {
  }

  /** The largest element of a non-empty list of bytes. */
  function Largest(s: seq<byte>): (m: int)
    requires s != []
    ensures exists i :: 0 <= i < |s| && s[i] as int == m
    ensures forall i :: 0 <= i < |s| ==> s[i] as int <= m
  {
    if |s| == 1 then s[0] as int
    else
      var rest := Largest(s[1..]);
      assert forall i :: 1 <= i < |s| ==> s[i] == s[1..][i - 1];
      if s[0] as int >= rest then s[0] as int else rest
  }

  /** The low bins the detector looks at: `data.slice(1, 6)`. */
  function LowBins(data: seq<byte>): (s: seq<byte>)
    ensures |s| == if |data| <= 1 then 0 else if |data| < 6 then |data| - 1 else 5
    ensures forall k :: 0 <= k < |s| ==> s[k] == data[k + 1]
  {
    if |data| <= 1 then [] else data[1..if |data| < 6 then |data| else 6]
  }

  /**
   * `Math.round(max(data.slice(1, 6)))`: the loudest low bin, or `NaN` (here
   * `None`) when the slice is empty because the data has at most one bin.
   */
  function Amplitude(data: seq<byte>): (a: Option<int>)
    ensures a.None? <==> |data| <= 1
    ensures a.Some? ==> 0 <= a.value < 256
    ensures a.Some? ==> exists k :: 1 <= k < 6 && k < |data| && data[k] as int == a.value
    ensures a.Some? ==> forall k :: 1 <= k < 6 && k < |data| ==> data[k] as int <= a.value
  {
    if |data| <= 1 then None
    else
      LoudestLowBin(data);
      Some(Largest(LowBins(data)))
  }

  /** The largest of the low bins is bin 1..5 of the data, and no such bin is louder. */
  lemma LoudestLowBin(data: seq<byte>)
    requires |data| > 1
    ensures exists k :: 1 <= k < 6 && k < |data| && data[k] as int == Largest(LowBins(data))
    ensures forall k :: 1 <= k < 6 && k < |data| ==> data[k] as int <= Largest(LowBins(data))
  {
    var low := LowBins(data);
    var i :| 0 <= i < |low| && low[i] as int == Largest(low);
    assert data[i + 1] as int == Largest(low);
    assert forall k :: 1 <= k < 6 && k < |data| ==> data[k] == low[k - 1];
  }

  /** The bytes as the numbers `max` sees. */
  function Lift(s: seq<byte>): seq<D3Array.Datum>
  {
    seq(|s|, i requires 0 <= i < |s| => D3Array.Num(s[i] as real))
  }

  /** The two-item queue after a push: the oldest item is shifted out beyond two. */
  function Push(queue: seq<Option<int>>, a: Option<int>): (q: seq<Option<int>>)
    ensures |q| == if |queue| + 1 > 2 then |queue| else |queue| + 1
    ensures q[|q| - 1] == a
  {
    if |queue + [a]| > 2 then (queue + [a])[1..] else queue + [a]
  }

  /** The last two amplitudes seen (all of them while there are fewer). */
  function Window(history: seq<Option<int>>): (q: seq<Option<int>>)
    ensures |q| <= 2
  {
    if |history| <= 2 then history else history[|history| - 2..]
  }

  /**
   * `queue[0] === 255 && queue[1] - queue[0] < 0`: a missing second item or a
   * `NaN` makes the difference `NaN`, which is not below zero.
   */
  predicate Fires(queue: seq<Option<int>>)
  {
    |queue| == 2 && queue[0] == Some(Saturated) && queue[1].Some? && queue[1].value < Saturated
  }

  /** How many beats a run of amplitudes fires. */
  function Beats(history: seq<Option<int>>): nat
  {
    if history == [] then 0
    else Beats(history[..|history| - 1]) + (if Fires(Window(history)) then 1 else 0)
  }

  /** Pushing into the window of a history gives the window of the longer history. */
  lemma PushWindow(history: seq<Option<int>>, a: Option<int>)
    ensures Push(Window(history), a) == Window(history + [a])
  {
    var h := history + [a];
    if |history| > 2 {
      assert h[|h| - 2..] == (history[|history| - 2..] + [a])[1..];
    }
  }

  /**
   * A beat fires exactly when the previous amplitude was full scale and the new
   * one is a number below it.
   */
  lemma FiresIff(history: seq<Option<int>>, a: Option<int>)
    ensures Fires(Window(history + [a])) <==>
      |history| >= 1 && history[|history| - 1] == Some(Saturated) && a.Some? && a.value < Saturated
  {
    var h := history + [a];
    if |h| >= 2 {
      assert Window(h) == [h[|h| - 2], h[|h| - 1]];
    }
  }

  /** Two frames in a row never both fire: the second would need the first's amplitude to be 255. */
  lemma NoConsecutiveBeats(history: seq<Option<int>>, a: Option<int>, b: Option<int>)
    requires Fires(Window(history + [a]))
    ensures !Fires(Window(history + [a] + [b]))
  {
    FiresIff(history, a);
    FiresIff(history + [a], b);
  }

  /** A steady full-scale signal that then drops fires once, on the drop. */
  lemma DropAfterPeak()
    ensures !Fires(Window([Some(255)]))
    ensures !Fires(Window([Some(255), Some(255)]))
    ensures Fires(Window([Some(255), Some(255), Some(100)]))
    ensures Beats([Some(255), Some(255), Some(100)]) == 1
  {
    var h := [Some(255), Some(255), Some(100)];
    assert h[..2] == [Some(255), Some(255)];
    assert h[..2][..1] == [Some(255)];
    assert [Some(255)][..0] == [];
  }

  /** The state of `beatDetect` between frames. */
  class BeatDetector {
    var queue: seq<Option<int>>
    var firstBeat: bool
    /** Every amplitude pushed so far. */
    ghost var history: seq<Option<int>>

    ghost predicate Valid()
      reads this
    {
      queue == Window(history) && (firstBeat <==> Beats(history) == 0)
    }

    /** `queue = []`, `firstBeat = true`. */
    constructor ()
      ensures Valid() && history == [] && queue == [] && firstBeat
    {
      queue := [];
      firstBeat := true;
      history := [];
    }

    /**
     * declareEvent(data): push the amplitude, and on a beat build the event
     * (its `firstBeat` is true for the first beat only), clear `firstBeat` and
     * call the "beat" listeners of the dispatcher.
     */
    method DeclareEvent<H>(data: seq<byte>, dispatcher: D3Dispatch.Dispatch<H>)
      returns (event: Option<BeatEvent>, called: Option<Result<seq<H>, D3Dispatch.Error>>)
      requires Valid()
      modifies this
      ensures Valid()
      ensures history == old(history) + [Amplitude(data)]
      ensures queue == Push(old(queue), Amplitude(data))
      ensures Fires(queue) ==>
        && event == Some(BeatEvent(Message, true, Beats(old(history)) == 0))
        && !firstBeat
        && called == Some(if "beat" in dispatcher.registry
                          then Success(D3Dispatch.Values(dispatcher.registry["beat"]))
                          else Failure(D3Dispatch.UnknownType("beat")))
      ensures !Fires(queue) ==> event == None && called == None && firstBeat == old(firstBeat)
    {
      var amplitude := Measure(data);
      PushWindow(history, amplitude);
      queue := queue + [amplitude];
      if |queue| > 2 {
        queue := queue[1..];
      }
      history := history + [amplitude];
      event, called := None, None;
      if queue[0] == Some(Saturated) && |queue| == 2 && queue[1].Some? && queue[1].value - queue[0].value < 0 {
        event := Some(BeatEvent(Message, true, firstBeat));
        firstBeat := false;
        var r := dispatcher.Call("beat");
        called := Some(r);
      }
    }
  }

  /** `Math.round(max(data.slice(1, 6)))`, computed with `max`. */
  method Measure(data: seq<byte>) returns (amplitude: Option<int>)
    ensures amplitude == Amplitude(data)
  {
    var low := LowBins(data);
    assert low != [] ==> Lift(low)[0].Num?;
    var m := D3Array.Max(Lift(low));
    amplitude := None;
    if m.Some? {
      LargestIsMax(low, m.value);
      RoundWhole(Largest(low));
      amplitude := Some(Round(m.value));
    }
  }

  /** What `max` finds in the lifted bytes is their largest element. */
  lemma LargestIsMax(s: seq<byte>, m: real)
    requires s != []
    requires D3Array.Num(m) in Lift(s) && D3Array.Bounds(Lift(s), m)
    ensures m == Largest(s) as real
  {
    var values := Lift(s);
    var i :| 0 <= i < |values| && values[i] == D3Array.Num(m);
    var j :| 0 <= j < |s| && s[j] as int == Largest(s);
    assert values[j].value <= m;
  }
}
