/** The PCM buffer: each segment becomes a run of 16-bit samples at
    44100 Hz and the buffer is the runs concatenated in order. The sine
    values of a tone are computed in floating point by the application and
    are a parameter here; sample counts and silences are exact. */
module Waveform {
  import opened Timeline

  const SampleRate: nat := 44100

  /** Milliseconds in one time unit. */
  const UnitMillis: nat := 5

  newtype Int16 = x: int | -0x8000 <= x < 0x8000

  /** The samples of a tone: sample `j` of a tone lasting `units`. */
  type ToneWave = (nat, nat) -> Int16

  /** `int(sample_rate * duration)` for a duration of `units` time units:
      the exact sample count truncated toward zero. */
  function SampleCount(units: nat): (n: nat)
    ensures n * 1000 <= SampleRate * UnitMillis * units < (n + 1) * 1000
  {
    SampleRate * units * UnitMillis / 1000
  }

  /** The samples of one segment: `SampleCount` samples of the tone, or as
      many zeros for a silence. */
  function WaveData(seg: Segment, tone: ToneWave): (r: seq<Int16>)
    ensures |r| == SampleCount(seg.units)
  {
    seq(SampleCount(seg.units), (j: int) requires 0 <= j => if seg.Tone? then tone(seg.units, j) else 0)
  }

  /** The concatenation of the segments' samples, in order. */
  function Buffer(segs: seq<Segment>, tone: ToneWave): seq<Int16> {
    if segs == [] then [] else WaveData(segs[0], tone) + Buffer(segs[1..], tone)
  }

  /** The sum of the segments' sample counts. */
  function TotalSamples(segs: seq<Segment>): nat {
    if segs == [] then 0 else SampleCount(segs[0].units) + TotalSamples(segs[1..])
  }

  /** The sample counts of the five durations agree with the application's
      floating-point `int(44100 * d)` for d = 0.07, 0.2, 0.035, 0.175, 0.42. */
  lemma DurationSampleCounts()
    ensures SampleCount(DotUnits) == 3087
    ensures SampleCount(DashUnits) == 8820
    ensures SampleCount(SignalGapUnits) == 1543
    ensures SampleCount(CharGapUnits) == 7717
    ensures SampleCount(WordGapUnits) == 18522
  {
  }

  /** The buffer has exactly as many samples as the segments' counts add up to. */
  lemma {:induction false} BufferLength(segs: seq<Segment>, tone: ToneWave)
    ensures |Buffer(segs, tone)| == TotalSamples(segs)
  {
    if segs != [] {
      BufferLength(segs[1..], tone);
    }
  }

  lemma {:induction false} TotalSamplesAppend(a: seq<Segment>, b: seq<Segment>)
    ensures TotalSamples(a + b) == TotalSamples(a) + TotalSamples(b)
  {
    if a == [] {
      assert a + b == b;
    } else {
      assert (a + b)[1..] == a[1..] + b;
      TotalSamplesAppend(a[1..], b);
    }
  }

  /** Segment k occupies the samples from the total count of the segments
      before it, for its own count, and they are exactly its wave data:
      runs neither overlap nor leave gaps. */
  lemma {:induction false} BufferRun(segs: seq<Segment>, tone: ToneWave, k: nat)
    requires k < |segs|
    ensures TotalSamples(segs[..k]) + SampleCount(segs[k].units) <= |Buffer(segs, tone)|
    ensures Buffer(segs, tone)[TotalSamples(segs[..k])..TotalSamples(segs[..k]) + SampleCount(segs[k].units)]
      == WaveData(segs[k], tone)
  {
    BufferLength(segs, tone);
    var head := WaveData(segs[0], tone);
    var rest := Buffer(segs[1..], tone);
    if k == 0 {
      assert segs[..0] == [];
    } else {
      BufferRun(segs[1..], tone, k - 1);
      assert segs[1..][..k - 1] == segs[..k][1..];
      assert segs[1..][k - 1] == segs[k];
      var off := TotalSamples(segs[..k][1..]);
      assert TotalSamples(segs[..k]) == |head| + off;
      var n := SampleCount(segs[k].units);
      assert (head + rest)[|head| + off..|head| + off + n] == rest[off..off + n];
    }
  }

  /** Every sample of a silence segment is zero. */
  lemma SilenceIsZero(segs: seq<Segment>, tone: ToneWave, k: nat, j: nat)
    requires k < |segs| && segs[k].Silence? && j < SampleCount(segs[k].units)
    ensures TotalSamples(segs[..k]) + j < |Buffer(segs, tone)|
    ensures Buffer(segs, tone)[TotalSamples(segs[..k]) + j] == 0
  {
    BufferRun(segs, tone, k);
    var off := TotalSamples(segs[..k]);
    assert Buffer(segs, tone)[off + j] == WaveData(segs[k], tone)[j];
  }

  /** Truncating each segment separately loses less than one sample per
      segment: in thousandths of a sample, the exact length of the whole
      duration exceeds the buffer length by at most 999 per segment. */
  lemma {:induction false} TruncationError(segs: seq<Segment>)
    ensures TotalSamples(segs) * 1000 <= SampleRate * UnitMillis * Duration(segs)
    ensures SampleRate * UnitMillis * Duration(segs) <= TotalSamples(segs) * 1000 + 999 * |segs|
  {
    if segs != [] {
      TruncationError(segs[1..]);
      var n := SampleCount(segs[0].units);
      assert SampleRate * UnitMillis * Duration(segs)
        == SampleRate * UnitMillis * segs[0].units + SampleRate * UnitMillis * Duration(segs[1..]);
    }
  }

  /** The buffer for "E": one dot and one character gap. */
  lemma SingleESamples(tone: ToneWave)
    ensures |Buffer(Segments("E"), tone)| == 3087 + 7717
  {
    SingleE();
    BufferLength(Segments("E"), tone);
    DurationSampleCounts();
    var segs := Segments("E");
    assert segs[1..][1..] == [];
  }
}
