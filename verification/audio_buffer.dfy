/** The sample buffers of meeting mode: a bounded history with FIFO eviction and
    the constants that size it and the diarization window. */
module AudioBuffer {

  /** One PCM sample. The plugin stores 32-bit floats; only their order matters here. */
  type Sample = real

  /** Samples per second of the decoder's feature configuration. */
  const SampleRate: nat := 16000

  /** Largest number of samples the history keeps. */
  const MaxAudioBufferSize: nat := 480000

  /** Largest number of recent samples handed to the diarizer. */
  const ProcessingWindowSize: nat := 160000

  /** Shortest window the diarizer is given (one second of audio). */
  const MinWindowSize: nat := 16000

  function Min(a: nat, b: nat): nat {
    if a <= b then a else b
  }

  /** The most recent `n` samples of `s`, or all of `s` when it is shorter. */
  function Last(s: seq<Sample>, n: nat): (r: seq<Sample>)
    ensures |r| == Min(n, |s|)
    ensures forall i :: 0 <= i < |r| ==> r[i] == s[|s| - |r| + i]
  {
    s[|s| - Min(n, |s|)..]
  }

  /** FIFO eviction as the plugin writes it: when the history is longer than the
      maximum, remove that many of its oldest samples. */
  function Trim(h: seq<Sample>): (r: seq<Sample>)
    ensures |r| <= MaxAudioBufferSize
  {
    if |h| > MaxAudioBufferSize then h[|h| - MaxAudioBufferSize..] else h
  }

  /** Eviction keeps exactly the most recent samples: it is `Last` at the maximum size. */
  lemma TrimIsLast(h: seq<Sample>)
    ensures Trim(h) == Last(h, MaxAudioBufferSize)
    ensures |h| <= MaxAudioBufferSize ==> Trim(h) == h
  {
  }

  /** Taking a suffix of a suffix is taking the shorter suffix. */
  lemma LastOfLast(s: seq<Sample>, m: nat, n: nat)
    requires n <= m
    ensures Last(Last(s, m), n) == Last(s, n)
  {
  }

  /** Trimming before appending loses nothing that trimming afterwards would keep:
      the eviction of one call composes with the next. */
  lemma LastAppend(a: seq<Sample>, b: seq<Sample>, n: nat)
    ensures Last(Last(a, n) + b, n) == Last(a + b, n)
  {
    var l := Last(a, n);
    var x := Last(l + b, n);
    var y := Last(a + b, n);
    assert |x| == |y|;
    forall i | 0 <= i < |x|
      ensures x[i] == y[i]
    {
      var k := |l + b| - |x| + i;
      var k' := |a + b| - |y| + i;
      if k < |l| {
        assert (l + b)[k] == l[k] == a[|a| - |l| + k];
        assert k' == |a| - |l| + k;
      } else {
        assert (l + b)[k] == b[k - |l|];
        assert k' - |a| == k - |l|;
      }
    }
  }

  /** The most recent samples of `a + b` end with all of `b` once the window is at least as long as `b`. */
  lemma LastEndsWith(a: seq<Sample>, b: seq<Sample>, n: nat)
    requires |b| <= n
    ensures |Last(a + b, n)| >= |b|
    ensures Last(a + b, n)[|Last(a + b, n)| - |b|..] == b
  {
    var r := Last(a + b, n);
    assert r[|r| - |b|..] == (a + b)[|a|..];
    assert (a + b)[|a|..] == b;
  }
}
