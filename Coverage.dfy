/**
 * The coverage sampler of the scratch element, as functions on the pixel
 * buffer that getImageData returns (RGBA quadruples, one byte per channel).
 *
 * The alpha channel is every fourth byte starting at byte 3. Of the alpha
 * values, those at indices 0, 146, 292, ... are sampled, and a sample counts
 * as cleared when its alpha is exactly 0. The reported percentage is
 * Math.round((cleared / (L / 146)) * 100), L being the number of alpha values;
 * it is computed here on exact rationals, and its integer form is proved equal.
 */
module Coverage {

  /** The sampling stride over the alpha values. */
  const ChunkSize: nat := 146

  type Byte = b: int | 0 <= b < 256

  /** s[i], s[i + step], s[i + 2 * step], ... up to the end of s. */
  function EveryNth(s: seq<int>, i: nat, step: nat): seq<int>
    requires step > 0
    decreases |s| - i
  {
    if i >= |s| then [] else [s[i]] + EveryNth(s, i + step, step)
  }

  lemma MulMonotone(a: int, b: int, d: int)
    requires a <= b && d >= 0
    ensures a * d <= b * d
  {
  }

  lemma MulSuccessor(a: int, b: int)
    ensures a * (b + 1) == a * b + a
  {
  }

  /** Euclidean division is determined by its bracketing: q * d <= n < (q + 1) * d. */
  lemma DivUnique(n: int, d: int, q: int)
    requires d > 0 && q * d <= n < (q + 1) * d
    ensures n / d == q
  {
    var q', r := n / d, n % d;
    assert n == q' * d + r && 0 <= r < d;
    if q' < q {
      assert (q' + 1) * d == q' * d + d;
      MulMonotone(q' + 1, q, d);
    } else if q' > q {
      assert (q + 1) * d == q * d + d;
      MulMonotone(q + 1, q', d);
    }
  }

  /**
   * EveryNth takes ceil((|s| - i) / step) elements; the count is stated
   * without division, as the bracketing of a ceiling.
   */
  lemma {:induction false} EveryNthLength(s: seq<int>, i: nat, step: nat)
    requires step > 0
    ensures i >= |s| ==> |EveryNth(s, i, step)| == 0
    ensures i < |s| ==> step * (|EveryNth(s, i, step)| - 1) < |s| - i <= step * |EveryNth(s, i, step)|
    decreases |s| - i
  {
    if i < |s| {
      var m := |EveryNth(s, i + step, step)|;
      EveryNthLength(s, i + step, step);
      var len := |EveryNth(s, i, step)|;
      assert len == m + 1 && len - 1 == m;
      MulSuccessor(step, m);
      if i + step >= |s| {
        assert m == 0;
      } else {
        MulSuccessor(step, m - 1);
      }
    }
  }

  /** Element k of EveryNth(s, i, step) is s[i + step * k]. */
  lemma {:induction false} EveryNthElement(s: seq<int>, i: nat, step: nat)
    requires step > 0
    ensures forall k :: 0 <= k < |EveryNth(s, i, step)| ==>
              i + step * k < |s| && EveryNth(s, i, step)[k] == s[i + step * k]
    decreases |s| - i
  {
    if i < |s| {
      var rest := EveryNth(s, i + step, step);
      EveryNthElement(s, i + step, step);
      forall k | 1 <= k < |EveryNth(s, i, step)|
        ensures i + step * k < |s| && EveryNth(s, i, step)[k] == s[i + step * k]
      {
        assert EveryNth(s, i, step)[k] == rest[k - 1];
        assert i + step + step * (k - 1) == i + step * k;
      }
    }
  }

  /** getArrayWithValueOfQuadrupleAtNthIndex: the n-th channel of every quadruple. */
  function QuadrupleAt(s: seq<int>, n: nat): (r: seq<int>)
    ensures n >= |s| ==> r == []
    ensures n < |s| ==> 4 * (|r| - 1) < |s| - n <= 4 * |r|
    ensures forall k :: 0 <= k < |r| ==> n + 4 * k < |s| && r[k] == s[n + 4 * k]
  {
    EveryNthLength(s, n, 4);
    EveryNthElement(s, n, 4);
    EveryNth(s, n, 4)
  }

  /** The test's reading: on whole quadruples, channel n has one entry per quadruple. */
  lemma QuadrupleAtWhole(s: seq<int>, n: nat)
    requires |s| % 4 == 0 && n <= 3
    ensures |QuadrupleAt(s, n)| == |s| / 4
    ensures forall k :: 0 <= k < |s| / 4 ==> QuadrupleAt(s, n)[k] == s[n + 4 * k]
  {
    EveryNthLength(s, n, 4);
    EveryNthElement(s, n, 4);
  }

  /** The alpha channel of an RGBA buffer. */
  function Alpha(data: seq<int>): (alpha: seq<int>)
    ensures |data| > 3 ==> |alpha| > 0 && alpha[0] == data[3]
  {
    QuadrupleAt(data, 3)
  }

  /** The sampled alpha values: indices 0, 146, 292, ... */
  function Samples(alpha: seq<int>): (samples: seq<int>)
    ensures |alpha| > 0 ==> |samples| > 0 && samples[0] == alpha[0]
  {
    EveryNth(alpha, 0, ChunkSize)
  }

  /** There are ceil(L / 146) samples, sample k being alpha value 146 * k. */
  lemma SamplesAt(alpha: seq<int>)
    ensures |Samples(alpha)| == (|alpha| + ChunkSize - 1) / ChunkSize
    ensures forall k :: 0 <= k < |Samples(alpha)| ==> Samples(alpha)[k] == alpha[ChunkSize * k]
  {
    EveryNthLength(alpha, 0, ChunkSize);
    EveryNthElement(alpha, 0, ChunkSize);
  }

  /** The number of entries equal to 0. */
  function CountZeros(xs: seq<int>): (c: nat)
    ensures c <= |xs|
    ensures c == 0 <==> forall k :: 0 <= k < |xs| ==> xs[k] != 0
    ensures c == |xs| <==> forall k :: 0 <= k < |xs| ==> xs[k] == 0
    ensures c == multiset(xs)[0]
  {
    if xs == [] then 0
    else
      var rest := CountZeros(xs[1..]);
      assert xs == [xs[0]] + xs[1..];
      assert multiset(xs) == multiset([xs[0]]) + multiset(xs[1..]);
      assert forall k :: 1 <= k < |xs| ==> xs[k] == xs[1..][k - 1];
      (if xs[0] == 0 then 1 else 0) + rest
  }

  /** The source's percentage expression, (cleared / (L / 146)) * 100, on exact rationals. */
  function Ratio(cleared: int, alphaLength: int): real
    requires alphaLength > 0
  {
    (cleared as real / (alphaLength as real / ChunkSize as real)) * 100.0
  }

  /** Math.round: the nearest integer, halves rounded up. */
  function RoundHalfUp(x: real): (r: int)
    ensures r as real - 0.5 <= x < r as real + 0.5
  {
    (x + 0.5).Floor
  }

  lemma RatioTimesLength(cleared: int, alphaLength: int)
    requires alphaLength > 0
    ensures Ratio(cleared, alphaLength) * (alphaLength as real) == 14600.0 * (cleared as real)
  {
  }

  lemma RealMulStrict(a: real, b: real, d: real)
    requires a < b && d > 0.0
    ensures a * d < b * d
  {
  }

  lemma PercentageIsRounded(cleared: int, alphaLength: int)
    requires alphaLength > 0
    ensures (2 * cleared * ChunkSize * 100 + alphaLength) / (2 * alphaLength)
            == RoundHalfUp(Ratio(cleared, alphaLength))
  {
    var n := 2 * cleared * ChunkSize * 100 + alphaLength;
    var d := 2 * alphaLength;
    var q := n / d;
    var y := Ratio(cleared, alphaLength) + 0.5;
    RatioTimesLength(cleared, alphaLength);
    assert y * (d as real) == n as real;
    assert q * d <= n < (q + 1) * d;
    assert (q as real) * (d as real) <= n as real < (q as real + 1.0) * (d as real);
    if y < q as real {
      RealMulStrict(y, q as real, d as real);
    }
    if q as real + 1.0 <= y {
      if q as real + 1.0 < y {
        RealMulStrict(q as real + 1.0, y, d as real);
      }
    }
    assert q as real <= y < q as real + 1.0;
  }

  /** The percentage calcAreaCleared reports for `cleared` cleared samples out of L alpha values. */
  function Percentage(cleared: int, alphaLength: int): (p: int)
    requires alphaLength > 0
    ensures p == RoundHalfUp(Ratio(cleared, alphaLength))
  {
    PercentageIsRounded(cleared, alphaLength);
    (2 * cleared * ChunkSize * 100 + alphaLength) / (2 * alphaLength)
  }

  /** The payload calcAreaCleared emits for the buffer `data`. */
  function AreaCleared(data: seq<int>): (p: int)
    requires |data| > 3
    ensures p == RoundHalfUp(Ratio(CountZeros(Samples(Alpha(data))), |Alpha(data)|))
  {
    assert Alpha(data)[0] == data[3];
    Percentage(CountZeros(Samples(Alpha(data))), |Alpha(data)|)
  }

  /** At most one cleared sample per 146 alpha values keeps the percentage in [0, 100]. */
  lemma PercentageBound(cleared: int, alphaLength: int)
    requires alphaLength > 0
    requires 0 <= cleared <= alphaLength / ChunkSize
    ensures 0 <= Percentage(cleared, alphaLength) <= 100
  {
    var m := alphaLength / ChunkSize;
    var n := 2 * cleared * ChunkSize * 100 + alphaLength;
    var d := 2 * alphaLength;
    var q := n / d;
    assert ChunkSize * m <= alphaLength;
    MulMonotone(cleared, m, 2 * ChunkSize * 100);
    assert n <= 200 * alphaLength + alphaLength;
    assert q * d <= n;
    if q >= 101 {
      MulMonotone(101, q, d);
    }
  }


  lemma AreaClearedBound(data: seq<int>)
    requires |data| > 3 && |Alpha(data)| % ChunkSize == 0
    ensures 0 <= AreaCleared(data) <= 100
  {
    assert Alpha(data)[0] == data[3];
    SamplesAt(Alpha(data));
    PercentageBound(CountZeros(Samples(Alpha(data))), |Alpha(data)|);
  }

  /** Without divisibility the bound fails: 1200 zero bytes (L = 300, 3 samples) give 146. */
  lemma AreaClearedCanExceedHundred()
    ensures AreaCleared(seq(1200, _ => 0)) == 146
  {
    var data: seq<int> := seq(1200, _ => 0);
    EveryNthLength(data, 3, 4);
    EveryNthElement(data, 3, 4);
    var alpha := Alpha(data);
    assert |alpha| == 300;
    SamplesAt(alpha);
    assert |Samples(alpha)| == 3;
    assert CountZeros(Samples(alpha)) == 3;
  }

  /** If no sampled alpha value is 0, the payload is 0 (the test's opaque buffer). */
  lemma NoClearedSampleGivesZero(data: seq<int>)
    requires |data| > 3
    requires forall j :: 0 <= j < |Alpha(data)| && j % ChunkSize == 0 ==> Alpha(data)[j] != 0
    ensures AreaCleared(data) == 0
  {
    var alpha := Alpha(data);
    SamplesAt(alpha);
    forall k | 0 <= k < |Samples(alpha)| ensures Samples(alpha)[k] != 0 {
      assert (ChunkSize * k) % ChunkSize == 0;
    }
    assert CountZeros(Samples(alpha)) == 0;
    DivUnique(|alpha|, 2 * |alpha|, 0);
  }

  /** If L is a multiple of 146 and every sampled alpha value is 0, the payload is 100. */
  lemma AllSamplesClearedGivesHundred(data: seq<int>)
    requires |data| > 3 && |Alpha(data)| % ChunkSize == 0
    requires forall j :: 0 <= j < |Alpha(data)| && j % ChunkSize == 0 ==> Alpha(data)[j] == 0
    ensures AreaCleared(data) == 100
  {
    var alpha := Alpha(data);
    assert alpha[0] == data[3];
    SamplesAt(alpha);
    forall k | 0 <= k < |Samples(alpha)| ensures Samples(alpha)[k] == 0 {
      assert (ChunkSize * k) % ChunkSize == 0;
    }
    var m := |alpha| / ChunkSize;
    assert |alpha| == ChunkSize * m;
    assert |Samples(alpha)| == m;
    assert CountZeros(Samples(alpha)) == m;
    var n := 2 * m * ChunkSize * 100 + |alpha|;
    var d := 2 * |alpha|;
    assert n == 29346 * m && d == 292 * m;
    assert 100 * d <= n < 101 * d;
    DivUnique(n, d, 100);
  }

  /**
   * The half-cleared buffer the test means to build (alpha 255 up to byte 601,
   * 0 after it) has samples 255, 255, 0: the payload is 49, one off the 50 the
   * test expects.
   */
  lemma HalfClearedBufferGivesFortyNine()
    ensures AreaCleared(seq(1200, k => if k % 4 == 3 && k <= 601 then 255 else 0)) == 49
  {
    var data: seq<int> := seq(1200, k => if k % 4 == 3 && k <= 601 then 255 else 0);
    EveryNthLength(data, 3, 4);
    EveryNthElement(data, 3, 4);
    var alpha := Alpha(data);
    assert |alpha| == 300;
    SamplesAt(alpha);
    assert alpha[0] == data[3] && alpha[146] == data[587] && alpha[292] == data[1171];
    assert Samples(alpha) == [255, 255, 0];
    assert CountZeros(Samples(alpha)) == 1;
    DivUnique(2 * ChunkSize * 100 + 300, 600, 49);
  }
}
