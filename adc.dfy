/**
 * The arithmetic of `ADC_Read_Average`: four conversions are read from the
 * sample-sequencer FIFO, each masked to its 12 result bits, summed in a
 * `uint32_t` and divided by 4. The register handshake around each
 * conversion is hardware and is represented only by the words it yields.
 */
module Adc {

  /** Number of conversions averaged per reading. */
  const SAMPLES: nat := 4
  /** Largest 12-bit conversion result. */
  const ADC_MAX: nat := 0xFFF

  /** `ADC0_SSFIFO3_R & 0xFFF`: the conversion result in a FIFO word. */
  function Mask12(w: bv32): (r: nat)
    ensures r <= ADC_MAX
  {
    (w & 0xFFF) as nat
  }

  /** Sum of the masked words, accumulated front to back as the loop does. */
  function MaskedSum(ws: seq<bv32>): (s: nat)
    ensures s <= ADC_MAX * |ws|
  {
    if ws == [] then 0 else MaskedSum(ws[..|ws| - 1]) + Mask12(ws[|ws| - 1])
  }

  /** The averaged reading a set of FIFO words yields. */
  function Average(ws: seq<bv32>): (avg: nat)
    requires |ws| == SAMPLES
    ensures avg <= ADC_MAX
  {
    MaskedSum(ws) / SAMPLES
  }

  /**
   * `ADC_Read_Average`, given the FIFO words of its four conversions in order.
   * The 32-bit running sum never wraps, and the result is a 12-bit reading.
   */
  method ReadAverage(fifo: seq<bv32>) returns (avg: nat)
    requires |fifo| == SAMPLES
    ensures avg == Average(fifo)
    ensures avg <= ADC_MAX
  {
    var sum: nat := 0;
    var i := 0;
    while i < SAMPLES
      invariant 0 <= i <= SAMPLES
      invariant sum == MaskedSum(fifo[..i])
      invariant sum <= ADC_MAX * i < 0x1_0000_0000
    {
      assert fifo[..i + 1][..i] == fifo[..i];
      sum := sum + Mask12(fifo[i]);
      i := i + 1;
    }
    assert fifo[..SAMPLES] == fifo;
    avg := sum / SAMPLES;
  }

  /** The average lies between the smallest and the largest of the four results. */
  lemma {:induction false} AverageBetween(fifo: seq<bv32>, lo: nat, hi: nat)
    requires |fifo| == SAMPLES
    requires forall k :: 0 <= k < |fifo| ==> lo <= Mask12(fifo[k]) <= hi
    ensures lo <= Average(fifo) <= hi
  {
    SumBetween(fifo, lo, hi);
  }

  lemma {:induction false} SumBetween(ws: seq<bv32>, lo: nat, hi: nat)
    requires forall k :: 0 <= k < |ws| ==> lo <= Mask12(ws[k]) <= hi
    ensures lo * |ws| <= MaskedSum(ws) <= hi * |ws|
  {
    if ws != [] {
      var n := |ws| - 1;
      var init := ws[..n];
      forall k | 0 <= k < |init|
        ensures lo <= Mask12(init[k]) <= hi
      {
        assert init[k] == ws[k];
      }
      SumBetween(init, lo, hi);
      var last := Mask12(ws[n]);
      assert lo <= last <= hi;
      assert MaskedSum(ws) == MaskedSum(init) + last;
      WidenBound(lo, n);
      WidenBound(hi, n);
    }
  }

  lemma WidenBound(c: nat, n: nat)
    ensures c * (n + 1) == c * n + c
  {
  }

  /** Four identical conversions average to exactly that result. */
  lemma AverageOfEqual(fifo: seq<bv32>)
    requires |fifo| == SAMPLES
    requires forall k :: 0 <= k < |fifo| ==> Mask12(fifo[k]) == Mask12(fifo[0])
    ensures Average(fifo) == Mask12(fifo[0])
  {
    AverageBetween(fifo, Mask12(fifo[0]), Mask12(fifo[0]));
  }
}
