/** The sweep bins both sideband-separation front ends derive from the
    spectrometer configuration: the number of spectral bins, their IF
    frequencies, the bins a sweep tests and the IF frequency of each tested
    bin, together with the Python and numpy primitives they are built from. */
module Bins {
  import opened Outcomes
  import opened Digits
  import opened NumpyBuffers
  import opened Calandigital

  // ---------------------------------------------------------------------
  // range(start, stop, step)

  /** The elements of `range(start, stop, step)` for a non-zero step. */
  function RangeSeq(start: int, stop: int, step: int): seq<int>
    requires step != 0
    decreases if step > 0 then stop - start else start - stop
  {
    if (step > 0 && start < stop) || (step < 0 && stop < start) then
      [start] + RangeSeq(start + step, stop, step)
    else
      []
  }

  /** `range(start, stop, step)`: a ValueError when the step is zero. */
  function PyRange(start: int, stop: int, step: int): (r: Result<seq<int>>)
    ensures r.Err? <==> step == 0
    ensures r.Err? ==> r.error.ValueError?
    ensures r.Ok? ==> r.value == RangeSeq(start, stop, step)
  {
    if step == 0 then Err(ValueError("range() arg 3 must not be zero"))
    else Ok(RangeSeq(start, stop, step))
  }

  /** Element i of a range is start + i*step. */
  lemma {:induction false} RangeElements(start: int, stop: int, step: int)
    requires step != 0
    ensures forall i :: 0 <= i < |RangeSeq(start, stop, step)| ==>
              RangeSeq(start, stop, step)[i] == start + i * step
    decreases if step > 0 then stop - start else start - stop
  {
    var r := RangeSeq(start, stop, step);
    if r != [] {
      var tail := RangeSeq(start + step, stop, step);
      RangeElements(start + step, stop, step);
      forall i | 0 <= i < |r|
        ensures r[i] == start + i * step
      {
        if i > 0 {
          assert r[i] == tail[i - 1];
          assert (i - 1) * step + step == i * step;
        }
      }
    }
  }

  /** Every element of a range lies between start (included) and stop (excluded). */
  lemma {:induction false} RangeBounds(start: int, stop: int, step: int)
    requires step != 0
    ensures step > 0 ==> forall x <- RangeSeq(start, stop, step) :: start <= x < stop
    ensures step < 0 ==> forall x <- RangeSeq(start, stop, step) :: stop < x <= start
    decreases if step > 0 then stop - start else start - stop
  {
    var r := RangeSeq(start, stop, step);
    if r != [] {
      RangeBounds(start + step, stop, step);
      assert forall x <- r :: x == start || x in RangeSeq(start + step, stop, step);
    }
  }

  /** A range with a positive step is strictly increasing. */
  lemma {:induction false} RangeIncreasing(start: int, stop: int, step: int)
    requires step > 0
    ensures forall i, j :: 0 <= i < j < |RangeSeq(start, stop, step)| ==>
              RangeSeq(start, stop, step)[i] < RangeSeq(start, stop, step)[j]
    decreases stop - start
  {
    var r := RangeSeq(start, stop, step);
    if r != [] {
      var tail := RangeSeq(start + step, stop, step);
      RangeIncreasing(start + step, stop, step);
      RangeBounds(start + step, stop, step);
      forall i, j | 0 <= i < j < |r|
        ensures r[i] < r[j]
      {
        assert r[j] == tail[j - 1];
        if i > 0 {
          assert r[i] == tail[i - 1];
        } else {
          assert tail[j - 1] in tail;
        }
      }
    }
  }

  /** The remainder of a + step by step is that of a. */
  lemma ModShift(a: int, step: int)
    requires step > 0
    ensures (a + step) % step == a % step
  {
    var q, r := a / step, a % step;
    assert a + step == (q + 1) * step + r;
    var q', r' := (a + step) / step, (a + step) % step;
    assert (q + 1 - q') * step == r' - r;
    MultipleBelow(q + 1 - q', step, r' - r);
  }

  /** A multiple of step strictly between -step and step is zero. */
  lemma MultipleBelow(k: int, step: int, m: int)
    requires step > 0 && k * step == m && -step < m < step
    ensures k == 0 && m == 0
  {
    assert k * step == (k - 1) * step + step;
    assert k >= 1 ==> (k - 1) * step >= 0;
    assert k <= -1 ==> (-k - 1) * step >= 0;
  }

  /** A range with a positive step has ceil((stop - start) / step) elements, none
      when stop <= start: c elements with (c-1)*step < stop - start <= c*step. */
  lemma {:induction false} RangeCount(start: int, stop: int, step: int)
    requires step > 0
    ensures var c := |RangeSeq(start, stop, step)|;
            if start < stop then (c - 1) * step < stop - start <= c * step else c == 0
    decreases stop - start
  {
    if start < stop {
      var c := |RangeSeq(start, stop, step)|;
      RangeCount(start + step, stop, step);
      assert c * step == (c - 1) * step + step;
      assert (c - 1) * step == (c - 2) * step + step;
    }
  }

  /** For a positive step, x is in the range exactly when it lies in [start, stop)
      and is a whole number of steps from start. */
  lemma {:induction false} RangeMembers(start: int, stop: int, step: int, x: int)
    requires step > 0
    ensures x in RangeSeq(start, stop, step) <==> start <= x < stop && (x - start) % step == 0
    decreases stop - start
  {
    if start < stop {
      RangeMembers(start + step, stop, step, x);
      ModShift(x - (start + step), step);
      if x < start + step && start < x {
        assert 0 < x - start < step;
      }
    }
  }

  // ---------------------------------------------------------------------
  // numpy.linspace and indexing

  /** `np.linspace(0, stop, n, endpoint=False)`: n values from 0 in steps of stop/n. */
  function Linspace(stop: real, n: nat): (fs: seq<real>)
    ensures |fs| == n
  {
    seq(n, k requires 0 <= k < n => (k as real) * (stop / (n as real)))
  }

  /** The values start at 0, are evenly spaced by stop/n, and for a positive stop stay in [0, stop). */
  lemma LinspaceSpacing(stop: real, n: nat)
    ensures n > 0 ==> Linspace(stop, n)[0] == 0.0
    ensures forall k :: 0 <= k < n - 1 ==>
              Linspace(stop, n)[k + 1] - Linspace(stop, n)[k] == stop / (n as real)
    ensures stop > 0.0 ==> forall f <- Linspace(stop, n) :: 0.0 <= f < stop
  {
    var fs := Linspace(stop, n);
    if n > 0 {
      forall k | 0 <= k < n - 1
        ensures fs[k + 1] - fs[k] == stop / (n as real)
      {
        NextMultiple(k, n, stop);
      }
      if stop > 0.0 {
        forall k | 0 <= k < n
          ensures 0.0 <= fs[k] < stop
        {
          ScaledBelow(k, n, stop);
        }
      }
    }
  }

  lemma NextMultiple(k: nat, n: nat, stop: real)
    requires n > 0
    ensures ((k + 1) as real) * (stop / (n as real)) - (k as real) * (stop / (n as real)) == stop / (n as real)
  {
    var step := stop / (n as real);
    assert ((k + 1) as real) * step == (k as real) * step + step;
  }

  /** k steps of stop/n, for k < n, stay in [0, stop). */
  lemma ScaledBelow(k: nat, n: nat, stop: real)
    requires k < n && stop > 0.0
    ensures 0.0 <= (k as real) * (stop / (n as real)) < stop
  {
    var step := stop / (n as real);
    assert step > 0.0;
    assert (n as real) * step == stop;
    assert stop - (k as real) * step == ((n - k) as real) * step;
    assert ((n - k) as real) * step >= step;
  }

  /** The position a Python index names in a sequence of length n: negative indices count from the end. */
  function Wrap(i: int, n: nat): int
  {
    if i < 0 then i + n else i
  }

  /** `xs[i]` for an integer i: an IndexError unless -len(xs) <= i < len(xs). */
  function PyIndex<T>(xs: seq<T>, i: int): (r: Result<T>)
    ensures r.Ok? <==> -|xs| <= i < |xs|
    ensures r.Err? ==> r.error == IndexError
    ensures r.Ok? ==> 0 <= Wrap(i, |xs|) < |xs| && r.value == xs[Wrap(i, |xs|)]
  {
    if -|xs| <= i < |xs| then Ok(xs[Wrap(i, |xs|)]) else Err(IndexError)
  }

  /** `xs[idx]` for an array xs and a sequence of integer indices: one entry
      per index, an IndexError if any index is out of bounds. */
  function Take<T>(xs: seq<T>, idx: seq<int>): (r: Result<seq<T>>)
    ensures r.Ok? <==> forall i <- idx :: -|xs| <= i < |xs|
    ensures r.Err? ==> r.error == IndexError
    ensures r.Ok? ==> |r.value| == |idx|
  {
    if idx == [] then Ok([])
    else
      assert idx[0] in idx && forall i <- idx[1..] :: i in idx;
      var first :- PyIndex(xs, idx[0]);
      var rest :- Take(xs, idx[1..]);
      assert forall i <- idx :: i == idx[0] || i in idx[1..];
      Ok([first] + rest)
  }

  /** Entry k of `xs[idx]` is `xs[idx[k]]`. */
  lemma {:induction false} TakeAt<T>(xs: seq<T>, idx: seq<int>, k: nat)
    requires Take(xs, idx).Ok? && k < |idx|
    ensures PyIndex(xs, idx[k]) == Ok(Take(xs, idx).value[k])
  {
    assert idx[0] in idx;
    if k > 0 {
      TakeAt(xs, idx[1..], k - 1);
    }
  }

  // ---------------------------------------------------------------------
  // The sweep plan

  /** `n_bins`, `if_freqs`, `test_bins` and `if_test_freqs`. */
  datatype Plan = Plan(nBins: nat, ifFreqs: seq<real>, testBins: seq<int>, ifTestFreqs: seq<real>)

  /** `2**addr_width * len(spec_brams[0])`: words per block times blocks per spectrum. */
  function NBins(addrWidth: nat, specBlocks: seq<string>): (n: nat)
    ensures n >= |specBlocks|
    ensures n == 0 <==> |specBlocks| == 0
  {
    Pow2(addrWidth) * |specBlocks|
  }

  /** The four derived quantities, computed in the source's order: the range
      rejects a zero step, and indexing the frequencies rejects a test bin
      outside them (only possible for a negative step and no bins). */
  function MakePlan(specBlocks: seq<string>, addrWidth: nat, bandwidth: real, binStep: int): (r: Result<Plan>)
    ensures r.Ok? <==> binStep > 0 || (binStep < 0 && NBins(addrWidth, specBlocks) > 0)
    ensures r.Err? && binStep == 0 ==> r.error.ValueError?
    ensures r.Err? && binStep != 0 ==> r.error == IndexError
    ensures r.Ok? ==> r.value.nBins == NBins(addrWidth, specBlocks)
  {
    var n := NBins(addrWidth, specBlocks);
    var freqs := Linspace(bandwidth, n);
    var bins :- PyRange(1, n, binStep);
    RangeBounds(1, n, binStep);
    assert binStep < 0 && n == 0 ==> bins[0] == 1;
    var testFreqs :- Take(freqs, bins);
    Ok(Plan(n, freqs, bins, testFreqs))
  }

  /** With a positive step the test bins are 1, 1+step, 1+2*step, ...: strictly
      increasing, below n_bins, never bin 0, and each a valid index of if_freqs. */
  lemma PlanTestBins(specBlocks: seq<string>, addrWidth: nat, bandwidth: real, binStep: int)
    requires binStep > 0
    ensures MakePlan(specBlocks, addrWidth, bandwidth, binStep).Ok?
    ensures var p := MakePlan(specBlocks, addrWidth, bandwidth, binStep).value;
            && (forall i :: 0 <= i < |p.testBins| ==> p.testBins[i] == 1 + i * binStep)
            && (forall i, j :: 0 <= i < j < |p.testBins| ==> p.testBins[i] < p.testBins[j])
            && (forall b <- p.testBins :: 1 <= b < p.nBins == |p.ifFreqs|)
            && 0 !in p.testBins
  {
    var n := NBins(addrWidth, specBlocks);
    RangeElements(1, n, binStep);
    RangeIncreasing(1, n, binStep);
    RangeBounds(1, n, binStep);
  }

  /** The test bins are exactly the bins in [1, n_bins) a whole number of steps above bin 1. */
  lemma PlanTestBinMembers(specBlocks: seq<string>, addrWidth: nat, bandwidth: real, binStep: int, b: int)
    requires binStep > 0
    ensures MakePlan(specBlocks, addrWidth, bandwidth, binStep).Ok?
    ensures var p := MakePlan(specBlocks, addrWidth, bandwidth, binStep).value;
            b in p.testBins <==> 1 <= b < p.nBins && (b - 1) % binStep == 0
  {
    RangeMembers(1, NBins(addrWidth, specBlocks), binStep, b);
  }

  /** There are ceil((n_bins - 1) / step) test bins (none when n_bins <= 1): their
      count c satisfies (c-1)*step < n_bins - 1 <= c*step. */
  lemma PlanTestBinCount(specBlocks: seq<string>, addrWidth: nat, bandwidth: real, binStep: int)
    requires binStep > 0
    ensures MakePlan(specBlocks, addrWidth, bandwidth, binStep).Ok?
    ensures var p := MakePlan(specBlocks, addrWidth, bandwidth, binStep).value;
            var c := |p.testBins|;
            if p.nBins >= 1 then (c - 1) * binStep < p.nBins - 1 <= c * binStep else c == 0
  {
    RangeCount(1, NBins(addrWidth, specBlocks), binStep);
  }

  /** if_test_freqs has one entry per test bin, and entry i is the IF frequency of test bin i. */
  lemma PlanTestFreqs(specBlocks: seq<string>, addrWidth: nat, bandwidth: real, binStep: int)
    requires MakePlan(specBlocks, addrWidth, bandwidth, binStep).Ok?
    ensures var p := MakePlan(specBlocks, addrWidth, bandwidth, binStep).value;
            && |p.ifTestFreqs| == |p.testBins|
            && forall i :: 0 <= i < |p.testBins| ==>
                 0 <= p.testBins[i] < |p.ifFreqs| && p.ifTestFreqs[i] == p.ifFreqs[p.testBins[i]]
  {
    var p := MakePlan(specBlocks, addrWidth, bandwidth, binStep).value;
    var n := NBins(addrWidth, specBlocks);
    RangeBounds(1, n, binStep);
    forall i | 0 <= i < |p.testBins|
      ensures 0 <= p.testBins[i] < |p.ifFreqs| && p.ifTestFreqs[i] == p.ifFreqs[p.testBins[i]]
    {
      assert p.testBins[i] in p.testBins;
      TakeAt(p.ifFreqs, p.testBins, i);
    }
  }

  /** `lo_freq + if_freqs/1e3`: the upper-sideband RF frequency (GHz) of every IF bin (MHz). */
  function RfFreqsUsb(loFreq: real, ifFreqs: seq<real>): (rf: seq<real>)
    ensures |rf| == |ifFreqs|
  {
    seq(|ifFreqs|, k requires 0 <= k < |ifFreqs| => loFreq + ifFreqs[k] / 1000.0)
  }

  /** `lo_freq - if_freqs/1e3`: the lower-sideband RF frequency (GHz) of every IF bin (MHz). */
  function RfFreqsLsb(loFreq: real, ifFreqs: seq<real>): (rf: seq<real>)
    ensures |rf| == |ifFreqs|
  {
    seq(|ifFreqs|, k requires 0 <= k < |ifFreqs| => loFreq - ifFreqs[k] / 1000.0)
  }

  /** The two sidebands mirror each other about the LO, and for a positive
      bandwidth the tone set at a test bin lies within one bandwidth of the
      LO: above it (at or past the LO) in the upper sideband, below it in the
      lower; the sweep's `rf_freqs[test_bin]` is always in bounds. */
  lemma PlanRfFreqs(specBlocks: seq<string>, addrWidth: nat, bandwidth: real, binStep: int, loFreq: real)
    requires MakePlan(specBlocks, addrWidth, bandwidth, binStep).Ok?
    ensures var p := MakePlan(specBlocks, addrWidth, bandwidth, binStep).value;
            var usb := RfFreqsUsb(loFreq, p.ifFreqs);
            var lsb := RfFreqsLsb(loFreq, p.ifFreqs);
            && |usb| == |lsb| == p.nBins
            && (forall k :: 0 <= k < p.nBins ==> usb[k] + lsb[k] == 2.0 * loFreq)
            && (forall b <- p.testBins :: 0 <= b < p.nBins)
            && (bandwidth > 0.0 ==>
                  forall b <- p.testBins ::
                    (0 <= b < p.nBins
                     && loFreq <= usb[b] < loFreq + bandwidth / 1000.0
                     && loFreq - bandwidth / 1000.0 < lsb[b] <= loFreq))
  {
    var p := MakePlan(specBlocks, addrWidth, bandwidth, binStep).value;
    RangeBounds(1, p.nBins, binStep);
    LinspaceSpacing(bandwidth, p.nBins);
    forall b <- p.testBins
      ensures 0 <= b < |p.ifFreqs|
    {
    }
    if bandwidth > 0.0 {
      forall b <- p.testBins
        ensures 0.0 <= p.ifFreqs[b] < bandwidth
      {
        assert p.ifFreqs[b] in p.ifFreqs;
      }
    }
  }

  /** A spectrum read from a block list with as many blocks as spec_brams[0],
      every block read at the configured address width, has n_bins words, so
      every test bin indexes it in bounds. */
  lemma PlanIndexesRead(specBlocks: seq<string>, addrWidth: nat, bandwidth: real, binStep: int,
                        raws: seq<seq<Byte>>, dataWidth: nat, dtype: DType, b: int)
    requires MakePlan(specBlocks, addrWidth, bandwidth, binStep).Ok?
    requires b in MakePlan(specBlocks, addrWidth, bandwidth, binStep).value.testBins
    requires |raws| == |specBlocks| > 0
    requires forall raw <- raws :: |raw| as real == RequestedBytes(addrWidth, dataWidth)
    requires dtype.Bits() == dataWidth
    ensures ReadInterleaveData(raws, dtype).Ok?
    ensures |ReadInterleaveData(raws, dtype).value| == MakePlan(specBlocks, addrWidth, bandwidth, binStep).value.nBins
    ensures PyIndex(ReadInterleaveData(raws, dtype).value, b).Ok?
  {
    ReadInterleaveDataLength(raws, addrWidth, dataWidth, dtype);
    RangeBounds(1, NBins(addrWidth, specBlocks), binStep);
  }
}
