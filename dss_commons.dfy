/** The derived quantities of the digital sideband-separation bitfiles'
    calibration and SRR scripts: the full-scale level, the sweep plan and
    the names of the four block lists the calibration sweep reads. */
module DssCommons {
  import opened Outcomes
  import opened Digits
  import opened NumpyBuffers
  import opened Calandigital
  import opened Bins

  /** The full-scale power level in dB that spectra are referred to. */
  const DBFS: int := 96

  /** The configuration entries the derived quantities are computed from. */
  datatype Config = Config(
    specBrams: seq<seq<string>>,
    corrBrams: seq<seq<string>>,
    addrWidth: nat,
    bandwidth: real,
    binStep: int)

  datatype Derived = Derived(
    plan: Plan,
    a2: seq<string>, b2: seq<string>,
    abRe: seq<string>, abIm: seq<string>)

  /** The derived quantities, in the order the module computes them: a missing
      block list is an IndexError, a zero bin step a ValueError. */
  function Derive(c: Config): (r: Result<Derived>)
    ensures r.Ok? <==> && |c.specBrams| >= 2 && |c.corrBrams| >= 2
                       && (c.binStep > 0 || (c.binStep < 0 && NBins(c.addrWidth, c.specBrams[0]) > 0))
    ensures r.Err? ==> (r.error.ValueError? <==> |c.specBrams| >= 1 && c.binStep == 0)
    ensures r.Err? && !r.error.ValueError? ==> r.error == IndexError
    ensures r.Ok? ==> var d := r.value;
              && d.plan == MakePlan(c.specBrams[0], c.addrWidth, c.bandwidth, c.binStep).value
              && d.plan.nBins == Pow2(c.addrWidth) * |c.specBrams[0]|
              && d.a2 == c.specBrams[0] && d.b2 == c.specBrams[1]
              && d.abRe == c.corrBrams[0] && d.abIm == c.corrBrams[1]
  {
    var a2 :- PyIndex(c.specBrams, 0);
    var plan :- MakePlan(a2, c.addrWidth, c.bandwidth, c.binStep);
    var b2 :- PyIndex(c.specBrams, 1);
    var abRe :- PyIndex(c.corrBrams, 0);
    var abIm :- PyIndex(c.corrBrams, 1);
    Ok(Derived(plan, a2, b2, abRe, abIm))
  }

  /** Whether the four spectra the calibration sweep reads at a test bin hold
      as many blocks as spec_brams[0]. */
  predicate EqualBlockCounts(d: Derived)
  {
    |d.b2| == |d.a2| && |d.abRe| == |d.a2| && |d.abIm| == |d.a2|
  }

  /** Every block supplies the bytes `read_data` asks for at this address and data width. */
  predicate BlocksRead(raws: seq<seq<Byte>>, addrWidth: nat, dataWidth: nat)
  {
    forall raw <- raws :: |raw| as real == RequestedBytes(addrWidth, dataWidth)
  }

  /** The calibration sweep reads `bram_a2`, `bram_b2` (as powers) and
      `bram_ab_re`, `bram_ab_im` (as correlations) and indexes each at every
      test bin. When all four block lists have as many blocks as
      spec_brams[0], every block read at the configured address width, each
      read has n_bins words and every index is in bounds. */
  lemma CalibrationBins(c: Config, dataWidth: nat, a2Raws: seq<seq<Byte>>, b2Raws: seq<seq<Byte>>,
                        reRaws: seq<seq<Byte>>, imRaws: seq<seq<Byte>>,
                        powDType: DType, corrDType: DType, b: int)
    requires Derive(c).Ok? && b in Derive(c).value.plan.testBins && |c.specBrams[0]| > 0
    requires EqualBlockCounts(Derive(c).value)
    requires |a2Raws| == |c.specBrams[0]| && |b2Raws| == |c.specBrams[1]|
    requires |reRaws| == |c.corrBrams[0]| && |imRaws| == |c.corrBrams[1]|
    requires powDType.Bits() == dataWidth && corrDType.Bits() == dataWidth
    requires BlocksRead(a2Raws, c.addrWidth, dataWidth) && BlocksRead(b2Raws, c.addrWidth, dataWidth)
    requires BlocksRead(reRaws, c.addrWidth, dataWidth) && BlocksRead(imRaws, c.addrWidth, dataWidth)
    ensures ReadInterleaveData(a2Raws, powDType).Ok? && PyIndex(ReadInterleaveData(a2Raws, powDType).value, b).Ok?
    ensures ReadInterleaveData(b2Raws, powDType).Ok? && PyIndex(ReadInterleaveData(b2Raws, powDType).value, b).Ok?
    ensures ReadInterleaveData(reRaws, corrDType).Ok? && PyIndex(ReadInterleaveData(reRaws, corrDType).value, b).Ok?
    ensures ReadInterleaveData(imRaws, corrDType).Ok? && PyIndex(ReadInterleaveData(imRaws, corrDType).value, b).Ok?
  {
    SweepRead(c, dataWidth, a2Raws, powDType, b);
    SweepRead(c, dataWidth, b2Raws, powDType, b);
    SweepRead(c, dataWidth, reRaws, corrDType, b);
    SweepRead(c, dataWidth, imRaws, corrDType, b);
  }

  lemma SweepRead(c: Config, dataWidth: nat, raws: seq<seq<Byte>>, dtype: DType, b: int)
    requires Derive(c).Ok? && b in Derive(c).value.plan.testBins
    requires |raws| == |c.specBrams[0]| > 0 && dtype.Bits() == dataWidth
    requires BlocksRead(raws, c.addrWidth, dataWidth)
    ensures ReadInterleaveData(raws, dtype).Ok?
    ensures PyIndex(ReadInterleaveData(raws, dtype).value, b).Ok?
  {
    PlanIndexesRead(c.specBrams[0], c.addrWidth, c.bandwidth, c.binStep, raws, dataWidth, dtype, b);
  }

  /** Without the equal counts the sweep fails: two a2 blocks but one b2
      block, one word per block, give n_bins = 2 and test bin 1, but the b2
      read has one word, so `b2[1]` raises IndexError. */
  lemma CalibrationShortRead()
    ensures var c := Config([["a2_0", "a2_1"], ["b2_0"]], [["re_0", "re_1"], ["im_0", "im_1"]], 0, 1000.0, 1);
            var b2Raws := [[7]];
            var dtype := DType(BigEndian, Unsigned, Size1);
            && Derive(c).Ok? && Derive(c).value.plan.testBins == [1]
            && !EqualBlockCounts(Derive(c).value)
            && |Derive(c).value.b2| == |b2Raws|
            && ReadInterleaveData(b2Raws, dtype) == Ok([7])
            && PyIndex(ReadInterleaveData(b2Raws, dtype).value, 1) == Err(IndexError)
  {
    var c := Config([["a2_0", "a2_1"], ["b2_0"]], [["re_0", "re_1"], ["im_0", "im_1"]], 0, 1000.0, 1);
    var spec0 := c.specBrams[0];
    assert NBins(0, spec0) == 2;
    assert Derive(c).Ok?;
    PlanTestBins(spec0, 0, 1000.0, 1);
    PlanTestBinCount(spec0, 0, 1000.0, 1);
    var bins := Derive(c).value.plan.testBins;
    assert |bins| == 1 && bins[0] == 1;
    assert bins == [1];
    var dtype := DType(BigEndian, Unsigned, Size1);
    var word := [7];
    assert Items(word, dtype) == [7];
    assert ReadData(word, dtype) == Ok([7]);
    assert ReadAll([word], dtype).Ok?;
    var blocks := ReadAll([word], dtype).value;
    assert ReadData([word][0], dtype) == Ok(blocks[0]);
    assert blocks == [[7]];
    InterleaveSingle([7]);
  }
}
