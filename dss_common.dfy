/** The derived quantities of the multiband receiver's sideband-separation
    experiments: the sweep plan, the names of the block lists each
    experiment reads or writes, and the dtype strings of the power and
    correlation spectra. */
module MbrCommon {
  import opened Outcomes
  import opened Digits
  import opened NumpyBuffers
  import opened Calandigital
  import opened Bins

  /** The configuration entries the derived quantities are computed from.
      Each block list names the memory blocks one spectrum is interleaved
      from; the constant lists hold a (real, imaginary) pair of block lists
      per sideband. */
  datatype Config = Config(
    specBrams: seq<seq<string>>,
    corrBrams: seq<seq<string>>,
    synthBrams: seq<seq<string>>,
    constBrams: seq<seq<seq<string>>>,
    addrWidth: nat,
    dataWidth: int,
    bandwidth: real,
    binStep: int)

  datatype Derived = Derived(
    plan: Plan,
    a2: seq<string>, b2: seq<string>,
    abRe: seq<string>, abIm: seq<string>,
    usb: seq<string>, lsb: seq<string>,
    cusbRe: seq<string>, cusbIm: seq<string>,
    clsbRe: seq<string>, clsbIm: seq<string>,
    powDType: string, corrDType: string)

  // ---------------------------------------------------------------------
  // dtype strings

  function DecimalDigit(d: nat): char
    requires d < 10
  {
    "0123456789"[d]
  }

  function NatString(k: nat): (s: string)
    ensures |s| >= 1
    ensures |s| == 1 <==> k < 10
    decreases k
  {
    if k < 10 then [DecimalDigit(k)] else NatString(k / 10) + [DecimalDigit(k % 10)]
  }

  /** `str(k)` for an integer k. */
  function IntString(k: int): (s: string)
    ensures |s| == 1 <==> 0 <= k < 10
  {
    if k < 0 then "-" + NatString(-k) else NatString(k)
  }

  /** `">u" + str(data_width//8)`; Python's floor division by the positive 8 is Dafny's `/`. */
  function PowDType(dataWidth: int): (s: string)
    ensures |s| >= 2 && s[..2] == ">u"
    ensures |s| == 3 <==> 0 <= dataWidth / 8 < 10
  {
    ">u" + IntString(dataWidth / 8)
  }

  /** `">i" + str(data_width//8)`. */
  function CorrDType(dataWidth: int): (s: string)
    ensures |s| >= 2 && s[..2] == ">i"
    ensures |s| == 3 <==> 0 <= dataWidth / 8 < 10
  {
    ">i" + IntString(dataWidth / 8)
  }

  /** The power dtype string names a numpy dtype exactly when data_width//8 is
      1, 2, 4 or 8, and that dtype is big-endian and unsigned with data_width//8
      bytes per item, so a data_width that is a multiple of 8 is its bit width. */
  lemma PowDTypeParses(dataWidth: int)
    ensures ParseDType(PowDType(dataWidth)).Ok? <==> dataWidth / 8 in {1, 2, 4, 8}
    ensures ParseDType(PowDType(dataWidth)).Ok? ==>
              var dt := ParseDType(PowDType(dataWidth)).value;
              && dt.order == BigEndian && dt.kind == Unsigned
              && dt.ItemBytes() == dataWidth / 8
              && (dataWidth % 8 == 0 ==> dt.Bits() == dataWidth)
  {
    DTypeStringDigit(">u", dataWidth / 8);
  }

  /** The correlation dtype string names a numpy dtype exactly when
      data_width//8 is 1, 2, 4 or 8, and that dtype is big-endian and signed
      with data_width//8 bytes per item. */
  lemma CorrDTypeParses(dataWidth: int)
    ensures ParseDType(CorrDType(dataWidth)).Ok? <==> dataWidth / 8 in {1, 2, 4, 8}
    ensures ParseDType(CorrDType(dataWidth)).Ok? ==>
              var dt := ParseDType(CorrDType(dataWidth)).value;
              && dt.order == BigEndian && dt.kind == Signed
              && dt.ItemBytes() == dataWidth / 8
              && (dataWidth % 8 == 0 ==> dt.Bits() == dataWidth)
  {
    DTypeStringDigit(">i", dataWidth / 8);
  }

  /** A data_width whose byte count is not 1, 2, 4 or 8 (128, say) makes every
      block read with the power or correlation dtype a TypeError. */
  lemma WideDataWidthRejected(raw: seq<Byte>, dataWidth: int)
    requires dataWidth / 8 !in {1, 2, 4, 8}
    ensures ReadDataAs(raw, PowDType(dataWidth)).Err? && ReadDataAs(raw, PowDType(dataWidth)).error.TypeError?
    ensures ReadDataAs(raw, CorrDType(dataWidth)).Err? && ReadDataAs(raw, CorrDType(dataWidth)).error.TypeError?
  {
    PowDTypeParses(dataWidth);
    CorrDTypeParses(dataWidth);
  }

  lemma DTypeStringDigit(prefix: string, k: int)
    requires |prefix| == 2
    ensures |prefix + IntString(k)| == 3 <==> 0 <= k < 10
    ensures 0 <= k < 10 ==> (prefix + IntString(k))[2] == DecimalDigit(k)
    ensures 0 <= k < 10 ==> (DecimalDigit(k) in {'1', '2', '4', '8'} <==> k in {1, 2, 4, 8})
  {
  }

  // ---------------------------------------------------------------------
  // Derivation

  /** Whether the sweep plan can be computed from the bins of `specBlocks`. */
  predicate PlanComputable(specBlocks: seq<string>, c: Config)
  {
    c.binStep > 0 || (c.binStep < 0 && NBins(c.addrWidth, specBlocks) > 0)
  }

  /** The derived quantities, in the order the module computes them: any
      missing block list is an IndexError, a zero bin step a ValueError. */
  function Derive(c: Config): (r: Result<Derived>)
    ensures r.Ok? <==> && |c.specBrams| >= 2 && PlanComputable(c.specBrams[0], c)
                       && |c.corrBrams| >= 2 && |c.synthBrams| >= 2
                       && |c.constBrams| >= 2 && |c.constBrams[0]| >= 2 && |c.constBrams[1]| >= 2
    ensures r.Err? ==> (r.error.ValueError? <==> |c.specBrams| >= 1 && c.binStep == 0)
    ensures r.Err? && !r.error.ValueError? ==> r.error == IndexError
    ensures r.Ok? ==> var d := r.value;
              && d.plan == MakePlan(c.specBrams[0], c.addrWidth, c.bandwidth, c.binStep).value
              && d.a2 == c.specBrams[0] && d.b2 == c.specBrams[1]
              && d.abRe == c.corrBrams[0] && d.abIm == c.corrBrams[1]
              && d.usb == c.synthBrams[0] && d.lsb == c.synthBrams[1]
              && d.cusbRe == c.constBrams[0][0] && d.cusbIm == c.constBrams[0][1]
              && d.clsbRe == c.constBrams[1][0] && d.clsbIm == c.constBrams[1][1]
              && d.powDType == PowDType(c.dataWidth) && d.corrDType == CorrDType(c.dataWidth)
  {
    var a2 :- PyIndex(c.specBrams, 0);
    var plan :- MakePlan(a2, c.addrWidth, c.bandwidth, c.binStep);
    var b2 :- PyIndex(c.specBrams, 1);
    var abRe :- PyIndex(c.corrBrams, 0);
    var abIm :- PyIndex(c.corrBrams, 1);
    var usb :- PyIndex(c.synthBrams, 0);
    var lsb :- PyIndex(c.synthBrams, 1);
    var cusb :- PyIndex(c.constBrams, 0);
    var cusbRe :- PyIndex(cusb, 0);
    var cusbIm :- PyIndex(cusb, 1);
    var clsb :- PyIndex(c.constBrams, 1);
    var clsbRe :- PyIndex(clsb, 0);
    var clsbIm :- PyIndex(clsb, 1);
    Ok(Derived(plan, a2, b2, abRe, abIm, usb, lsb, cusbRe, cusbIm, clsbRe, clsbIm,
               PowDType(c.dataWidth), CorrDType(c.dataWidth)))
  }

  /** n_bins is 2^addr_width times the number of blocks in spec_brams[0], which
      is the length of the interleaved read of spec_brams[0]; every test bin
      indexes that read in bounds. */
  lemma SpectrumBins(c: Config, raws: seq<seq<Byte>>, dtype: DType, b: int)
    requires Derive(c).Ok? && b in Derive(c).value.plan.testBins
    requires |raws| == |Derive(c).value.a2| > 0
    requires c.dataWidth >= 0 && dtype.Bits() == c.dataWidth
    requires forall raw <- raws :: |raw| as real == RequestedBytes(c.addrWidth, c.dataWidth)
    ensures Derive(c).value.plan.nBins == Pow2(c.addrWidth) * |c.specBrams[0]|
    ensures ReadInterleaveData(raws, dtype).Ok?
    ensures |ReadInterleaveData(raws, dtype).value| == Derive(c).value.plan.nBins
    ensures PyIndex(ReadInterleaveData(raws, dtype).value, b).Ok?
  {
    PlanIndexesRead(c.specBrams[0], c.addrWidth, c.bandwidth, c.binStep, raws, c.dataWidth, dtype, b);
  }

  /** The sideband sweep reads `bram_usb` (j = 0) and `bram_lsb` (j = 1) and
      indexes both at every test bin; that stays in bounds when the block list
      has as many blocks as spec_brams[0], which nothing checks. */
  lemma SynthBins(c: Config, j: nat, raws: seq<seq<Byte>>, dtype: DType, b: int)
    requires Derive(c).Ok? && b in Derive(c).value.plan.testBins && j < 2
    requires |c.synthBrams[j]| == |c.specBrams[0]| > 0 && |raws| == |c.synthBrams[j]|
    requires c.dataWidth >= 0 && dtype.Bits() == c.dataWidth
    requires forall raw <- raws :: |raw| as real == RequestedBytes(c.addrWidth, c.dataWidth)
    ensures ReadInterleaveData(raws, dtype).Ok?
    ensures PyIndex(ReadInterleaveData(raws, dtype).value, b).Ok?
  {
    PlanIndexesRead(c.specBrams[0], c.addrWidth, c.bandwidth, c.binStep, raws, c.dataWidth, dtype, b);
  }

  /** Without that equal count the lookup fails: two spectrum blocks but one
      synthesis block, one word per block, give n_bins = 2 and test bin 1,
      but the upper-sideband read has one word, so `usb[1]` raises IndexError. */
  lemma SynthBinsShortRead()
    ensures var c := Config([["a2_0", "a2_1"], ["b2_0", "b2_1"]], [["re"], ["im"]], [["usb"], ["lsb"]],
                            [[["cusb_re"], ["cusb_im"]], [["clsb_re"], ["clsb_im"]]], 0, 8, 1000.0, 1);
            var usbRaws := [[7]];
            var dtype := DType(BigEndian, Unsigned, Size1);
            && Derive(c).Ok? && Derive(c).value.plan.testBins == [1]
            && |Derive(c).value.usb| == |usbRaws|
            && ReadInterleaveData(usbRaws, dtype) == Ok([7])
            && PyIndex(ReadInterleaveData(usbRaws, dtype).value, 1) == Err(IndexError)
  {
    var c := Config([["a2_0", "a2_1"], ["b2_0", "b2_1"]], [["re"], ["im"]], [["usb"], ["lsb"]],
                    [[["cusb_re"], ["cusb_im"]], [["clsb_re"], ["clsb_im"]]], 0, 8, 1000.0, 1);
    var spec0 := c.specBrams[0];
    assert NBins(0, spec0) == 2;
    assert Derive(c).Ok?;
    PlanTestBins(spec0, 0, 1000.0, 1);
    PlanTestBinCount(spec0, 0, 1000.0, 1);
    var bins := Derive(c).value.plan.testBins;
    assert |bins| == 1 && bins[0] == 1;
    assert bins == [1];
    var dtype := DType(BigEndian, Unsigned, Size1);
    var word := [7];
    assert Items(word, dtype) == [7];
    assert ReadData(word, dtype) == Ok([7]);
    assert ReadAll([word], dtype).Ok?;
    var blocks := ReadAll([word], dtype).value;
    assert ReadData([word][0], dtype) == Ok(blocks[0]);
    assert blocks == [[7]];
    InterleaveSingle([7]);
  }
}
