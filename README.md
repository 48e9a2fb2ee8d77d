# BRAM decoding and sweep-bin arithmetic of the RFSoC receiver scripts

The receiver scripts read spectra out of the FPGA's memory blocks (BRAMs)
and sweep a test tone across a subset of the spectrum's bins. This project
models the part of that code that is plain data manipulation, and proves
properties of the model:

- `calandigital.py`:
  - `read_data` reads the bytes of one block as fixed-width words. It uses `numpy.frombuffer` with a dtype such as `">u4"` or `">i8"`.
  - `read_interleave_data` reads several blocks and merges them: `np.vstack` followed by a column-major `reshape`.
  - `read_snapshots` turns each packed 128-bit snapshot word into 16 little-endian bytes. It reads those bytes back as `np.int16` samples.
- `Multiband-Receiver/MBR_experiment/dss_common.py`, lines 38-55, and its copy `Digital_Sideband_Separation/bitfiles/dss_commons.py`, lines 31-41. Both compute the same derived quantities:
  - `n_bins`, `if_freqs`, the strided `test_bins` and `if_test_freqs`;
  - the RF frequency tables;
  - the block lists each sweep reads;
  - in the multiband copy, the power and correlation dtype strings.

Modules:

- `Outcomes` (outcomes.dfy) stands in for Python exceptions: `Result` and `PyError` (`ValueError`, `IndexError`, `OverflowError`, `TypeError`, and `MissingSnapshot`, the lookup failure for a snapshot the board does not have).
- `Digits` (digits.dfy) covers base-256 digit strings in both byte orders and two's complement.
- `NumpyBuffers` (numpy_buffers.dfy) covers the slice of numpy the decoding relies on:
  - integer dtypes and their strings;
  - `frombuffer`;
  - `tobytes`, written as `ToBuffer`.
- `Calandigital` (calandigital.dfy) holds the three readers.
- `Bins` (bins.dfy) covers `range`, `linspace`, integer and fancy indexing, and the sweep plan (`MakePlan`).
- `MbrCommon` (dss_common.dfy) and `DssCommons` (dss_commons.dfy) hold the two modules' derived quantities.
  - They also state the in-bounds conditions of the sweeps' `a2[test_bin]` and `usb[test_bin]` lookups.
  - For each, a concrete counterexample shows the lookup failing when a block list is shorter than `spec_brams[0]`. The source never checks this.

What the hardware returns becomes a parameter:

- A block read is the byte sequence `rfsoc.read` returned.
- A snapshot read is a map from snapshot object name (`name + "_ss"`) to the packed words it returned.

`read_snapshots` is a loop that appends to a list, so it is a method with a loop invariant. The rest of the core is straight-line expressions, so it is modelled as functions and lemmas.

`rfsoc.read(bram, depth*dwidth/8, 0)` takes a byte count and an offset; the model follows it (`Calandigital.RequestedBytes`).

## Model

| member | source | states |
|---|---|---|
| Digits.LeValueOfBytes | calandigital.py:27 | writing v < 2^(8n) as n little-endian bytes and reading them back gives v |
| Digits.LeBytesOfValue | calandigital.py:27 | reading a little-endian byte group and writing the value back gives the same bytes |
| Digits.LeValueBound | calandigital.py:27 | an n-byte little-endian group holds a value below 2^(8n) |
| Digits.BeValueOfBytes | calandigital.py:47 | writing v < 2^(8n) as n big-endian bytes and reading them back gives v |
| Digits.BeBytesOfValue | calandigital.py:47 | reading a big-endian byte group and writing the value back gives the same bytes |
| Digits.BeValueBound | calandigital.py:47 | an n-byte big-endian group holds a value below 2^(8n) |
| Digits.SignedOfPattern | calandigital.py:47 | the signed reading of a bits-wide pattern is in [-2^(bits-1), 2^(bits-1)) and maps back to the same pattern |
| Digits.PatternOfSigned | calandigital.py:27 | the two's-complement pattern of an in-range value is in [0, 2^bits) and reads back as the value |
| Digits.LeBytesPair | calandigital.py:27-29 | little-endian bytes 2k and 2k+1 of v are bits 16k..16k+15 of v |
| NumpyBuffers.ParseDType | calandigital.py:47 | a dtype string that parses is the string of the parsed dtype; anything else is a TypeError |
| NumpyBuffers.ParseDTypeString | calandigital.py:47 | every integer dtype's string parses back to that dtype |
| NumpyBuffers.DecodeItemHolds | calandigital.py:47 | a decoded item is in range: [0, 2^bits) unsigned, [-2^(bits-1), 2^(bits-1)) signed |
| NumpyBuffers.DecodeEncodeItem | calandigital.py:47 | decoding the bytes written for an in-range value gives the value |
| NumpyBuffers.EncodeDecodeItem | calandigital.py:47 | encoding a decoded item gives back the same byte group |
| NumpyBuffers.FromBuffer | calandigital.py:47 | `frombuffer` succeeds exactly when the length is a multiple of the item size, and then returns length/itemsize items; otherwise it is a ValueError |
| NumpyBuffers.ItemsLength | calandigital.py:47 | a buffer of whole items holds length/itemsize items |
| NumpyBuffers.ItemsAt | calandigital.py:47 | item i is the value stored in bytes i*n .. (i+1)*n-1 |
| NumpyBuffers.ItemsHold | calandigital.py:47 | every item read is in the dtype's range |
| NumpyBuffers.FromToBuffer | calandigital.py:47 | reading the bytes written for in-range values gives those values back |
| NumpyBuffers.ToFromBuffer | calandigital.py:47 | writing back the items read from a buffer gives the same bytes |
| NumpyBuffers.ToBufferLength | calandigital.py:47 | n values take n*itemsize bytes |
| Calandigital.Depth | calandigital.py:45 | a block has at least one word |
| Calandigital.RequestedBytes | calandigital.py:46 | the requested byte count is never negative, and for a dwidth that is a multiple of 8 it is the whole number 2^awidth·(dwidth/8) |
| Calandigital.ReadData | calandigital.py:35-50 | succeeds exactly when the bytes are whole items; returns length/itemsize words, each in the dtype's range |
| Calandigital.ReadDataLength | calandigital.py:45-47 | a block supplying 2^awidth·dwidth/8 bytes, read with a dwidth-bit dtype, gives exactly 2^awidth words |
| Calandigital.ReadDataWord | calandigital.py:47 | word i is the big-endian unsigned (">u") or two's-complement (">i") value of its byte group, and likewise for little-endian dtypes |
| Calandigital.ReadDataAs | calandigital.py:47 | with the dtype given as a string: succeeds exactly when the string names a dtype and the bytes are whole items of it, each word in that dtype's range; a string numpy does not understand is a TypeError whatever the bytes |
| Calandigital.ReadDataAsString | calandigital.py:47 | passing a dtype's own string reads the block as that dtype |
| Calandigital.ReadDataOfStored | calandigital.py:47 | reading a block that stores some in-range words gives those words |
| Calandigital.Interleave | calandigital.py:66 | `vstack` + column-major `reshape`: a ValueError for no blocks or unequal lengths, otherwise m·depth words |
| Calandigital.ColumnMajorAt | calandigital.py:66 | entry i*m+j of the column-major flattening is word i of block j |
| Calandigital.InterleaveAt | calandigital.py:66 | with m blocks, `out[i*m + j] == blocks[j][i]` for every block j and word i |
| Calandigital.Deinterleave | calandigital.py:66 | every m-th element from j of the interleaved data is block j unchanged |
| Calandigital.InterleaveSingle | calandigital.py:66 | interleaving one block gives that block |
| Calandigital.ReadAll | calandigital.py:63 | the list of reads succeeds exactly when every block is whole items, has one entry per block, and entry j is block j's `read_data` |
| Calandigital.ReadInterleaveData | calandigital.py:52-68 | succeeds exactly when there is a block, every block is whole items and all blocks have equal byte length; every failure is a ValueError |
| Calandigital.ReadInterleaveDataAs | calandigital.py:63-66 | with the dtype given as a string: a known dtype reads as `ReadInterleaveData`; an unknown one fails, with TypeError exactly when there is a block to decode (no blocks is vstack's ValueError) |
| Calandigital.ReadInterleaveDataBlock | calandigital.py:63-66 | every m-th word of the whole interleaved read, starting at word j, is block j as `read_data` reads it; so word i of block j sits at index i·m + j |
| Calandigital.BlockLengths | calandigital.py:63-66 | block j's word count is its byte count / itemsize, and the decoded blocks have equal lengths exactly when the byte blocks do |
| Calandigital.ReadInterleaveDataLength | calandigital.py:63-66 | blocks each read at the same awidth stack well-formed and give len(brams)·2^awidth words |
| Calandigital.WordPattern | calandigital.py:27 | the 16 little-endian bytes of a word fitting in 128 bits read back, as a signed 128-bit value, to the word |
| Calandigital.WordBytes | calandigital.py:27 | `to_bytes(16, "little", signed=True)` is an OverflowError unless -2^127 <= d < 2^127, otherwise 16 bytes that read back to d |
| Calandigital.JoinWordBytes | calandigital.py:27 | the joined bytes are an OverflowError unless every word fits, otherwise 16 bytes per word |
| Calandigital.JoinWordBytesAt | calandigital.py:27 | byte t of word w sits at offset 16w+t of the joined bytes |
| Calandigital.SnapshotSamples | calandigital.py:27-29 | one snapshot's samples: an OverflowError unless every word fits, otherwise 8 samples per word |
| Calandigital.SnapshotWord | calandigital.py:27-29 | samples 8w..8w+7 are the int16 items of word w's bytes, so words keep their order |
| Calandigital.SnapshotWordAt | calandigital.py:27-29 | sample 8w+k is int16 item k of word w's bytes |
| Calandigital.Int16At | calandigital.py:29 | int16 item i is the signed value of byte 2i plus 256 times byte 2i+1 |
| Calandigital.SnapshotSampleBits | calandigital.py:27-29 | sample k of word w is the signed value of bits 16k..16k+15 of the word's 128-bit two's-complement pattern |
| Calandigital.SnapshotRoundTrip | calandigital.py:27-29 | reassembling the 8 samples of a word gives the word back |
| Calandigital.ReadSnapshots | calandigital.py:17-33 | succeeds exactly when every name's snapshot exists and fits, and then returns one array per name, in order, of 8·len(words) samples; otherwise it fails with the error of the first bad name (MissingSnapshot for a snapshot the board does not have, OverflowError for an oversized word) |
| Bins.PyRange | Multiband-Receiver/MBR_experiment/dss_common.py:40 | `range` is a ValueError exactly when the step is 0 |
| Bins.RangeElements | Multiband-Receiver/MBR_experiment/dss_common.py:40 | element i of `range(start, stop, step)` is start + i*step |
| Bins.RangeBounds | Multiband-Receiver/MBR_experiment/dss_common.py:40 | every element is in [start, stop) for a positive step and in (stop, start] for a negative one |
| Bins.RangeIncreasing | Multiband-Receiver/MBR_experiment/dss_common.py:40 | a range with a positive step is strictly increasing |
| Bins.RangeCount | Multiband-Receiver/MBR_experiment/dss_common.py:40 | a range with a positive step has ceil((stop-start)/step) elements: (c-1)·step < stop-start <= c·step, none when start >= stop |
| Bins.RangeMembers | Multiband-Receiver/MBR_experiment/dss_common.py:40 | x is in the range exactly when start <= x < stop and x-start is a multiple of the step |
| Bins.Linspace | Multiband-Receiver/MBR_experiment/dss_common.py:39 | `linspace(0, stop, n, endpoint=False)` has n values |
| Bins.LinspaceSpacing | Multiband-Receiver/MBR_experiment/dss_common.py:39 | the values start at 0, are spaced by stop/n, and stay in [0, stop) for a positive stop |
| Bins.PyIndex | Digital_Sideband_Separation/bitfiles/dss_calibrate.py:162 | `xs[i]` is in bounds exactly when -len <= i < len, picks the wrapped position, and is an IndexError otherwise |
| Bins.Take | Multiband-Receiver/MBR_experiment/dss_common.py:41 | indexing with a list of indices succeeds exactly when every index is in bounds, with one entry per index |
| Bins.TakeAt | Multiband-Receiver/MBR_experiment/dss_common.py:41 | entry k of `xs[idx]` is `xs[idx[k]]` |
| Bins.NBins | Multiband-Receiver/MBR_experiment/dss_common.py:38 | there is at least one bin per block of spec_brams[0], and no bins exactly when spec_brams[0] is empty |
| Bins.MakePlan | Multiband-Receiver/MBR_experiment/dss_common.py:38-41 | the plan exists exactly for a positive step, or a negative step with some bins; a zero step is a ValueError, otherwise an IndexError; n_bins is 2^addr_width·len(spec_brams[0]) |
| Bins.PlanTestBins | Multiband-Receiver/MBR_experiment/dss_common.py:40 | with a positive step the test bins are 1, 1+step, …, strictly increasing, in [1, n_bins), and never bin 0 |
| Bins.PlanTestBinMembers | Multiband-Receiver/MBR_experiment/dss_common.py:40 | b is a test bin exactly when 1 <= b < n_bins and b-1 is a multiple of the step |
| Bins.PlanTestBinCount | Multiband-Receiver/MBR_experiment/dss_common.py:40 | there are ceil((n_bins-1)/step) test bins, none when n_bins <= 1 |
| Bins.PlanTestFreqs | Multiband-Receiver/MBR_experiment/dss_common.py:41 | if_test_freqs has one entry per test bin, and entry i is `if_freqs[test_bins[i]]` with that index in bounds |
| Bins.RfFreqsUsb | Multiband-Receiver/MBR_experiment/dss_common.py:42 | the upper-sideband table has one frequency per IF bin |
| Bins.RfFreqsLsb | Multiband-Receiver/MBR_experiment/dss_common.py:43 | the lower-sideband table has one frequency per IF bin |
| Bins.PlanRfFreqs | Multiband-Receiver/MBR_experiment/dss_common.py:42-43 | the two sidebands mirror each other about the LO; every test bin indexes both tables in bounds; for a positive bandwidth the upper tone is in [lo, lo+bw/1000) and the lower one in (lo-bw/1000, lo] |
| Bins.PlanIndexesRead | Multiband-Receiver/MBR_experiment/dss_common.py:38-41 | a spectrum read from as many blocks as spec_brams[0] has n_bins words, and every test bin indexes it in bounds |
| MbrCommon.NatString | Multiband-Receiver/MBR_experiment/dss_common.py:54 | the decimal string of k is one character exactly when k < 10 |
| MbrCommon.IntString | Multiband-Receiver/MBR_experiment/dss_common.py:54 | `str(k)` is one character exactly when 0 <= k < 10 |
| MbrCommon.PowDType | Multiband-Receiver/MBR_experiment/dss_common.py:54 | the power dtype string starts with `>u` and has three characters exactly when data_width//8 is a single digit |
| MbrCommon.CorrDType | Multiband-Receiver/MBR_experiment/dss_common.py:55 | the correlation dtype string starts with `>i` and has three characters exactly when data_width//8 is a single digit |
| MbrCommon.PowDTypeParses | Multiband-Receiver/MBR_experiment/dss_common.py:54 | `">u" + str(data_width//8)` is a valid dtype exactly when data_width//8 is 1, 2, 4 or 8; it is big-endian, unsigned, data_width//8 bytes per item, and data_width bits when data_width is a multiple of 8 |
| MbrCommon.CorrDTypeParses | Multiband-Receiver/MBR_experiment/dss_common.py:55 | `">i" + str(data_width//8)` is a valid dtype under the same condition; it is big-endian and signed with data_width//8 bytes per item |
| MbrCommon.WideDataWidthRejected | Multiband-Receiver/MBR_experiment/dss_common.py:54-55 | a data_width whose byte count is not 1, 2, 4 or 8 (128, say) makes every block read with either dtype a TypeError |
| MbrCommon.Derive | Multiband-Receiver/MBR_experiment/dss_common.py:38-55 | the derived quantities exist exactly when every indexed list is long enough and the plan exists; a zero step is a ValueError, a missing list an IndexError; each block list is the configured entry |
| MbrCommon.SpectrumBins | Multiband-Receiver/MBR_experiment/dss_common.py:38 | n_bins is 2^addr_width·len(spec_brams[0]), which is the length of the interleaved read of spec_brams[0], and every test bin indexes that read in bounds |
| MbrCommon.SynthBins | Multiband-Receiver/MBR_experiment/dss_compute_srr.py:125-130 | the sweep's `usb[test_bin]` and `lsb[test_bin]` are in bounds when the synthesis block list has as many blocks as spec_brams[0] |
| MbrCommon.SynthBinsShortRead | Multiband-Receiver/MBR_experiment/dss_compute_srr.py:125-130 | with two spectrum blocks but one synthesis block, test bin 1 indexes a one-word read: IndexError |
| DssCommons.Derive | Digital_Sideband_Separation/bitfiles/dss_commons.py:31-41 | the derived quantities exist exactly when both block-list pairs exist and the plan exists; a zero step is a ValueError, a missing list an IndexError; n_bins is 2^addr_width·len(spec_brams[0]) |
| DssCommons.CalibrationBins | Digital_Sideband_Separation/bitfiles/dss_calibrate.py:156-164 | when b2, ab_re and ab_im have as many blocks as a2, all four reads succeed and every test bin indexes each of them in bounds |
| DssCommons.SweepRead | Digital_Sideband_Separation/bitfiles/dss_calibrate.py:156-163 | one block list with as many blocks as spec_brams[0] reads successfully and is indexed in bounds by every test bin |
| DssCommons.CalibrationShortRead | Digital_Sideband_Separation/bitfiles/dss_calibrate.py:157-163 | with two a2 blocks but one b2 block, test bin 1 indexes a one-word b2 read: IndexError |

`DssCommons.DBFS` is the constant 96 of
Digital_Sideband_Separation/bitfiles/dss_commons.py:31.

## Left out

- Hardware and instrument I/O are not modelled: `initialize_rfsoc`, `rfsoc.read`, `snapshot.arm()` and `snapshot.read`. What a read returns is a parameter.
- The signal generator commands, settling sleeps, plotting, archive persistence and configuration loading are not modelled. They are I/O.
- Calandigital.ReadData: the `astype(float)` conversion is not modelled, so words stay exact integers. A float64 would round 8-byte words above 2^53.
- Calandigital.RequestedBytes: the byte count is exact real division, as Python's `/` requests it. What the board does with a fractional count is the driver's business. The length lemmas assume the block returned exactly that many bytes.
- Calandigital.ReadInterleaveData: the layout of the whole read is stated as `ReadInterleaveDataBlock`: every m-th word from word j is block j. The single-index form `out[i*m + j] == block j word i` is stated on `Interleave` (`InterleaveAt`), not on the whole read.
- Calandigital.ReadSnapshots: a missing snapshot is the opaque `MissingSnapshot` error. Which Python exception the board's snapshot container raises for a missing name is not modelled.
- Calandigital.ReadSnapshots: the captures are one word list per snapshot name, so a name listed twice gets the same words both times. The source arms and reads that snapshot again for each entry, and could get different words.
- Calandigital.SnapshotSamples: `np.int16` is taken to be little-endian, as on the host the scripts run on.
- NumpyBuffers.ParseDType: it accepts only strings of the form byte order (`>` or `<`), kind (`u` or `i`) and item size (1, 2, 4 or 8). Every other string is a TypeError. numpy accepts more spellings (`=i2`, `u4`, `int16`, …). These are the only integer dtypes the modelled code can produce.
- Bins.Linspace: `if_freqs`, the RF tables and the bandwidth use exact real arithmetic. float64 rounding is not modelled.
- Bins.MakePlan: `addr_width` is a natural number. A negative `addr_width` would make `2**addr_width` a float in Python, and the following lines would raise TypeError. That case is not modelled.
- MbrCommon.Derive: the RF tables (`rf_freqs_usb`, `rf_freqs_lsb`) are not among its results. They are stated separately in `Bins.RfFreqsUsb`, `Bins.RfFreqsLsb` and `Bins.PlanRfFreqs`, because `lo_freq` is a float from the configuration.
- DssCommons.Derive: the RF tables are not among its results, for the same reason.
- Not modelled because they are floating-point numerics: `scale_and_dBFS_specdata`, the calibration-constant division, the SRR ratios and `np.interp`.
- Not modelled because they are called but defined outside the shown files: `float2fixed` and `write_interleaved_data`.
- The sweep loops are not modelled, apart from the bin indexing stated above. Each step mixes generator commands, reads, plotting and file writes.
