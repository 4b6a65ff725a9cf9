# Verified model of the TETRA base station's codec, call control and MM parser

This project models three parts of the base station software in Dafny and proves what they promise,
for all inputs and all runs.

**Channel codecs.** The SCH/F and SCH/HU chain (`sw/tetra_channel_codec.c`) and the TCH/S chain
(`sw/tetra_bs_tch_s.c`, `sw/tetra_tch_s_codec.c`), stage by stage as the loops compute them, with
the two scripts that formulate the same algorithms differently (`scripts/decode_dl.py`,
`scripts/gen_sch_hu_tv.py`). `Trellis` proves once, for any table of branch costs, that the dynamic
program finds a cheapest terminated path; the array and metric tricks of each decoder are proved to
compute exactly that. `ConvCode`, `CodeDistance`, `SpeechCode` and `SpeechMetrics` prove the codes'
distances by linearity and a return-cost function on trellis states. Together these give the
end-to-end results: every message survives one flipped bit, three flips are never silently accepted
as another message, the speech code's unequal protection corrects two errors if at most one falls
into class 1, and an accepted burst has its most sensitive bits right or wrong in at least four
places (`SpeechCrcDistance`). `ScatteredErrors` bounds what any path can gain over the sent one when
errors are far apart, whatever their number; with the spread of the interleavers this gives
`BurstErrors` and `SpeechBursts`: up to 20 wrong bits in a row on SCH/F, 13 on SCH/HU and 24 on
TCH/S are always corrected. `Ties` determines the decoder's answer where several are equally near,
and `ControlOnAir`, `SpeechOnAir` and `Crc16Division` say bit for bit what is transmitted, without
the functions that the loops are proved against. The results follow ETSI EN 300 392-2 section 8.2
and EN 300 395-2 sections 5.4 and 5.5 as far as the source cites them. `SpeechViterbi` follows the speech decoder's
16-bit metrics with their wrap-around; `SpeechRange`, `SpeechOverflow` and `SpeechBurst` say exactly
up to which magnitudes it decodes as in exact arithmetic.

**Call control and SDS delivery.** `CallModel` states the call state machine
(`sw/tetra_call_fsm.c`) as a function of its inputs. `CallInvariant`, `CallRuns`, `CallConnects` and
`CallGroups` prove what holds in every run, how the watchdog and the set-up sequencer behave, who
gets a D-CONNECT, and exactly when two calls can end up with one group. `CallEffects` and `CallTicks`
write out what every uplink PDU, tick and late entry sends, to whom and with which channel, and
`CallNumbers` which identifiers and usage markers a run gives out. `CallControl` is the state machine
as the source runs it, a class whose methods update tables and registers in place, proved against
`CallModel`. `SdsModel` and `SdsSender` do the same for the frame-paced SDS delivery in
`sw/tetra_attach_daemon.c`, the second writer of the voice mask register; `CellModel` proves both
writers together, and the order of all chains on the air, under every interleaving, and `Daemon`
ties the two classes to one shared register.
`NsNrTable` proves the acknowledgement table against a plain map.

**MM demand parser.** `MmBits`, `MmLocation`, `MmGroup` and `MmGroupWalker` prove that the two
walkers of `sw/tetra_mm_demand_parser.c` accept exactly what a printer prints and report exactly
the printed fields.

`dafny verify dfyconfig.toml` checks everything.

## How the source is rendered

- A byte that stores one bit is a `bool`; the decoder's third byte value, an erasure, is the symbol
  `Erasure`. Const input pointers are immutable sequences, output buffers are arrays.
- 32-bit and 16-bit registers of LFSR and CRC are bit vectors; the speech decoder's `int16_t`
  metrics go through an explicit wrap-around (`SpeechViterbi.Int16`), and so do the times of the
  set-up sequencer (`CallModel.Later`, `CallModel.Due`).
- Memory-mapped mask registers are sets of the positions that are 1.
- Clock readings, results of PDU submissions, registered groups, uplink bursts and frame numbers are
  inputs; the theorems hold for every choice of them.
- PDUs are recorded in a ghost log with the AACH value that their timeslot has at that moment.
- The static table of call slots is an array of values updated in place. `CallFsm.Stage` stands for
  the functions that stage one PDU each, `CallFsm.Lookup` for the searches over the slots.

Where code and comments disagree the code is followed:

- The comment above the convolutional encoder says that the newest bit is the register's top bit
  (`sw/tetra_channel_codec.c:48-51`); the code shifts it into bit 0 (`ConvCode.RegisterHoldsTaps`).
- The comment above the SCH/F encoder puts the slot number into the scrambler's low two bits
  (`sw/tetra_channel_codec.c:123-124`); the code sets both bits and ignores the slot number.
- The remark that the soft TCH/S decoder tolerates any signed range
  (`sw/tetra_bs_tch_s.c:394-395`) does not hold for 16-bit metrics: a burst without a single wrong
  sign is decoded if and only if its magnitudes add up to at most 2^15 (`SpeechBurst.CleanBurst`).
  Exactly up to magnitude 99 every burst is decoded as in exact arithmetic
  (`SpeechBurst.ExactIffAtMost99`).
- The comment on floor transfer wants one slot per group (`sw/tetra_call_fsm.c:417-421`); the code
  checks only callers without a slot. `CallGroups.RunKeepsGroups` gives the exact condition over whole
  runs and `CallGroups.TwoCallsOneGroup` a run in which it fails.
- The sub-walk for group identity location demands asks for 56 payload bits
  (`sw/tetra_mm_demand_parser.c:164`), although by its own layout (lines 131-146) the group is complete
  after 55; a payload that ends there is not reported (`MmLocation.GildOfPrint`).
- The comment on the filler bit calls it self-healing against call control
  (`sw/tetra_attach_daemon.c:833-834`): a mask write clears bits 4 and 8 of a running chain exactly if
  the mask value changes (`CellModel.CallStepAndFiller`), and every push sets bit 4 again
  (`SdsModel.PushShowsFiller`), but none follows the last block.
- The acknowledgement table's first branch stores its numbers unflipped, so a mobile gets (0,1)
  twice before the alternation starts (`NsNrTable.AnswersAlternate`).

## Model

| member | source | states |
|---|---|---|
| ControlChannels.SchfSurvivesOneFlip | sw/tetra_channel_codec.c:131-341 | every 268-bit message and every cell identity: a block with at most one of the 432 transmitted bits flipped is decoded with return code 0 to exactly that message |
| ControlChannels.SchhuSurvivesOneFlip | sw/tetra_channel_codec.c:359-375 | the same for the 92-bit messages of SCH/HU and their 168-bit blocks |
| ControlChannels.SchfNeverSilentlyWrong | sw/tetra_channel_codec.c:311-357 | with up to three flipped bits the decoder never returns 0 with another message |
| ChannelCodec.OneFlipIsCorrected | sw/tetra_channel_codec.c:131-341 | for every block length and coprime interleaver, one flipped bit leaves all decoded bits, check and tail included, as sent |
| ChannelCodec.ThreeFlipsAreNeverSilent | sw/tetra_channel_codec.c:228-357 | up to three flips: the check passes if and only if the decoded bits are the sent ones, because near codewords differ only in a window that the CRC covers |
| BurstErrors.SchfSurvivesBurst | sw/tetra_channel_codec.c:131-341 | any errors within 20 consecutive bits of a transmitted SCH/F block, for every message and cell identity: the decoder returns 0 and exactly the message |
| BurstErrors.SchhuSurvivesBurst | sw/tetra_channel_codec.c:359-375 | the same for errors within 13 consecutive bits of an SCH/HU block |
| BurstErrors.ScatteredErrorsAreCorrected | sw/tetra_channel_codec.c:199-287 | for words of any length, any number of wrong punctured bits pairwise 11 or more places apart is corrected by the hard decoder |
| BurstErrors.SchfNeighbours | sw/tetra_channel_codec.c:88-95 | coded bits fewer than 11 places apart are sent 20 or more places apart |
| BurstErrors.SchhuNeighbours | sw/tetra_channel_codec.c:88-95 | in SCH/HU they are sent 13 or more places apart |
| BurstErrors.OthersAreFarther | sw/tetra_channel_codec.c:52-83 | with such scattered errors every other codeword is at least two bits farther from the received word than the sent one, in either code |
| ScatteredErrors.ScatteredIsNearest | sw/tetra_channel_codec.c:52-83 | scattered errors of any number are nearer to zero than to any other codeword, by two bits at least: 11 apart in the control code, 17 apart in the speech code |
| ControlOnAir.SchfBitOnAir | sw/tetra_channel_codec.c:131-168 | block bit 103 k modulo 432 of SCH/F carries coded bit k, inverted where the scrambling recurrence is 1 |
| ControlOnAir.SchhuBitOnAir | sw/tetra_channel_codec.c:88-116 | block bit 13 k modulo 168 of SCH/HU carries coded bit k |
| ControlOnAir.CodedBitsAt | sw/tetra_channel_codec.c:52-83 | the three coded bits of each pair of input bits as exclusive ors of these and the four bits before |
| ChannelCodec.SoftChainRefinesHard | sw/tetra_channel_codec.c:381-453 | in exact integers, on received values +c and -c the whole soft chain returns the bits of the hard chain, ties included; the decoders' contracts add the range of the C metrics |
| Trellis.BestIsLowerBound | sw/tetra_channel_codec.c:228-287 | the metric of a state after i steps is a lower bound of the cost of every bit string that leads there |
| Trellis.PathAttainsBest | sw/tetra_channel_codec.c:262-287 | the traced-back bits lead to the state and cost exactly its metric |
| Trellis.DecodeIsOptimal | sw/tetra_channel_codec.c:228-287 | the decoded bits end in state 0 and no bit string that ends there costs less, for any table of branch costs |
| Ties.DecodeIsFirstCheapest | sw/tetra_channel_codec.c:257-287 | for any table of branch costs, a bit string is the decoder's answer if and only if it is terminated, none is cheaper, and every equally cheap one has a 1 where they differ last: this settles all ties |
| Trellis.DecodeIgnoresScale | sw/tetra_channel_codec.c:405-425 | multiplying all branch costs by a positive factor and shifting each step keeps every decision, ties included |
| BranchMetrics.HardDecodedIsNearest | sw/tetra_channel_codec.c:199-287 | the decoder of a punctured word returns a terminated word whose codeword is nearest in Hamming distance |
| BranchMetrics.CostIsConflicts | sw/tetra_channel_codec.c:228-271 | with erasures at any positions, a path costs the number of known symbols that its mother code contradicts |
| BranchMetrics.HardDecodedHasFewestConflicts | sw/tetra_channel_codec.c:228-287 | whatever is erased, the decoded word is terminated and none contradicts fewer known symbols |
| BranchMetrics.SoftDecodedIsNearest | sw/tetra_channel_codec.c:395-425 | the soft decoder returns a terminated word of least total penalty against the received values |
| BranchMetrics.CostIsSoftDistance | sw/tetra_channel_codec.c:405-425 | the cost of a path over a depunctured block is the total penalty of the received values against the path's punctured codeword |
| BranchMetrics.SoftDecodedIsHard | sw/tetra_channel_codec.c:405-425 | in exact integers, on values +c, -c the soft decoder agrees with the hard one |
| BranchMetrics.SoftRefinesHard | sw/tetra_channel_codec.c:228-287 | the same on mother symbols with erasures as 0 |
| ConvCode.OutputsAreLinear | sw/tetra_channel_codec.c:52-65 | the outputs for an exclusive or of two bit strings are the exclusive or of their outputs |
| ConvCode.RegisterHoldsTaps | sw/tetra_channel_codec.c:57-58 | the five-bit register holds the last five bits, the newest in bit 0 |
| ControlOnAir.MotherBitsAt | sw/tetra_channel_codec.c:52-65 | the four mother bits of each input bit by the generators 1+D+D^4, 1+D^2+D^3+D^4, 1+D+D^2+D^4 and 1+D+D^3+D^4 |
| CodeDistance.WeightIsAtLeastFour | sw/tetra_channel_codec.c:52-83 | every nonzero terminated bit string has a punctured codeword of weight at least 4 |
| CodeDistance.LightPathIsShort | sw/tetra_channel_codec.c:52-83 | a terminated bit string whose punctured codeword weighs 6 or less has all its ones within 12 bits |
| CodeDistance.CodewordDistance | sw/tetra_channel_codec.c:52-83 | the distance of two punctured codewords is the cost of the exclusive or on the weight trellis |
| ErrorCorrection.MinimumDistance | sw/tetra_channel_codec.c:52-83 | different terminated words have punctured codewords that differ in four or more places |
| ErrorCorrection.CorrectsOneError | sw/tetra_channel_codec.c:199-287 | the hard decoder restores the word from its codeword with one wrong bit |
| ErrorCorrection.ThreeErrorsStayLocal | sw/tetra_channel_codec.c:199-287 | with up to three wrong bits the decoded word differs from the sent one only within 12 consecutive bits |
| ErrorCorrection.SoftCorrects | sw/tetra_channel_codec.c:395-425 | in exact integers: if f received values are arbitrary up to magnitude M and all others right with magnitude m or more, (m+M)f < 4m makes the soft decoder exact |
| Crc16.WithFcsAccepted | sw/tetra_channel_codec.c:19-35 | every message with its check bits is accepted |
| Crc16Division.FcsIsRemainder | sw/tetra_channel_codec.c:19-35 | the check bits are the complement of the remainder of the message, its first 16 bits inverted and 16 zeros appended, after long division by x^16 + x^12 + x^5 + 1 |
| Crc16.RejectsBursts | sw/tetra_channel_codec.c:344-357 | for every length, an accepted word with any nonzero error inside 16 consecutive bits is rejected, also across the border of message and check bits |
| Crc16.RejectsOddErrors | sw/tetra_channel_codec.c:344-357 | for every length, an accepted word with an odd number of wrong bits is rejected |
| Crc16.AcceptsIffClears | sw/tetra_channel_codec.c:344-357 | a word is accepted if and only if its complemented check bits bring the register to zero |
| Crc16.AcceptsIffResidue | scripts/decode_dl.py:621-628 | the reflected register ends in 0xF0B8 if and only if the MSB-first check accepts the word |
| Crc16.StepRefines | sw/tetra_channel_codec.c:25-30 | the 16-bit word step does what the polynomial step does to its bits |
| Crc16.ReflectedStepRefines | scripts/decode_dl.py:621-628 | the reflected 16-bit step is the polynomial step on mirrored bits |
| Crc16.CheckWord | sw/tetra_channel_codec.c:19-31 | the loop computes the specified check word |
| Crc16.AppendCrc16 | sw/tetra_channel_codec.c:19-35 | the output is the message followed by its check bits |
| Crc16.CheckCrc16 | sw/tetra_channel_codec.c:344-357 | true exactly for accepted words |
| Crc16.CheckCrc16Reflected | scripts/decode_dl.py:621-628 | true exactly for the words that the MSB-first check accepts |
| Interleaver.CoversIffCoprime | sw/tetra_channel_codec.c:88-95 | for a block longer than one bit, the multiplicative interleaver writes every output cell if and only if a and N are coprime |
| Interleaver.TargetInjective | sw/tetra_channel_codec.c:88-95 | for coprime a and N no two input positions share an output cell |
| Interleaver.TargetSurjective | sw/tetra_channel_codec.c:88-95 | for coprime a and N every output cell has an input position |
| Interleaver.DeinterleaveInterleaved | sw/tetra_channel_codec.c:186-197 | de-interleaving undoes interleaving |
| Interleaver.InterleaveDeinterleaved | sw/tetra_channel_codec.c:186-197 | interleaving undoes de-interleaving |
| Interleaver.DeinterleavedDistance | sw/tetra_channel_codec.c:186-197 | de-interleaving keeps the number of differences between two blocks |
| Interleaver.InterleavePerm | sw/tetra_channel_codec.c:88-95 | the loop produces the interleaved block |
| Interleaver.DeinterleavePerm | sw/tetra_channel_codec.c:186-197 | the loop produces the de-interleaved block, for bits and for soft values |
| Scrambler.ScrambleTwice | sw/tetra_channel_codec.c:170-183 | scrambling twice with one cell identity restores the bits |
| Scrambler.ScrambledDistance | sw/tetra_channel_codec.c:170-183 | scrambling keeps the distance of two blocks |
| Scrambler.KeystreamRecurs | sw/tetra_channel_codec.c:98-116 | the register's start bits followed by the scrambling bits satisfy the linear recurrence with the distances 1, 2, 4, 5, 7, 8, 10, 11, 12, 16, 22, 23, 26 and 32 |
| Scrambler.CellFields | sw/tetra_channel_codec.c:156-161 | mobile country code, network code and colour code stand in the start value at bits 22, 8 and 2, and bits 0 and 1 are set |
| Scrambler.ScrambledBit | sw/tetra_channel_codec.c:170-183 | bit i is inverted exactly where that stream, behind its 32 start bits, has a 1 |
| Scrambler.SoftScrambledBits | sw/tetra_channel_codec.c:381-389 | changing signs of +c and -c values is scrambling of their bits |
| Scrambler.Scramble | sw/tetra_channel_codec.c:103-116 | the register loop produces the block scrambled with the keystream of the cell identity, whose bits Scrambler.KeystreamRecurs gives |
| Scrambler.ScrambleSoft | sw/tetra_channel_codec.c:381-389 | the same for soft values by sign change |
| Viterbi.TrellisStep | sw/tetra_channel_codec.c:245-271 | one add-compare-select pass turns the metrics of step i into those of step i + 1 and stores the survivors of reached states |
| Viterbi.Traceback | sw/tetra_channel_codec.c:276-284 | reads only survivors stored in their own step and writes the decoded bits |
| Viterbi.ViterbiR14 | sw/tetra_channel_codec.c:228-287 | the decoder's output is the optimal terminated bit string for every input of known bits and erasures with 4n below 2^28 |
| Viterbi.ViterbiR14Soft | sw/tetra_channel_codec.c:405-425 | the same for soft values whose total magnitude stays below the start value of unreached states |
| ChannelCodec.ConvR14 | sw/tetra_channel_codec.c:52-65 | the encoder loop writes the mother code of its input and returns its length |
| ChannelCodec.PunctureR23 | sw/tetra_channel_codec.c:70-83 | keeps outputs 1, 2 and 5 of every eight, or reports a length that is not a multiple of eight |
| ChannelCodec.DepunctureR23 | sw/tetra_channel_codec.c:199-224 | puts every three values back to their places and fills the others with erasures |
| ControlChannels.SchfEncode | sw/tetra_channel_codec.c:131-168 | returns 0 and the specified block for message and cell identity |
| ControlChannels.SchfDecode | sw/tetra_channel_codec.c:311-341 | returns the information bits of the specified decoding, and 0 exactly if the check bits match |
| ControlChannels.SchhuDecode | sw/tetra_channel_codec.c:359-375 | the same for SCH/HU |
| ControlChannels.SchfDecodeSoft | sw/tetra_channel_codec.c:439-453 | for magnitudes up to B with 432 B < 2^28 the same from soft values; on +c and -c exactly the hard decoder's bits and code |
| ControlChannels.SchhuDecodeSoft | sw/tetra_channel_codec.c:426-437 | the same for SCH/HU with 168 B < 2^28 |
| DecodeDl.DepunctureTable | scripts/decode_dl.py:405-417 | the index table of the script depunctures as the C loop does |
| DecodeDl.ScramblerSeq | scripts/decode_dl.py:272-286 | the script's scrambling sequence is the keystream of the codec |
| DecodeDl.ViterbiMaxCorrelation | scripts/decode_dl.py:525-586 | in exact arithmetic the maximum-correlation decoder (positive means 0) returns the bits of the minimum-penalty decoder (positive means 1) on negated values, ties included, for every length and all values whose magnitudes add up to less than the script's own start value of 10^18 |
| DecodeDl.CorrelationIsMetric | scripts/decode_dl.py:525-586 | the correlation of four values with four bits is their magnitude less twice the penalty of the negated values |
| GenSchHu.AppendFcs | scripts/gen_sch_hu_tv.py:42-49 | the script appends the check bits of the C encoder |
| GenSchHu.ScrambleBits | scripts/gen_sch_hu_tv.py:79-81 | the script's scrambling is the codec's |
| GenSchHu.ConvEncodeR14 | scripts/gen_sch_hu_tv.py:52-62 | the script's encoder computes the same mother code |
| GenSchHu.KeptIsPuncture | scripts/gen_sch_hu_tv.py:65-67 | keeping positions 0, 1 and 4 modulo 8 is the C puncturing |
| GenSchHu.EncodeSchHu | scripts/gen_sch_hu_tv.py:84-94 | the script's output is the block that the C decoder's guarantees are about |
| TchSDecoder.SpeechSurvivesOneFlip | sw/tetra_bs_tch_s.c:327-509 | every burst, every permutation of class positions: one flipped bit on the air leaves return code 0; if it hit a protected bit both frames are exact, otherwise they differ in as many bits as class 0 was hit |
| SpeechBursts.SpeechSurvivesBurst | sw/tetra_bs_tch_s.c:327-509 | any errors within 24 consecutive bits of a transmitted burst: return code 0, class 1 and 2 exact, and the frames wrong in exactly as many bits as class 0 was hit |
| SpeechBursts.SpeechBurstScatters | sw/tetra_tch_s_codec.c:35-53 | no two wrong type-3 bits of such a burst are closer than 17 places |
| BurstErrors.ScatteredSpeechErrorsAreCorrected | sw/tetra_bs_tch_s.c:263-314 | any number of wrong coded bits pairwise 17 or more places apart is corrected by the hard decoder |
| TchSDecoder.BurstSurvives | sw/tetra_bs_tch_s.c:327-390 | up to two wrong coded bits, at most one of them in class 1, leave no trace, and the frames differ from the sent ones in exactly as many bits as class 0 does |
| TchSDecoder.AcceptedIsRightOrFarOff | sw/tetra_bs_tch_s.c:377-389 | with return code 0, class 2 and its check bits are as sent or wrong in at least four places |
| TchSDecoder.SoftDecoderRefinesHard | sw/tetra_bs_tch_s.c:396-450 | on values +c and -c with 0 < c < 128 the 16-bit soft decoder decodes every block to the hard decoder's bits, and so to its frames and return code, if and only if c is at most 99; its class 0 bits are always the hard ones |
| TchSDecoder.SoftBurstSurvives | sw/tetra_bs_tch_s.c:396-450 | while all 330 coded magnitudes together stay below 2^15, the 16-bit soft decoder restores class 1 and 2 with return code 0 whenever f coded values are arbitrary up to magnitude M, all others right with m or more, and (m+M)f < 4m |
| TchSDecoder.SourceTablesSurviveOneFlip | sw/tetra_bs_tch_s.c:30-509 | with the source's own class tables one flipped bit on the air leaves return code 0 and at most one wrong bit in the frames, and that in class 0 |
| SpeechBurst.ExactIffAtMost99 | sw/tetra_bs_tch_s.c:225-314 | the 16-bit decoder returns the exact optimum on all bursts of magnitudes at most B if and only if B is at most 99 |
| SpeechBurst.AgreesIffAtMost99 | sw/tetra_bs_tch_s.c:225-314 | on coded bits received with one magnitude c the 16-bit decoder agrees with the hard one on every input if and only if c is at most 99 |
| SpeechBurst.CleanGoesWrong | sw/tetra_bs_tch_s.c:225-314 | for every magnitude from 100 to 127 there are coded bits that the 16-bit decoder gets wrong and the hard decoder right |
| SpeechBurst.CleanBurst | sw/tetra_bs_tch_s.c:225-314 | any sent bits received without wrong signs at any magnitudes are restored by the 16-bit decoder if and only if the magnitudes add up to at most 2^15 |
| TchSDecoder.CleanSoftBurst | sw/tetra_bs_tch_s.c:396-450 | so it is for class 1 and 2 of every burst, whatever the frames; then the return code is 0 and every wrong class 0 sign costs one bit of the frames |
| SpeechOverflow.WrongDecision | sw/tetra_bs_tch_s.c:288-301 | in the step that takes the magnitude beyond 2^15 the sent path's metric wraps around and its state chooses the other branch |
| SpeechOverflow.LeavesPath | sw/tetra_bs_tch_s.c:303-313 | a decision off the path of some bits makes the traceback return other bits |
| SpeechBurst.Steps16IsExact | sw/tetra_bs_tch_s.c:225-314 | while all magnitudes of a burst together stay below 2^15, the 16-bit decoder returns the exact optimum |
| SpeechRange.DecodeIsExact | sw/tetra_bs_tch_s.c:225-314 | for any number of steps: no overflow and no start value chosen while the total magnitude stays below 2^15 and that of the first four steps below half the start value; then decisions and traceback are the trellis's |
| SpeechScaling.SpeechSoftRefinesHard | sw/tetra_bs_tch_s.c:263-314 | in exact integers, scaling all soft values by c > 0 keeps the decoded bits; SpeechBurst says for which values the 16-bit loop is exact |
| TchSDecoder.Decode | sw/tetra_bs_tch_s.c:327-390 | the hard decoder computes the specified frames and return code |
| TchSDecoder.DecodeSofti8 | sw/tetra_bs_tch_s.c:396-450 | for all 8-bit values the soft decoder returns the frames and code of the 16-bit decoding, wrap-around included; class 0 by sign |
| TchSDecoder.ScrambleSoft8 | sw/tetra_tch_s_codec.c:82-91 | sign change by keystream with the smallest value going to the largest |
| TchSDecoder.SoftValueOnAir | sw/tetra_bs_tch_s.c:396-420 | type-3 value 18 line + column is the one received at 24 column + line, with its sign changed where the stream is 1 and -128 turned into 127; a class 0 bit is 1 exactly if it is positive |
| TchS.Encode | sw/tetra_bs_tch_s.c:452-509 | returns 0 and the specified burst |
| SpeechOnAir.SpeechBitOnAir | sw/tetra_tch_s_codec.c:35-43 | burst bit 24 column + line carries type-3 bit 18 line + column, inverted where the scrambling recurrence is 1 |
| SpeechOnAir.Type3Bits | sw/tetra_bs_tch_s.c:452-509 | a burst's type-3 bits are the 102 class 0 bits and then the codeword of class 1, class 2, its check bits and four zeros |
| SpeechOnAir.SpeechBitAt | sw/tetra_bs_tch_s.c:132-172 | each coded bit as an exclusive or of its input bit and the four before, by the generators 1+D+D^2+D^3+D^4, 1+D+D^3+D^4 and 1+D^2+D^4 |
| SpeechOnAir.FramesAlternate | sw/tetra_bs_tch_s.c:47-65 | channel bits 2 r and 2 r + 1 are bit r, in the order of the classes, of the first and the second frame |
| TchS.CodeClass | sw/tetra_bs_tch_s.c:471-498 | coding and puncturing one class as a continuation gives the next part of one codeword |
| TchS.CombinedMother | sw/tetra_bs_tch_s.c:344-357 | the two depunctured classes in a row are the depunctured stream of the continuous code |
| SpeechCode.SpeechOutputsAreLinear | sw/tetra_bs_tch_s.c:132-142 | the speech code is linear |
| SpeechCode.SpeechWeightBound | sw/tetra_bs_tch_s.c:132-172 | every nonzero terminated bit string has 5 w1 + 4 w2 >= 20, with w1 ones in the class 1 part of its codeword and w2 in the class 2 part |
| SpeechMetrics.SpeechMinimumDistance | sw/tetra_bs_tch_s.c:132-172 | 5 d1 + 4 d2 >= 20 for the differences of two codewords in the two classes |
| SpeechMetrics.SpeechDecodedIsNearest | sw/tetra_bs_tch_s.c:263-314 | the decoded bits are terminated and of least total penalty against the received class 1 and class 2 values |
| SpeechMetrics.SpeechCorrects | sw/tetra_bs_tch_s.c:263-314 | up to two wrong coded bits, at most one in class 1, are corrected |
| SpeechMetrics.SpeechSoftCorrects | sw/tetra_bs_tch_s.c:263-314 | in exact integers, weak values are tolerated under the same inequality as in the control channels; SpeechBurst says for which values the 16-bit loop is exact |
| SpeechViterbi.ViterbiSpeech | sw/tetra_bs_tch_s.c:263-314 | for all 8-bit values and any number of steps the loops return the specified 16-bit decoding, wrap-around included |
| SpeechViterbi.BuildExpected | sw/tetra_bs_tch_s.c:243-259 | the table of expected signs is that of the three generators on reversed state numbers |
| SpeechViterbi.OldestBitInverts | sw/tetra_bs_tch_s.c:293-294 | the oldest tap of every generator is 1, so the branch for input 1 has the inverted outputs |
| SpeechRange.SelectWrapped | sw/tetra_bs_tch_s.c:288-301 | in range, the smaller of the two 16-bit candidates is twice the path cost less the magnitude received, and the choice is that of exact arithmetic |
| SpeechCorrelation.DecodedCorrelatesBest | sw/tetra_bs_tch_s.c:263-314 | the decoded bits are those of a terminated path of greatest correlation with the received values |
| SpeechPuncture.RcpcPunct | sw/tetra_bs_tch_s.c:175-184 | output bit j is the mother bit that the position table names |
| SpeechPuncture.RcpcDepunct | sw/tetra_bs_tch_s.c:187-216 | every received value goes to the position named for it and all other positions are erased |
| SpeechPuncture.TableReads | sw/tetra_bs_tch_s.c:157-184 | both position tables read, bit for bit, the kept outputs of the continuous code |
| SpeechPuncture.DepuncturedStep | sw/tetra_bs_tch_s.c:187-216 | the depunctured stream has each received value at its own step and output, 0 where nothing was kept |
| SpeechEncoder.DelayLine.EncodeBit | sw/tetra_bs_tch_s.c:132-142 | the delay line puts out the three generators' bits of everything encoded so far |
| SpeechEncoder.DelayLine.Encode | sw/tetra_bs_tch_s.c:145-151 | a call continues the code where the previous one stopped |
| SpeechOrder.TablesValid | sw/tetra_bs_tch_s.c:30-45 | the three class tables together name every position of a frame exactly once |
| SpeechOrder.ReorderRoundTrip | sw/tetra_bs_tch_s.c:47-85 | the two reorderings undo each other, in both orders |
| SpeechOrder.ToCodecDistance | sw/tetra_bs_tch_s.c:67-85 | reordering keeps the number of differences |
| SpeechOrder.CodecToChannel | sw/tetra_bs_tch_s.c:47-65 | the three loops produce the channel order |
| SpeechOrder.ChannelToCodec | sw/tetra_bs_tch_s.c:67-85 | the three loops produce the codec order |
| SpeechCrc.SpeechCrc | sw/tetra_bs_tch_s.c:93-114 | the loops compute remainder and overall parity as specified |
| SpeechCrc.RemainderXor | sw/tetra_bs_tch_s.c:99-108 | the remainder is linear |
| SpeechCrc.RejectsOddErrors | sw/tetra_bs_tch_s.c:377-383 | an accepted word with an odd number of wrong data and check bits is rejected |
| SpeechCrcDistance.RejectsUpToThreeErrors | sw/tetra_bs_tch_s.c:93-114 | an accepted word with one, two or three wrong bits among the 68 data and check bits is rejected |
| SpeechCrcDistance.PowersDiffer | sw/tetra_bs_tch_s.c:99-106 | the remainders of the 67 single bits are different powers of X |
| SpeechCrcDistance.UnitRemainder | sw/tetra_bs_tch_s.c:99-106 | dividing a single bit by the generator leaves the coefficients of that power |
| SpeechCrc.AcceptedXor | sw/tetra_bs_tch_s.c:377-383 | accepted words are closed under exclusive or |
| BlockInterleaver.BlockRoundTrip | sw/tetra_tch_s_codec.c:35-53 | the two matrix reorderings undo each other, in both orders |
| BlockInterleaver.MatrixBit | sw/tetra_tch_s_codec.c:35-53 | bit 18 line + column and bit 24 column + line change places, for 24 lines and 18 columns |
| BlockInterleaver.NeighboursComeFromAfar | sw/tetra_tch_s_codec.c:35-43 | places fewer than 24 apart on the air carry bits 17 or more apart |
| BlockInterleaver.InterleaveSpeech | sw/tetra_tch_s_codec.c:35-43 | the nested loops produce the interleaved block |
| BlockInterleaver.DeinterleaveSpeech | sw/tetra_tch_s_codec.c:45-53 | the nested loops produce the de-interleaved block, also for soft values |
| CallRuns.RunKeeps | sw/tetra_call_fsm.c:132-826 | in every run live slots have different mobiles and different timeslots of 2 to 4, a state past idle, one target kind and no group while ringing; each AACH register shows its owner's marker or idle; every PDU that names a usage marker went out while its timeslot's AACH announced that marker |
| CallInvariant.StartHolds | sw/tetra_call_fsm.c:31-35 | the start state has the invariant |
| CallInvariant.HandledKeeps | sw/tetra_call_fsm.c:387-684 | every uplink PDU from every mobile keeps the invariant |
| CallInvariant.TickedKeeps | sw/tetra_call_fsm.c:686-826 | a tick keeps the invariant, and afterwards the register's low bits are exactly those of the calls past ringing heard in the last 300 ms |
| CallInvariant.AtMostThreeCalls | sw/tetra_call_fsm.c:144-156 | there are never more than three calls |
| CallInvariant.VoiceMaskMeaning | sw/tetra_call_fsm.c:56-74 | a mask position is set if and only if a speaking call owns its timeslot |
| CallInvariant.SetupKeeps | sw/tetra_call_fsm.c:395-517 | a set-up keeps the invariant on all its paths: own slot, floor transfer, new slot, no slot |
| CallInvariant.AllocatedKeeps | sw/tetra_call_fsm.c:158-195 | a new slot clashes with nobody and its timeslot's AACH announces it; without a free timeslot nothing but the counters changes |
| CallInvariant.FreedKeeps | sw/tetra_call_fsm.c:197-206 | freeing a slot returns its AACH register to idle and disturbs no other call |
| CallInvariant.SubmitKeeps | sw/tetra_tx_transport.h:100-107 | a submitted PDU's usage marker matches the AACH of its timeslot |
| CallRuns.WatchdogIsExact | sw/tetra_call_fsm.c:728-817 | a tick frees exactly the slots that are over their limit when their turn comes and keeps every other call |
| CallRuns.QuietWatchdog | sw/tetra_call_fsm.c:728-817 | without bursts during the tick these are exactly the slots over their limit before it |
| CallRuns.NothingStale | sw/tetra_call_fsm.c:779-803 | after a tick at a given time no connected call is idle longer than 5000 ms and no ringing one older than 20000 ms |
| CallRuns.RunFollowsPlan | sw/tetra_call_fsm.c:732-772 | over any run until the next U-SETUP on a slot, the ticks stage a prefix of the slot's plan, each PDU when its signed 32-bit comparison with 113 ms after the one before allows it |
| CallRuns.DueMeansSpaced | sw/tetra_call_fsm.c:736-737 | for moments less than 2^31 ms apart that comparison holds if and only if 113 ms have passed, wrap-around of the clock included |
| CallRuns.SetupPlans | sw/tetra_call_fsm.c:471-516 | a group set-up leaves exactly D-CONNECT and D-SETUP to the sequencer, an individual one only D-SETUP, first due 113 ms later |
| CallConnects.OnlyGroupsConnectUnanswered | sw/tetra_call_fsm.c:471-633 | in every step other than U-CONNECT a D-CONNECT goes only to a mobile that owns a group call |
| CallRuns.NoConnectWhileRinging | sw/tetra_call_fsm.c:764-771 | no tick stages D-CONNECT for an individual call |
| CallRuns.StagedIsSubmitted | sw/tetra_call_fsm.c:736-771 | what the sequencer stages is what the turn submits |
| CallRuns.TurnFollowsPlan | sw/tetra_call_fsm.c:736-803 | a turn moves one PDU at most from plan to log, or drops the plan with the call |
| CallGroups.RunKeepsGroups | sw/tetra_call_fsm.c:387-826 | in every run the groups of running calls stay distinct throughout if and only if no step is a group set-up from a mobile that owns a slot while the group runs on another one |
| CallGroups.NextKeepsGroups | sw/tetra_call_fsm.c:387-826 | a step of any kind keeps the groups distinct if and only if it is not such a set-up |
| CallGroups.OtherStepsKeepGroups | sw/tetra_call_fsm.c:519-877 | every step other than a set-up lets a slot only keep or lose its group |
| CallGroups.SetupKeepsGroups | sw/tetra_call_fsm.c:417-447 | a set-up keeps the groups of running calls distinct if and only if it is not a group call from a mobile that owns a slot while the group runs on another one |
| CallGroups.TwoCallsOneGroup | sw/tetra_call_fsm.c:422-446 | three set-ups after which two slots serve one group |
| CallControl.CallFsm.Handle | sw/tetra_call_fsm.c:387-684 | the handler changes tables, registers and downlink as specified and returns the specified code |
| CallEffects.AnswerSends | sw/tetra_call_fsm.c:605-633 | U-CONNECT for a call sends exactly D-CONNECT to the slot's owner and D-CONNECT-ACK to the called party, else the owner, both with the call's identifier, marker and timeslot bit; then the mask and the filler clear |
| CallEffects.DemandSends | sw/tetra_call_fsm.c:519-556 | U-TX-DEMAND sends exactly one D-TX-GRANTED to its sender, who owns the slot afterwards and speaks |
| CallEffects.CeasedSends | sw/tetra_call_fsm.c:558-603 | U-TX-CEASED sends D-TX-CEASED to the group, else to the sender, three times at first and once later; the mask stays |
| CallEffects.ReleaseSends | sw/tetra_call_fsm.c:646-679 | U-RELEASE and U-DISCONNECT send D-RELEASE with the cause to the sender, empty the slot and make its AACH idle; the filler clears if nobody speaks |
| CallEffects.SetupOf | sw/tetra_call_fsm.c:395-447 | called party and kind of call as functions of the PDU and the registered groups |
| CallEffects.SetupTakesOver | sw/tetra_call_fsm.c:417-438 | a caller without a slot takes over the group's running call with its channel |
| CallEffects.SetupInOwnSlot | sw/tetra_call_fsm.c:387-415 | a caller with a slot keeps it |
| CallEffects.SetupAllocates | sw/tetra_call_fsm.c:440-447 | only otherwise a new slot is tried |
| CallEffects.AllocatedSlot | sw/tetra_call_fsm.c:120-195 | a new call gets the first empty slot, the next identifier and marker, the lowest free voice timeslot and its AACH value 0x3000 + 65 times the marker; without a free timeslot only the counters move on |
| CallEffects.GroupSetupSends | sw/tetra_call_fsm.c:450-497 | a group set-up sends exactly one D-CONNECT with the channel to the caller, the mask and the filler clear |
| CallEffects.RingingSends | sw/tetra_call_fsm.c:498-516 | an individual set-up grants the caller a slot and sends D-CALL-PROCEEDING and D-ALERT to the caller and D-SETUP to the called party, none with a channel |
| CallEffects.NothingServed | sw/tetra_call_fsm.c:387-394 | PDUs of other kinds, without a sender or for no slot change nothing and get -2 or -1 |
| CallEffects.AlertIsInformation | sw/tetra_call_fsm.c:635-645 | U-ALERT for a call is answered with 0 and changes nothing |
| CallEffects.SetupRefused | sw/tetra_call_fsm.c:439-444 | without a slot a set-up returns -1 and sends nothing |
| CallEffects.PduOfKind | sw/tetra_call_fsm.c:219-385 | target, identifier, marker, timeslot bit, sequence numbers and cause of all eight kinds of PDU |
| CallEffects.MarkerFields | sw/tetra_call_fsm.c:132-195 | the AACH value names the marker twice under header 11 and is never the idle value |
| CallNumbers.NumbersFromStart | sw/tetra_call_fsm.c:120-195 | after any run the next call gets identifier 1 + n mod 16383 and marker 4 + n mod 60, where n counts the set-ups of the run for which a new slot was tried |
| CallNumbers.NextTakesNumbers | sw/tetra_call_fsm.c:387-826 | a step moves both counters on exactly if it is such a set-up |
| CallNumbers.FirstMaskIsWritten | sw/tetra_call_fsm.c:35-49 | the first mask is written whatever it is |
| CallControl.CallFsm.RunTick | sw/tetra_call_fsm.c:686-826 | the tick loop does what the specification's turns do |
| CallTicks.TurnAdds | sw/tetra_call_fsm.c:728-803 | one slot's turn sends exactly what is due of its set-up, D-RELEASE and idle AACH for a call that rang longer than 20 s, filler clear and idle AACH for a call without a burst for more than 5 s, the filler clear alone beyond 300 ms |
| CallTicks.QuietTickAdds | sw/tetra_call_fsm.c:728-826 | a tick without bursts sends exactly this for each slot in turn, as it was before the tick, and writes the mask if it changed |
| CallTicks.TurnKeepsOthers | sw/tetra_call_fsm.c:728-817 | every other slot only moves on in its set-up, or the first owner of a heard timeslot is refreshed |
| CallTicks.LimitsAreThese | sw/tetra_call_fsm.c:56-74 | speaking means heard within 300 ms; the watchdog's limits are 20000 ms ringing and 5000 ms connected |
| CallTicks.BurstBumps | sw/tetra_call_fsm.c:868-877 | a burst refreshes the first owner of its timeslot and nobody else |
| CallControl.CallFsm.AllocSlot | sw/tetra_call_fsm.c:158-195 | first free slot, next call identifier and usage marker, lowest free voice timeslot |
| CallControl.CallFsm.ComputeVoiceMask | sw/tetra_call_fsm.c:56-74 | the loop computes the specified mask |
| CallControl.CallFsm.MaskWriteCached | sw/tetra_call_fsm.c:44-49 | the register is written only when the cached value differs |
| CallControl.CallFsm.NotifyUlBurst | sw/tetra_call_fsm.c:868-877 | a burst refreshes the call that owns its timeslot |
| CallControl.CallFsm.NotifyLateEntry | sw/tetra_call_fsm.c:283-299 | D-SETUP again for exactly the connected calls of the group; returns how many there are |
| CallTicks.LateEntryAdds | sw/tetra_call_fsm.c:283-299 | a late entry sends exactly one D-SETUP with the channel to the group for each of its running calls, in slot order, and changes nothing else |
| CallTicks.LateLogCounts | sw/tetra_call_fsm.c:283-299 | these are as many as are counted |
| CellModel.CellRunKeeps | sw/tetra_call_fsm.c:44-74 | under every interleaving with SDS delivery the register's low four bits equal the cache once it is written, and bits 4 and 8 are clear whenever no delivery runs |
| CellModel.ChainsGoOutInOrder | sw/tetra_attach_daemon.c:769-858 | after every run, call-control steps and refused starts in between included, the blocks on the air are those of the accepted chains in order, each once and the running chain as far as it got; none went out in frame 17, and exactly the mobiles of the finished chains were granted a slot, in order |
| CellModel.CellNextKeeps | sw/tetra_attach_daemon.c:769-858 | each single step of either writer keeps the bits, the order of the blocks and the grants |
| CellModel.MaskSurvivesDelivery | sw/tetra_attach_daemon.c:840-848 | any number of delivery steps leave the low bits of the last tick in place |
| SdsModel.StartedInOrder | sw/tetra_attach_daemon.c:769-809 | accepting or refusing a chain keeps the order of the blocks on the air |
| SdsModel.ServicedInOrder | sw/tetra_attach_daemon.c:812-858 | a service call keeps that order, pushes at most the next block, and only in a frame other than the last seen one |
| SdsModel.PushedIff | sw/tetra_attach_daemon.c:812-845 | a block goes out exactly in a new frame other than 17 while the chain has one, except that a chain of up to 16 blocks does not begin so late that it would reach frame 17 |
| SdsModel.PushShowsFiller | sw/tetra_attach_daemon.c:832-845 | every push leaves register bit 4 set, bit 8 set exactly for the last block, all other bits alone, and the block in the filler |
| SdsModel.FillerStays | sw/tetra_attach_daemon.c:812-858 | further service calls keep both bits until the one that ends the chain clears them |
| SdsModel.StartWaitsForFrame | sw/tetra_attach_daemon.c:769-821 | an accepted chain waits for a new frame and touches no register bit |
| CellModel.FillerSurvivesDelivery | sw/tetra_attach_daemon.c:812-858 | any number of delivery steps keep bits 4 and 8 showing block and last block as long as the chain runs |
| CellModel.CallStepAndFiller | sw/tetra_call_fsm.c:44-49 | a call-control step between two pushes keeps bits 4 and 8 if and only if it leaves the cached mask value as it is; otherwise it clears both |
| CellModel.TickHidesFiller | sw/tetra_call_fsm.c:44-49 | a concrete run in which a tick clears the filler bit of a running chain |
| SdsModel.ChainIsGapless | sw/tetra_attach_daemon.c:815-851 | if every frame is seen, n blocks occupy n consecutive frames that end before frame 17 and within 2 n + 2 frames the delivery is over, the filler cleared and the mobile granted a slot |
| SdsModel.ChainOnAir | sw/tetra_attach_daemon.c:832-845 | what such a chain pushes are its blocks |
| SdsSender.FragmentsArrive | sw/tetra_attach_daemon.c:786-845 | a receiver that hears each block of such a chain with at most one wrong bit recovers every fragment in order |
| SdsSender.Sender.DeliveryStart | sw/tetra_attach_daemon.c:769-809 | encodes and starts a chain for a mobile unless one is running |
| SdsSender.Sender.Service | sw/tetra_attach_daemon.c:812-858 | one service call does what the specification says to filler, shared register and grants |
| Daemon.Cells.CallControlStep | sw/tetra_attach_daemon.c:1061-1061 | a call-control step on the shared register is the specified step of both components |
| Daemon.Cells.ServiceSds | sw/tetra_attach_daemon.c:1080-1080 | so is a delivery step |
| NsNrTable.Table.Step | sw/tetra_attach_daemon.c:145-176 | for every sequence of calls the open-addressing table answers as a plain map from mobile to number of calls |
| NsNrTable.AnswersAlternate | sw/tetra_attach_daemon.c:149-172 | a mobile's answers are (0,1) twice, then (1,0) and (0,1) in turn |
| NsNrTable.CountsAreCalls | sw/tetra_attach_daemon.c:145-176 | a mobile in the map has been counted at every call; one outside it never called unless the table is full |
| NsNrTable.SixtyFourAreServed | sw/tetra_attach_daemon.c:145-176 | as long as the calls come from 64 mobiles at most, the table knows all of them |
| NsNrTable.OthersAreTurnedAway | sw/tetra_attach_daemon.c:173-175 | once 64 others are in it, a mobile gets (1,0) at every later call |
| NsNrTable.EmptyMeansAbsent | sw/tetra_attach_daemon.c:149-161 | an empty slot on the probe path shows that the mobile is not in the table |
| NsNrTable.AllPassed | sw/tetra_attach_daemon.c:173-175 | 64 slots used by others: the table is full without the mobile |
| NsNrTable.StoreKeeps | sw/tetra_attach_daemon.c:157-170 | storing where the search stopped keeps everybody's probe path |
| MmLocation.AcceptedIffPrinted | sw/tetra_mm_demand_parser.c:43-191 | a location demand body is accepted if and only if it is a printed demand with anything behind its end |
| MmLocation.DemandOfPrint | sw/tetra_mm_demand_parser.c:43-191 | every subset of optional fields and every list of elements is read back exactly |
| MmLocation.DemandIsPrint | sw/tetra_mm_demand_parser.c:43-191 | what is read back is a well-formed demand that prints to the body |
| MmLocation.WalkMm2 | sw/tetra_mm_demand_parser.c:43-191 | returns 0 exactly for accepted bodies; for a printed demand the report has its class, energy saving, SSI and extension, the upper 14 bits of its location area, and the group of its last location demand element that carries one |
| MmLocation.ReportedFieldByField | sw/tetra_mm_demand_parser.c:67-189 | that report field by field, for every demand |
| MmLocation.LastGildIsLast | sw/tetra_mm_demand_parser.c:118-189 | the reported group is carried by an element behind which none carries one; there is none exactly if no element carries one |
| MmLocation.CarriedIff | sw/tetra_mm_demand_parser.c:130-180 | an element carries a group if and only if it has id 3 and a printed group identity location demand with at least one more bit |
| MmLocation.WalkElements | sw/tetra_mm_demand_parser.c:118-189 | the element loop reads the list, with the last group identity location demand that has the reported form |
| MmLocation.GildOfPrint | sw/tetra_mm_demand_parser.c:130-180 | a printed group identity location demand is reported if and only if at least one more bit follows it |
| MmLocation.WalkGild | sw/tetra_mm_demand_parser.c:147-180 | the nested sub-walk reports a group exactly for payloads of that form |
| MmGroup.GroupAcceptedIffPrinted | sw/tetra_mm_demand_parser.c:196-321 | a group identity body is accepted if and only if it is a printed demand |
| MmGroup.GroupDemandOfPrint | sw/tetra_mm_demand_parser.c:196-321 | every form of the report response and every identity payload is read back |
| MmGroup.GroupDemandIsPrint | sw/tetra_mm_demand_parser.c:196-321 | what is read back prints to the body |
| MmGroup.IdentitiesOfPrint | sw/tetra_mm_demand_parser.c:253-318 | a payload that announces n records and carries the first three or fewer of them is reported exactly, whatever follows |
| MmGroup.RecordIsPrint | sw/tetra_mm_demand_parser.c:261-317 | what is read as one record is well-formed and prints to the bits |
| MmGroupWalker.WalkMm7 | sw/tetra_mm_demand_parser.c:196-321 | returns 0 exactly for accepted bodies; for a printed demand the report has its two flags and, record by record, attachment or detachment, address type, group and class of usage (0 for a detachment) |
| MmGroupWalker.ReportedGroupsFieldByField | sw/tetra_mm_demand_parser.c:253-318 | that report record by record, for every demand |
| MmGroup.PrintedRecordsAreRead | sw/tetra_mm_demand_parser.c:253-318 | a payload that prints the announced records up to three, or fewer before something that is no record, is read back as exactly these |
| MmGroup.ReadRecordsArePrinted | sw/tetra_mm_demand_parser.c:253-318 | and every payload that is read prints such records |
| MmGroupWalker.WalkRecords | sw/tetra_mm_demand_parser.c:261-318 | the record loop reads up to three records and stops at the first incomplete one |
| MmLocation.ReadOptional | sw/tetra_mm_demand_parser.c:67-116 | an optional field is read exactly if it fits into what remains, and position and remainder still add up to the body |
| MmLocation.ReadElement | sw/tetra_mm_demand_parser.c:120-127 | an element header is read exactly if header and payload fit into what remains, and position and remainder still add up to the body |
| MmGroupWalker.WalkField | sw/tetra_mm_demand_parser.c:275-309 | a field of a record is read exactly if it fits into what remains of the element, whose end stays where it is |
| MmBits.ElementsOfPrint | sw/tetra_mm_demand_parser.c:118-189 | a printed list of Type-3 elements is read back |
| MmBits.ElementsIsPrint | sw/tetra_mm_demand_parser.c:118-189 | and only such lists are |
| MmBits.ReadBits | sw/tetra_mm_demand_parser.c:21-31 | n bits most significant first; past the end what is left, without moving the cursor |
| MmBits.FirstBitCountsMost | sw/tetra_mm_demand_parser.c:21-31 | the first of k + 1 bits counts 2^k |

## Left out

- ControlChannels.SchfDecodeSoft: path metrics that reach 2^28, the start value of unreached states; the contract asks for 432 B < 2^28 for received magnitudes up to B.
- ControlChannels.SchhuDecodeSoft: the same with 168 B < 2^28.
- Viterbi.ViterbiR14: path metrics that reach 2^28, the start value of unreached states; the contract asks for 4n < 2^28. The branch metrics of a step are computed for all 32 register values before the add-compare-select pass instead of inside it.
- Viterbi.ViterbiR14Soft: the same for a total received magnitude of 2^28 or more.
- CallControl.CallFsm.Handle: a missing hardware handle, and the fields used for logging only. PDU fields that are constants or echoes of U-SETUP (hook, simplex, priority, basic service) are not part of the PDU model.
- CallRuns.WatchdogIsExact: a tick during which the 32-bit millisecond clock wraps around; bursts of a tick are taken to be heard at its start or later.
- TchSDecoder.SoftBurstSurvives: bursts with weak or wrong values whose magnitudes add up to 2^15 or more; without wrong signs TchSDecoder.CleanSoftBurst says exactly when the bits are restored.
- DecodeDl.ViterbiMaxCorrelation: rounding of floating-point values, which are exact integers here; total magnitudes of 10^18 or more, the script's start value of unreached states.
- MmLocation.WalkMm2: the partly filled output of a body that is rejected, and the packing of the 129 bits into bytes.
- MmGroupWalker.WalkMm7: the partly filled output of a body that is rejected.
- SdsSender.Sender.DeliveryStart: the fragment builder; the contract takes the information bits that it delivers.
- NsNrTable.Table.Step: mobile identities beyond 24 bits, which the packed word would truncate and no caller passes.
- Overlapping input and output buffers: all stages read immutable inputs.
- Signal processing of the scripts (filters, correlation, phase and frequency estimation): floating point without an exact specification.
- PDU builders and the CMCE parser: packing of fixed-width fields; submission is a log entry.
- The subscriber database: only its answer whether a group is registered.
- The voice relay: only the bursts that it reports.
- The RM(30,14) decoder and the rate-1/2 chain of `scripts/gen_d_nwrk_broadcast.py`: separate codes that the modelled chains do not use.
- Files, signals, sockets, the kernel driver, the web interface and the RTL.
