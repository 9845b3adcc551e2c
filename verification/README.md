# Verified models of the QR Code encoder and the blockchain database

This project models two components of the repository in Dafny and proves what they promise.

**The QR Code encoder** (`external/qrcodegen`) turns text into segments, a bit stream, data
codewords, Reed-Solomon blocks, an interleaved codeword sequence and finally a masked symbol, as
sections 7.4 to 7.9 of ISO/IEC 18004:2015 describe. Every stage is modelled as the loops on buffers
and module grids that it is, proved against a declarative function, and shown to be invertible.
Together this gives the end-to-end result: whenever `encodeText` or `encodeBinary` succeeds, a reader
that sees only the modules recovers exactly the input, and at LOW correction success is decided
exactly by the length of the input. `GaloisField`, `Polynomials` and `ReedSolomon` show that the byte
arithmetic is a field, that every block is a codeword with 2^0..2^(degree-1) as zeros, and that half its
correction bytes may be damaged. `SymbolPatterns`, `PenaltyPatterns` and the shape lemmas of `Zigzag`
and `Masking` say what the finished symbol looks like module by module, so that encoder and reader cannot agree on a
layout of their own. `FreeModules` counts, for all 40 versions, the modules the function patterns
leave free.

**The blockchain database layer** (`src/blockchain_db`) is a class whose fields are the LMDB tables.
`Ledger` gives the meaning of every operation on table values, `BlockchainDatabase` runs the source's loops
on the fields. `Reorganization` proves that pop_block undoes add_block from any state and that
chains can be popped and added back; `FailedCalls` and `WriteBatches` say what calls that throw leave
behind, `Traces` exactly when a run with batches ends in the state of its surviving blocks. `LedgerInvariants`,
`ReachableStates` and `Acceptance` derive what holds after all such runs and exactly which blocks are
accepted, `SpentInputs` and `StoredOutputs` say the same on the inputs and outputs themselves;
`Discrepancies` holds the cases that surprise. Two small companions cover the relay-method flags of pool
transactions and the `LockedTXN` batch guard.

## Reading the model

- Bytes of the encoder are lists of eight booleans, most significant first; machine integers that are
  shifted are lists of bits, all others are unbounded.
- Exceptions are `Failure` values of the type `Outcome`. A call of the database layer that throws leaves
  the tables as far as it had written them (`FailedCalls`). In a batch they stay so until the batch is
  stopped or aborted; add_block without a batch runs under a write guard of its caller, which commits
  them; pop_block without a batch has a transaction of its own and restores them.
- A run is clean (`WriteBatches.Clean`) when no failed call has left a trace, or the batch that holds the
  trace was dropped. Committing only batches without a failed add_block, as the blockchain does, keeps
  the tables between batches clean (`CarefulIsReplay`).
- Hashes, keys, commitments and blobs are opaque numbers, and `get_transaction_hash`,
  `get_block_hash`, `zeroCommit`, the prunable hash and `get_pq_input_key_image` are arbitrary functions
  (`Hashing`): every general result holds for all of them.
- Reading `outPk[i]` or an index list beyond its end, or an index list that is missing, is undefined in C++;
  here it is a failure of the call.
- Whether starting or committing an LMDB transaction fails is a parameter of the batch calls.

## Where code, comments and expectations differ

- A version-2 output with a nonzero amount that is not pseudo-RingCT is stored without a commitment,
  although add_transaction passes its mask: `MaskIsStored` gives the exact condition,
  `RevealedAmountLosesMask` a run.
- The comment on upgrade_relay_method says it returns true if the method is now the requested one; the
  code returns false when it already was (`UpgradeToSame`).
- The running RingCT count kept with each block starts again at every block below version 4
  (`CumulativeRctInvariant`, `CumulativeRctDiffers`).
- A failed add_block is not rolled back by itself (`FailedAddUntouched`, `HalfWrittenBatch`).
- A batch guard whose commit failed stays armed. Its destructor ends no other guard's batch if guards are
  nested, but an explicit commit or abort can (`NestedEndsOwn`, `StaleGuardEndsAnother`). After such a
  commit no abort attempt follows the failed one (`AbortFollowsSteps`, `StaleCommitSkipsAbort`).

## Model

| member | source | states |
|---|---|---|
| `GaloisField.Multiply` | external/qrcodegen/QrCode.cpp:772-782 | The shift-and-add loop returns the field product; its final overflow check cannot fail |
| `GaloisField.MulCommutes` | external/qrcodegen/QrCode.cpp:772-782 | The product is commutative |
| `GaloisField.MulAssociates` | external/qrcodegen/QrCode.cpp:772-782 | ... associative |
| `GaloisField.MulDistributes` | external/qrcodegen/QrCode.cpp:772-782 | ... and distributes over exclusive or, on both sides |
| `GaloisField.MulIdentity` | external/qrcodegen/QrCode.cpp:772-782 | 1 is its identity |
| `GaloisField.MulInverse` | external/qrcodegen/QrCode.cpp:772-782 | Every nonzero byte has an inverse, so bytes form the field GF(2^8)/0x11D |
| `GaloisField.NoZeroDivisors` | external/qrcodegen/QrCode.cpp:772-782 | A product is zero only if a factor is |
| `GaloisField.OrderOfTwo` | external/qrcodegen/QrCode.cpp:742-754 | 2 has order 255: no smaller power of it is 1 |
| `GaloisField.PowersOfTwoDistinct` | external/qrcodegen/QrCode.cpp:742-754 | The roots the divisor loop runs through are all different |
| `Polynomials.EvalProduct` | external/qrcodegen/QrCode.cpp:734-769 | Evaluating a product of byte polynomials gives the field product of the values |
| `Polynomials.VanishingPowerSums` | external/qrcodegen/QrCode.cpp:734-769 | Vandermonde argument: as many vanishing power sums as terms with distinct exponents force all coefficients to zero |
| `Polynomials.MinimumDistance` | external/qrcodegen/QrCode.cpp:734-769 | Two different words of at most 255 bytes that vanish at 2^0..2^(n-1) differ in more than n places |
| `ReedSolomon.GeneratorRoots` | external/qrcodegen/QrCode.cpp:742-754 | The divisor polynomial vanishes at x if and only if x is one of 2^0..2^(degree-1) |
| `ReedSolomon.MultiplyByRoot` | external/qrcodegen/QrCode.cpp:747-752 | The inner loop, in place, multiplies by (x - root) and drops the leading term |
| `ReedSolomon.ComputeDivisor` | external/qrcodegen/QrCode.cpp:734-756 | Fails exactly outside degrees 1..255, else returns the product of (x - 2^i) without its leading 1 |
| `ReedSolomon.AddMultiple` | external/qrcodegen/QrCode.cpp:765-766 | The inner loop adds a multiple of the divisor |
| `ReedSolomon.ComputeRemainder` | external/qrcodegen/QrCode.cpp:759-769 | Returns the remainder of the data shifted up by the degree; fails only on data with an empty divisor |
| `ReedSolomon.DivisionIdentity` | external/qrcodegen/QrCode.cpp:759-769 | Data followed by the remainder is quotient times divisor: the loop is polynomial division |
| `ReedSolomon.EncodeGivesCodeword` | external/qrcodegen/QrCode.cpp:734-769 | Data followed by its remainder vanishes at each of 2^0..2^(degree-1), for every byte string and degree |
| `ReedSolomon.EncodeIsOnlyCodeword` | external/qrcodegen/QrCode.cpp:734-769 | In a block of at most 255 bytes no other error correction bytes do so |
| `ReedSolomon.ErrorsAreCorrectable` | external/qrcodegen/QrCode.cpp:734-769 | A block with at most degree/2 wrong bytes belongs to one data string only |
| `Tables.RawModulesInRange` | external/qrcodegen/QrCode.cpp:711-724 | The range check at the end of getNumRawDataModules never fires |
| `Tables.TablesFit` | external/qrcodegen/QrCode.cpp:727-731 | For every version and level the tables leave between 1 and 2956 data codewords and blocks of one or two lengths |
| `Blocks.LayoutOf` | external/qrcodegen/QrCode.cpp:533-538 | The computed block counts and lengths account for every raw codeword and every data codeword |
| `Blocks.StartStep` | external/qrcodegen/QrCode.cpp:543-545 | Splitting consumes the data bytes consecutively, from the first to the last |
| `Blocks.MakeBlock` | external/qrcodegen/QrCode.cpp:541-551 | One turn of the splitting loop yields the block with its error correction bytes and padding byte |
| `Blocks.InterleaveBlocks` | external/qrcodegen/QrCode.cpp:553-561 | The interleaving loop emits the codewords in row order without the padding |
| `Blocks.AddEccAndInterleave` | external/qrcodegen/QrCode.cpp:529-565 | Fails exactly on a wrong data length, else returns the interleaved codewords; the length check at the end cannot fail |
| `Blocks.LocatePosition` | external/qrcodegen/QrCode.cpp:553-561 | Every non-padding byte has a place in the output, and no two share one |
| `Blocks.PositionLocate` | external/qrcodegen/QrCode.cpp:553-561 | Every place in the output holds a non-padding byte |
| `Blocks.PositionStep` | external/qrcodegen/QrCode.cpp:553-561 | The order: within a row from block to block, then the next row, padding taking no place |
| `Blocks.InterleavedAt` | external/qrcodegen/QrCode.cpp:553-561 | The byte at a place is the byte of its block and row |
| `Blocks.BlockOfInterleaved` | external/qrcodegen/QrCode.cpp:529-565 | Every block taken out of the interleaved sequence is the Reed-Solomon codeword of its data |
| `Blocks.Deinterleave` | external/qrcodegen/QrCode.cpp:529-565 | De-interleaving and dropping the error correction bytes returns the data |
| `Blocks.DamageIsCorrectable` | external/qrcodegen/QrCode.cpp:529-565 | With at most half the correction bytes of each block damaged, the received codewords stand for one data string only |
| `Zigzag.CellOfVisit` | external/qrcodegen/QrCode.cpp:574-581 | The scan reaches every module outside column 6 ... |
| `Zigzag.VisitOfCell` | external/qrcodegen/QrCode.cpp:574-581 | ... exactly once, and never column 6 |
| `Zigzag.ScanCoversGrid` | external/qrcodegen/QrCode.cpp:574-581 | It makes size * size - size visits |
| `Zigzag.ScanStarts` | external/qrcodegen/QrCode.cpp:578-583 | The first module visited is the bottom right corner |
| `Zigzag.ScanSteps` | external/qrcodegen/QrCode.cpp:578-583 | The shape of the scan: to the left neighbor, then diagonally to the next row of the pair, up in the first pair of columns, down in the second and so on; at the end of a pair one column further left in the same row, column 6 jumped over |
| `Zigzag.PlaceBit` | external/qrcodegen/QrCode.cpp:578-585 | The innermost body writes the next bit to a free module and skips function modules |
| `Zigzag.DrawColumnPair` | external/qrcodegen/QrCode.cpp:574-589 | One pair of columns, upwards or downwards |
| `Zigzag.DrawCodewords` | external/qrcodegen/QrCode.cpp:572-593 | The grid after the loop is the drawing of the bits, whatever their number; all bits are placed if and only if the free modules suffice; the first bit goes to the bottom right corner if that is free |
| `Zigzag.DrawKeeps` | external/qrcodegen/QrCode.cpp:568-593 | Function modules, column 6 and modules beyond the last bit keep their color |
| `Zigzag.ScanDrawn` | external/qrcodegen/QrCode.cpp:568-593 | If the free modules suffice, scanning the drawn grid again returns the bits |
| `FunctionPatterns.SetFunctionModule` | external/qrcodegen/QrCode.cpp:516-521 | Colors one module and marks it as a function module, nothing else |
| `FunctionPatterns.DrawTiming` | external/qrcodegen/QrCode.cpp:418-421 | Draws the two timing lines |
| `FunctionPatterns.DrawPattern` | external/qrcodegen/QrCode.cpp:496-513 | Draws concentric squares, leaving out modules beyond the border |
| `FunctionPatterns.AlignmentPositions` | external/qrcodegen/QrCode.cpp:695-708 | Returns the ascending list of positions |
| `FunctionPatterns.AlignGeometry` | external/qrcodegen/QrCode.cpp:695-708 | The positions are at least 12 apart, start at 6 and end at size - 7 |
| `FunctionPatterns.AlignSpacing` | external/qrcodegen/QrCode.cpp:699-701 | The distance is even and the smallest that is not below the average distance, version 32 excepted |
| `FunctionPatterns.AlignInBounds` | external/qrcodegen/QrCode.cpp:695-708 | All positions leave room for their patterns |
| `FunctionPatterns.DrawAlignmentPatterns` | external/qrcodegen/QrCode.cpp:428-437 | Draws a pattern at every pair of positions but the three corners |
| `Checksums.ShiftedIsRemainder` | external/qrcodegen/QrCode.cpp:448-450 | For every register, polynomial and number of shifts, what the shift loop leaves is the remainder of the shifted register over GF(2), and the only one |
| `Checksums.FormatWordIsMultiple` | external/qrcodegen/QrCode.cpp:445-453 | Unmasked, the format word is a multiple of 0x537, for every level and mask |
| `Checksums.VersionWordIsMultiple` | external/qrcodegen/QrCode.cpp:473-482 | The version word is a multiple of 0x1F25, for every version |
| `Checksums.ChecksumConstants` | external/qrcodegen/QrCode.cpp:448-451 | The polynomials and the fixed pattern are the numbers 0x537, 0x5412 and 0x1F25 |
| `FunctionPatterns.DrawFormatBits` | external/qrcodegen/QrCode.cpp:445-470 | Writes both copies of the format word and the dark module, and no others |
| `FunctionPatterns.DrawVersion` | external/qrcodegen/QrCode.cpp:473-493 | Writes both copies of the version word from version 7 on |
| `FunctionPatterns.DrawFunctionPatterns` | external/qrcodegen/QrCode.cpp:416-442 | Draws all function patterns |
| `FunctionPatterns.PatternsTouch` | external/qrcodegen/QrCode.cpp:416-442 | The modules touched are exactly those of a closed description, so the drawing order does not matter for the markings |
| `FunctionPatterns.FunctionGridDrawn` | external/qrcodegen/QrCode.cpp:416-442 | From an unmarked grid the markings become that description |
| `FreeModules.RankIsAllColumns` | external/qrcodegen/QrCode.cpp:568-593 | The scan meets as many free modules as the columns hold |
| `FreeModules.FreeModuleCount` | external/qrcodegen/QrCode.cpp:711-724 | For every version the free modules left by the function patterns number exactly getNumRawDataModules |
| `Penalty.ExpandRunList` | external/qrcodegen/QrCode.cpp:624-667 | The list of runs expands to the line ... |
| `Penalty.RunListExpand` | external/qrcodegen/QrCode.cpp:624-667 | ... and is the only run list that does |
| `Penalty.AddHistory` | external/qrcodegen/QrCode.cpp:806-811 | The history holds the last seven runs, the white border joined to the first |
| `Penalty.CountPatterns` | external/qrcodegen/QrCode.cpp:785-792 | Counts finder patterns at the end of the runs seen; its length check cannot fail |
| `Penalty.EndRun` | external/qrcodegen/QrCode.cpp:636-640 | What the end of a run adds to history and score |
| `Penalty.NextRun` | external/qrcodegen/QrCode.cpp:635-641 | A change of color in the line scan |
| `Penalty.TerminateAndCount` | external/qrcodegen/QrCode.cpp:795-803 | The end of a line, with the white border added to the last run |
| `Penalty.LinePenalty` | external/qrcodegen/QrCode.cpp:624-644 | The scan of a line returns L - 2 for every maximal run of length L >= 5, and 40 for every finder pattern in the bordered run list |
| `Penalty.BalanceLevelIsSmallest` | external/qrcodegen/QrCode.cpp:687-690 | On an odd number of modules the formula gives the smallest k >= 0 with a black share between (45-5k)% and (55+5k)% |
| `Penalty.RowsPenalty` | external/qrcodegen/QrCode.cpp:624-644 | The rows of the grid |
| `Penalty.ColumnsPenalty` | external/qrcodegen/QrCode.cpp:646-666 | The columns of the grid |
| `Penalty.BlocksPenalty` | external/qrcodegen/QrCode.cpp:669-677 | 3 for every 2 by 2 block of one color |
| `Penalty.CountBlack` | external/qrcodegen/QrCode.cpp:680-686 | The number of black modules |
| `Penalty.GetPenaltyScore` | external/qrcodegen/QrCode.cpp:620-692 | The whole score is the declarative one; on every odd size its balance term is 10 times the smallest k that meets the bounds |
| `Penalty.ScoreLevels` | external/qrcodegen/QrCode.cpp:687-690 | The same of the score function: any k that is smallest is the one counted |
| `PenaltyPatterns.FindersOnModules` | external/qrcodegen/QrCode.cpp:785-811 | The finder-like patterns counted for a line are the pairs of a start and a unit u at which the line between white borders shows u black, u white, 3u black, u white, u black modules with 4u white before and u after, plus those with the sides swapped |
| `PenaltyPatterns.RunsOnModules` | external/qrcodegen/QrCode.cpp:629-636 | Runs cost one point for every five equal modules in a row and two for every maximal run that has such |
| `PenaltyPatterns.LineScoreOnModules` | external/qrcodegen/QrCode.cpp:624-644 | Both together: the penalty of a row or column read off its modules |
| `PenaltyPatterns.CountBlocks` | external/qrcodegen/QrCode.cpp:668-677 | The blocks counted are the 2 by 2 squares of one color, each once |
| `PenaltyPatterns.CountBlackModules` | external/qrcodegen/QrCode.cpp:679-685 | The count of black modules is the size of their set |
| `PenaltyPatterns.ScoreOnModules` | external/qrcodegen/QrCode.cpp:620-692 | The score of every grid of odd size in these terms |
| `Penalty.ScoreBound` | external/qrcodegen/QrCode.cpp:340-348 | A score is below the initial minimum of the mask search, even with a 32-bit long |
| `Masking.ApplyMask` | external/qrcodegen/QrCode.cpp:596-617 | Refuses masks outside 0..7; else inverts exactly the codeword modules the mask selects |
| `Masking.CheckersAndRows` | external/qrcodegen/QrCode.cpp:604-605 | Mask 0 changes with every step right or down; mask 1 is constant along rows and changes with every step down |
| `Masking.ColumnsAndDiagonals` | external/qrcodegen/QrCode.cpp:606-607 | Masks 2 and 3 are constant along columns and anti-diagonals, of which they invert one in three |
| `Masking.TileCheckers` | external/qrcodegen/QrCode.cpp:608-608 | Mask 4 is constant on tiles three wide and two high and changes from each to its neighbors |
| `Masking.RepeatedTiles` | external/qrcodegen/QrCode.cpp:609-611 | Masks 5, 6 and 7 repeat the listed tile of 6 by 6 modules in both directions and are symmetric in x and y |
| `Masking.CornerInverted` | external/qrcodegen/QrCode.cpp:603-611 | All eight invert the top left corner |
| `Masking.MaskTwice` | external/qrcodegen/QrCode.cpp:596-617 | Applying a mask twice undoes it |
| `Masking.FormatOverMask` | external/qrcodegen/QrCode.cpp:445-470 | Masking leaves format information alone and drawing it replaces the old one |
| `Masking.TrialGrid` | external/qrcodegen/QrCode.cpp:341-350 | Whatever format information earlier trials left, a trial shows the symbol with that mask forced, and undoing it restores the codeword modules |
| `Masking.TryMask` | external/qrcodegen/QrCode.cpp:341-350 | One trial returns the penalty of the symbol with that mask forced, and changes no codeword module |
| `Masking.ChooseMask` | external/qrcodegen/QrCode.cpp:338-351 | The search returns the lowest-numbered mask of minimal penalty |
| `QrCodes.QrCode.constructor` | external/qrcodegen/QrCode.cpp:320-360 | The finished modules are the symbol for the data under the stored mask; with mask -1 the stored mask is the best one and the symbol the one forcing it gives; no internal check can fail |
| `QrCodes.QrCode.Create` | external/qrcodegen/QrCode.cpp:320-360 | Exactly which arguments are refused, and with which exception; else the symbol, under the best mask if none is forced |
| `QrCodes.FinishMask` | external/qrcodegen/QrCode.cpp:352-356 | Applying the chosen mask and drawing its format bits gives the symbol |
| `QrCodes.FormatModulesMarked` | external/qrcodegen/QrCode.cpp:416-470 | All format modules are function modules, so masks never touch them |
| `QrCodes.PlaceCodewords` | external/qrcodegen/QrCode.cpp:568-593 | drawCodewords with both its checks: exactly when each fails, and what is drawn |
| `QrCodes.DecodeFormatWord` | external/qrcodegen/QrCode.cpp:445-453 | The format word determines level and mask |
| `QrCodes.ReadFormatted` | external/qrcodegen/QrCode.cpp:455-462 | Reading the first copy of the format modules returns the format word |
| `QrCodes.ScanBitsAgree` | external/qrcodegen/QrCode.cpp:568-593 | The scan depends on the free modules only |
| `QrCodes.UnmaskFinished` | external/qrcodegen/QrCode.cpp:352-356 | Unmasking a finished symbol with its mask gives back the codeword modules |
| `QrCodes.ReadCodewordsOf` | external/qrcodegen/QrCode.cpp:320-360 | Unmask, scan, de-interleave: the data codewords come back |
| `QrCodes.ReadSymbolOf` | external/qrcodegen/QrCode.cpp:320-360 | From the modules alone one reads the version, level, mask and data codewords the symbol was made from |
| `QrCodes.SymbolShowsItself` | external/qrcodegen/QrCode.cpp:320-360 | Without damage a symbol is within the tolerance of its own data |
| `QrCodes.DamagedSymbolReads` | external/qrcodegen/QrCode.cpp:320-360 | A grid with intact format information and at most half the correction bytes of each block wrong shows only one level, mask and data |
| `SymbolPatterns.FunctionModuleShown` | external/qrcodegen/QrCode.cpp:320-360 | A finished symbol shows every function pattern as drawn: codewords and masks leave them alone |
| `SymbolPatterns.FinderShown` | external/qrcodegen/QrCode.cpp:496-505 | The finder patterns in three corners of the finished symbol, module by module, 1:1:3:1:1 through the center and with a white border |
| `SymbolPatterns.AlignmentShown` | external/qrcodegen/QrCode.cpp:508-513 | The alignment patterns of the finished symbol, module by module, for every pair of positions but three |
| `SymbolPatterns.TimingShown` | external/qrcodegen/QrCode.cpp:417-421 | Both timing lines alternate all the way between the finder patterns, alignment patterns on them included |
| `SymbolPatterns.FormatShown` | external/qrcodegen/QrCode.cpp:455-469 | Both copies of the format information show the word for level and mask bit by bit, and the module above the second is black |
| `SymbolPatterns.VersionShown` | external/qrcodegen/QrCode.cpp:473-493 | From version 7 on both copies of the version information show the version word, whose first six bits are the version |
| `Bits.BitBuffer.AppendBits` | external/qrcodegen/QrCode.cpp:855-860 | Appends the value in the given number of bits; refuses a bad length or a value too large |
| `Bits.NumberOfBits` | external/qrcodegen/QrCode.cpp:855-860 | The appended bits are the binary notation of the value ... |
| `Bits.BitsOfNumber` | external/qrcodegen/QrCode.cpp:855-860 | ... and the only one of that length |
| `Segments.CharsetRoundTrip` | external/qrcodegen/QrCode.cpp:228-228 | Every character of the alphanumeric charset is recovered from its index |
| `Segments.CharsetPlace` | external/qrcodegen/QrCode.cpp:106-109 | The index of a character is its place in the charset string |
| `Segments.CountWidths` | external/qrcodegen/QrCode.cpp:55-64 | The mode indicators, and the widths of the count fields for versions 1 to 9, 10 to 26 and 27 to 40 |
| `Segments.MakeBytes` | external/qrcodegen/QrCode.cpp:67-74 | Refuses more than INT_MAX bytes, else eight bits a byte |
| `Segments.MakeNumeric` | external/qrcodegen/QrCode.cpp:77-97 | Refuses a non-digit, else three digits to ten bits, two to seven, one to four |
| `Segments.MakeAlphanumeric` | external/qrcodegen/QrCode.cpp:100-120 | Refuses a character outside the charset, else two characters to eleven bits, one to six |
| `Segments.MakeEci` | external/qrcodegen/QrCode.cpp:141-156 | Refuses values outside 0..999999, else the prefix code of 8, 16 or 24 bits |
| `Segments.ParseNumericBits` | external/qrcodegen/QrCode.cpp:77-97 | Numeric bits parse back to the digits, whatever follows |
| `Segments.ParseAlphanumericBits` | external/qrcodegen/QrCode.cpp:100-120 | Alphanumeric bits parse back to the characters, whatever follows |
| `Segments.ParseByteModeBits` | external/qrcodegen/QrCode.cpp:67-74 | Byte mode bits parse back to the bytes, whatever follows |
| `Segments.ParseEciBits` | external/qrcodegen/QrCode.cpp:141-156 | ECI bits parse back to the assignment value, whatever follows |
| `Streams.StreamLength` | external/qrcodegen/QrCode.cpp:287-295 | The stream of the segments is as long as the lengths add up to |
| `Streams.GetTotalBits` | external/qrcodegen/QrCode.cpp:177-191 | Returns that length, or -1 exactly when a character count does not fit its field or the length exceeds INT_MAX |
| `Streams.ParseOneContent` | external/qrcodegen/QrCode.cpp:287-295 | One segment parses back to its contents |
| `Streams.ParseStream` | external/qrcodegen/QrCode.cpp:287-304 | A list of segments followed by a terminator, or by too few bits for one, parses back to the list |
| `Encoder.ChooseVersion` | external/qrcodegen/QrCode.cpp:260-279 | The smallest version in range that fits; fails exactly when none does |
| `Encoder.BoostEcl` | external/qrcodegen/QrCode.cpp:281-285 | Never below the level asked for; with boosting the highest level that fits |
| `Encoder.AppendSegments` | external/qrcodegen/QrCode.cpp:287-295 | Appends mode, character count and data of every segment; no appendBits check fires |
| `Encoder.PadBuffer` | external/qrcodegen/QrCode.cpp:297-308 | Terminator, alignment and alternating pad bytes fill the capacity exactly |
| `Encoder.PackBuffer` | external/qrcodegen/QrCode.cpp:310-313 | Packs the bits into bytes, most significant first |
| `Encoder.FillCodewords` | external/qrcodegen/QrCode.cpp:287-313 | The packed bytes number exactly getNumDataCodewords |
| `Encoder.PaddedEnds` | external/qrcodegen/QrCode.cpp:297-308 | The segments are a prefix of the padded stream, and what follows starts with a terminator unless fewer than four bits are left |
| `Encoder.PadCodewords` | external/qrcodegen/QrCode.cpp:297-308 | The data codewords are the stream, zeros up to the end of the byte in which its terminator ends, then 0xEC and 0x11 in turn |
| `Encoder.UnpackPacked` | external/qrcodegen/QrCode.cpp:310-313 | Packing loses no bit |
| `Encoder.CodewordsParseBack` | external/qrcodegen/QrCode.cpp:287-313 | The data codewords of any valid contents that fit parse back to these contents |
| `Encoder.EncodeSegments` | external/qrcodegen/QrCode.cpp:255-317 | Exactly when it fails and how; else the smallest version, the promised level, and the symbol of the data codewords under the forced or the best mask |
| `Encoder.IsNumeric` | external/qrcodegen/QrCode.cpp:203-209 | Whether all characters are digits |
| `Encoder.IsAlphanumeric` | external/qrcodegen/QrCode.cpp:194-200 | Whether all characters are in the charset |
| `Encoder.MakeSegments` | external/qrcodegen/QrCode.cpp:123-138 | No segment, or one: numeric if the text allows, else alphanumeric if it allows, else bytes; refuses only bytes beyond INT_MAX |
| `Encoder.MostCompact` | external/qrcodegen/QrCode.cpp:123-138 | For every nonempty text and version, no other mode that can hold the text gives a shorter stream |
| `Encoder.SymbolReadsBack` | external/qrcodegen/QrCode.cpp:255-360 | Every symbol made from valid contents, in any version, level and mask that fit, reads back as these contents |
| `Encoder.DamagedContentsRead` | external/qrcodegen/QrCode.cpp:255-360 | Such a grid shows the contents of one symbol only |
| `Encoder.EncodingReadsBack` | external/qrcodegen/QrCode.cpp:255-317 | So does every symbol encodeSegments returns |
| `Encoder.EncodeText` | external/qrcodegen/QrCode.cpp:243-246 | Whenever it succeeds, reading the modules returns exactly the text; it fails only if no version fits; at LOW it succeeds if and only if the text has at most 7089 digits, 4296 alphanumeric or 2953 other characters |
| `Encoder.EncodeBinary` | external/qrcodegen/QrCode.cpp:249-252 | Whenever it succeeds, reading the modules returns exactly the bytes; it fails only if no version fits; at LOW it succeeds if and only if there are at most 2953 |
| `Encoder.TextFits` | external/qrcodegen/QrCode.hpp:258-265 | At LOW every text of at most 2953 characters fits, whichever mode is chosen |
| `Encoder.TextFitsExactly` | external/qrcodegen/QrCode.hpp:258-265 | At LOW a text fits some version if and only if it has at most 7089 digits, 4296 alphanumeric or 2953 other characters |
| `Encoder.BytesFit` | external/qrcodegen/QrCode.hpp:268-274 | At LOW a byte string fits if and only if it has at most 2953 bytes |
| `Encoder.TooLongForAnyVersion` | external/qrcodegen/QrCode.cpp:67-74 | A byte string that makeBytes refuses would not fit any version |
| `BlockchainDatabase.HasPqInput` | src/cryptonote_basic/cryptonote_format_utils.cpp:969-975 | Whether an input is a transparent post-quantum one |
| `BlockchainDatabase.OutputsStoredAsPseudoRct` | src/blockchain_db/blockchain_db.cpp:197-205 | The pseudo-RingCT rule: a version-2 coinbase, or a post-quantum input with a null RingCT type |
| `BlockchainDatabase.NumOutputsInRctBucket` | src/blockchain_db/blockchain_db.cpp:207-216 | The count is the number of outputs the rule stores under amount 0 |
| `BlockchainDatabase.BlockchainDb.AddSpentKey` | src/blockchain_db/lmdb/db_lmdb.cpp:1262-1277 | Refuses a key image already present |
| `BlockchainDatabase.BlockchainDb.RemoveSpentKey` | src/blockchain_db/lmdb/db_lmdb.cpp:1279-1295 | Removes the key image if present, and tolerates its absence |
| `BlockchainDatabase.BlockchainDb.SpendInputs` | src/blockchain_db/blockchain_db.cpp:240-262 | Records real and synthetic key images in order; fails on the first repeated one or unsupported input, and then leaves those before it |
| `BlockchainDatabase.BlockchainDb.UnspendInputs` | src/blockchain_db/blockchain_db.cpp:406-416 | Removes them |
| `BlockchainDatabase.BlockchainDb.AddOutput` | src/blockchain_db/lmdb/db_lmdb.cpp:1050-1115 | The new record is the last of its bucket and of the global list, its index in the bucket is returned, and other buckets stay; what a refused output leaves |
| `BlockchainDatabase.BlockchainDb.RemoveOutput` | src/blockchain_db/lmdb/db_lmdb.cpp:1170-1213 | Removes an output by amount and index from both tables; other buckets stay, and a failure changes nothing |
| `BlockchainDatabase.BlockchainDb.StoreOutputs` | src/blockchain_db/blockchain_db.cpp:295-317 | Stores every output of a transaction by the bucket rule; on failure the ones before it stay stored |
| `BlockchainDatabase.BlockchainDb.RemoveTxOutputs` | src/blockchain_db/lmdb/db_lmdb.cpp:1140-1168 | Removes them by the same rule, last first |
| `BlockchainDatabase.BlockchainDb.AddTransactionData` | src/blockchain_db/lmdb/db_lmdb.cpp:890-970 | Refuses a known hash, else files the transaction under the next id in every table; what a failure leaves |
| `BlockchainDatabase.BlockchainDb.RemoveTransactionData` | src/blockchain_db/lmdb/db_lmdb.cpp:974-1048 | Removes the transaction from every table |
| `BlockchainDatabase.BlockchainDb.AddTransaction` | src/blockchain_db/blockchain_db.cpp:218-319 | The new tables, or the exception and the tables it leaves |
| `BlockchainDatabase.BlockchainDb.RemoveTransaction` | src/blockchain_db/blockchain_db.cpp:402-420 | The new tables, or the exception and the tables it leaves |
| `BlockchainDatabase.BlockchainDb.AddBlockData` | src/blockchain_db/lmdb/db_lmdb.cpp:775-851 | Refuses a known block or a wrong parent, else files block, height and running RingCT count |
| `BlockchainDatabase.BlockchainDb.RemoveBlock` | src/blockchain_db/lmdb/db_lmdb.cpp:853-888 | Removes the top block from its tables; a failure changes nothing |
| `BlockchainDatabase.BlockchainDb.AddBlockToTables` | src/blockchain_db/blockchain_db.cpp:321-373 | add_block of the base class: the new tables, or the exception and the half-written tables it leaves |
| `BlockchainDatabase.BlockchainDb.PopBlockFromTables` | src/blockchain_db/blockchain_db.cpp:380-395 | pop_block of the base class: the new tables, or the exception and the tables it leaves |
| `BlockchainDatabase.BlockchainDb.AddBlock` | src/blockchain_db/lmdb/db_lmdb.cpp:4124-4150 | No rollback: a failed call leaves what it wrote, and nothing changed exactly when its check comes before any write; after a clean run it succeeds if and only if the block is acceptable after the surviving ones |
| `BlockchainDatabase.BlockchainDb.PopBlock` | src/blockchain_db/lmdb/db_lmdb.cpp:4154-4172 | In a batch a failure leaves what was removed, else its own transaction is aborted, also when its commit fails; after a clean run it fails exactly on the empty chain or with its commit, and else returns the last surviving block with its transactions in reverse order and leaves the state of the others |
| `BlockchainDatabase.BlockchainDb.StartBatch` | src/blockchain_db/lmdb/db_lmdb.cpp:3844-3884 | Remembers the tables; false if a batch is open; a start that throws changes nothing |
| `BlockchainDatabase.BlockchainDb.StopBatch` | src/blockchain_db/lmdb/db_lmdb.cpp:3924-3951 | Keeps the tables as they are; restores those of the start if the commit fails |
| `BlockchainDatabase.BlockchainDb.AbortBatch` | src/blockchain_db/lmdb/db_lmdb.cpp:3953-3974 | Restores the tables of the start |
| `Reorganization.SpendIsFresh` | src/blockchain_db/blockchain_db.cpp:240-262 | Inputs can be spent if and only if all are supported and their key images are new and different; then these are what is added |
| `Reorganization.UnspendUndoes` | src/blockchain_db/blockchain_db.cpp:406-416 | Removing the key images undoes recording them |
| `Reorganization.RemoveOutputUndoes` | src/blockchain_db/lmdb/db_lmdb.cpp:1170-1213 | remove_output undoes add_output, from any state |
| `Reorganization.RemoveOutputsUndoes` | src/blockchain_db/lmdb/db_lmdb.cpp:1140-1168 | Removing outputs last first undoes storing them |
| `Reorganization.RemoveTransactionUndoes` | src/blockchain_db/blockchain_db.cpp:402-420 | remove_transaction undoes add_transaction and the transaction can be read whole in between |
| `Reorganization.RemoveBlockUndoes` | src/blockchain_db/lmdb/db_lmdb.cpp:853-888 | The hook remove_block undoes the hook add_block |
| `Reorganization.PopUndoesAdd` | src/blockchain_db/blockchain_db.cpp:380-395 | From any state, pop_block undoes add_block and returns the block and its transactions in reverse order |
| `Reorganization.PopAndAddBack` | src/blockchain_db/blockchain_db.cpp:380-395 | Popping any k blocks of a chain and adding each back with its returned transactions reversed reproduces the identical state, all indices included |
| `Reorganization.AddBackUnreversed` | src/blockchain_db/blockchain_db.cpp:386-393 | Adding a popped block back without reversing gives the same state if and only if the list equals its reverse |
| `FailedCalls.SpendLeftSame` | src/blockchain_db/blockchain_db.cpp:240-262 | A failed loop over the inputs leaves the spent keys unchanged if and only if no input before the refused one brings a key image |
| `FailedCalls.FailedTransactionUntouched` | src/blockchain_db/blockchain_db.cpp:218-262 | Exactly when a failed add_transaction leaves the tables unchanged |
| `FailedCalls.FailedAddUntouched` | src/blockchain_db/blockchain_db.cpp:321-358 | From any state, a failed add_block leaves the tables unchanged if and only if its failing check comes before any write: a condition on the block, the spent keys and the transaction index |
| `WriteBatches.RunIsReplay` | src/blockchain_db/blockchain_db.cpp:321-420 | After any run of add_block, pop_block, batch starts, stops and aborts in which no failed call has left a trace, the state is that of adding the surviving blocks in order |
| `WriteBatches.FailedAddBreaksReplay` | src/cryptonote_core/blockchain.cpp:4846-4866 | After a clean run, a failed add_block breaks that if and only if its failing check comes after a write |
| `WriteBatches.AbortRestores` | src/blockchain_db/lmdb/db_lmdb.cpp:3953-3974 | Whatever is called in a batch and whichever calls fail, aborting it restores the tables it started from |
| `WriteBatches.CarefulIsReplay` | src/cryptonote_core/blockchain.cpp:5205-5221 | If a batch with a failed add_block is never committed, the state between batches, and in a batch without a failure, is that of the surviving blocks |
| `Traces.ReplayIsClean` | src/blockchain_db/blockchain_db.cpp:321-420 | After any run, failed calls included, the state is that of adding the surviving blocks in order if and only if every failed add_block that wrote something was in a batch dropped since |
| `Traces.AddedSpoilt` | src/blockchain_db/blockchain_db.cpp:321-373 | No later add_block hides what a failed one left ... |
| `Traces.LeftSpoilt` | src/blockchain_db/blockchain_db.cpp:321-373 | ... nor does another that throws ... |
| `Traces.PoppedSpoilt` | src/blockchain_db/blockchain_db.cpp:380-395 | ... nor does pop_block |
| `WriteBatches.PopSucceeds` | src/blockchain_db/blockchain_db.cpp:380-395 | After a clean run pop_block succeeds if and only if a block survives |
| `LedgerInvariants.AddOutputAppends` | src/blockchain_db/lmdb/db_lmdb.cpp:1050-1115 | The output becomes the last of its bucket and of the global list; all other buckets stay |
| `LedgerInvariants.StoreOutputsPlaces` | src/blockchain_db/blockchain_db.cpp:295-317 | All returned indices point to the outputs themselves, and every bucket grows by the outputs the rule sends there |
| `LedgerInvariants.NumRctOutsIsCount` | src/blockchain_db/blockchain_db.cpp:207-216 | Counting and storing agree on bucket 0 |
| `LedgerInvariants.TablesStillHold` | src/blockchain_db/blockchain_db.cpp:218-319 | add_transaction keeps earlier transactions and their outputs where they were |
| `LedgerInvariants.KeysStillHold` | src/blockchain_db/blockchain_db.cpp:240-262 | The spent keys stay the key images of the stored inputs, without repetition |
| `ReachableStates.ReplayHolds` | src/blockchain_db/blockchain_db.cpp:321-373 | Adding blocks leaves tables that hold exactly their transactions, outputs, key images and blocks |
| `ReachableStates.OutputsInvariant` | src/blockchain_db/blockchain_db.cpp:295-318 | After every clean run, for every stored transaction and output i, index i points in the bucket of the rule to that output, with zeroCommit(amount) if pseudo-RingCT and its mask if RingCT, hybrids included; every bucket has exactly the outputs the rule sends to it |
| `ReachableStates.SpentKeysInvariant` | src/blockchain_db/blockchain_db.cpp:240-262 | After every clean run the spent keys are exactly the key images of surviving inputs, each of one input only |
| `SpentInputs.SpentKeysByInput` | src/blockchain_db/blockchain_db.cpp:240-262 | After every clean run, told on the inputs: every ToKey input has its key image among the spent keys, every post-quantum input the image derived from its output key, and every spent key comes from exactly one such input |
| `SpentInputs.SpentImageIsRefused` | src/blockchain_db/blockchain_db.cpp:240-262 | After every clean run add_block fails on any block with an input whose image, so described, is spent already |
| `SpentInputs.StoredDiffer` | src/blockchain_db/blockchain_db.cpp:240-262 | The list of key images has no repetition exactly when no two inputs spend the same image |
| `StoredOutputs.OutputsByKind` | src/blockchain_db/blockchain_db.cpp:182-205 | After every clean run, told on inputs, version and RingCT type: outputs of RingCT transactions, hybrids included, and of classic ones are found under their own amount, with their mask if the amount is hidden; those of transparent post-quantum spends and version-2 coinbases in bucket 0 with zeroCommit(amount) |
| `ReachableStates.BlocksInvariant` | src/blockchain_db/lmdb/db_lmdb.cpp:775-851 | After every clean run the block tables hold the surviving blocks, each naming its predecessor as parent |
| `ReachableStates.RctOutputsInvariant` | src/blockchain_db/blockchain_db.cpp:182-216 | After every clean run the per-block RingCT counts add up to the size of bucket 0 |
| `ReachableStates.CumulativeRctInvariant` | src/blockchain_db/lmdb/db_lmdb.cpp:826-835 | After every clean run the running count kept with the top block equals the size of bucket 0 if and only if no RingCT output precedes the last block below version 4 |
| `Discrepancies.MaskIsStored` | src/blockchain_db/lmdb/db_lmdb.cpp:1100-1108 | After every clean run, every stored output looked up by hash, bucket and index carries zeroCommit(amount) if pseudo-RingCT, and else its mask if and only if its amount is zero and its transaction is of version 2 or later |
| `Discrepancies.RevealedAmountLosesMask` | src/blockchain_db/lmdb/db_lmdb.cpp:1100-1108 | A committed batch after which a version-2 output with a revealed amount is stored without its mask, whatever the hash functions |
| `Discrepancies.CumulativeRctDiffers` | src/blockchain_db/lmdb/db_lmdb.cpp:826-835 | A committed batch of two blocks after which the running count is not the size of bucket 0 |
| `Discrepancies.HalfWrittenBatch` | src/cryptonote_core/blockchain.cpp:4846-4866 | A batch with a block and one that repeats its key image: the tables are not those of the first block, a commit keeps them so, an abort drops both blocks |
| `Acceptance.TransactionAccepted` | src/blockchain_db/blockchain_db.cpp:218-319 | A transaction is added if and only if key images and hashes stay distinct and every input and output can be stored; no database error can occur |
| `Acceptance.BlockAccepted` | src/blockchain_db/blockchain_db.cpp:321-373 | The same for a block, with its place in the chain |
| `Acceptance.AddSucceeds` | src/blockchain_db/blockchain_db.cpp:321-373 | After any clean run, exactly which blocks add_block accepts, in terms of the surviving blocks only |
| `StoredOutputs.AddSucceedsByInput` | src/blockchain_db/blockchain_db.cpp:240-318 | The same condition told on inputs and outputs: no image spent twice, no hash twice, only known inputs, a key and where needed a mask for every output |
| `RelayMethods.TxMeta.SetRelayMethod` | src/blockchain_db/blockchain_db.cpp:78-107 | The flags read back as the method set |
| `RelayMethods.TxMeta.UpgradeRelayMethod` | src/blockchain_db/blockchain_db.cpp:137-151 | The method becomes the larger one; true is returned exactly on strict increase, else nothing changes |
| `RelayMethods.FlagsRoundTrip` | src/blockchain_db/blockchain_db.cpp:78-135 | Reading undoes writing, for every method |
| `RelayMethods.FlagsDetermine` | src/blockchain_db/blockchain_db.cpp:109-135 | For flags of 0 and 1, every method but fluff is read from one pattern of flags only |
| `RelayMethods.UpgradesReachMaximum` | src/blockchain_db/blockchain_db.cpp:137-151 | From any flags, the method after any run of upgrades is the maximum of the first and the requested ones |
| `RelayMethods.UpgradesCommute` | src/blockchain_db/blockchain_db.cpp:137-151 | The order of the requests does not matter |
| `RelayMethods.UpgradesAreFew` | src/blockchain_db/blockchain_db.cpp:137-151 | At most five calls of a run return true |
| `RelayMethods.MatchesForever` | src/blockchain_db/blockchain_db.cpp:47-76 | Once broadcasted or relayable, a transaction stays so through any later upgrades |
| `RelayMethods.OnlyLegacyIsLeft` | src/blockchain_db/blockchain_db.cpp:47-76 | The legacy category is the only one an upgrade can leave |
| `RelayMethods.MatchesCategory` | src/blockchain_db/blockchain_db.cpp:47-76 | The two switches decide the category |
| `RelayMethods.CategoriesByRank` | src/blockchain_db/blockchain_db.cpp:47-76 | Broadcasted methods are the last two, relayable ones all but the first, legacy ones those at both ends |
| `RelayMethods.UpgradeToSame` | src/blockchain_db/blockchain_db.h:180-181 | The result is false although the method is now the requested one exactly when it already was |
| `LockedTxns.Database.BatchStart` | src/blockchain_db/lmdb/db_lmdb.cpp:3844-3884 | False while a batch is open |
| `LockedTxns.Database.BatchStop` | src/blockchain_db/lmdb/db_lmdb.cpp:3914-3951 | Throws without a batch; a failed commit throws too but cleans the batch up |
| `LockedTxns.Database.BatchAbort` | src/blockchain_db/lmdb/db_lmdb.cpp:3953-3974 | Throws without a batch |
| `LockedTxns.LockedTxn.Create` | src/blockchain_db/locked_txn.h:43-46 | A guard owns a batch only if it started one; no guard exists if the start throws |
| `LockedTxns.LockedTxn.Commit` | src/blockchain_db/locked_txn.h:47-47 | Calls the database only while armed; the guard is disarmed only by a commit that succeeds |
| `LockedTxns.LockedTxn.Abort` | src/blockchain_db/locked_txn.h:48-49 | The same for abort and the destructor |
| `LockedTxns.RunHolds` | src/blockchain_db/locked_txn.h:41-54 | What any interleaving of guards keeps |
| `LockedTxns.AtMostOneClose` | src/blockchain_db/locked_txn.h:41-54 | In any run at most one call ends a given batch, and at most one call of a given guard succeeds |
| `LockedTxns.NoBatchLeaks` | src/blockchain_db/locked_txn.h:41-54 | In any run no batch outlives the guard that opened it |
| `LockedTxns.StepEndsOwn` | src/blockchain_db/locked_txn.h:47-49 | A call ends the batch of another guard if and only if the commit of its own guard failed before and a batch is open |
| `LockedTxns.RunEndsOwn` | src/blockchain_db/locked_txn.h:41-54 | Over a whole run only openers end batches if and only if no such call occurs |
| `LockedTxns.StaleGuardEndsAnother` | src/blockchain_db/locked_txn.h:41-54 | Nesting alone is not enough: a concrete run of two nested guards |
| `LockedTxns.NestedExitIsNotStale` | src/blockchain_db/locked_txn.h:49-49 | With nested guards, destroyed last in first out, the destructor never ends the batch of another guard |
| `LockedTxns.NestedEndsOwn` | src/blockchain_db/locked_txn.h:41-54 | With nested guards only the opener ever ends a batch if and only if no commit or abort is called on a guard whose commit failed while a batch is open |
| `LockedTxns.InnermostCallsEndOwn` | src/blockchain_db/locked_txn.h:41-54 | That is so in particular when only the innermost guard is called |
| `LockedTxns.AbortFollows` | src/blockchain_db/locked_txn.h:47-49 | In any run, a guard whose commit threw attempts an abort before it is gone if and only if no later commit of it succeeds first |
| `LockedTxns.AbortFollowsSteps` | src/blockchain_db/locked_txn.h:47-49 | Over the calls: if and only if no commit is called on it that succeeds on a batch opened after its own commit failed |
| `LockedTxns.StaleCommitSkipsAbort` | src/blockchain_db/locked_txn.h:47-49 | That does happen: a concrete run of two nested guards in which no abort attempt follows |
| `LockedTxns.FailedCommitIsAborted` | src/blockchain_db/locked_txn.h:47-49 | If no call of the guard is such a stale one, an abort attempt follows that finds no batch and ends nothing |
| `LockedTxns.NestedCommitIsAborted` | src/blockchain_db/locked_txn.h:47-49 | With nested guards only its explicit calls matter for that |
| `LockedTxns.FailedCommitIsFollowed` | src/blockchain_db/locked_txn.h:47-49 | In any run a guard whose commit threw aborts, or commits with success, before it is gone |

## Left out

- `toSvgString`, the getters and the exception texts: output formatting.
- The distance between the 32 format words and between the 34 version words: only that they are multiples of their generator polynomials is proved.
- The entries of the two error correction tables: that they fit every version and level is proved, not that they are those of the standard.
- The Kanji mode: it has no factory function; its mode and count widths are in the tables.
- Character counts beyond INT_MAX in makeNumeric and makeAlphanumeric, where the C++ counter overflows: counts are unbounded here.
- The clearing of isFunction at the end of the constructor: the marking grid is local to it.
- Signature checks, RingCT and transaction parsing: not part of this model; a blob is taken to be the serialization of its transaction.
- Pruning: the pruning seed is zero, so no transaction loses its prunable part and txs_prunable_tip stays empty; pop_block still falls back to the pruned transaction when the prunable part is missing.
- AddTransactionData: does not model the refusal of a blob shorter than its unprunable part, which no serialization of the transaction is, nor the table txs_prunable_tip, which is written only with a pruning seed.
- RemoveTransactionData: does not model the table txs_prunable_tip, for the same reason.
- RemoveBlock: looks the row of the blocks table up by height; the source deletes the row on which get_top_block left the shared cursor, which pop_block calls just before.
- DrawCodewords: leaves the check of the number of codewords to PlaceCodewords, which calls it.
- Map resizing, cursors, read transactions and 64-bit wrap-around of ids and counts in the LMDB layer.
- Hard-fork state, statistics and logging, which pop_block does not undo.
- Alternative blocks, the transaction pool tables and all query functions of the database.
- Values outside the enumerations in matches_category and set_relay_method.
- Batches closed by code other than guards, and batches owned by another thread, which locked_txn.h rules out.
