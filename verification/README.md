# Slow control of a digital calorimeter: a verified model

The repository configures the front-end chips of a semi-digital hadronic calorimeter, reads them
out and watches over their high voltage.  This project models its stateful core in Dafny and proves
what that core is for.

* **Frames.**  A HARDROC2 or MICROROC description becomes a frame of 109 or 74 bytes, which is shifted
  into the chip bit by bit.  `HardRoc2` and `MicroRoc` are the frame builders, statement by statement, on a
  byte buffer that is changed in place; a table says what each stream bit carries, and another where each
  field lies.  The builders are proved against the first, the two tables are proved to be inverse, and a
  decoder that uses only the second recovers every field.  `Bits` holds the two's-complement arithmetic, `Frames`
  the streams, `FramePatches` the server that changes thresholds and gains inside finished frames.
* **The configuration database.**  `DIFDatabase` is the class that builds frames for every chip, keeps them in
  a map by key, counts them by DIF and readout line, and writes out records (`AsicKeys`, `AsicCounts`,
  `Lines`, `DIFRecords`).  `ProductionPaths` compares the two ways in which frames reach the hardware.
* **Mask editing** (`MaskEditing`), joined with the frames into a statement on frame bits.
* **The DIF client**: its request/reply handshake (`RpcHandshake`) and its fold of asynchronous updates
  into a document and a collective state (`RpiClient`).
* **The command server** (`CommandQueue`): two threads on one unlocked vector, as interleaved steps.
* **The high-voltage check** (`HighVoltage`), over real numbers.
* **The tokenizer** (`Tokenizer`).

Stream bit `p` of a frame is bit `7 - p % 8` of byte `p / 8`.  Integers are unbounded two's complement,
of which the code only uses bits; the 8-bit counters and 32-bit keys wrap explicitly.

## Where the code does something else than it seems to promise

* The MICROROC builder compares where it should shift (line 1225), so bit 7 of the header is lost
  and sets a mask bit instead.  `HeaderRoundTrip` and `MaskRoundTrip` say exactly when this matters.
* The older HARDROC2 loader counts its chips along the serpentine, `download` counts all HARDROC2s on line 1.
  On a DIF with distinct headers the sums agree exactly when no key is counted that only a chip of another DIF or with
  a header beyond 48 has (`SumsAgree`).  When ids and headers fit a byte the sums agree, and the lines exactly if
  there is at most one chip (`LinesAgreeForAtMostOneChip`).  `HeaderBeyondReach` and `TwoChipsOnDifferentLines` are
  the smallest examples to the contrary.
* With more than 255 listed DIFs `download` goes round for ever and never reaches a DIF beyond the 256th (`ByteLoopEnds`,
  `Download`).
* A header of more than 8 bits reaches into the DIF id of a key, so a chip can be written out under another DIF
  (`WideHeaderSplitsThePaths`); `PathsAgree` is the exact condition.
* The command server can drop a command that arrives while another is run, and run that other one twice
  (`ACommandCanBeLost`); `RemovesWhatItRan` is the exact condition.
* The high-voltage check reads voltages without their sign, so a reference below -5 is not reached
  and one between -100 and -5 is set again in every cycle (`CheckSettles`, `CorrectedAgain`, `SetAgainAndAgain`).
* A call of the DIF client can return without its reply if an earlier reply has left something behind;
  `EarlyReturnCondition` says exactly when, `UnsolicitedReplyBreaksTheHandshake` is a run.
* What a DIF sends while a scan registers its subscriptions is lost (`RegistrationLosesUpdates`, `UpdateIsKept`).

## Model

| member | source | states |
|---|---|---|
| `HardRoc2.StoreHardRoc2Configuration` | ConfigurationDB/src/OracleDIFDBInterface.cc:828-1126 | Storing into a buffer replaces exactly the 109 bytes of the frame by the bytes of the layout's stream, whatever they held before, and leaves every other byte alone |
| `HardRoc2.StoreReadoutSwitches` | ConfigurationDB/src/OracleDIFDBInterface.cc:841-852 | The twelve statements write stream bits 0 to 15, bits 7 to 10 staying zero |
| `HardRoc2.StoreTriggerSwitches` | ConfigurationDB/src/OracleDIFDBInterface.cc:853-860 | The eight statements write stream bits 16 to 23 |
| `HardRoc2.StoreThresholds` | ConfigurationDB/src/OracleDIFDBInterface.cc:861-874 | Three 10-bit thresholds cut across four bytes, most significant bit first, then the header least significant bit first, fill stream bits 24 to 61 |
| `HardRoc2.StoreMasks` | ConfigurationDB/src/OracleDIFDBInterface.cc:876-1069 | The 192 mask statements, mask after mask and each over bytes already partly written, fill stream bits 62 to 253 with bit `k` of mask `j` at `62+3*(63-k)+(2-j)` |
| `HardRoc2.StoreDiscriminators` | ConfigurationDB/src/OracleDIFDBInterface.cc:1070-1079 | Stream bits 254 to 263 |
| `HardRoc2.StorePower` | ConfigurationDB/src/OracleDIFDBInterface.cc:1080-1087 | Stream bits 264 to 271 |
| `HardRoc2.StoreShapers` | ConfigurationDB/src/OracleDIFDBInterface.cc:1088-1103 | Stream bits 272 to 287 |
| `HardRoc2.StoreSlowShaper` | ConfigurationDB/src/OracleDIFDBInterface.cc:1104-1109 | Stream bits 288 to 295, three of them the number SWSSC |
| `HardRoc2.StoreGains` | ConfigurationDB/src/OracleDIFDBInterface.cc:1110-1112 | The loop over channels fills the 64 gain bytes, channel 63 first, and finds them zero |
| `HardRoc2.StoreTest` | ConfigurationDB/src/OracleDIFDBInterface.cc:1113-1124 | Whatever test word the configuration holds, the last eight bytes are zero |
| `HardRoc2.FieldAtItsPlace` | ConfigurationDB/src/OracleDIFDBInterface.cc:841-1109 | Each bit of each integer field lies at the position the field's place gives, inside the frame |
| `HardRoc2.MaskAtItsPlace` | ConfigurationDB/src/OracleDIFDBInterface.cc:876-1069 | Bit `k` of mask `j` lies at its place, inside the mask region |
| `HardRoc2.GainAtItsPlace` | ConfigurationDB/src/OracleDIFDBInterface.cc:1110-1112 | Bit `k` of gain `c` lies at its place, inside the gain region |
| `HardRoc2.SlotLiesThere` | ConfigurationDB/src/OracleDIFDBInterface.cc:828-1126 | Every used stream bit is the place of the one bit it carries, so no two fields share a bit; exactly bits 7 to 10 and 808 on are unused |
| `HardRoc2.FrameBit` | ConfigurationDB/src/OracleDIFDBInterface.cc:828-1126 | Each bit of the produced frame is the field bit assigned to it, and zero where none is |
| `HardRoc2.FieldRoundTrip` | ConfigurationDB/src/OracleDIFDBInterface.cc:841-1109 | A decoder that only knows the places recovers every integer field modulo its width: thresholds mod 1024, header mod 256, SWSSC mod 8, switches mod 2, negative values included |
| `HardRoc2.MaskRoundTrip` | ConfigurationDB/src/OracleDIFDBInterface.cc:876-1069 | All three 64-bit masks are recovered exactly |
| `HardRoc2.GainRoundTrip` | ConfigurationDB/src/OracleDIFDBInterface.cc:1110-1112 | Every gain is recovered modulo 256 |
| `HardRoc2.SameFrame` | ConfigurationDB/src/OracleDIFDBInterface.cc:828-1126 | Two descriptions have the same frame if and only if every field agrees modulo its range, the masks are equal and the gains agree modulo 256 |
| `HardRoc2.SwitchByte0` | ConfigurationDB/src/OracleDIFDBInterface.cc:841-847 | Which stream bit is which switch, by number: bits 0 to 6 |
| `HardRoc2.SwitchByte1` | ConfigurationDB/src/OracleDIFDBInterface.cc:848-852 | Bits 11 to 15 |
| `HardRoc2.TriggerSwitchBits` | ConfigurationDB/src/OracleDIFDBInterface.cc:853-857 | Bits 16 to 20 |
| `HardRoc2.DacSwitchBits` | ConfigurationDB/src/OracleDIFDBInterface.cc:858-860 | Bits 21 to 23 |
| `HardRoc2.ThresholdBits` | ConfigurationDB/src/OracleDIFDBInterface.cc:861-874 | By number: bit `k` of B2, B1 and B0 is stream bit `33-k`, `43-k` and `53-k`, of the header `54+k`, of SWSSC `290-k` |
| `HardRoc2.MaskBits` | ConfigurationDB/src/OracleDIFDBInterface.cc:876-1069 | By number: channel `k` of masks 2, 1 and 0 is stream bit `62+3*(63-k)` and the two after it |
| `HardRoc2.OtherSwitchBits` | ConfigurationDB/src/OracleDIFDBInterface.cc:1070-1109 | Bits 254, 255 and 291 to 295 |
| `HardRoc2.SwitchByte32High` | ConfigurationDB/src/OracleDIFDBInterface.cc:1072-1075 | Bits 256 to 259 |
| `HardRoc2.SwitchByte32Low` | ConfigurationDB/src/OracleDIFDBInterface.cc:1076-1079 | Bits 260 to 263 |
| `HardRoc2.SwitchByte33` | ConfigurationDB/src/OracleDIFDBInterface.cc:1080-1087 | Bits 264 to 271 |
| `HardRoc2.SwitchByte34` | ConfigurationDB/src/OracleDIFDBInterface.cc:1088-1095 | Bits 272 to 279 |
| `HardRoc2.SwitchByte35` | ConfigurationDB/src/OracleDIFDBInterface.cc:1096-1103 | Bits 280 to 287 |
| `HardRoc2.GainBytes` | ConfigurationDB/src/OracleDIFDBInterface.cc:1110-1112 | Byte `100-c` is the gain of channel `c` modulo 256 |
| `HardRoc2.TestBytes` | ConfigurationDB/src/OracleDIFDBInterface.cc:1117-1124 | Bytes 101 to 108 are zero |
| `MicroRoc.StoreMicroRocConfiguration` | ConfigurationDB/src/OracleDIFDBInterface.cc:1128-1482 | The same for the 74 bytes of a MICROROC, though no statement clears the buffer first: the result does not depend on what it held |
| `MicroRoc.StoreReadoutSwitches` | ConfigurationDB/src/OracleDIFDBInterface.cc:1158-1178 | Stream bits 0 to 20, each byte's first statement being an assignment |
| `MicroRoc.StoreThreshold2` | ConfigurationDB/src/OracleDIFDBInterface.cc:1179-1189 | Complemented threshold BB2, least significant bit first, over two bytes |
| `MicroRoc.StoreThreshold1` | ConfigurationDB/src/OracleDIFDBInterface.cc:1190-1201 | Complemented threshold BB1, over three bytes |
| `MicroRoc.StoreThreshold0` | ConfigurationDB/src/OracleDIFDBInterface.cc:1202-1212 | Complemented threshold BB0, over two bytes |
| `MicroRoc.StoreBiasAndHeader` | ConfigurationDB/src/OracleDIFDBInterface.cc:1213-1224 | Four bias switches and the low seven header bits |
| `MicroRoc.StoreSpill` | ConfigurationDB/src/OracleDIFDBInterface.cc:1225-1226 | The comparison `>6` where a shift was meant sets the bit of mask 2, channel 63, when header bit 7 is set |
| `MicroRoc.StoreMasks` | ConfigurationDB/src/OracleDIFDBInterface.cc:1228-1441 | The interleaved masks, one byte after the other, fill stream bits 64 to 254 |
| `MicroRoc.StoreDiscriminators` | ConfigurationDB/src/OracleDIFDBInterface.cc:1442-1449 | Stream bits 255 to 261 |
| `MicroRoc.StoreGains` | ConfigurationDB/src/OracleDIFDBInterface.cc:1450-1460 | The loop of byte-straddling 4-bit gains, with its first and last halves outside the loop, fills stream bits 262 to 517 |
| `MicroRoc.StoreShapers` | ConfigurationDB/src/OracleDIFDBInterface.cc:1461-1471 | Stream bits 518 to 527 |
| `MicroRoc.StoreTest` | ConfigurationDB/src/OracleDIFDBInterface.cc:1473-1480 | The eight test bytes, most significant first |
| `MicroRoc.FieldAtItsPlace` | ConfigurationDB/src/OracleDIFDBInterface.cc:1158-1471 | Every bit of every field lies at its place, except that bit 7 of the header lies nowhere |
| `MicroRoc.MaskAtItsPlace` | ConfigurationDB/src/OracleDIFDBInterface.cc:1226-1441 | Bit `k` of mask `j` lies at `63+3*(63-k)+(2-j)`; the spill hits mask 2, channel 63 and no other |
| `MicroRoc.GainAtItsPlace` | ConfigurationDB/src/OracleDIFDBInterface.cc:1450-1460 | Gain `c` lies in the four bits from `262+4*(63-c)`, most significant first |
| `MicroRoc.SlotLiesThere` | ConfigurationDB/src/OracleDIFDBInterface.cc:1128-1482 | Every used stream bit is the place of what it carries; exactly bits 7, 8 and 62 are unused |
| `MicroRoc.FieldRoundTrip` | ConfigurationDB/src/OracleDIFDBInterface.cc:1158-1471 | Every integer field but the header is recovered modulo its width, the thresholds in complement |
| `MicroRoc.ThresholdRoundTrip` | ConfigurationDB/src/OracleDIFDBInterface.cc:1148-1150 | Complementing what is read at a threshold's place gives the threshold modulo 1024 |
| `MicroRoc.HeaderRoundTrip` | ConfigurationDB/src/OracleDIFDBInterface.cc:1217-1225 | The header is always read back modulo 128; it is read back modulo 256 if and only if its bit 7 is clear |
| `MicroRoc.MaskRoundTrip` | ConfigurationDB/src/OracleDIFDBInterface.cc:1225-1441 | Masks 0 and 1 are recovered exactly; mask 2 is if and only if header bit 7 is clear or its channel 63 was set anyway |
| `MicroRoc.GainRoundTrip` | ConfigurationDB/src/OracleDIFDBInterface.cc:1450-1460 | Every gain is recovered modulo 16, across byte boundaries |
| `MicroRoc.TestRoundTrip` | ConfigurationDB/src/OracleDIFDBInterface.cc:1473-1480 | The test word is recovered exactly |
| `MicroRoc.SwitchByte0` | ConfigurationDB/src/OracleDIFDBInterface.cc:1158-1164 | Which stream bit is which switch, by number: bits 0 to 6 |
| `MicroRoc.SwitchByte1High` | ConfigurationDB/src/OracleDIFDBInterface.cc:1166-1169 | Bits 9 to 12 |
| `MicroRoc.SwitchByte1Low` | ConfigurationDB/src/OracleDIFDBInterface.cc:1170-1172 | Bits 13 to 15 |
| `MicroRoc.TriggerSwitchBits` | ConfigurationDB/src/OracleDIFDBInterface.cc:1174-1178 | Bits 16 to 20 |
| `MicroRoc.ThresholdBits` | ConfigurationDB/src/OracleDIFDBInterface.cc:1179-1224 | By number: bit `k` of BB2, BB1 and BB0, complemented, is stream bit `21+k`, `31+k` and `41+k`, of the header `55+k`, of SWHG and SWLG `518+k` and `522+k` |
| `MicroRoc.BiasSwitchBits` | ConfigurationDB/src/OracleDIFDBInterface.cc:1213-1216 | Bits 51 to 54 |
| `MicroRoc.MaskBits` | ConfigurationDB/src/OracleDIFDBInterface.cc:1225-1441 | By number: channel `k` of masks 2, 1 and 0 is stream bit `63+3*(63-k)` and the two after it, the first of all also set by header bit 7 |
| `MicroRoc.DiscriminatorSwitchBits` | ConfigurationDB/src/OracleDIFDBInterface.cc:1442-1449 | Bits 255 to 261 |
| `MicroRoc.GainBits` | ConfigurationDB/src/OracleDIFDBInterface.cc:1450-1460 | By number: the four bits of gain `c` are stream bits `262+4*(63-c)` on, highest first |
| `MicroRoc.ShaperSwitchBits` | ConfigurationDB/src/OracleDIFDBInterface.cc:1464-1471 | Bits 520, 521 and 524 to 527 |
| `MicroRoc.TestBits` | ConfigurationDB/src/OracleDIFDBInterface.cc:1473-1480 | Bit `63-i` of the test word is stream bit `528+i` |
| `Frames.OrInto` | ConfigurationDB/src/OracleDIFDBInterface.cc:1016-1024 | A statement `frame[at] \|= ((w >> lo) & mask) << d` ORs exactly those bits of `w` into their stream bits and changes no other bit of the buffer |
| `FramePatches.SetThreshold` | DimDaq/src/DimDIFServer.cc:995-1008 | In-place patching of a frame changes stream bits 24 to 53 to the new thresholds and no other bit of the buffer |
| `FramePatches.SetGain` | DimDaq/src/DimDIFServer.cc:1009-1014 | In-place patching sets the 64 gain bytes and no other byte |
| `FramePatches.SetThresholds` | DimDaq/src/DimDIFServer.cc:1016-1024 | Over a whole record, the first `nbasic` frames are patched, the others and the rest of the buffer unchanged |
| `FramePatches.ThresholdPatchIsReencoding` | DimDaq/src/DimDIFServer.cc:995-1008 | Patching the frame of an ASIC gives the very frame that the builder makes for the ASIC with the new thresholds |
| `FramePatches.GainPatchIsReencoding` | DimDaq/src/DimDIFServer.cc:1009-1014 | The same for the gains |
| `AsicKeys.PlainKeysAreInjective` | ConfigurationDB/src/OracleDIFDBInterface.cc:1492 | With byte-sized headers two ASICs share a key exactly when DIF and header are the same |
| `AsicKeys.WideHeaderAliases` | ConfigurationDB/src/OracleDIFDBInterface.cc:1492 | With a wider header they can share one: chip 257 of DIF 0 and chip 1 of DIF 1 |
| `AsicKeys.SomeFirst` | ConfigurationDB/src/OracleDIFDBInterface.cc:1488-1494 | If linear search finds a key at all, it finds it first somewhere, not later |
| `AsicKeys.SearchDeterminesIndex` | ConfigurationDB/src/OracleDIFDBInterface.cc:1483-1518 | At most one map agrees with linear search, so agreement fixes keys and bytes |
| `AsicKeys.ExtendsNext` | ConfigurationDB/src/OracleDIFDBInterface.cc:1488-1516 | One turn of the loading loop keeps the map in agreement with linear search through the ASICs seen so far: disabled ones, unknown types and taken keys change nothing |
| `AsicKeys.KeyInNumbers` | ConfigurationDB/src/OracleDIFDBInterface.cc:1492 | For byte-sized headers the key is 256 times the DIF id plus the header, and the id read back is the DIF id modulo 256 |
| `AsicKeys.KeysOfEnabledChips` | ConfigurationDB/src/OracleDIFDBInterface.cc:1491-1514 | Field by field: every key added is that of an ASIC of type HR2 or MR whose ENABLED is not 0, and every such ASIC has its key in the map |
| `AsicKeys.BytesOfFirstChip` | ConfigurationDB/src/OracleDIFDBInterface.cc:1491-1514 | The first such ASIC of a key gives its bytes: 109 and a HARDROC2 frame, or 74 and a MICROROC frame |
| `AsicKeys.NothingEnabled` | ConfigurationDB/src/OracleDIFDBInterface.cc:1491 | With ENABLED 0 throughout nothing is added |
| `AsicKeys.WithAsicByFields` | ConfigurationDB/src/OracleDIFDBInterface.cc:1490-1514 | One turn of the loop on the fields ENABLED and type |
| `DIFDatabase.OracleDIFDBInterface.LoadAsicParameters` | ConfigurationDB/src/OracleDIFDBInterface.cc:1483-1518 | The map gains exactly the keys linear search finds, each with the frame of the first ASIC in vector order behind its size byte, and keeps every old entry; what it gains are keys of ASICs of type HR2 or MR whose ENABLED is not 0, and every such key is there |
| `DIFDatabase.OracleDIFDBInterface.LoadAsic` | ConfigurationDB/src/OracleDIFDBInterface.cc:1490-1514 | The body of that loop, for one ASIC |
| `DIFDatabase.OracleDIFDBInterface.LoadDIFHardrocV2Parameters` | ConfigurationDB/src/OracleDIFDBInterface.cc:77-431 | The slots hold the frames of the DIF's enabled ASICs, by header and then vector order, the other slots are untouched, and the packed counts are those of the serpentine |
| `DIFDatabase.OracleDIFDBInterface.LoadDIFMicrorocParameters` | ConfigurationDB/src/OracleDIFDBInterface.cc:435-825 | The same with 74-byte frames, the last 35 bytes of each slot keeping what they held |
| `DIFDatabase.OracleDIFDBInterface.LoadHeader` | ConfigurationDB/src/OracleDIFDBInterface.cc:95-426 | One pass over the vector appends exactly the frames for one header |
| `DIFDatabase.LoadOne` | ConfigurationDB/src/OracleDIFDBInterface.cc:97-420 | The body of that pass: an ASIC of the DIF, enabled and with the header, fills the next slot and counts on the serpentine's line; any other changes nothing |
| `DIFDatabase.TakenMembers` | ConfigurationDB/src/OracleDIFDBInterface.cc:98-104 | The loaders take exactly the ASICs with the DIF's id, ENABLED not 0 and a header from 1 to 48 |
| `DIFDatabase.TakenInOrder` | ConfigurationDB/src/OracleDIFDBInterface.cc:92-104 | By increasing header |
| `DIFDatabase.TakenTimes` | ConfigurationDB/src/OracleDIFDBInterface.cc:92-104 | Each as often as it is in the vector |
| `DIFDatabase.SlotComesFromChip` | ConfigurationDB/src/OracleDIFDBInterface.cc:98-401 | Every filled slot holds the frame of such an ASIC |
| `DIFDatabase.ChipFillsSlot` | ConfigurationDB/src/OracleDIFDBInterface.cc:98-401 | Every such ASIC has its frame in a filled slot |
| `DIFDatabase.NothingToLoad` | ConfigurationDB/src/OracleDIFDBInterface.cc:100 | With ENABLED 0 throughout the slots stay as they are and the packed counts are 0 |
| `Lines.SerpentineCount` | ConfigurationDB/src/OracleDIFDBInterface.cc:409-418 | After n = 8q+r assignments line i holds 2q, plus 1 if r >= i, plus 1 if r >= 9-i |
| `Lines.SerpentineIsFair` | ConfigurationDB/src/OracleDIFDBInterface.cc:808-816 | The four counts sum to n and never differ by more than 1 |
| `Lines.CountOnLine` | ConfigurationDB/src/DIFDBInterface.cc:112-118 | The counter update by `tamponl` is one more on the serpentine's line |
| `Lines.SerpentineStep` | ConfigurationDB/src/OracleDIFDBInterface.cc:409-418 | A step from the counts of n ASICs gives those of n+1 |
| `Lines.PackRoundTrip` | ConfigurationDB/src/DIFDBInterface.cc:127-159 | The four counters come back from the packed word with no carry between bytes |
| `Lines.ByteLoopEnds` | ConfigurationDB/src/DIFDBInterface.cc:77 | A loop with a `uint8_t` variable ends if and only if its bound is at most 255 |
| `Lines.PackedWord` | ConfigurationDB/src/DIFDBInterface.cc:127-159 | The packed word is `l1 + 256*l2 + 65536*l3 + 16777216*l4`, and the getters take its bytes |
| `Lines.LoaderWord` | ConfigurationDB/src/OracleDIFDBInterface.cc:409-430 | The word the loaders return for 8q+r chips as a number |
| `DIFDatabase.OracleDIFDBInterface.ClearMaps` | ConfigurationDB/src/DIFDBInterface.cc:27-42 | All maps are empty afterwards |
| `DIFDatabase.OracleDIFDBInterface.Download` | ConfigurationDB/src/DIFDBInterface.cc:60-131 | The maps are rebuilt from nothing: the key map agrees with linear search, and every listed unmasked DIF, and no other, gets the packed counts of the walk over the keys; watched for any number of turns, the loop over the DIFs has ended if and only if there are at most 255 and as many turns, and never gets beyond the 256th |
| `DIFDatabase.OracleDIFDBInterface.CountListedDIFs` | ConfigurationDB/src/DIFDBInterface.cc:77-130 | That loop, for lists of any length, duplicate ids being counted once |
| `DIFDatabase.OracleDIFDBInterface.CountDIF` | ConfigurationDB/src/DIFDBInterface.cc:79-129 | Its body: a masked DIF changes nothing, a DIF counted before keeps its counts |
| `DIFDatabase.CountAsics` | ConfigurationDB/src/DIFDBInterface.cc:98-122 | Walking the map in key order gives the tallies of the specification |
| `AsicCounts.WalkCounts` | ConfigurationDB/src/DIFDBInterface.cc:98-122 | For frames of known size and fewer than 256 ASICs of the DIF, the tally and the sum of the line counters are their number |
| `AsicCounts.WalkMicroRocs` | ConfigurationDB/src/DIFDBInterface.cc:109-118 | On a DIF of MICROROCs the walk follows the serpentine |
| `AsicCounts.WalkHardRocs` | ConfigurationDB/src/DIFDBInterface.cc:104-108 | On a DIF of HARDROC2s everything is counted on line 1 |
| `AsicCounts.AscendingCount` | ConfigurationDB/src/DIFDBInterface.cc:98-101 | The ordered walk meets each key of the DIF exactly once |
| `DIFDatabase.OracleDIFDBInterface.GetAsicsNumber` | ConfigurationDB/src/DIFDBInterface.cc:133-142 | The sum of the four unpacked bytes modulo 256; asking for an unknown DIF enters a zero |
| `DIFDatabase.OracleDIFDBInterface.GetAsicsNumberOnLine` | ConfigurationDB/src/DIFDBInterface.cc:144-159 | The byte of one line; asking for an unknown DIF enters a zero |
| `ProductionPaths.PackedCountsAreExact` | ConfigurationDB/src/DIFDBInterface.cc:60-159 | For a DIF with fewer than 256 ASICs the four getters return the accumulated line counts, and their sum is the number of map keys with the DIF's id |
| `ProductionPaths.LinesOfUniformDIF` | ConfigurationDB/src/DIFDBInterface.cc:104-119 | On a DIF with one type of chip the line counts of `download` are known exactly |
| `ProductionPaths.CountsAgree` | ConfigurationDB/src/OracleDIFDBInterface.cc:92-105 | With distinct headers, the loader never counts more chips than `download`, and as many if and only if no chip of another DIF or with a header beyond 48 has a key that is counted for this DIF and is no own chip's |
| `ProductionPaths.SumsAgree` | ConfigurationDB/src/OracleDIFDBInterface.cc:409-430 | The four line counts of the two have the same sum under exactly that condition |
| `ProductionPaths.ByteSizedCountsAgree` | ConfigurationDB/src/DIFDBInterface.cc:98-122 | The condition holds for a DIF of HARDROC2s when ids and headers fit a byte |
| `ProductionPaths.LinesAgreeForAtMostOneChip` | ConfigurationDB/src/OracleDIFDBInterface.cc:409-430 | There the packed line counts of loader and `download` are equal if and only if the DIF has at most one chip |
| `ProductionPaths.TwoChipsOnDifferentLines` | ConfigurationDB/src/OracleDIFDBInterface.cc:409-418 | Two chips are packed as 0x101 by the loader and as 2 by `download` |
| `ProductionPaths.HeaderBeyondReach` | ConfigurationDB/src/OracleDIFDBInterface.cc:92-105 | A chip with header 49 is counted by `download` and taken by no loader |
| `ProductionPaths.DownloadAndCount` | ConfigurationDB/src/DIFDBInterface.cc:60-142 | `download` and then `getAsicsNumber` give the number of map keys with the id of a listed unmasked DIF, if there are fewer than 256 |
| `DIFDatabase.OracleDIFDBInterface.DumpToTree` | ConfigurationDB/src/DIFDBInterface.cc:162-192 | Every one of the 255 records is the specified one |
| `DIFDatabase.OracleDIFDBInterface.MarkIds` | ConfigurationDB/src/DIFDBInterface.cc:172-176 | The first loop enters an id exactly in the records of the ids that occur in a key |
| `DIFDatabase.OracleDIFDBInterface.FillRecord` | ConfigurationDB/src/DIFDBInterface.cc:182-192 | The second loop copies the frames of one DIF by increasing header and changes no other record |
| `DIFRecords.RecordHoldsEveryFrame` | ConfigurationDB/src/DIFDBInterface.cc:177-192 | Lossless and ordered: the frame of header h lies in the slot numbered by the count of smaller headers present, and `nbasic` is the count of all |
| `DIFRecords.RecordHoldsNothingElse` | ConfigurationDB/src/DIFDBInterface.cc:177-192 | Every counted slot is the frame of some header, every other slot is zero |
| `DIFRecords.FrameBytes` | ConfigurationDB/src/DIFDBInterface.cc:165-192 | Byte by byte: the slot of header h holds the stored bytes after the size byte, and zeros from the frame's end to byte 108 |
| `DIFRecords.BytesBehindFrames` | ConfigurationDB/src/DIFDBInterface.cc:165-192 | Every byte of every slot from `nbasic` on is zero, and `nbasic` is the number of headers 1 to 48 with a key |
| `DIFRecords.AbsentRecord` | ConfigurationDB/src/DIFDBInterface.cc:165-180 | The record of an id that no key carries, and record 0, are zero in id, count and bytes |
| `ProductionPaths.OneHeaderAgrees` | ConfigurationDB/src/OracleDIFDBInterface.cc:92-105 | For one header the map has at least the loader's frame, and the same exactly when no stranger comes first under the key |
| `ProductionPaths.PathsAgree` | ConfigurationDB/src/OracleDIFDBInterface.cc:77-431 | For a DIF of HARDROC2s with distinct headers from 1 to 48, the record dumped from the key map equals the loader's output in number, order and content, if and only if whichever chip comes first under one of its keys looks like a chip of this DIF there |
| `ProductionPaths.PlainHeadersAgree` | ConfigurationDB/src/DIFDBInterface.cc:177-192 | They always agree when all headers fit a byte |
| `ProductionPaths.WideHeaderSplitsThePaths` | ConfigurationDB/src/OracleDIFDBInterface.cc:1492 | They differ for a chip of DIF 0 with header 257, which is dumped as chip 1 of DIF 1 |
| `ProductionPaths.ProduceTwice` | ConfigurationDB/src/DIFDBInterface.cc:60-192 | `download`, the dump and the loader one after the other leave the same frames in the record and in the loader's slots |
| `MaskEditing.ChangeMask` | python/OracleAccess.py:288-316 | Every selected ASIC has its three masks ANDed; one with another DIF_ID than a DIF number that is not 0, or another HEADER than an ASIC number that is not 0, is unchanged |
| `MaskEditing.ChangedByFields` | python/OracleAccess.py:296-311 | Field by field: with a DIF number that is not its DIF_ID, or an ASIC number that is not its HEADER, an ASIC keeps everything; otherwise each bit of each mask is ANDed and nothing else changes |
| `MaskEditing.SetMask` | python/OracleAccess.py:281-286 | It fails exactly when a channel is negative, and then changes nothing; otherwise the selected masks are ANDed with the complement of the listed channels |
| `MaskEditing.ChannelMaskBit` | python/OracleAccess.py:282-284 | The mask clears exactly the listed channels below 64, repeated or not |
| `MaskEditing.ListedChannelsCleared` | python/OracleAccess.py:281-311 | A selected ASIC loses exactly the listed channels, in all three masks |
| `MaskEditing.MaskingClearsExactly` | python/OracleAccess.py:281-316 | End to end: the frame built after `SetMask` is the old frame with exactly bits `62+3*(63-c)+0..2` cleared for each listed channel if the DIF number is 0 or the ASIC's DIF_ID and the ASIC number 0 or its HEADER, and the old frame otherwise |
| `MaskEditing.ChangeMaskFromFile` | python/OracleAccess.py:336-357 | The lines are applied one after the other to the configuration in place |
| `MaskEditing.AppliedBit` | python/OracleAccess.py:350-356 | A channel stays enabled exactly when it was enabled and every matching line enables it |
| `MaskEditing.FileOrderDoesNotMatter` | python/OracleAccess.py:350-356 | Any reordering or repetition of lines gives the same configuration |
| `MaskEditing.ClearedStaysCleared` | python/OracleAccess.py:288-316 | No later line brings a cleared channel back |
| `RpcHandshake.HandshakeIsSafe` | DimCtrl/include/RpcDIFClient.h:66-76 | In every interleaving with one reply per request the n-th call returns only after the n-th reply; between calls the semaphore is held, there are as many replies as requests, and the value is the last reply |
| `RpcHandshake.UnlocksOnlyWhenLocked` | DimCtrl/include/RpcDIFClient.h:71 | There the handler never unlocks an unlocked semaphore |
| `RpcHandshake.WaitingMakesProgress` | DimCtrl/include/RpcDIFClient.h:70-71 | There a waiting call is never stuck, and every possible step brings it nearer to its return |
| `RpcHandshake.EarlyReturnCondition` | DimCtrl/include/RpcDIFClient.h:70-71 | Whatever replies have arrived, asked for or not: the next call can return without a reply of its own if and only if the semaphore is open, or a handler is about to open it, or a reply waits to be handled |
| `RpcHandshake.NothingLeftOver` | DimCtrl/include/RpcDIFClient.h:70-71 | With one reply per request that never happens |
| `RpcHandshake.UnsolicitedReplyBreaksTheHandshake` | DimCtrl/include/RpcDIFClient.h:70-71 | A run in which a reply arrives before any request: the first call returns with it, unanswered |
| `RpcHandshake.Rpc.SetData` | DimCtrl/include/RpcDIFClient.h:70 | When the request is handed over, every earlier one has its reply and nothing is left behind, so the second half of `doIt` has to wait |
| `RpcHandshake.Rpc.Lock` | DimCtrl/include/RpcDIFClient.h:70 | The second half goes through if and only if the replies to all requests have been handled, and changes nothing otherwise |
| `RpcHandshake.Rpc.RpcInfoHandler` | DimCtrl/include/RpcDIFClient.h:71 | The handler is its two steps of the state machine and keeps the invariant |
| `RpcHandshake.Rpc.Value` | DimCtrl/include/RpcDIFClient.h:72 | Between calls there is a reply to every request, and the value is the reply to the last |
| `RpcHandshake.Rpc.Call` | DimCtrl/include/RpcDIFClient.h:70-72 | A whole call returns the value of its own reply |
| `RpiClient.DocumentFollowsHistory` | DimCtrl/include/RpcDIFClient.h:155-168 | Over any run of scans, commands and updates, updates arriving also inside a scan: the document lists the ids of the last scan, one entry per id and in order, each with the state it last sent since the scan finished; inside a scan it lists nothing |
| `RpiClient.RegistrationLosesUpdates` | DimCtrl/include/RpcDIFClient.h:230-263 | Whatever arrives between the start of a scan and the last statement of `registerInfos` makes no difference |
| `RpiClient.UpdateIsKept` | DimCtrl/include/RpcDIFClient.h:264-281 | A state sent by a scanned DIF is in the document at once if and only if no scan is unfinished |
| `RpiClient.DocumentStateIsClientState` | DimCtrl/include/RpcDIFClient.h:301 | Over any run the state in the document is the client's state, absent only while nothing but updates has happened, and the last published state is the client's |
| `RpiClient.CommandPublishesCollectiveState` | DimCtrl/include/RpcDIFClient.h:204-220 | Over any run a command publishes its target state if and only if the last received state of every scanned DIF begins with it, and its failure state if and only if not |
| `RpiClient.CommandInWords` | DimCtrl/include/RpcDIFClient.h:170-203 | Over any run and with the words written out, command by command: INITIALISED or INIT_FAILED, DB_REGISTERED or DBREGISTER_FAILED, CONFIGURED or CONFIGURE_FAILED, STARTED or START_FAILED, STOPPED or STOP_FAILED by the last states received, and CREATED after destroy |
| `RpiClient.ScanInWords` | DimCtrl/include/RpcDIFClient.h:163-259 | A scan publishes SCANNED; the DIFs then have the buffer's state and zero counters |
| `RpiClient.UpdateInWords` | DimCtrl/include/RpcDIFClient.h:269-296 | A state update changes the state, a status update the four counters, of the entries with its id, and nothing else |
| `RpiClient.LastStateInHistory` | DimCtrl/include/RpcDIFClient.h:278 | The last state is that of the last state update after the scan |
| `RpiClient.NoStateInHistory` | DimCtrl/include/RpcDIFClient.h:240 | Without one it is what the receive buffer held |
| `RpiClient.ScannedIdsInHistory` | DimCtrl/include/RpcDIFClient.h:160-162 | The ids are those of the last scan |
| `RpiClient.Client.Scan` | DimCtrl/include/RpcDIFClient.h:155-168 | An undisturbed scan is its two abstract events |
| `RpiClient.Client.StartScan` | DimCtrl/include/RpcDIFClient.h:160-166 | The part before the first subscription: new ids, SCANNED published, no subscriptions and no DIFs in the document |
| `RpiClient.Client.Subscribe` | DimCtrl/include/RpcDIFClient.h:236-257 | One turn of the registration: one more state and status subscription, new objects both, and no change of the document |
| `RpiClient.Client.FinishScan` | DimCtrl/include/RpcDIFClient.h:259 | The list of DIFs enters the document |
| `RpiClient.Client.ClearInfos` | DimCtrl/include/RpcDIFClient.h:221-229 | No subscription is left |
| `RpiClient.Client.RegisterInfos` | DimCtrl/include/RpcDIFClient.h:230-263 | One state and one status subscription per id, all distinct objects, and then the list in the document |
| `RpiClient.Client.InfoHandler` | DimCtrl/include/RpcDIFClient.h:264-297 | An update changes exactly the entries of its DIF, and only the members of its kind; one whose subscription is in neither vector changes nothing |
| `RpiClient.Client.CheckDifState` | DimCtrl/include/RpcDIFClient.h:213-220 | True exactly when every entry's state begins with the tested one |
| `RpiClient.Client.CheckRpiState` | DimCtrl/include/RpcDIFClient.h:204-212 | Publishes the target or the failure state accordingly |
| `RpiClient.Client.PublishState` | DimCtrl/include/RpcDIFClient.h:301 | Sets the state, publishes it and enters it in the document |
| `RpiClient.Client.Command` | DimCtrl/include/RpcDIFClient.h:170-203 | The six commands after their reply are the abstract command event |
| `CommandQueue.StepKeepsInv` | DimCtrl/src/DimDaqControlServer.cc:98-287 | Every step of either thread keeps the invariant: conservation, counts, status, held arguments and the place of the command in hand |
| `CommandQueue.QueueIsConserved` | DimCtrl/src/DimDaqControlServer.cc:98-287 | In every interleaving received commands are, as multisets, those removed and those pending; the vector is never popped empty; the status is that of the last status-changing command run; `registerstate` runs with the arguments received last |
| `CommandQueue.StatusInNumbers` | DimCtrl/src/DimDaqControlServer.cc:112-198 | Over any run the status is 2 to 9 after browse, scan, initialise, registerstate, configure, start, stop and destroy, whatever print, on and off follow |
| `CommandQueue.FirstStatus` | DimCtrl/include/DimDaqControlServer.h:36 | It is 1 at first |
| `CommandQueue.HeldArguments` | DimCtrl/src/DimDaqControlServer.cc:230-241 | The arguments held are those of the last `registerstate` received, or the first ones |
| `CommandQueue.RemovesWhatItRan` | DimCtrl/src/DimDaqControlServer.cc:106-118 | The command removed is the one that was run if and only if nothing was received meanwhile or the last thing received is the same command |
| `CommandQueue.QuietRunsServeEachCommandOnce` | DimCtrl/src/DimDaqControlServer.cc:98-205 | When nothing is received while the thread is awake, commands run plus commands pending are those received, as multisets, and each one taken was the newest pending |
| `CommandQueue.ACommandCanBeLost` | DimCtrl/src/DimDaqControlServer.cc:104-118 | Otherwise a command can be removed without having run, and another run twice |
| `CommandQueue.DimDaqControlServer.CommandHandler` | DimCtrl/src/DimDaqControlServer.cc:206-287 | A known command is appended, with its arguments held for `registerstate`; an unknown one changes nothing |
| `CommandQueue.DimDaqControlServer.ServeOne` | DimCtrl/src/DimDaqControlServer.cc:104-200 | One undisturbed turn takes the newest command, runs it, sets its status and removes it |
| `CommandQueue.DimDaqControlServer.Services` | DimCtrl/src/DimDaqControlServer.cc:104-201 | The undisturbed loop ends with nothing pending, having run the pending commands newest first |
| `CommandQueue.ReversedAt` | DimCtrl/src/DimDaqControlServer.cc:104-118 | Newest first: the i-th command run is the i-th from the end |
| `HighVoltage.DimSlowControl.GetPTMean` | DimCtrl/src/DimSlowControl.cc:195-224 | It succeeds exactly with a database and five rows; then the means are those of the rows and lie between any bounds on the samples; on too few rows the sums remain in the fields |
| `HighVoltage.DimSlowControl.CheckChamber` | DimCtrl/src/DimSlowControl.cc:350-353 | The decision is that of the dead band of 10 and the lock-out at 200 |
| `HighVoltage.DimSlowControl.CheckChambers` | DimCtrl/src/DimSlowControl.cc:334-371 | The loop issues the corrections of the specification, in chamber order |
| `HighVoltage.DimSlowControl.CheckCycle` | DimCtrl/src/DimSlowControl.cc:327-371 | A failed measurement sets nothing; after a successful one every chamber whose deviation was below 200, with a reference of at least -5, is within 10 of its reference |
| `HighVoltage.CheckSettles` | DimCtrl/src/DimSlowControl.cc:350-358 | If the deviation was below 200, the channel ends within 10 of its reference if and only if it was not corrected or its reference is at least -5 |
| `HighVoltage.CorrectedAgain` | DimCtrl/src/DimSlowControl.cc:350-358 | At constant means a corrected channel is corrected again if and only if its reference lies between -100 and -5 |
| `HighVoltage.CorrectionIsBounded` | DimCtrl/src/DimSlowControl.cc:350-358 | A voltage that is set differs from the one read by more than 10 and less than 200 scaled volts, the scale being `(t0*P)/(p0*T)` |
| `HighVoltage.CommandsAreBounded` | DimCtrl/src/DimSlowControl.cc:195-358 | From the raw samples, and for references of either sign: every voltage set lies between `vref*t0/p0*Pmin/Tmax` and `vref*t0/p0*Pmax/Tmin`, and less than 200 scaled volts from the one read |
| `HighVoltage.MeanBetween` | DimCtrl/src/DimSlowControl.cc:206-222 | A mean lies between any bounds on its samples |
| `HighVoltage.MeansBetweenSamples` | DimCtrl/src/DimSlowControl.cc:209-222 | On the rows: bounds on all pressures bound the mean pressure, bounds on all temperatures the mean temperature |
| `HighVoltage.MeanOfOne` | DimCtrl/src/DimSlowControl.cc:209-222 | The mean of one row is its pressure and its temperature |
| `HighVoltage.MeanOfParts` | DimCtrl/src/DimSlowControl.cc:209-222 | The mean of two series weighs each with its number of rows, which with the last makes it the mean |
| `HighVoltage.ExpectedInNumbers` | DimCtrl/src/DimSlowControl.cc:350 | `vref*t0/p0*P/T` |
| `HighVoltage.EffectiveInNumbers` | DimCtrl/src/DimSlowControl.cc:351 | `vout*p0/t0*T/P` |
| `HighVoltage.DecisionInNumbers` | DimCtrl/src/DimSlowControl.cc:352-353 | A channel is corrected if and only if effective minus reference is between 10 and 200 or between -200 and -10 |
| `HighVoltage.VoutInNumbers` | DimCtrl/src/DimSlowControl.cc:342-348 | The voltage read is the absolute value of the last row, or 0 |
| `HighVoltage.CommandsOfChamber` | DimCtrl/src/DimSlowControl.cc:334-358 | A check sets a chamber's channel if and only if the chamber is to be corrected, and to the expected voltage |
| `HighVoltage.ChambersSettle` | DimCtrl/src/DimSlowControl.cc:334-358 | After a check each of the chambers, on distinct channels, has the voltage of its own decision |
| `HighVoltage.OnlyTheFirstCycleCorrects` | DimCtrl/src/DimSlowControl.cc:323-379 | At constant means, with references of at least -5, all commands of any number of cycles are those of the first, and the voltages stay |
| `HighVoltage.CorrectionsOfChamber` | DimCtrl/src/DimSlowControl.cc:323-379 | Over n cycles at constant means a channel is set never, once, or, if its reference lies between -100 and -5, in every cycle |
| `HighVoltage.AtMostOneCorrectionPerChannel` | DimCtrl/src/DimSlowControl.cc:323-379 | A channel is set at most once over any number of cycles if and only if the first check leaves it alone or its reference is not between -100 and -5 |
| `HighVoltage.SetAgainAndAgain` | DimCtrl/src/DimSlowControl.cc:350-358 | With reference -50, reading 0 and all scales 1 the channel is set to -50 in every one of n cycles, and stays 100 away from its reference |
| `Tokenizer.Tokenizer.SkipDelimiter` | WtWizard/Tokenizer.cpp:93-97 | The cursor moves to the first non-delimiter, or to the end |
| `Tokenizer.Tokenizer.Next` | WtWizard/Tokenizer.cpp:71-86 | The result is the next token, and exactly the other tokens remain; no token left means the end of the buffer; on an empty buffer the token field keeps its value |
| `Tokenizer.Tokenizer.Split` | WtWizard/Tokenizer.cpp:115-125 | From any cursor it ends at the end of the buffer and returns all tokens from there |
| `Tokenizer.Tokenizer.SetDelimiter` | WtWizard/Tokenizer.cpp:59-63 | Changing the delimiters moves the cursor back to the beginning |
| `Tokenizer.TokensAreTheMaximalRuns` | WtWizard/Tokenizer.cpp:71-125 | The tokens lie at the maximal delimiter-free runs in order, and no other list of spans is one of maximal runs |
| `Tokenizer.SplitUndoesJoin` | WtWizard/Tokenizer.cpp:71-125 | Joining non-empty delimiter-free tokens with any non-empty delimiter strings, and any delimiters before and after, and splitting gives the tokens back |
| `Tokenizer.EveryTextIsAJoin` | WtWizard/Tokenizer.cpp:71-125 | Every text is such a join of its tokens, so no token is empty and none holds a delimiter |
| `Tokenizer.TokensAreClean` | WtWizard/Tokenizer.cpp:71-125 | No token is empty, none holds a delimiter |
| `Tokenizer.TokensKeepTheRest` | WtWizard/Tokenizer.cpp:71-125 | The concatenated tokens are the text with its delimiters removed |

## Left out

- Database, XML and web access, and the exceptions of fields that are missing or have another type: an ASIC is a record whose fields are present and whose gain vectors have 64 entries.
- The hexadecimal text of masks and test words: they are 64-bit values; reading one that does not parse is not modelled.
- The loaders' own copies of the frame statements (lines 107-401 and 458-807): they are the statements of the two store functions on another buffer, so one method each stands for both.
- Frame statements of the form `(x & mask) >> s` are written with the number of the lowest bit, of bits and the target bit; the arithmetic that relates the two forms is in `Bits`.
- DIFDatabase.OracleDIFDBInterface.LoadDIFHardrocV2Parameters: requires that the DIF's enabled ASICs with headers 1 to 48 are at most 48, since the code writes beyond its array otherwise.
- DIFDatabase.OracleDIFDBInterface.LoadDIFMicrorocParameters: the same.
- DIFDatabase.OracleDIFDBInterface.Download: the number of turns for which its loop is watched is a parameter, since the loop need not end; the empty frame arrays it allocates per DIF, the default parameters of a DIF other than its mask flag, and the logging are not modelled.
- DIFDatabase.OracleDIFDBInterface.DumpToTree: requires that no key has DIF id 255, for which the code has no record; the files and the early return when one cannot be written are not modelled.
- Pointer ownership, deletion and the order of a `std::map` beyond the order of its keys.
- MaskEditing.ChangeMaskFromFile: begins when the lines have been split into numbers; a line that does not parse, and the "modified" flag, are not modelled.
- FramePatches.SetGain: the loop over the frames of a record is modelled for thresholds only (`SetThresholds`); that for gains has the same form.
- RpcHandshake.HandshakeIsSafe: is about runs with one reply per request; all other runs are covered by the condition of `EarlyReturnCondition`.  Several callers of one object, and time-outs, are not modelled.
- RpiClient.Client.InfoHandler: the name of a subscription parses, and its messages are of its kind; the receive buffer that new entries take their state from is a parameter; DIF ids above the range of a JSON `Int` are not modelled; the 100 ms wait before a state check and updates during it are events before the command.
- RpiClient.Client.StartScan: clearing the old document and making the new one are one step, as updates between their statements are lost either way.
- CommandQueue.DimDaqControlServer.CommandHandler: storing the arguments and appending the command are one step; a data race inside the vector itself is not modelled; strings are an enumeration.
- HighVoltage.DimSlowControl.CheckChamber: voltages are real numbers, so rounding is not modelled; `abs` is the absolute value of a real, not of a truncated integer; zero or negative reference pressure or temperature and zero means are excluded by `requires`.
- HighVoltage.DimSlowControl.CheckCycle: the rows of the database are parameters, a channel reaches the voltage it is set to, and warnings, sleeps and the stop flag are not modelled.
- Tokenizer.Tokenizer.Split: characters are compared as they are; there is no encoding.
- The user interfaces, web services, command-line clients and plotting scripts, `DimDDSClient`, `DimDaqControl`, `DbCache`, and the `RpcDaq` family of servers: plumbing, or classes whose logic is not in the repository.
- `LoadDIFDefaultParameters`, `ChangeGainFromFile` and the other setters of the Python library: they would add members of the same kind as those modelled.
