# EN210 bring-up: a verified model

The repository brings up an NVIDIA GT218 board over a USB-attached PCIe link
and runs one compute kernel on it. This project models the parts of that path
that carry its correctness and proves, for every input, what they promise. Code
that updates fields or memory step by step is modelled by classes and methods
that do the same, each proved against a function of the old state; code made of
expressions is modelled by functions.

| files | what they model |
|---|---|
| `Nvinit`, `NvinitTraces`, `NvinitEvents`, `NvinitStrap`, `NvinitRun`, `NvinitInvariants`, `NvinitStructured`, `NvinitFlags`, `NvinitInputs`, `NvbiosInit` | the VBIOS script interpreter: decoder and effects of all opcodes, closed forms of the group opcodes, what the longer opcodes leave event by event, the strap cache, the one main loop that serves scripts, subroutines and repeat bodies, what every run keeps, the meaning of structured scripts, the execute flag over whole runs, images on which it goes wrong, and the class whose fields are updated in place |
| `NvinitLayout`, `NvinitRegisterOps`, `NvinitTableOps`, `NvinitVgaOps`, `NvinitConditionOps`, `NvinitI2cOps`, `NvinitFlowOps` | each opcode once more, from its bytes in the image to the events one turn of the loop leaves while enabled and the offset behind it, without the decoder |
| `Ctxprog`, `Backpatching`, `TwoModes` | the context-program assembler that patches forward branches in place, and the agreement of its two modes |
| `Chestnut`, `Pramin` | memory requests and streams over the USB controller, and video memory through the 1 MiB window |
| `Dwords`, `DwordView`, `Gmmu`, `PushStream`, `Ramht`, `Channel`, `Doorbell` | memory seen as dwords through the window, page table, push buffer, hash table and RAMFC staging, and what the GPU finds from the RAMFC when the doorbell is rung |
| `ComputePush`, `EndToEnd` | the launch push buffer, and the whole path from staged memory to results |
| `Sass`, `Kernel`, `Threads`, `Grid`, `Ptx` | the hand-assembled kernel, its bytes, one thread of it, all threads under any schedule, and the same kernel in PTX |
| `I2cWire`, `I2cTiming`, `I2c` | a listener on the two lines of the I2C bus, which read of the port samples what for a given slave, and the bit-banged host |
| `Bars`, `BarSetup`, `BarLayout`, `CapWalk` | BAR sizing, the walk over the registers, the allocation, and the capability walk |
| `BitStream`, `Training`, `BitField` | packed training tables and bit-field accessors |
| `Bits`, `Words`, `Wrappers` | bit operations on unbounded integers, bytes and 32-bit words, Option |

`EndToEnd` joins the pieces. `RunAdd` uploads the kernel and two arrays and stages
the channel through the memory window, and its last act is the doorbell;
`ProgramDelivers` says of the memory at that moment that, whatever memory and
engine held before, the GPU fetches exactly the push buffer and launches exactly
once with the caller's parameters, that the registers at that launch describe a
grid the threads can run, and that when they have finished in any order, executing
the bytes at the launch's start address, every `out[i]` is the operation on `a[i]`
and `b[i]` and nothing else has changed.

## Machines that are not in the repository

Their meaning is defined in the model, from what the code packs and its comments
say: the context-program executor (length register, image pointer, a four-bit
count or the length register), the Tesla instructions of the kernel (each
recognised by all of its fields), the PTX subset of the kernel, the GPU's page
walk, hash lookup, ring and method decoder, the controller's endpoint and its
byte enables, the base address registers (PCI Local Bus Specification 3.0,
section 6.2.5.1), and an I2C slave that may pull either line low at any time.
Devices answer with arbitrary functions of what was done to them so far.
Floating-point add and multiply are uninterpreted functions on 32-bit patterns.

## Where the code is not what one might expect

Each of these is proved by the members named.

- A context-program label at position 0 counts as undefined, and one at 512 does
  not fit its nine-bit field: a branch is right if and only if its label stands
  at 1 to 511 (`Backpatching.BranchResolvedIff`, `LabelAtZeroIsLost`).
- `cp_ctx` with length 0 loads as many registers as the length register last held
  (`TwoModes.EmptyCtxLoadsStaleLength`, `CtxMovesIff`).
- REPEAT with count 0 runs its body once outside any other repeat; inside one, its
  END_REPEAT ends the outer pass (`NvinitStructured.RepeatZeroRunsOnce`,
  `RepeatAroundZero`).
- The strap index is cached as the value of whoever asked first: a disabled reader
  caches the index of strap 0, every later reader of the script gets that, and a
  later table writes the right words if and only if its columns agree
  (`NvinitStrap.LaterReaderRightIff`, `LaterTableRightIff`; an image on which it
  goes wrong is in `NvinitInputs.StrapMissed`).
- `setup_gmmu` says that it clears the page table and clears its first 512 of
  131072 entries. A page from 2 MiB to 512 MiB that nobody mapped is unmapped if
  and only if its old entry was not valid (`Gmmu.UnmappedIff`; the input is in
  `StaleEntryMaps`).
- The hash table has no collision handling: two objects are both found if and only
  if their slots differ, and those of the launch do (`Ramht.BothFoundIffSlotsDiffer`,
  `Channel.SlotsDiffer`; two handles that share one are in `SecondEvictsFirst`).
- A push buffer of more than 64 KiB is overwritten by the ring staged after it, and
  one of more than 128 KiB runs into the page table; when it is still fetched right
  is `Doorbell.FetchedIff` (the input is in `OnesNotFetched`).
- The BAR walk takes address bit 2 of an I/O BAR for "64 bits wide" and passes over
  the register behind it; when no memory BAR is lost that way is part of
  `BarSetup.SetupBars` (the input is in `IoBarHidesNext`).
- A 32-bit prefetchable BAR would be recorded at an address it cannot decode
  (`BarLayout.NarrowPrefetchableLost`).
- The bit-field setter does not mask its value: one that is too wide is stored
  short and or-ed into the bits above (`BitField.ReadBackIff`, `AboveIsOred`).

Where a comment and the code differ the model follows the code: the comment above
the SASS encoders gives 2 for the exit bits of a long instruction, the encoder
emits 1.

## Model

| member | source | states |
|---|---|---|
| NvbiosInit.Init.InitExecSet | examples_en210/add.py:688-693 | Bit 1 of the flag ends clear when on and set when off, every other bit as it was, and that is `SetEnabled` |
| NvbiosInit.Init.InitExecInv | examples_en210/add.py:694-696 | Bit 1 of the flag ends different from what it was, every other bit the same, and that is `Invert` |
| NvbiosInit.Init.InitExecForce | examples_en210/add.py:697-705 | Bit 2 of the flag ends as asked, every other bit as it was, and that is `Force` |
| NvbiosInit.Init.ReadReg | examples_en210/add.py:404-411 | A disabled read touches nothing and yields 0; an enabled one is one device read of the translated register |
| NvbiosInit.Init.WriteReg | examples_en210/add.py:413-423 | A disabled write leaves the trace as it was; an enabled one adds exactly one write |
| NvbiosInit.Init.MaskReg | examples_en210/add.py:425-442 | Read, clear the mask, or in the unclipped value, write: two device accesses or none, and the old value is returned |
| NvbiosInit.Init.ReadPort | examples_en210/add.py:489-501 | Port reads go through the VGA window byte, only when enabled |
| NvbiosInit.Init.WritePort | examples_en210/add.py:503-522 | Port writes likewise, one byte access or none |
| NvbiosInit.Init.ReadVga | examples_en210/add.py:444-453 | Indexed reads write the index, then read the data port, for the three index ports only |
| NvbiosInit.Init.WriteVga | examples_en210/add.py:455-462 | Indexed writes write index and data in that order, for the three index ports only |
| NvbiosInit.Init.ReadStrap | examples_en210/add.py:716-756 | The strap index is that of the override if there is one, else of one gated register read, and is cached either way; what a disabled first reader caches is `NvinitStrap` |
| NvbiosInit.Init.WriteWords | examples_en210/add.py:1306-1320 | The word groups of ZM_REG_GROUP and ZM_REG_SEQUENCE are written in order at the given stride |
| NvbiosInit.Init.WriteRows | examples_en210/add.py:1367-1380 | Of every row only the strap's column is written, and every row is stepped over |
| NvbiosInit.Init.SendI2cPairs | examples_en210/add.py:1407-1421 | Each register/value pair is a transfer of its own, only while enabled |
| NvbiosInit.Init.MaskI2cRegs | examples_en210/add.py:1423-1444 | Read-mask-write per triple; a failed read drops the write |
| NvbiosInit.Init.WriteVgaCrs | examples_en210/add.py:1505-1512 | The CRTC pairs are written in order |
| NvbiosInit.Init.LatchCrs | examples_en210/add.py:1514-1527 | The latched index counts up modulo 256 while the bytes are written |
| NvbiosInit.Init.IsMet | examples_en210/add.py:1192-1199 | A register condition is one masked comparison; a missing table or entry counts as false, without a read |
| NvbiosInit.Init.IsFlagMet | examples_en210/add.py:1211-1224 | An io-flag condition reads the VGA register, looks the flag up and compares |
| NvbiosInit.Init.WaitFor | examples_en210/add.py:1609-1624 | The poll stops at the first hit and fails after the given number of tries |
| NvbiosInit.Init.ResetGpioLines | examples_en210/add.py:1091-1110 | Every line except those with function 0xff or excluded is reset, in table order; the count and the functions whose level changed are returned |
| NvbiosInit.Init.HandleWrite | examples_en210/add.py:1282-1347 | Register-writing opcodes do exactly what `Nvinit.Effect` says, on every state |
| NvbiosInit.Init.HandleTable | examples_en210/add.py:1367-1391 | Strap-table and reset opcodes likewise |
| NvbiosInit.Init.HandleI2c | examples_en210/add.py:1393-1482 | I2C opcodes likewise; I2C_IF and I2C_LONG_IF read the device whatever the flag says |
| NvbiosInit.Init.HandleVga | examples_en210/add.py:1491-1527 | CRTC opcodes and COPY likewise |
| NvbiosInit.Init.HandleFlag | examples_en210/add.py:1562-1626 | Conditions, RESUME and NOT change the flag and nothing else but their own reads |
| NvbiosInit.Init.Handle | examples_en210/add.py:1269-1868 | Every opcode that does not steer the loop has its specified effect |
| NvbiosInit.Init.Run | examples_en210/add.py:1234-1264 | run_script with its five fields updated in place, with or without an offset to stop before, ends in the state `NvinitRun.RunUntil` gives, which without one is `RunScript` |
| NvbiosInit.Init.RunStructured | examples_en210/add.py:1234-1264 | On a structured script laid out in the ROM the method returns, restores nesting and repeat state, and leaves the device what the script means |
| NvbiosInit.Init.MainLoop | examples_en210/add.py:1252-1262 | The while loop on `offset`, with its exit at the stop offset, is the loop of the specification, turn by turn |
| NvbiosInit.Init.Execute | examples_en210/add.py:1252-1262 | One turn: decode at the offset and run the handler, as `NvinitRun.Step` does, which the lemmas about single opcodes give from the bytes of each |
| NvbiosInit.Init.OpSub | examples_en210/add.py:1665-1685 | SUB and SUB_DIRECT re-enter the loop only when enabled and come back behind the call either way |
| NvbiosInit.Init.OpRepeat | examples_en210/add.py:1641-1663 | REPEAT re-enters the loop n times at its body and restores the outer repeat state |
| NvinitTraces.NvRegIs | examples_en210/add.py:389-402 | Register translation drops the two low bits, bits 31 and 30, and bit 29 exactly when bit 30 was set |
| NvinitTraces.HasParts | examples_en210/add.py:389-402 | Every 32-bit register number is of that form, so its translation is known |
| NvinitTraces.NvRegOnce | examples_en210/add.py:389-402 | Translating twice is translating once |
| NvinitTraces.MergeIsMaskedWrite | examples_en210/add.py:425-442 | A masked write of a value inside the mask sets exactly the masked bits and keeps all others |
| NvinitTraces.GroupTrace | examples_en210/add.py:1306-1320 | An enabled group adds exactly one write per word, word i to the i-th register of the stride |
| NvinitTraces.ColumnIsGroup | examples_en210/add.py:1367-1380 | A strap table is the group of its strap's column |
| NvinitTraces.NoSuchColumn | examples_en210/add.py:1367-1380 | With a strap index past every row nothing is written |
| NvinitTraces.CrTrace | examples_en210/add.py:1505-1512 | CRTC pairs are index and data bytes in order, nothing else |
| NvinitTraces.LatchIsPairs | examples_en210/add.py:1514-1527 | A latched block is the CRTC pairs of counting index and data |
| NvinitTraces.PollStopsAtHit | examples_en210/add.py:1609-1624 | A poll stops at the first read that shows the condition, or has used up all its tries without seeing it |
| NvinitEvents.EnableVgaPlays | examples_en210/add.py:1529-1554 | Enabled, the VGA-enable value leaves its six masked writes and four writes, in order; disabled, nothing |
| NvinitEvents.LinePlays | examples_en210/add.py:1091-1110 | A GPIO line's reset leaves three masked writes and, if it names a further register, a fourth; disabled, nothing |
| NvinitEvents.LinesPlay | examples_en210/add.py:1091-1110 | GPIO_RESET leaves those of every line that has a function and is not excluded, in table order |
| NvinitEvents.ResetLeaves | examples_en210/add.py:1694-1706 | RESET leaves the same events whatever the flag, with the saved control word put back, and the flag as it found it |
| NvinitEvents.ShiftByIs | examples_en210/add.py:1349-1358 | A signed shift amount is a division or a multiplication by a power of two |
| NvinitEvents.CopyNvRegLeaves | examples_en210/add.py:1349-1358 | COPY_NV_REG leaves one read of the source and one masked write of the target with the shifted, masked and inverted bits; disabled, nothing |
| NvinitEvents.XlatLeaves | examples_en210/add.py:1796-1813 | XLAT leaves the same with the table entry the source bits select, shifted |
| NvinitEvents.IoLeaves | examples_en210/add.py:1529-1554 | IO leaves one port read and one port write of the merged byte, behind the enable sequence if it is due |
| NvinitEvents.IoRestrictProgLeaves | examples_en210/add.py:1769-1782 | IO_RESTRICT_PROG leaves an indexed read and the one word it selects; a number past the list writes nothing |
| NvinitEvents.IoRestrictPllLeaves | examples_en210/add.py:1736-1752 | IO_RESTRICT_PLL leaves its indexed read and the read of the condition it names, never a write to a PLL |
| NvinitStrap.DisabledReaderCachesZero | examples_en210/add.py:716-756 | A disabled first reader touches no register and caches the index of strap 0 |
| NvinitStrap.NextReaderRightIff | examples_en210/add.py:716-756 | After a disabled reader and RESUME the next one gets its own strap's index if and only if the strap is forced, the cache held that index, or it was empty and strap 0 has the same index |
| NvinitStrap.NvKeepsCache | examples_en210/add.py:716-756 | No instruction replaces a cached index |
| NvinitStrap.LoopKeepsCache | examples_en210/add.py:1234-1264 | So no run does, through subroutines and repeats |
| NvinitStrap.LaterReaderRightIff | examples_en210/add.py:716-756 | After a reader met while disabled every later one of the script, in whatever subroutine or repeat, gets the index cached there, which is its own strap's if and only if the strap is forced, the cache already held it, or strap 0 has the same index |
| NvinitStrap.LaterTableRightIff | examples_en210/add.py:1367-1380 | Every enabled strap table of the script from then on writes the words of that index, the right ones if and only if the two columns agree |
| NvinitInputs.StrapMissed | examples_en210/add.py:716-756 | An image whose script writes the first word of a strap table where the strap calls for the second |
| NvinitRun.ScriptStarts | examples_en210/add.py:1234-1251 | A top-level run starts enabled, outside any repeat and with an empty strap cache; a nested one with what it finds |
| NvinitRun.TopLevelForgets | examples_en210/add.py:1234-1251 | So a top-level run takes nothing over from an earlier one but what the device has seen |
| NvinitRun.MoreFuelSameRun | examples_en210/add.py:1234-1264 | The instruction bound is only a bound: a run that ends has the same outcome under any larger one |
| NvinitInvariants.RunKeeps | examples_en210/add.py:1234-1264 | What every instruction keeps every run keeps, and ends with the nesting it started with |
| NvinitInvariants.RunUntilKeeps | examples_en210/add.py:1234-1264 | Also one told to stop early |
| NvinitInvariants.RunVisitsKeep | examples_en210/add.py:1252-1262 | And before each instruction it fetches, in nested runs too |
| NvinitInvariants.RunEstablished | examples_en210/add.py:1252-1262 | What one instruction of a run establishes holds before each later one, wherever that stands, and at the end |
| NvinitStructured.StructuredScriptRuns | examples_en210/add.py:1234-1264 | Every structured script laid out at non-zero offsets terminates, restores nesting and repeat state, and does to the device exactly what its tree means |
| NvinitStructured.BlockRuns | examples_en210/add.py:1641-1685 | Entered at a block, the loop reaches the block's end having threaded flag and trace through every instruction, call and repeat |
| NvinitStructured.RepeatRuns | examples_en210/add.py:1641-1663 | REPEAT n (n >= 1) runs its body n times and leaves at the byte after END_REPEAT |
| NvinitStructured.BodyRuns | examples_en210/add.py:1659-1663 | END_REPEAT stops the inner loop and records where the body ends |
| NvinitStructured.RepeatZeroRunsOnce | examples_en210/add.py:1641-1663 | REPEAT 0 is not an empty loop: outside any other repeat its body runs once |
| NvinitStructured.RepeatZeroEndsOuterPass | examples_en210/add.py:1641-1663 | Inside another repeat the END_REPEAT of a REPEAT 0 ends the outer pass |
| NvinitStructured.RepeatAroundZero | examples_en210/add.py:1641-1663 | So REPEAT n around a REPEAT 0 runs what precedes it and its body n times and goes on behind the inner END_REPEAT |
| NvinitStructured.StopsBefore | examples_en210/add.py:1252-1262 | A run told to stop before an offset runs exactly the statements that start below it, calls and repeats among them in full |
| NvinitFlags.EffectFlag | examples_en210/add.py:685-700 | Every opcode keeps the flag at 1 or 3 and a cached strap index; while the flag is 3 no opcode but RESET, I2C_IF and I2C_LONG_IF adds a write, and only RESUME and NOT re-enable |
| NvinitFlags.FlagArithmetic | examples_en210/add.py:685-700 | The bit operations on the flag toggle between 1 and 3, force bit in and out |
| NvinitFlags.LoopSettled | examples_en210/add.py:1252-1262 | The flag invariant holds through every run of the loop, nested runs included, and nesting is restored |
| NvinitFlags.RunSettled | examples_en210/add.py:1234-1264 | A top-level script establishes the invariant itself, also when it is told to stop early |
| NvinitFlags.SettledBetweenInstructions | examples_en210/add.py:1252-1262 | Before each instruction that a script fetches, in every nested run, the flag is 1 or 3 |
| NvinitFlags.NvKeepsSettled | examples_en210/add.py:1269-1868 | The NVINIT instruction set meets the condition those theorems ask of an instruction set |
| NvinitFlags.NextPositionIgnoresFlag | examples_en210/add.py:1269-1868 | Except for JUMP, the next script position is the same whatever the flag, for REPEAT with any body that is laid out |
| NvinitInputs.JumpInBodyDependsOnFlag | examples_en210/add.py:1641-1693 | An image with a JUMP in a repeat body, where that fails |
| NvinitFlags.DisabledBlockIsSilent | examples_en210/add.py:413-442 | A whole structured block met while disabled, repeats and calls included, leaves trace and flag untouched |
| NvinitRegisterOps.NvRegStep | examples_en210/add.py:1293-1298 | `6e`, a register, a mask and data of four bytes each: one read and one write of the old value's masked bits with the data or-ed in, and 13 bytes on |
| NvinitRegisterOps.ZmRegStep | examples_en210/add.py:1282-1291 | `7a`, register, data: one write, with bit 0 set if the register is 0x200, and 9 bytes on |
| NvinitRegisterOps.ZmReg16Step | examples_en210/add.py:1300-1304 | `77`, register, two bytes of data: one write of them, and 7 bytes on |
| NvinitRegisterOps.ZmRegGroupStep | examples_en210/add.py:1306-1312 | `91`, register, count, words: each written to that register in order, and behind the last one on |
| NvinitRegisterOps.ZmRegSequenceStep | examples_en210/add.py:1314-1320 | `58`, register, count, words: each written four bytes behind the one before, and behind the last one on |
| NvinitRegisterOps.ZmMaskAddStep | examples_en210/add.py:1322-1329 | `97`, register, mask, summand: the masked bits of the old value with the other bits of the sum, and 13 bytes on |
| NvinitRegisterOps.AndnRegStep | examples_en210/add.py:1331-1335 | `47`, register, mask: the masked bits cleared, and 9 bytes on |
| NvinitRegisterOps.OrRegStep | examples_en210/add.py:1337-1341 | `48`, register, mask: the masked bits set, and 9 bytes on |
| NvinitRegisterOps.CopyZmRegStep | examples_en210/add.py:1343-1347 | `90`, source, target: one read and one write of what it gave, and 9 bytes on |
| NvinitRegisterOps.CopyNvRegStep | examples_en210/add.py:1349-1358 | `5f`, source, shift, mask, inversion, target and its mask in that order: the moved bits in the target, and 22 bytes on |
| NvinitRegisterOps.ZmRegIndirectStep | examples_en210/add.py:1360-1365 | `5a`, register, address: the dword that stands there is written, 0 past the image, and 7 bytes on |
| NvinitRegisterOps.ResetStep | examples_en210/add.py:1694-1706 | `65`, register and two words: the five steps whatever the flag, and 13 bytes on |
| NvinitRegisterOps.MacroOpStep | examples_en210/add.py:1708-1715 | `6f`, index: the register and value of that table entry, and 2 bytes on |
| NvinitRegisterOps.NoMacroStep | examples_en210/add.py:1708-1715 | An index past the table is stepped over |
| NvinitRegisterOps.XlatStep | examples_en210/add.py:1796-1813 | `96` and its seven operands: the selected entry of the selected table, shifted, in the target, and 17 bytes on |
| NvinitRegisterOps.GpioStep | examples_en210/add.py:1827-1833 | `8e`: every line that has a function is reset, and one byte on |
| NvinitRegisterOps.GpioNeStep | examples_en210/add.py:1835-1843 | `a9`, count, functions: every line but those of these functions, and behind the list on |
| NvinitTableOps.CountRead | examples_en210/add.py:706-714 | The width of a strap table's rows is the byte of the M table that its version gives |
| NvinitTableOps.FirstGroupCounts | examples_en210/add.py:716-756 | With an M0203 table the index is the group of the first entry for the strap |
| NvinitTableOps.NoGroups | examples_en210/add.py:716-756 | Without one it is the byte of the translation table, or the strap itself |
| NvinitTableOps.RamRestrictGroupStep | examples_en210/add.py:1367-1380 | `8f`, register, increment, rows: of each row the word of the strap's column, to registers that far apart, and behind the last row on |
| NvinitTableOps.RamRestrictPllStep | examples_en210/add.py:1382-1391 | `87`: the strap is read and its index cached, nothing is written, and behind the list on |
| NvinitVgaOps.CrStep | examples_en210/add.py:1491-1497 | `52`, index, mask, data: an indexed read, an indexed write of the masked bits with the data or-ed in, and 4 bytes on |
| NvinitVgaOps.ZmCrStep | examples_en210/add.py:1499-1503 | `53`, index, data: one indexed write, and 3 bytes on |
| NvinitVgaOps.ZmCrGroupStep | examples_en210/add.py:1505-1512 | `54`, count, pairs: each an indexed write, in order, and behind the last on |
| NvinitVgaOps.CrLatchStep | examples_en210/add.py:1514-1527 | `51`, two registers, first index, bytes: each byte written behind its counting index, the first register put back, and behind the last byte on |
| NvinitVgaOps.PickedIs | examples_en210/add.py:1769-1777 | What an indexed register selects is its masked value divided by the power of two |
| NvinitVgaOps.IoStep | examples_en210/add.py:1529-1554 | `69`, port, mask, data: one port read and one port write, behind the enable sequence for 0x3c3 and 1, and 5 bytes on |
| NvinitVgaOps.CopyStep | examples_en210/add.py:1784-1794 | `37`, register, shift, mask, port, index, mask: an indexed read, a register read and the indexed write of both parts, and 11 bytes on |
| NvinitVgaOps.IoRestrictProgStep | examples_en210/add.py:1769-1782 | `32`: an indexed read, the one word of the list that it selects, and behind the list on |
| NvinitVgaOps.IoRestrictPllStep | examples_en210/add.py:1736-1752 | `34`: an indexed read, the read of the named flag condition if a frequency is selected, and behind the list on |
| NvinitVgaOps.IoRestrictPll2Step | examples_en210/add.py:1754-1767 | `4a`: an indexed read, and behind the list on |
| NvinitConditionOps.ConditionStep | examples_en210/add.py:1562-1566 | `75`, index: the register, mask and value of that table entry decide the flag with one read, and 2 bytes on |
| NvinitConditionOps.NoConditionStep | examples_en210/add.py:1562-1566 | An entry past the table disables without a read |
| NvinitConditionOps.IoConditionStep | examples_en210/add.py:1568-1572 | `76` likewise with an indexed register |
| NvinitConditionOps.NoIoConditionStep | examples_en210/add.py:1568-1572 | And without its entry |
| NvinitConditionOps.IoFlagConditionStep | examples_en210/add.py:1574-1578 | `39`: the byte that an indexed register selects, masked, decides the flag, and 2 bytes on |
| NvinitConditionOps.NoIoFlagConditionStep | examples_en210/add.py:1574-1578 | And without its entry |
| NvinitConditionOps.StrapConditionStep | examples_en210/add.py:1580-1585 | `73`, mask, value: register 0x101000 decides, and 9 bytes on |
| NvinitConditionOps.RamConditionStep | examples_en210/add.py:1587-1592 | `6d`, mask, value of one byte each: register 0x100000 decides, and 3 bytes on |
| NvinitConditionOps.GenericConditionStep | examples_en210/add.py:1594-1601 | `3a`: disables, and steps over its operand's length |
| NvinitConditionOps.ConditionTimeStep | examples_en210/add.py:1609-1624 | `56`, index, retries: reads of that entry's register up to the first that compares, else as many as 50 times the retries but at most 100, decide the flag, and 3 bytes on |
| NvinitConditionOps.NoConditionTimeStep | examples_en210/add.py:1609-1624 | Without its entry it disables without a read |
| NvinitConditionOps.ResumeStep | examples_en210/add.py:1275-1277 | `72` enables |
| NvinitConditionOps.NotStep | examples_en210/add.py:1278-1280 | `38` turns the flag over |
| NvinitI2cOps.ZmI2cStep | examples_en210/add.py:1393-1405 | `4e`, bus, address, bytes: one message to half the address, and behind the bytes on, whatever the answer |
| NvinitI2cOps.ZmI2cByteStep | examples_en210/add.py:1407-1421 | `4d`, bus, address, pairs: a transfer per pair, and behind the last on |
| NvinitI2cOps.I2cByteStep | examples_en210/add.py:1423-1444 | `4c`, bus, address, triples: per triple a read and, if that succeeds, a write of the masked answer with the data or-ed in, and behind the last on |
| NvinitI2cOps.I2cIfStep | examples_en210/add.py:1446-1462 | `5e`: a register read at the whole address, whatever the flag; an answer, or error byte, that does not compare disables, and 6 bytes on |
| NvinitI2cOps.I2cLongIfStep | examples_en210/add.py:1464-1482 | `9a`: a register read at half the address, high byte first; a failed read or one that does not compare disables, and 7 bytes on |
| NvinitFlowOps.DoneStep | examples_en210/add.py:1273-1274 | `71` ends the run |
| NvinitFlowOps.EndRepeatStep | examples_en210/add.py:1659-1663 | `36` in a repeat ends the pass and notes the next byte; outside it is stepped over |
| NvinitFlowOps.JumpStep | examples_en210/add.py:1687-1692 | `5c`, target: goes there if enabled, else 3 bytes on |
| NvinitFlowOps.SubDirectStep | examples_en210/add.py:1665-1673 | `5b`, target: the script there is run if enabled, and 3 bytes on either way |
| NvinitFlowOps.SubStep | examples_en210/add.py:1675-1685 | `6b`, index: the script of that table entry is run if there is one and enabled, and 2 bytes on either way |
| NvinitFlowOps.RepeatStep | examples_en210/add.py:1641-1657 | `33`, count: what stands behind is run that often, and on from where the last pass ended, with the outer repeat's state back |
| NvinitFlowOps.SkipStep | examples_en210/add.py:1484-1866 | Every opcode without effect is stepped over by its length, counted lists included |
| NvinitFlowOps.OtherBytesFail | examples_en210/add.py:1873-1943 | Any byte that no handler is registered for stops the interpreter |
| Ctxprog.Grctx.constructor | examples_en210/tools/ctxnv40_defs.h:16-27 | The structure starts all zero |
| Ctxprog.Grctx.Out | examples_en210/tools/ctxnv40_defs.h:30-38 | Appends one word in PROG mode, nothing in VALS mode, and stops on a full store |
| Ctxprog.Grctx.Lsr | examples_en210/tools/ctxnv40_defs.h:40-42 | The length word is one such append |
| Ctxprog.Grctx.LoadRegs | examples_en210/tools/ctxnv40_defs.h:44-53 | cp_ctx moves register index and image cursor in both modes and emits the short or the long form |
| Ctxprog.Grctx.Name | examples_en210/tools/ctxnv40_defs.h:55-64 | cp_name records the label and rewrites, in place, exactly the placeholders of that name |
| Ctxprog.Grctx.Bra | examples_en210/tools/ctxnv40_defs.h:66-73 | A branch carries a known label's position, or a placeholder naming it |
| Ctxprog.Grctx.Wait | examples_en210/tools/ctxnv40_defs.h:75-77 | Wait word with flag and polarity |
| Ctxprog.Grctx.Set | examples_en210/tools/ctxnv40_defs.h:79-81 | Set word with flag and polarity |
| Ctxprog.Grctx.Pos | examples_en210/tools/ctxnv40_defs.h:83-88 | cp_pos moves the image cursor in both modes and emits its two words |
| Ctxprog.Grctx.Def | examples_en210/tools/ctxnv40_defs.h:90-95 | gr_def writes one slot of the image, in VALS mode only |
| Backpatching.PatchingIsTwoPass | examples_en210/tools/ctxnv40_defs.h:55-73 | The single-pass, patch-in-place assembler equals a two-pass one on every linkable program: no placeholder left, each branch at its label, every other word untouched |
| Backpatching.BranchResolvedIff | examples_en210/tools/ctxnv40_defs.h:66-73 | A reference comes out as a branch to its label if and only if the label stands at 1 to 511 |
| Backpatching.RunFitsIff | examples_en210/tools/ctxnv40_defs.h:30-38 | A PROG run succeeds if and only if the program has no more words than the store, and then has emitted exactly as many |
| Backpatching.PatchPlaceholder | examples_en210/tools/ctxnv40_defs.h:59-63 | Patching a placeholder of the name gives the branch with modifier, flag and polarity kept; other names keep theirs |
| Backpatching.PatchOther | examples_en210/tools/ctxnv40_defs.h:59-63 | A word that is not a placeholder is never rewritten |
| Backpatching.RunRenders | examples_en210/tools/ctxnv40_defs.h:30-88 | After every prefix of calls the store renders the symbolic program under the labels known so far |
| Backpatching.LabelAtZeroIsLost | examples_en210/tools/ctxnv40_defs.h:66-71 | A label at position 0 is taken for undefined, so a backward branch to it stays a placeholder |
| TwoModes.TwoModesAgree | examples_en210/tools/ctxnv40_defs.h:30-95 | Executing the PROG run's words on the VALS run's image leaves, from any registers and length register, exactly the registers the generator means; labels, lengths and raw words included |
| TwoModes.LastDefinitionWins | examples_en210/tools/ctxnv40_defs.h:90-95 | A covered register ends at its last gr_def value |
| TwoModes.CursorsAgree | examples_en210/tools/ctxnv40_defs.h:30-95 | Both modes move the same cursors, for every generator, branches included |
| TwoModes.ClosedSlotsKeep | examples_en210/tools/ctxnv40_defs.h:90-95 | Once a window is closed its image slots keep their values to the end of the run |
| TwoModes.FreshSlotsAreZero | examples_en210/tools/ctxnv40_defs.h:90-95 | Slots no window has taken are still zero |
| TwoModes.EmptyCtxLoadsStaleLength | examples_en210/tools/ctxnv40_defs.h:44-53 | A cp_ctx of length 0 loads as many registers as the length register last held |
| TwoModes.CtxMovesIff | examples_en210/tools/ctxnv40_defs.h:44-53 | A cp_ctx moves the image pointer by its length if and only if that is not 0 or the length register happens to be |
| Chestnut.Controller.PcieWrite | examples_en210/add.py:2160-2175 | A request of size 1 to 4 inside a dword changes exactly those bytes; another size is refused |
| Chestnut.Controller.PcieRead | examples_en210/add.py:2160-2175 | A read returns exactly the enabled bytes, retried on a link error as often as allowed, and changes nothing |
| Chestnut.Controller.PcieMemWrite | examples_en210/add.py:2179-2189 | A run in stream chunks, first dword of each sent twice, is one flat write; a length that is not whole dwords is refused untouched |
| Chestnut.Controller.WriteChunk | examples_en210/add.py:2184-2189 | One chunk with its doubled first dword is the flat write of the chunk |
| Chestnut.Controller.PcieMemRead | examples_en210/add.py:2190-2201 | A chunked read returns the flat slice and, on a link that never errs more than ten times in a row, succeeds exactly for whole dwords |
| Chestnut.Controller.PcieWriteDword | examples_en210/add.py:2320-2322 | write32 through the aperture stores the four little-endian bytes |
| Chestnut.Controller.WriteWindowReg | examples_en210/add.py:2320-2322 | write32 of the window register replaces all four bytes of the window and nothing else |
| Chestnut.Controller.WriteReg | examples_en210/add.py:2320-2322 | write32 of any other register reaches the board, whose own log grows by that register and value with all four bytes enabled, and leaves window and memory alone |
| Chestnut.RecoveredRead | examples_en210/add.py:2160-2175 | A read whose good completion comes within its retries returns the data |
| Chestnut.ErrorsSurvivedIff | examples_en210/add.py:2160-2175 | k link errors before a good completion are survived if and only if k retries are allowed |
| Chestnut.LanesAreRange | examples_en210/add.py:2160-2165 | The byte enables of size and offset select exactly the bytes offset to offset+size |
| Chestnut.FlatAppend | examples_en210/add.py:2182-2189 | Writing next to what was written is writing both |
| Pramin.Vram.SetWindow | examples_en210/add.py:2347-2351 | The cached page always equals the hardware window, and afterwards the aperture shows the address |
| Pramin.Vram.Write32 | examples_en210/add.py:2352-2356 | One dword lands flat at its address, whatever window was set |
| Pramin.Vram.Read32 | examples_en210/add.py:2357-2361 | One dword is read from its address |
| Pramin.Vram.WriteBlock | examples_en210/add.py:2362-2376 | Bulk and per-word paths both leave memory with the zero-padded data written flat and nothing else changed |
| Pramin.Vram.WritePiece | examples_en210/add.py:2365-2371 | Each piece stays in one window and extends the flat write |
| Pramin.Vram.ReadBlock | examples_en210/add.py:2377-2389 | Both read paths return the flat slice |
| Pramin.Vram.WriteThenRead | examples_en210/add.py:2362-2389 | What was written reads back |
| DwordView.Write32View | examples_en210/add.py:2352-2356 | write32 is the update of one dword of memory seen as dwords |
| DwordView.WriteBlockView | examples_en210/add.py:2362-2376 | write_block is the write of its padded data's dwords there, and of no others |
| DwordView.Read32View | examples_en210/add.py:2357-2361 | read32 returns the dword seen |
| Gmmu.Setup | examples_en210/add.py:2499-2550 | setup_gmmu through the window leaves memory `SetupGmmu`, and then flushes the seven TLBs |
| Gmmu.FlushValues | examples_en210/add.py:2545-2549 | The seven flushes as register, value and order, in numbers |
| Gmmu.Extend | examples_en210/add.py:3211-3225 | extend_gmmu through the window leaves memory `ExtendGmmu`, and then flushes the seven TLBs |
| Gmmu.ExtendWrites | examples_en210/add.py:3211-3225 | extend_gmmu writes the entries of its own pages and nothing else |
| Gmmu.ExtendWalk | examples_en210/add.py:3211-3225 | After one extension its range walks to itself, every other walk is as before, and the directory is kept |
| Gmmu.ExtendAllWalk | examples_en210/add.py:3211-3225 | The same after any sequence of extensions |
| Gmmu.SetupWalk | examples_en210/add.py:2509-2529 | setup_gmmu maps its range and leaves the rest of the 512 entries it clears unmapped |
| Gmmu.SetupLeavesRest | examples_en210/add.py:2499-2529 | The entries from 2 MiB to 512 MiB are left as they were, whatever they held |
| Gmmu.GmmuIsIdentity | examples_en210/add.py:2499-2529 | Where every virtual address walks to, from a zeroed instance block and after any extensions: mapped pages to themselves, cleared ones and those from 512 MiB up nowhere, the others to what the table held before |
| Gmmu.UnmappedIff | examples_en210/add.py:2499-2529 | A page nobody mapped is unmapped if and only if it is outside 2 MiB to 512 MiB or its old entry was not valid |
| Gmmu.StaleEntryMaps | examples_en210/add.py:2499-2529 | A memory in which such a page stays mapped |
| PushStream.PushRoundTrip | examples_en210/add.py:2394-2406 | A header-then-count decoder recovers exactly the (subchannel, method, argument) writes of any list of calls |
| PushStream.HeaderFields | examples_en210/add.py:2394-2406 | Every field of a header comes back, incrementing or not |
| PushStream.EntryRoundTrip | examples_en210/add.py:2411-2420 | A GPFIFO entry round-trips address, length and all flags |
| Ramht.RamhtHash | examples_en210/add.py:3194-3200 | The hash loop folds the handle and stays inside the table |
| Ramht.RamhtInsert | examples_en210/add.py:3201-3206 | An insert writes the handle and its context at the hashed slot |
| Ramht.HashIsDigits | examples_en210/add.py:3194-3200 | The hash of a 32-bit handle is the exclusive or of its three twelve-bit digits |
| Ramht.HashValues | examples_en210/add.py:3194-3200 | 0x85c0 hashes to 0x5c8 and 0xbeef0201 to 0xc4f |
| Ramht.InsertThenLookup | examples_en210/add.py:3194-3206 | An insert is found, evicts whatever shares its slot, and leaves every other lookup alone |
| Ramht.BothFoundIffSlotsDiffer | examples_en210/add.py:3194-3206 | Two objects are both reachable if and only if their slots differ |
| Ramht.SecondEvictsFirst | examples_en210/add.py:3194-3206 | Handles 1 and 0x1000 share a slot, and the second evicts the first |
| Channel.CreateChannel | examples_en210/add.py:2664-2773 | create_channel through the window, up to and with the doorbell, leaves memory `Staged`, and the board has received exactly the register writes of `ChannelLog`, each when memory was what is said there |
| Channel.ChannelLogValues | examples_en210/add.py:2733-2773 | Those writes from the bind on as registers and values in numbers, behind the flushes of both page-table updates |
| Channel.DoorbellIsLast | examples_en210/add.py:2733-2773 | The doorbell is rung once, last, when everything is staged |
| Channel.RunSetupFn | examples_en210/add.py:3305-3338 | The setup callback through the window leaves memory `SetupFn`, flushing the TLBs after its extension |
| Channel.DmaWords | examples_en210/add.py:2425-2446 | The six dwords of a DMA object in numbers, for all four targets and both modes |
| Channel.DmaReadsBack | examples_en210/add.py:2425-2446 | A DMA object in memory reads back with its class, its window, its target and its access, for all four targets and both modes |
| Channel.SetupFnGet | examples_en210/add.py:3305-3338 | What the callback leaves at every dword address |
| Channel.StagePushGet | examples_en210/add.py:2721-2732 | What the push buffer and ring staging leaves at every dword address |
| Channel.StageInstanceGet | examples_en210/add.py:2681-2711 | What the instance staging leaves outside and inside the RAMFC |
| Channel.SlotsDiffer | examples_en210/add.py:3194-3206 | The two handles of the launch hash to different slots |
| Channel.RamfcValues | examples_en210/add.py:2695-2711 | The values of the RAMFC fields |
| Doorbell.RamfcPointers | examples_en210/add.py:2695-2773 | At the doorbell the RAMFC still names the push DMA object, the ring, the hash table and the instance block |
| Doorbell.PushDmaFound | examples_en210/add.py:2689-2773 | The push DMA object spans the whole virtual space |
| Doorbell.FifoFound | examples_en210/add.py:2727-2773 | Ring entry 0 names the push buffer, all others are empty |
| Doorbell.FetchIsPush | examples_en210/add.py:2681-2773 | From RAMFC to ring to page table to push buffer, exactly the push words are fetched |
| Doorbell.HandlesFound | examples_en210/add.py:3310-3328 | Both handles are found, in their engines |
| Doorbell.ObjectsFound | examples_en210/add.py:3310-3328 | The compute handle leads to an object of class 0x85c0, the other to all of video memory |
| Doorbell.ContextFound | examples_en210/add.py:3330-3336 | All six dwords of the GR context pointer span the context image, and the image is in place |
| Doorbell.DoorbellFindsEverything | examples_en210/add.py:2681-2773 | For any methods that encode into at most 64 KiB, any context image and any earlier memory, the GPU starting from the RAMFC executes exactly those methods |
| Doorbell.FetchedIff | examples_en210/add.py:2681-2773 | Exactly when a push of up to 133504 bytes is fetched as handed in: it ends within 128 KiB and agrees with the ring and the runlist staged 64 KiB behind its start, words 0x4000 to 0x4400 |
| Doorbell.OnesNotFetched | examples_en210/add.py:2721-2732 | One word more than 64 KiB of ones is not fetched as ones |
| Doorbell.BeyondFaults | examples_en210/add.py:2681-2773 | The word 128 KiB behind its start is not mapped and faults |
| Doorbell.LongPushIsTable | examples_en210/add.py:2681-2773 | A still longer push stands in the page table's place: the entries its fetch goes through are its own words |
| ComputePush.BuildComputePush | examples_en210/add.py:3230-3300 | The word list built section by section encodes the calls in order, and decodes to the whole launch as literal method and argument pairs on subchannel 6 |
| ComputePush.LaunchWrites | examples_en210/add.py:3230-3300 | The methods the launch writes, each as its number and argument in hexadecimal |
| ComputePush.LaunchedAsAsked | examples_en210/add.py:3230-3300 | The push buffer launches exactly once, and the engine then holds the compute object's handle 0x85c0, the kernel address, grid, parameters, stack and local memory, register and shared sizes and objects asked for, and sixteen full-range global slots |
| ComputePush.AllSlotsSet | examples_en210/add.py:3255-3259 | Later slots do not disturb earlier ones |
| EndToEnd.ProgramDelivers | examples_en210/add.py:3440-3483 | The whole program from two arrays: upload, staging and doorbell lead to one launch whose bytes leave op(a[i], b[i]) in every out[i] under every schedule and change nothing else, whatever memory and engine held before |
| EndToEnd.RunAdd | examples_en210/add.py:3440-3483 | run_add from the upload to the doorbell, through the window, ends with the doorbell rung on exactly that memory |
| EndToEnd.UploadInPlace | examples_en210/add.py:3440-3463 | After the upload the kernel and both inputs stand where the launch expects them |
| EndToEnd.DoorbellToResults | examples_en210/add.py:3440-3483 | The part from the doorbell, for kernel and inputs that are in memory by any means: one launch, its registers describe a valid grid, and under every schedule the bytes at its start address leave the results |
| EndToEnd.LaunchReached | examples_en210/add.py:3440-3483 | From the doorbell and from any engine state: one launch, of the uploaded image, over main()'s arrays, through objects that reach them; the handle then bound looks up to an object of class 0x85c0 |
| EndToEnd.ResultsAreCorrect | examples_en210/add.py:3440-3483 | For the launch so described: when its threads are done, in any order, out[i] is the operation on the uploaded a[i] and b[i] and nothing else has changed since the doorbell |
| EndToEnd.DataKept | examples_en210/add.py:3180-3186 | Kernel, inputs and output lie outside everything the staging writes |
| Sass.Lw0IsSum | examples_en210/add.py:2934-2936 | The fields of a first word do not overlap |
| Sass.Lw1IsSum | examples_en210/add.py:2939-2943 | Nor do those of a second word |
| Sass.SwIsSum | examples_en210/add.py:2946-2948 | Nor do those of a short word |
| Sass.Read0Back | examples_en210/add.py:2934-2936 | Every field of a first word comes back, and its low bits tell its kind |
| Sass.Read1Back | examples_en210/add.py:2939-2943 | Every field of a second word comes back |
| Sass.ReadSBack | examples_en210/add.py:2946-2948 | Every field of a short word comes back, and its low bits are 0 |
| Sass.StreamRoundTrip | examples_en210/add.py:2932-2954 | The bytes of any sequence of short, long, exit and control instructions parse back to every field of every instruction |
| Kernel.ImageIsListing | examples_en210/add.py:2980-3034 | The kernel image is 88 bytes and parses back to the fourteen instructions, for both operations |
| Kernel.ImageIsWords | examples_en210/add.py:2980-3034 | The image as its 22 words in hexadecimal, for both operations |
| Kernel.BuildIsListing | examples_en210/add.py:2959-3034 | build_kernel_sass refuses every operation but add and mul, and gives those the image of their listing |
| Kernel.FetchIsListing | examples_en210/add.py:2959-3034 | What a machine decodes from the bytes at each position is the listing beside the encoders |
| Threads.ThreadMoves | examples_en210/add.py:2959-3034 | Each instruction takes its thread one place on with the registers the listing's comments give, on any memory that still holds its two inputs |
| Grid.EveryScheduleKeeps | examples_en210/add.py:2959-3034 | After every schedule each thread is where its own turns put it, and memory holds the results of exactly the threads that have stored |
| Grid.DoneIffTurns | examples_en210/add.py:2959-3034 | A thread is done if and only if it had fourteen turns, or six when its index is past the end |
| Grid.VectorOperation | examples_en210/add.py:2959-3034 | Whatever the order of the threads, each out[i] is stored exactly once with op(a[i], b[i]) and nothing else is stored |
| Grid.ElementsHaveThreads | examples_en210/add.py:3448-3450 | ceil(N/block) blocks have a thread for every element |
| Ptx.PtxThread | examples_en210/add.py:2847-2890 | A thread of the PTX text makes exactly the store its element calls for |
| Ptx.PtxIsSass | examples_en210/add.py:2847-3034 | The PTX text and the hand-assembled image make the same stores, thread by thread |
| I2c.Host.RaiseScl | examples_en210/add.py:584-590 | Fails if and only if the slave holds the clock through all 2200 polls, and else stops behind the first poll that finds it let go |
| I2c.Host.Start | examples_en210/add.py:592-600 | Exactly one START is seen, first or repeated; it fails if and only if the lines are not free and the slave holds the clock for all the time allowed, and then none is |
| I2c.Host.Stop | examples_en210/add.py:602-609 | From any state of the lines exactly one STOP is seen and both lines end released |
| I2c.Host.BitWrite | examples_en210/add.py:611-617 | One clock with the data line at the bit, and failure exactly when the slave holds the clock |
| I2c.Host.BitRead | examples_en210/add.py:619-627 | One clock with the data line released, sampled at the read behind the poll that found the clock high, and failure exactly when the slave holds it |
| I2c.Host.PutByte | examples_en210/add.py:629-634 | The eight bits and a released ninth are seen as one frame; NACK is what the slave left at the sample of the ninth clock, and Stuck that it held one of the nine |
| I2c.Host.GetByte | examples_en210/add.py:636-641 | Eight released clocks and the acknowledge are one frame; the value is `I2cTiming.ByteRead`, the samples of those eight clocks with the first as the high bit; it fails exactly when the slave holds one of the nine clocks |
| I2c.Host.Xfer | examples_en210/add.py:643-664 | Every exit ends with one STOP and released lines; on success the waveform is heard as exactly the messages, on failure as a part of them. The outcome is `I2cTiming.Run` for any slave: the data of every read message, or how the first message that fails fails; against a slave that never holds the clock it is Ok if and only if every byte sent is acknowledged, with the data line at reads given in numbers |
| I2cTiming.SampleIs | examples_en210/add.py:584-627 | A bit is sampled at the read behind the first poll that finds the clock high, and the next read is the one that pulls it low |
| I2cTiming.ValueIsWeights | examples_en210/add.py:636-641 | The samples of a byte weigh 0x80 down to 1 in the order of their clocks |
| I2cTiming.PresentedByte | examples_en210/add.py:636-641 | A byte that the slave shifts out high bit first is read as that byte, however it stretches the clock |
| I2cTiming.PresentedBytes | examples_en210/add.py:643-664 | So are all bytes of a read message |
| I2cTiming.RegisterRead | examples_en210/add.py:666-674 | A register read that succeeds returns the byte the slave shifts out for it |
| I2cTiming.RunAnswers | examples_en210/add.py:643-664 | A successful transfer has one answer of the right length for each read message |
| I2cTiming.GetUnheld | examples_en210/add.py:636-641 | With the clock never held, a byte takes 44 reads of the port and its bits are those at the 3rd, 8th, up to the 38th behind its first |
| I2cTiming.RunUnheld | examples_en210/add.py:643-664 | With the clock never held, a transfer succeeds if and only if every byte sent is acknowledged 35 reads behind its first, and then reads the data at the reads given |
| I2cWire.HearPlan | examples_en210/add.py:643-664 | A planned waveform is heard as exactly its messages, each to that address |
| Bars.Probe | examples_en210/add.py:2281-2286 | Writing ones and reading back gives the size 2^k, 32 or 64 bit, whatever was there before |
| Bars.Program | examples_en210/add.py:2289-2290 | Both halves land as one address rounded to the bar's size |
| BarSetup.SetupBars | examples_en210/add.py:2263-2298 | Every memory bar is in the table if and only if each has an even run of I/O registers with address bit 2 set just before it; then the table is the plan, the plan is in the hardware, and a missing BAR0 or a lack of room is reported; otherwise the first bar passed over is missing and, if 32 bits wide, untouched |
| BarSetup.Round | examples_en210/add.py:2273-2295 | One round of the walk keeps that account, whatever register it lands on |
| BarSetup.IoBarHidesNext | examples_en210/add.py:2275-2295 | A 4-byte I/O BAR at address 4 reads 0x5, is taken for 64 bits wide, and hides the memory BAR behind it |
| BarSetup.IoBarHidesIoBar | examples_en210/add.py:2275-2295 | Two such I/O BARs in a row hide only each other |
| Bars.OnesKept | examples_en210/add.py:2282-2286 | All ones read back as 2^32 - 2^k or 2^64 - 2^k |
| BarLayout.RangesSized | examples_en210/add.py:2287-2294 | Each range has its bar's size, its pool and a 2 MiB boundary |
| BarLayout.RangesApart | examples_en210/add.py:2287-2294 | No two ranges overlap while the plain pool ends below the prefetchable one |
| BarLayout.DecodesIff | examples_en210/add.py:2287-2291 | The hardware decodes what was recorded if and only if the base is naturally aligned and fits the bar's width |
| BarLayout.NarrowPrefetchableLost | examples_en210/add.py:2288-2290 | A 32-bit prefetchable bar is recorded where it cannot decode |
| BarLayout.DescendingIsNatural | examples_en210/add.py:2293-2294 | When sizes do not grow within a pool, every range is naturally aligned |
| BarLayout.AllocationDecodes | examples_en210/add.py:2263-2298 | From the source's two pool bases that makes recorded and decoded addresses equal |
| CapWalk.FindCap | examples_en210/add.py:245-252 | Terminates on every configuration space, cycles included, and finds the first match on the chain before it repeats or leaves the range, if and only if there is one |
| CapWalk.StatusBit | examples_en210/add.py:245-248 | There is a list if and only if bit 4 of the status register at 0x06 is set |
| CapWalk.PointerIs | examples_en210/add.py:248-252 | A pointer is its byte with the two low bits cleared |
| CapWalk.FirstMatchUnique | examples_en210/add.py:245-252 | There is at most one such entry |
| Training.M0209Values | examples_en210/add.py:1130-1164 | The loop and the recursion compute the decoder, within the given stack |
| Training.EntryBytes | examples_en210/add.py:1130-1149 | Of an entry, bits 0 to 5 of the first byte are the width, the second byte the modulo, bits 0 to 2 of the third the mode and the fourth the other table |
| Training.ModeDecides | examples_en210/add.py:1156-1164 | Mode 1 gives the samples, mode 2 the samples looked up, any other mode nothing |
| Training.SampleIsField | examples_en210/add.py:1150-1155 | Sample i is entry i mod modulo of the little-endian bit stream, whole for widths up to 25 and cut at the dword otherwise, and 0 when the dword runs past the image |
| Training.RemapComposes | examples_en210/add.py:1156-1161 | Mode 2 is the samples looked up in the other table, and fails exactly when a sample is past its end, never at width 8 or less |
| Training.EndsIffNoLoop | examples_en210/add.py:1156-1161 | The decoder ends if and only if the remap chain does not loop, and 258 calls are always enough |
| Training.EnoughStack | examples_en210/add.py:1156-1161 | More stack never changes an outcome |
| BitField.CeilDivIsLeast | autogen/c.py:16 | The floor-based ceildiv is the least integer not below the quotient, for any signs |
| BitField.Record.Get | autogen/c.py:80-86 | The getter over memory |
| BitField.Record.SetBits | autogen/c.py:83-85 | The setter rewrites exactly its slice in place, or refuses and leaves all as it was |
| BitField.GotIsField | autogen/c.py:80-86 | Reading returns the field's bits of the buffer |
| BitField.ReadBackIff | autogen/c.py:80-86 | A read after a write returns the value modulo 2^width, so the value if and only if it fits |
| BitField.FittingIsStored | autogen/c.py:80-86 | A value that fits is never refused |
| BitField.AboveIsOred | autogen/c.py:80-86 | What does not fit is or-ed into the bits above the field |
| BitField.OnlyTheField | autogen/c.py:80-86 | Writing a value that fits changes no bit outside the field |
| BitField.OtherFieldKept | autogen/c.py:80-86 | Two fields with no bit in common, even in the same bytes, do not disturb each other |
| BitField.AssignedSlice | autogen/c.py:79-86 | No byte outside ceil((width + bit offset)/8) bytes changes |

## Left out

- NvbiosInit.Init.Run: does not model the trace output or an exception raised by the device in the middle of a script.
- NvbiosInit.Init.WaitFor: a wait is a bounded number of polls that succeeds or fails; sleeping and wall-clock deadlines are not modelled.
- NvbiosInit.Init.TransferI2c: an I2C opcode's transfer is one answer of the device here; the bit-banged transfer itself is `I2c.Host.Xfer`, and the lookup of its port in the DCB table is not modelled.
- NvinitStructured.StructuredScriptRuns: scripts without JUMP; a jump may loop for ever, which is why `NvinitRun` bounds the instructions of a run. DONE inside a REPEAT body is outside the structured fragment too.
- NvinitRun: the bound on instructions leaves the recursion limit of the host language unmodelled.
- Parsing of the BIT, DCB and GPIO tables (their offsets and entries are parameters), PLL, AUX and TMDS opcodes beyond their length, which have no effect in the code.
- TwoModes.TwoModesAgree: generators without branches, whose control flow depends on hardware flags, and without raw words that load registers or move the pointer; slots of different `cp_ctx` ranges are disjoint, and the lengths are at least 1.
- Ctxprog.Grctx.Def: the wrap of a byte offset past 2^32 in the data object is not modelled beyond the word index.
- Chestnut.Controller.PcieWrite: requests to video memory that stay inside one dword; the source would send byte enables over four bits for others, and what the controller makes of them is not in the repository. Configuration requests are modelled on the registers themselves in `Bars` and `CapWalk`, and a failed bulk transfer is not modelled.
- Chestnut.Controller.PcieRead: the same restriction to one dword.
- Pramin.Vram.SetWindow: BAR0 lies below 4 GiB, which is as far as the single requests of the interface reach, whose addresses are 32-bit.
- Pramin.Vram.WriteBlock: addresses below 2^44 - the range of the window mask - and 4-aligned, as all callers pass them: an unaligned one would send such requests. The socket transport's path is the per-word one.
- Pramin.Vram.ReadBlock: the same addresses.
- Gmmu.Setup: the read-back printing, and the bounded wait after each flush, whose result the code ignores.
- Gmmu.Extend: the same waits.
- Channel.RunSetupFn: the same waits, inside extend_gmmu.
- Channel.CreateChannel: up to the doorbell; register reads, the waits on the way and the polling after it are not modelled, nor are writes of registers before it is called.
- Doorbell.FetchedIff: pushes of up to 133504 bytes; what a longer one reads as its own page table is `Doorbell.LongPushIsTable`, not a condition for the whole fetch.
- ComputePush.BuildComputePush: the parameters, the handle and the grid and block sizes are 32-bit, as the words they become.
- EndToEnd.ResultsAreCorrect: 1 to 16384 elements, which is what the buffer addresses leave room for, and a block size that fits its 16-bit field.
- Grid.VectorOperation: instructions of one thread happen in order and each at once; caches, traps and timing are not modelled.
- Threads.ThreadMoves: buffers start on 4-byte boundaries, and neither input overlaps the output.
- I2c.Host.Xfer: the port's first initialisation is taken to start from released lines; delays and the lookup of the port are not modelled.
- BarSetup.SetupBars: bridge bus numbers and windows and the command registers are not modelled. Once the walk has lost a bar, what it writes into the registers behind that one is not stated.
- BarLayout.RangesApart: asks that the plain pool end below 32 GiB, where the prefetchable one starts.
- BitField.Record.SetBits: fields inside their buffer and a little-endian host; class registration and the non-bit-field accessor are not modelled.
- Channel.DmaReadsBack: the class number is the default that every caller uses.
- The M0205 entry selection, `ram_training`, `rammap_config`, `refpll_limits` and `dcb_gpios`: field dumps with no relation between the fields.
- libusb, sockets, files, environment variables, ptxas and ELF extraction, `gr_init` and `fifo_init` register lists, generated constant tables, and the other example programs.
