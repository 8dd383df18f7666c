# MAPS: a matrix accelerator, its simulated computer and its compiler, verified

MAPS is a small RISC-V computer with a matrix accelerator (NPU) and a compiler, TensorC, for a language with tensors and
a built-in `gemm`. This project models its core in Dafny and proves what the parts promise together. `dafny verify
dfyconfig.toml` checks everything.

## The accelerator

A descriptor in DRAM names three row-major matrices A, B and C, a dataflow and a tile size. The NPU cuts the product into
tiles, moves each by strided DMA into scratch buffers, runs it through a grid of multiply-accumulate cells and writes the
sums back; a product whose inner dimension is cut too carries its partial sums through DRAM.

- `Systolic` is the grid as a pure machine: unboundedly many cells that all step at once. Each dataflow has a closed form
  for every register of every cell at every clock, so all three deliver `C + A * B` in the same number of clocks, and the
  clock count cannot be reduced in any mode. If |A| <= alpha, |B| <= beta and K * alpha * beta < 2^31, no register and no
  product of any cell leaves the 32-bit range.
- `ProcessingElement` and `SystolicArray` are the cells and the cycle loops in place, each proved to take the pure step.
- `Storage`, `Dma`, `Descriptors`, `Schedule` are DRAM and buffers, the copy engine, the descriptor block and the tiling
  loops, with the 32- and 64-bit arithmetic written out.
- `TiledGemm`, `Hazards`, `InPlace` and `Costs` hold the invariant over the plan, the reason why C must not overlap what
  later tiles read, how far a product may be written over its own operands, and the exact counters.
- `Control` is the controller. The main result is the contract of `Control.Controller.Run`: a run succeeds exactly when the
  descriptor validates, the matrices lie in memory and the first tile fits the buffers; a failed run changes no word of
  DRAM and no counter; a successful one changes nothing outside C and adds the exact cost to the counters. The source does
  not check that C is disjoint from A and B. `TiledGemm.HazardFree` is the exact condition on the descriptor under which C
  holds A * B for every content of DRAM; disjoint matrices and single-tile runs meet it, and `InPlace.OverlapExactly` makes
  it a test on bases and sizes for every other overlap.
- `Device` and `Driver` are the register interface, whose invariant holds over every sequence of accesses, and the driver.
  `UserRuntime` is the call user programs make, from arrays laid out in DRAM down to the device.

## The computer

- `ByteView` and `SystemBus` see DRAM, a store of 32-bit words, as one little-endian array of bytes, and prove every byte,
  half-word and word access against it.
- `Loader` loads ELF32 images. For every file it reads only bytes of the file, succeeds exactly when every PT_LOAD segment
  fits the file and lands, and then overlays exactly the segments, the later ones winning.
- `Isa` says what RV32I instructions compute; `Processor` is the core, whose every step is proved to have exactly that
  effect, in the registers of the NPU and of the console too. `BitFacts`, `Quotients`, `Numbers` and `Encoding` prove what
  the operations on words mean as arithmetic on numbers, and `Rv32i` and `Zicsr` restate every instruction from the book
  (chapters 2 and 9 of the RISC-V Unprivileged ISA): by its bits, and by what it does to numbers.
- `Computer` is the machine around the core. Every run of every program is a trace of single steps and served calls that
  ends when the core halts or faults or the steps are used up; it keeps x0 = 0 and pc, mtvec and mepc aligned, leaves no
  environment call pending between steps and keeps the NPU settled. As in src/maps-abi/syscall.md, and unlike section 3.3.1
  of the RISC-V Privileged Architecture, `ecall` stores pc + 4 in mepc.

## The compiler

- `Tokens`, `Grammar`, `Syntax` say what the grammar reads at each cursor position; `Parser` is the recursive-descent parser
  with its cursor, proved equal to it; `Writing` is the concrete syntax. `Recognition` and `Acceptance` close the circle:
  `Acceptance.ParseExactly` says that the parser accepts exactly the token lists that write a program, whatever redundant
  parentheses stand in them and wherever, and returns the program they write. `Grammar.EmittedReadsBack` is the same for the
  text the code generator prints.
- `Sema` and `Analyzer` are the shape checker as functions and as the code that updates dictionaries. `Shapes` and `Typing`
  say which programs are right, by the annotated tree alone, and `Typing.AnalyzeExactly` that the analysis accepts exactly
  these and returns that tree. `Safety` is type soundness: no run of an accepted program meets a kind, an arity or a shape
  that does not fit.
- `TensorCSemantics` and `CTarget` give TensorC (tensors are two-dimensional) and the emitted C (flat arrays) their meaning;
  `Codegen` is the generator. `CScopes` has the static rules of C. The analysis accepts programs whose C breaks them, and
  `Portable` proves exactly which: `Portable.CompilesWhenPortable` holds for every accepted program, and `Limits` has
  accepted programs on the other side. `Ordering`, `Simulation`, `Preservation` and `Programs` lead to
  `Programs.CompiledProgramAgrees`: the C of every accepted portable program of the fragment compiles, prints the same text,
  returns the same code and leaves the same tensors, element (r, c) at word r * cols + c, in whatever order C evaluates
  operands.
- `DramRuns` puts the arrays and the stack of the emitted C into words of DRAM and makes every NPU call a run of the device
  on that DRAM. `EndToEnd.TensorsEndInDram` is the whole way: from a TensorC program to its tensors in DRAM.
- `CStrings` is the escape printer and the lexer's string reader, inverse to each other.

## Model

| member | source | states |
|---|---|---|
| `Systolic.OutputStationaryWavefront` | src/maps-sim/src/npu/array.cpp:101-136 | output stationary: closed form of every register of cell (i, j) after t clocks: it forwards A(i, t-1-i-j) and B(t-1-i-j, j), 0 outside the operands, and holds c_in plus the first t-i-j products, for unbounded K |
| `Systolic.WeightStationaryWavefront` | src/maps-sim/src/npu/array.cpp:150-185 | weight stationary: closed form of every register of cell (p, j) after t clocks, idle cells included: it emits downward c_in plus the products up to p of row t-1-p-j |
| `Systolic.InputStationaryMirrorsWeightStationary` | src/maps-sim/src/npu/array.cpp:204-239 | at every clock the input-stationary grid on (A, B, c_in) is the transpose, ports and stationary registers exchanged, of the weight-stationary grid on the transposed operands |
| `Systolic.InputStationaryWavefront` | src/maps-sim/src/npu/array.cpp:204-239 | input stationary: closed form of every register of cell (i, p) after t clocks |
| `Systolic.AllModesAgree` | src/maps-sim/src/npu/array.cpp:138-142 | the cell, port and clock from which each mode collects element (i, j) holds c_in + A * B, within m+n+k-2 clocks |
| `Systolic.OneClockShort` | src/maps-sim/src/npu/array.cpp:113-114 | the clock count is tight: one clock earlier the last cell lacks exactly its last product |
| `Systolic.LastPortIsLate` | src/maps-sim/src/npu/array.cpp:163-201 | so is it in the other two modes: at clock t the port of the last element shows the sum of row (column) t-k-n+1 (t-k-m+1), which is the last one exactly on the last clock |
| `Systolic.EveryCellInRange` | src/maps-sim/src/npu/pe.cpp:59-82 | bounded operands: every register and product of every cell at every clock and in every mode is a signed 32-bit value |
| `Systolic.DotTransposed` | src/maps-sim/src/npu/array.cpp:204-256 | the transposed job has the same sums of products |
| `ProcessingElement.PE.Tick` | src/maps-sim/src/npu/pe.cpp:59-82 | one clock of a cell in place is the pure step of its registers, unknown modes included |
| `SystolicArray.Array.TickGrid` | src/maps-sim/src/npu/array.cpp:73-95 | the three passes over the grid amount to one simultaneous step: every cell ticks on what its neighbours showed before |
| `SystolicArray.Array.Gather` | src/maps-sim/src/npu/array.cpp:77-82 | the first pass reads both inputs of every cell before any cell changes |
| `SystolicArray.Array.ApplyInputs` | src/maps-sim/src/npu/array.cpp:84-88 | the second pass sets all input registers and nothing else |
| `SystolicArray.Array.TickAll` | src/maps-sim/src/npu/array.cpp:90-94 | the third pass ticks every cell on its own input registers |
| `SystolicArray.Array.Clock` | src/maps-sim/src/npu/array.cpp:73-95 | fed with the boundary of a job, a grid that shows the pure grid after t clocks shows it after t+1 |
| `SystolicArray.Array.Feed` | src/maps-sim/src/npu/array.cpp:115-133 | the skewed edge: lane l carries the operand element of step cyc-l, and 0 outside the operand |
| `SystolicArray.Array.Preload` | src/maps-sim/src/npu/array.cpp:104-111 | reset, mode and stationary operand put the grid into the initial state of the job |
| `SystolicArray.Array.RunOsTile` | src/maps-sim/src/npu/array.cpp:101-148 | output-stationary tile: the result array holds c_in + A * B row by row, in m+n+k-2 clocks |
| `SystolicArray.Array.RunWsTile` | src/maps-sim/src/npu/array.cpp:150-202 | weight-stationary tile: the skewed readout writes every element with its full sum |
| `SystolicArray.Array.RunIsTile` | src/maps-sim/src/npu/array.cpp:204-256 | input-stationary tile: the skewed readout writes every element with its full sum |
| `SystolicArray.Array.DrainBottom` | src/maps-sim/src/npu/array.cpp:187-195 | one clock of the weight-stationary readout: exactly the elements due on this clock join the finished ones |
| `SystolicArray.Array.DrainRight` | src/maps-sim/src/npu/array.cpp:241-249 | one clock of the input-stationary readout |
| `SystolicArray.Array.RunGemmTile` | src/maps-sim/src/npu/array.cpp:19-63 | refused exactly when an operand or the result is missing, a length is zero or the tile does not fit the grid in this mode, then with 0 cycles and nothing written; otherwise c_in + A * B in m+n+k-2 cycles |
| `Storage.Memory.Write` | src/maps-sim/src/common/memory.cpp:15-21 | a write is refused exactly outside the memory and otherwise changes that word alone |
| `Storage.Buffer.Load` | src/maps-sim/src/npu/buffer.cpp:34-43 | a load that fits replaces a prefix of the buffer; one that does not changes nothing |
| `Storage.Buffer.Dump` | src/maps-sim/src/npu/buffer.cpp:45-54 | a dump that fits copies a prefix of the buffer; one that does not changes nothing |
| `Dma.DmaEngine.BindMemory` | src/maps-sim/src/npu/dma.cpp:26-38 | a null memory is an error and keeps the old one; binding while busy keeps the accepted request |
| `Dma.DmaEngine.Submit` | src/maps-sim/src/npu/dma.cpp:53-109 | accepted exactly when the engine is not busy, both ends are bound, the request is well formed, its direction one of the two, and both rectangles fit; the error code of every refusal, in the order of the checks |
| `Dma.LastWord64` | src/maps-sim/src/npu/dma.cpp:73-97 | the 64-bit sum of the bound check equals the mathematical one for all 32-bit operands |
| `Dma.DmaEngine.RunSync` | src/maps-sim/src/npu/dma.cpp:111-167 | succeeds exactly on a busy engine whose request still fits its ends; the destination becomes the strided rectangle laid over what was there; on a failure the words before the first one that does not fit are copied and all others kept; the source is unchanged |
| `Dma.DmaEngine.CopyRows` | src/maps-sim/src/npu/dma.cpp:118-156 | the outer loop stops at the first fault of the request, in row-major order |
| `Dma.DmaEngine.CopyRow` | src/maps-sim/src/npu/dma.cpp:118-156 | one row of the copy loop: all its words, or those before its first fault |
| `Dma.DmaEngine.CopyWord` | src/maps-sim/src/npu/dma.cpp:119-155 | one word of the copy loop: accepted exactly inside both ends, and then exactly that destination word changes; refused, nothing does |
| `Dma.AddressesExact` | src/maps-sim/src/npu/dma.cpp:121-148 | the 32-bit word addresses of an accepted request never wrap |
| `Dma.CoveringRowIsHighest` | src/maps-sim/src/npu/dma.cpp:118-156 | where destination rows overlap, the row that counts is the highest that covers the word |
| `Dma.WordCopied` | src/maps-sim/src/npu/dma.cpp:111-167 | where rows do not overlap, word (r, c) of the source lands on word (r, c) of the destination |
| `Dma.WordKept` | src/maps-sim/src/npu/dma.cpp:111-167 | a transfer writes nothing outside its destination rectangle |
| `Descriptors.LoadFromMemory` | src/maps-sim/src/npu/descriptor.cpp:140-166 | loading succeeds exactly on an aligned, complete block of words that are not negative and validate; m, n, k, the bases of A, B and C, the mode (0 WS, 1 OS, 2 IS) and the tile sizes are then words 0 to 9 of the block, in this order |
| `Descriptors.StoreToMemory` | src/maps-sim/src/npu/descriptor.cpp:168-193 | storing succeeds exactly for a valid descriptor whose aligned block lies in memory; words 0 to 9 of the block then hold m, n, k, the bases of A, B and C, the mode and the tile sizes, and no other word changes |
| `Descriptors.StoredThenLoaded` | src/maps-sim/src/npu/descriptor.cpp:140-193 | a stored descriptor is loaded back exactly when no field reaches 2^31; otherwise loading refuses it |
| `Descriptors.LoadedByWord` | src/maps-sim/src/npu/descriptor.cpp:140-166 | which ten words are a valid descriptor, field by field, and what each field then is |
| `Descriptors.StoredByWord` | src/maps-sim/src/npu/descriptor.cpp:168-193 | which word each stored field goes to |
| `Schedule.BuildPlan` | src/maps-sim/src/npu/schedule.cpp:5-31 | the triple loop with 32-bit counters terminates and produces the tiles of the plan in order |
| `Schedule.ExactCover` | src/maps-sim/src/npu/schedule.cpp:19-28 | every (m, n, k) of the box lies in exactly one tile of the plan |
| `Schedule.BlockIsConsecutive` | src/maps-sim/src/npu/schedule.cpp:23-26 | the K tiles of a block are consecutive, ascending and start at k0 = 0 |
| `Schedule.PositionAtRank` | src/maps-sim/src/npu/schedule.cpp:19-28 | plan indices and loop positions correspond one to one; there are exactly Tm * Tn * Tk of them |
| `Schedule.CountersFitBelowHalf` | src/maps-sim/src/npu/schedule.cpp:19-24 | with fields below 2^31 the 32-bit loop counters never wrap |
| `Schedule.LoopsAreExact` | src/maps-sim/src/npu/schedule.cpp:19-24 | the three 32-bit loops all stop after as many rounds as the plan has tiles if and only if the counters, rounded up to whole tiles, stay below 2^32 |
| `Schedule.LoopNeverEnds` | src/maps-sim/src/npu/schedule.cpp:19-28 | a valid descriptor (m = 2^32 - 1, tiles of 16) on which the outer loop never stops |
| `TiledGemm.TileContinuesSum` | src/maps-sim/src/npu/controller.cpp:268-291 | a tile whose operands are untouched continues the whole sum from k0 to k0 + k_len |
| `TiledGemm.ProgressStep` | src/maps-sim/src/npu/controller.cpp:144-152 | the invariant over the plan: finished blocks are final, the current block holds the sum over k < k0, everything else is as it was |
| `TiledGemm.ProgressEnd` | src/maps-sim/src/npu/controller.cpp:144-156 | after the last tile C is A * B of the initial DRAM and nothing else has changed |
| `TiledGemm.TileStaysInC` | src/maps-sim/src/npu/controller.cpp:299-312 | whatever overlaps, a tile changes no word outside C |
| `TiledGemm.DisjointIsHazardFree` | src/maps-sim/src/npu/descriptor.cpp:98-138 | if C shares no word with A or B, no tile reads what an earlier tile has written |
| `TiledGemm.OneTileIsHazardFree` | src/maps-sim/src/npu/controller.cpp:193-316 | a single-tile run may overlap its operands |
| `InPlace.OverA` | src/maps-sim/src/npu/controller.cpp:193-316 | C in the place of A: free of hazards if and only if N and K are one tile each |
| `InPlace.OverB` | src/maps-sim/src/npu/controller.cpp:193-316 | C in the place of B: free of hazards if and only if M and K are one tile each |
| `InPlace.OverlapExactly` | src/maps-sim/src/npu/controller.cpp:193-316 | every overlap: free of hazards if and only if a test on bases, sizes and tile sizes holds word by word: the last tile that reads a word of A or B that is also in C comes no later than the first that writes it |
| `Hazards.HazardSpoilsProduct` | src/maps-sim/src/npu/descriptor.cpp:98-138 | otherwise the run is wrong for some content: on matrices of twos, the rest of DRAM arbitrary, a plan with a hazard ends with a wrong element of C |
| `Hazards.HeavyStep` | src/maps-sim/src/npu/controller.cpp:193-316 | the invariant behind it: from matrices of twos every sum is at least four per product, and four more once an overwritten operand was read |
| `Hazards.HazardExists` | src/maps-sim/src/npu/descriptor.cpp:98-138 | a descriptor with a hazard that validates and lies in a memory of 1000 words |
| `Hazards.TwosBesideDescriptor` | src/maps-sim/src/npu/descriptor.cpp:140-193 | every valid descriptor can stand in DRAM beside matrices of twos and be loaded from there |
| `Device.HazardReachesDevice` | src/maps-sim/src/npu/device.cpp:92-102 | such a DRAM for the device itself: START accepts the descriptor, and its run does not store the product |
| `Device.StartableByWord` | src/maps-sim/src/npu/device.cpp:92-102 | which ten words START accepts: those of a valid descriptor whose matrices end within memory and whose first tile fits 2048 words |
| `TiledGemm.ReachableTileBounded` | src/maps-sim/src/npu/controller.cpp:238-275 | for plans free of hazards: the operands of every tile of a run, reloaded partial sums included, stay bounded |
| `Control.EveryFetchedTileInRange` | src/maps-sim/src/npu/controller.cpp:277-289 | for plans free of hazards, no overflow in a run: for the operands fetched at any state it passes through, every register and product of the grid is a signed 32-bit value |
| `Costs.RunCost` | src/maps-sim/src/npu/controller.cpp:219-313 | closed form of one run: MNK multiply-accumulates, MN*Tk words written, MK*Tn + KN*Tm + MN*(Tk-1) words read, M*Tn*Tk + N*Tm*Tk + K*Tm*Tn - 2*Tm*Tn*Tk cycles |
| `Costs.SumOverPlan` | src/maps-sim/src/npu/controller.cpp:219-313 | a product of one factor per loop, summed over the plan, is the product of the three sums |
| `Control.Controller.Run` | src/maps-sim/src/npu/controller.cpp:115-156 | succeeds exactly when runnable; failure changes no DRAM word and no counter; success adds the closed form of the cost to the counters, keeps everything outside C and leaves A * B in C for every content of DRAM if and only if the plan is free of hazards |
| `Control.Controller.RunPlan` | src/maps-sim/src/npu/controller.cpp:144-152 | the loop over the plan: only the first tile can fail |
| `Control.Controller.RunTile` | src/maps-sim/src/npu/controller.cpp:193-316 | a tile fails exactly when its three areas exceed the buffers, and then changes nothing; otherwise its whole effect is its window of C |
| `Control.Controller.ExecuteTile` | src/maps-sim/src/npu/controller.cpp:204-316 | after the size check no DMA, buffer or array call of a tile can fail |
| `Control.Controller.ComputeTile` | src/maps-sim/src/npu/controller.cpp:204-291 | fetching and multiplying: the array receives exactly the operands the tile has in DRAM |
| `Control.Controller.FetchTile` | src/maps-sim/src/npu/controller.cpp:204-275 | one operand: the buffer and then the host array hold exactly the window of the matrix |
| `Control.Controller.StoreTile` | src/maps-sim/src/npu/controller.cpp:293-313 | storing the result changes exactly the window of C |
| `Control.Controller.Submit` | src/maps-sim/src/npu/controller.cpp:42-53 | an invalid descriptor is refused and the previous one stays |
| `Control.Controller.Reset` | src/maps-sim/src/npu/controller.cpp:22-40 | back to the idle state with a default descriptor and zero counters, the memory still bound |
| `Control.FirstTileDominates` | src/maps-sim/src/npu/controller.cpp:197-202 | no tile is larger than the first, so the first size check decides |
| `Control.MatrixEnd64` | src/maps-sim/src/npu/controller.cpp:170-187 | the 64-bit end of a matrix is the true one up to multiples of 2^64, and exact if and only if the true one is below 2^64 |
| `Control.EndsFitBelowHalf` | src/maps-sim/src/npu/controller.cpp:170-187 | fields below 2^31 never wrap it |
| `Control.RangeCheckWraps` | src/maps-sim/src/npu/controller.cpp:170-187 | a valid descriptor whose matrices no memory holds and whose 64-bit ends wrap to where they start |
| `Control.CountersFitInMemory` | src/maps-sim/src/npu/schedule.cpp:19-24 | matrices that end within memory are small enough for the 32-bit loop counters |
| `Control.ElementAddressExact` | src/maps-sim/src/npu/controller.cpp:318-332 | the 32-bit byte address of a matrix element inside memory is exact |
| `Control.WindowRequests` | src/maps-sim/src/npu/controller.cpp:204-313 | the DMA requests for a window inside memory are always accepted |
| `Control.StoredTileApplied` | src/maps-sim/src/npu/controller.cpp:293-313 | storing a tile product in its window is the whole effect of the tile |
| `Device.NpuDevice.Start` | src/maps-sim/src/npu/device.cpp:92-102 | START runs exactly the descriptor stored at DESC_ADDR; it returns true exactly when STATUS is then DONE; a failure changes no DRAM word; without a memory it refuses and changes nothing |
| `Device.NpuDevice.Write32` | src/maps-sim/src/npu/device.cpp:23-40 | each register write, with or without a memory: DESC_ADDR, START, RESET, and every other offset or command refused without effect |
| `Device.NpuDevice.Read32` | src/maps-sim/src/npu/device.cpp:42-82 | exactly twelve offsets but CMD answer, the counters in two halves |
| `Device.NpuDevice.Serve` | src/maps-sim/src/npu/device.cpp:23-82 | over every sequence of register accesses each one has its own effect and answer and no other, register by register; STATUS is never BUSY between calls and ERROR is nonzero exactly when STATUS is ERROR |
| `Device.NpuDevice.Reset` | src/maps-sim/src/npu/device.cpp:15-21 | reset settles the device, clears the counters and keeps DRAM |
| `Driver.DriverTestIsNecessary` | src/maps-sim/src/runtime/npu_driver.c:32-50 | the driver accepts every descriptor the device accepts; the two tests differ exactly in the array limits |
| `Driver.DriverTestIsNotSufficient` | src/maps-sim/src/runtime/npu_driver.c:32-50 | a descriptor the driver accepts and the device refuses |
| `Driver.WaitDone` | src/maps-sim/src/runtime/npu_driver.c:61-72 | on a settled device the first poll decides |
| `Driver.Gemm` | src/maps-sim/src/runtime/npu_driver.c:74-99 | wherever the descriptor pointer points, null included: -3 exactly for a null pointer or an invalid descriptor; otherwise the descriptor is stored, the device runs what it finds at the given address, never times out, and 0 says exactly that it could |
| `Driver.BlockStarts` | src/maps-sim/src/runtime/npu_driver.c:74-99 | if pointer and address name one block, the device runs this descriptor, and can exactly when no field reaches 2^31, the matrices lie in memory and the first tile fits; `RunOutcome` then says what DRAM holds: nothing outside C changed and, if the plan is free of hazards, the product in C |
| `Driver.Start` | src/maps-sim/src/runtime/npu_driver.c:56-59 | the next poll answers 0 exactly when the block at the address holds a descriptor that can run; otherwise DRAM is unchanged and it answers -2 |
| `Driver.InitDescriptor` | src/maps-sim/src/runtime/npu_driver.c:5-30 | the ten words hold m, n, k, the bases of A, B and C, the mode and the tile sizes in this order, and nothing else is stored; nothing at all through a null pointer |
| `ByteView.WithLaneIsLocal` | src/maps-sim/src/common/bus.cpp:96-99 | replacing one byte of a word leaves the other three |
| `ByteView.ByteWritten` | src/maps-sim/src/common/bus.cpp:90-99 | read-modify-write of a word is the update of one byte of the byte array |
| `ByteView.WordWritten` | src/maps-sim/src/common/bus.cpp:124-127 | storing an aligned word is the update of its four bytes, lowest first |
| `ByteView.WordRead` | src/maps-sim/src/common/bus.cpp:69-76 | reading an aligned word gives its four bytes, lowest first |
| `SystemBus.WindowsApart` | src/maps-sim/src/common/bus.cpp:136-152 | DRAM and the register windows are apart exactly up to 2^26 words; one word more and an address decodes differently for bytes and for words |
| `SystemBus.Bus.Read8` | src/maps-sim/src/common/bus.cpp:22-33 | a byte read gives the byte of the array, and fails exactly outside it |
| `SystemBus.Bus.Read16` | src/maps-sim/src/common/bus.cpp:35-47 | an aligned half-word read gives its two bytes, and fails exactly outside the array |
| `SystemBus.Bus.Read32` | src/maps-sim/src/common/bus.cpp:49-79 | a word read by region: DRAM as four bytes, every NPU register, the console status; the exact condition of success in each |
| `SystemBus.Bus.Write8` | src/maps-sim/src/common/bus.cpp:81-100 | a byte store is exactly one step on the byte array or the console |
| `SystemBus.Bus.Write16` | src/maps-sim/src/common/bus.cpp:102-108 | an aligned half-word store in DRAM updates exactly its two bytes; the second byte store never fails |
| `SystemBus.Bus.Write32` | src/maps-sim/src/common/bus.cpp:110-130 | a word store by region: exactly four bytes of DRAM, one console character, or a register of the NPU: DESC_ADDR, START, RESET, everything else refused without effect |
| `SystemBus.WindowsByAddress` | src/maps-sim/src/common/bus.cpp:136-152 | which register is at which address |
| `Loader.SegmentHeader` | src/maps-sim/src/system/loader.cpp:123-129 | the 32-bit offset of every segment header is exact and the header lies in the file |
| `Loader.PokeAllInDram` | src/maps-sim/src/system/loader.cpp:48-61 | bytes stored one by one inside DRAM replace exactly that range |
| `Loader.SegmentStored` | src/maps-sim/src/system/loader.cpp:139-151 | one segment is accepted exactly when it lands, and then replaces exactly the bytes it covers |
| `Loader.LoadOverlays` | src/maps-sim/src/system/loader.cpp:127-154 | for every file: loading succeeds exactly when every PT_LOAD segment fits the file and lands; it then overlays exactly the segments and their zero fill, the last that covers an address winning |
| `Loader.LoadBytes` | src/maps-sim/src/system/loader.cpp:48-61 | the byte loop is the sequence of byte stores, stopping at the first refused |
| `Loader.LoadSegment` | src/maps-sim/src/system/loader.cpp:144-151 | file bytes and zero fill together are the stores of one image |
| `Loader.FillZeros` | src/maps-sim/src/system/loader.cpp:147-151 | the zero-fill loop stores the rest of the image |
| `Loader.LoadElf` | src/maps-sim/src/system/loader.cpp:98-155 | the loader after the file is read: exact success condition, the entry point reported once the header is recognised, and the overlay |
| `Loader.HeaderByOffset` | src/maps-sim/src/system/loader.cpp:98-114 | which bytes of the file header say what |
| `Loader.SegmentByOffset` | src/maps-sim/src/system/loader.cpp:116-139 | where the segment table stands and which bytes of an entry are which field |
| `Processor.Cpu.Step` | src/maps-sim/src/cpu/cpu.cpp:35-56 | from every state, a halted or unwired core or a misaligned pc included: the step succeeds exactly when its guard lets it through, the fetch is in range and the word fetched is legal; it then has exactly the effect of the instruction, on registers, CSRs, DRAM, console and NPU, and leaves x0 = 0 and pc, mtvec and mepc aligned; a failed one leaves DRAM and console and faults the core unless it was halted |
| `Processor.Cpu.Execute` | src/maps-sim/src/cpu/cpu.cpp:237-460 | for every instruction word: it fails exactly when it is not legal; the value of rd, the next address, what is stored and the CSR written are those of the instruction, which `Rv32i` and `Zicsr` give as numbers, and nothing else changes; ecall and mret never fault |
| `Processor.Cpu.System` | src/maps-sim/src/cpu/cpu.cpp:406-455 | ecall with a trap vector saves pc+4 in mepc, sets cause 11 and jumps to mtvec, without one leaves the call pending; mret returns to mepc and never finds it misaligned; a CSR instruction fails exactly on an unknown form or register and otherwise reads and writes as its form says |
| `Processor.Cpu.WriteCsr` | src/maps-sim/src/cpu/cpu.cpp:158-175 | mtvec and mepc keep their low two bits clear; the other registers are untouched |
| `Processor.Calculate` | src/maps-sim/src/cpu/cpu.cpp:246-266 | LUI, AUIPC, jumps and all register operations: known exactly when the reference says so, with its value and next address |
| `Processor.RegisterImmediate` | src/maps-sim/src/cpu/cpu.cpp:304-342 | every register-immediate form is the reference operation on the sign-extended immediate, shifts included, and every other is refused |
| `Processor.RegisterRegister` | src/maps-sim/src/cpu/cpu.cpp:344-404 | every register-register form is the reference operation, and every other is refused; `Rv32i.RegisterInstruction` says what the operations are |
| `Processor.SignedLessIsBelow` | src/maps-sim/src/cpu/cpu.cpp:276-281 | comparing as signed words puts negative numbers first and orders the rest as unsigned |
| `Processor.Branch` | src/maps-sim/src/cpu/cpu.cpp:267-296 | a branch fails exactly on an unknown comparison or a taken branch to a misaligned address, and otherwise goes where the reference says |
| `Rv32i.RegisterInstruction` | src/maps-sim/src/cpu/cpu.cpp:344-404 | ADD to AND by the numbers in their bits: legal exactly for funct7 = 0 and, for SUB and SRA, 0x20; sums and differences modulo 2^32, products and floor quotients by powers of two, order of the signed or unsigned readings, bit-wise operations bit by bit |
| `Rv32i.ImmediateInstruction` | src/maps-sim/src/cpu/cpu.cpp:304-342 | the same for ADDI to SRAI, on the immediate read from its bits |
| `Rv32i.UpperInstruction` | src/maps-sim/src/cpu/cpu.cpp:246-252 | LUI and AUIPC as numbers |
| `Rv32i.JumpInstruction` | src/maps-sim/src/cpu/cpu.cpp:254-265 | JAL and JALR: the link, the target as a number modulo 2^32, and which targets are refused |
| `Rv32i.BranchInstruction` | src/maps-sim/src/cpu/cpu.cpp:267-296 | BEQ to BGEU: which order decides, and where the branch then goes |
| `Rv32i.LoadInstruction` | src/maps-sim/src/cpu/cpu.cpp:177-222 | LB to LHU from DRAM: the address as a number, the bytes found lowest first, sign- or zero-extended |
| `Rv32i.StoreInstruction` | src/maps-sim/src/cpu/cpu.cpp:224-235 | SB to SW to DRAM: which byte of the register lands where, and that nothing else in DRAM or on the console changes |
| `Rv32i.WindowLoad` | src/maps-sim/src/common/bus.cpp:49-79 | loads from the 512 bytes of registers at 0x10000000: words only, and exactly those that can be read |
| `Rv32i.WindowStore` | src/maps-sim/src/common/bus.cpp:110-130 | stores to them: one character at 0x10000100, or a command or address the NPU takes |
| `Zicsr.SystemInstruction` | src/maps-sim/src/cpu/cpu.cpp:406-455 | ECALL, MRET and the six CSR forms by their bits: which are legal, the old value in rd, and the new value of the register, bit by bit |
| `Numbers.PlusIs` | src/maps-sim/src/cpu/cpu.cpp:347-350 | the sum of two words is the sum of their numbers modulo 2^32 |
| `Numbers.MinusIs` | src/maps-sim/src/cpu/cpu.cpp:351-354 | the difference is what gives the first word when the second is added, the difference of the numbers modulo 2^32 |
| `Numbers.BelowIs` | src/maps-sim/src/cpu/cpu.cpp:362-367 | the signed comparison is the order of the signed numbers |
| `Numbers.LeftIs` | src/maps-sim/src/cpu/cpu.cpp:356-361 | a left shift by n multiplies by 2^n modulo 2^32 |
| `Numbers.RightIs` | src/maps-sim/src/cpu/cpu.cpp:381-384 | a logical right shift by n divides by 2^n |
| `Numbers.FilledIs` | src/maps-sim/src/cpu/cpu.cpp:385-388 | an arithmetic right shift by n divides the signed number by 2^n, rounding down |
| `Numbers.BitwiseIs` | src/maps-sim/src/cpu/cpu.cpp:374-401 | and, or and xor decide each binary digit of the numbers by itself |
| `Encoding.FieldsAre` | src/maps-sim/src/cpu/cpu.cpp:237-243 | opcode, funct3, funct7 and the three register numbers are digits of the number of the word |
| `Encoding.ImmIIs` | src/maps-sim/src/cpu/cpu.cpp:110-112 | the I immediate is bits 20 to 31 as a signed number |
| `Encoding.ImmSIs` | src/maps-sim/src/cpu/cpu.cpp:114-117 | the S immediate is bits 25 to 31 over bits 7 to 11 |
| `Encoding.ImmBIs` | src/maps-sim/src/cpu/cpu.cpp:119-125 | the B offset, digit group by digit group |
| `Encoding.ImmJIs` | src/maps-sim/src/cpu/cpu.cpp:131-137 | the J offset, digit group by digit group |
| `Isa.PlacedI` | src/maps-sim/src/cpu/cpu.cpp:105-112 | every 12-bit immediate an assembler places in an I-type word is read back sign-extended, whatever the other bits are |
| `Isa.PlacedS` | src/maps-sim/src/cpu/cpu.cpp:114-117 | the same for S-type words |
| `Isa.PlacedB` | src/maps-sim/src/cpu/cpu.cpp:119-125 | the same for the scrambled even offsets of branches |
| `Isa.PlacedJ` | src/maps-sim/src/cpu/cpu.cpp:131-137 | the same for the scrambled even offsets of jumps |
| `Processor.Cpu.Load` | src/maps-sim/src/cpu/cpu.cpp:177-222 | a load from DRAM succeeds exactly aligned and in range, and rd then holds its bytes, sign- or zero-extended; of the registers of NPU and console only words that can be read are loaded; no other register changes |
| `Processor.Cpu.Store` | src/maps-sim/src/cpu/cpu.cpp:224-235 | a store to DRAM succeeds exactly aligned and in range, and updates exactly its bytes; the console takes a byte or a word and shows its low byte; of the NPU only DESC_ADDR, RESET and a START that can run succeed, with the effect the device gives them; a refused store leaves DRAM and console |
| `Computer.Machine.constructor` | src/maps-sim/src/system/machine.cpp:12-23 | a new machine satisfies the invariant of every run |
| `Computer.Machine.Reset` | src/maps-sim/src/system/machine.cpp:25-35 | reset settles core and devices and keeps DRAM; at an aligned pc it establishes the invariant of every run |
| `Computer.Machine.Run` | src/maps-sim/src/system/machine.cpp:37-47 | every run is a trace: each moment comes from the one before by exactly one step and, if that leaves a call pending, by serving it; the run ends when the core has halted or faulted or after `maxSteps` passes, and not before. It keeps the invariant, so the guard at the head of a step never fires in it; a run from a misaligned pc faults at once; the result is true exactly when the core halted without a fault |
| `Computer.Machine.HandleSyscall` | src/maps-sim/src/system/machine.cpp:89-125 | the whole machine after a call, by its number in x17: 0 halts with the signed x10 as exit code; 1 prints the low byte of x10 and returns 1; 2 prints x11 bytes from x10 and returns x11, or what it can and 0xffffffff; any other returns 0xffffffff; x10 alone changes, and no call stays pending |
| `Computer.PrintBytes` | src/maps-sim/src/system/machine.cpp:106-118 | write prints the bytes up to the first outside DRAM, and succeeds exactly when there is none |
| `Computer.RunShows` | src/maps-sim/src/system/machine.cpp:37-47 | in every run of every program what the console shows only grows, and the exit code stays until the program exits |
| `Computer.ExitEnds` | src/maps-sim/src/system/machine.cpp:89-98 | an `ecall` without a trap vector and with 0 in x17 ends the run with x10 as exit code, and no other call ends it |
| `CStrings.UnescapeEscape` | src/maps-compiler/tensorc/codegen_c.py:149-162 | reading the escaped text gives the text, for every string |
| `CStrings.EscapeCString` | src/maps-compiler/tensorc/codegen_c.py:149-162 | the escape loop computes the escaped text |
| `CStrings.EscapesByLetter` | src/maps-compiler/tensorc/codegen_c.py:149-162 | newline, tab, backslash and quote by their letters, for the printer and for the reader, and no other escapes |
| `CStrings.ReadString` | src/maps-compiler/tensorc/lexer.py:123-146 | the string reader succeeds exactly when some unescaped quote closes a literal of legal escapes, and returns its text and the index after the quote; it indexes past the source exactly when the source ends within an escape |
| `CStrings.PrintedLiteralEnds` | src/maps-compiler/tensorc/codegen_c.py:149-162 | a printed literal ends at its own closing quote and nowhere else |
| `CStrings.PrintAndRead` | src/maps-compiler/tensorc/lexer.py:123-146 | printing a text as a literal and reading it back gives the text, whatever follows |
| `Tokens.DecimalReadBack` | src/maps-compiler/tensorc/codegen_c.py:135-136 | the decimal digits of a number read back as the number |
| `Tokens.DigitsCount` | src/maps-compiler/tensorc/parser.py:241-242 | the value of a numeral: its last digit counts ones, the one before tens |
| `Grammar.ReadsBack` | src/maps-compiler/tensorc/parser.py:203-266 | an expression printed with the parentheses it needs (a left operand at the rung of its operator, a right one a rung up) and any redundant ones, followed by a token that does not go on with it, is read back exactly, and the cursor stands after it |
| `Grammar.LoopGoesOn` | src/maps-compiler/tensorc/parser.py:206-232 | operators of one rung group from the left: having read a written operand, the loop of its rung goes on with it as the left operand |
| `Grammar.MixedOperators` | src/maps-compiler/tensorc/parser.py:206-232 | x p y q z without parentheses: the operator that binds tighter takes y; of two that bind alike, the left one |
| `Grammar.SignBindsTightest` | src/maps-compiler/tensorc/parser.py:234-238 | a sign binds tighter than every operator |
| `Grammar.OperatorsAreRead` | src/maps-compiler/tensorc/parser.py:206-232 | each of the eleven operator tokens between two operands is read as its own operation, the left operand left |
| `Grammar.SignsAreRead` | src/maps-compiler/tensorc/parser.py:234-238 | so is each of the two signs |
| `Grammar.OperandsInOrder` | src/maps-compiler/tensorc/parser.py:247-264 | names, calls and indices: the name is the text of its token, and row, column and first argument stand in this order |
| `Grammar.EmittedReadsBack` | src/maps-compiler/tensorc/codegen_c.py:134-147 | printing and parsing undo each other: the tokens the code generator prints for an expression without an index, followed by a token that goes on with no expression, are read back as exactly that expression |
| `Grammar.EmittedIsPrinted` | src/maps-compiler/tensorc/codegen_c.py:134-147 | what it prints is one style among all: a pair of parentheses around every operation, needed or not |
| `Recognition.ReadsExactly` | src/maps-compiler/tensorc/parser.py:203-266 | before a token that opens no bracket, a rung reads an expression if and only if the tokens write it, with the parentheses it needs and any redundant ones, and do not go on |
| `Recognition.LevelIsWritten` | src/maps-compiler/tensorc/parser.py:206-232 | the converse of `Grammar.ReadsBack`, with the redundant pairs found place by place |
| `Syntax.KeywordsDecide` | src/maps-compiler/tensorc/parser.py:66-91 | which keyword begins which statement |
| `Syntax.NamesInPlace` | src/maps-compiler/tensorc/parser.py:112-156 | which tokens are the operands of a gemm, the text of a print and the name of a variable |
| `Syntax.ShapeInPlace` | src/maps-compiler/tensorc/parser.py:93-110 | of a tensor's shape the rows come first |
| `Syntax.IfInOrder` | src/maps-compiler/tensorc/parser.py:158-167 | condition, first block, and the second one after `else` |
| `Syntax.HeadInOrder` | src/maps-compiler/tensorc/parser.py:176-189 | start, test and step of a `for`, in this order |
| `Parser.Parser.Level` | src/maps-compiler/tensorc/parser.py:206-232 | the loops of the precedence ladder read exactly what the grammar reads, left-associatively |
| `Parser.Parser.Primary` | src/maps-compiler/tensorc/parser.py:240-266 | literals, calls, indices, names and parentheses, with the grammar's errors |
| `Parser.Parser.Arguments` | src/maps-compiler/tensorc/parser.py:49-53 | the argument loop builds the list the grammar reads |
| `Parser.Parser.MatrixLiteral` | src/maps-compiler/tensorc/parser.py:120-127 | the row loop builds the matrix the grammar reads |
| `Parser.Parser.TensorDeclaration` | src/maps-compiler/tensorc/parser.py:93-110 | a tensor declaration is read exactly as the grammar says |
| `Parser.Parser.Statement` | src/maps-compiler/tensorc/parser.py:66-91 | one statement: exactly the grammar's statement or an error; a success consumes at least one token |
| `Parser.Parser.IfStatement` | src/maps-compiler/tensorc/parser.py:158-167 | an `if` takes the `else` that follows it |
| `Parser.Parser.ForHead` | src/maps-compiler/tensorc/parser.py:176-189 | the three optional parts of a `for` head |
| `Parser.Parser.Block` | src/maps-compiler/tensorc/parser.py:58-64 | the statements up to the closing brace |
| `Parser.Parser.FunctionDeclaration` | src/maps-compiler/tensorc/parser.py:40-56 | name, parameters and body of a function |
| `Parser.Parser.Parse` | src/maps-compiler/tensorc/parser.py:31-38 | on every token list that ends in EOF the parser terminates with the grammar's program or an error, never past EOF |
| `Writing.StmtReadsBack` | src/maps-compiler/tensorc/parser.py:66-201 | wherever the tokens of a statement stand, in any style of redundant parentheses and not followed by `else`, exactly that statement is read |
| `Writing.HeadReadsBack` | src/maps-compiler/tensorc/parser.py:176-189 | the head of a `for` is read back |
| `Writing.TensorReadsBack` | src/maps-compiler/tensorc/parser.py:93-110 | a tensor declaration is read back, negative elements included |
| `Writing.FunctionReadsBack` | src/maps-compiler/tensorc/parser.py:40-56 | a function declaration is read back |
| `Writing.ProgramReadsBack` | src/maps-compiler/tensorc/parser.py:31-38 | every program is read back from its concrete syntax |
| `Acceptance.StmtIsWritten` | src/maps-compiler/tensorc/parser.py:66-201 | the converse for statements: whatever `_statement` reads has been written as that statement |
| `Acceptance.ProgramReadsExactly` | src/maps-compiler/tensorc/parser.py:31-38 | the grammar reads a program if and only if the tokens up to EOF write it in some style |
| `Acceptance.ParseExactly` | src/maps-compiler/tensorc/parser.py:31-38 | the parser accepts exactly the token lists that write a program, and returns the program they write |
| `Writing.WriteAndParse` | src/maps-compiler/tensorc/parser.py:31-38 | run on the tokens of any program, with the parentheses it needs and any redundant ones, the parser returns exactly that program |
| `Analyzer.AnalyzeProgram` | src/maps-compiler/tensorc/sema.py:38-57 | the two passes over dictionaries accept exactly the programs with an annotation that keeps every rule, and return that annotation and the names at the end |
| `Analyzer.Scope.CheckStatement` | src/maps-compiler/tensorc/sema.py:64-100 | checking a statement updates the scope exactly as the analysis function |
| `Analyzer.Scope.CheckStatements` | src/maps-compiler/tensorc/sema.py:59-62 | a block is checked in a copy, so its declarations are not visible after it |
| `Analyzer.Scope.CheckFor` | src/maps-compiler/tensorc/sema.py:86-94 | the parts of a `for` share one copy of the scope |
| `Analyzer.Scope.DeclareTensor` | src/maps-compiler/tensorc/sema.py:102-122 | shape inference, ragged and mismatched initializers, and the new symbol |
| `Analyzer.Scope.CheckGemm` | src/maps-compiler/tensorc/sema.py:132-147 | for all m, n, k: the gemm is accepted and annotated with m, n, k exactly when its operands are visible tensors of m by k, k by n and m by n |
| `Sema.CheckBlockExtends` | src/maps-compiler/tensorc/sema.py:59-62 | checking only adds names; no visible name changes its type |
| `Shapes.CheckedProgramShaped` | src/maps-compiler/tensorc/sema.py:38-185 | in every accepted program each tensor has a positive shape that its emitted initializer fills exactly, each index carries the width of its tensor, and each gemm carries the storage shapes of its operands |
| `Shapes.CheckedExprRight` | src/maps-compiler/tensorc/sema.py:155-185 | every index of an accepted expression is annotated with the declared width of its tensor |
| `Shapes.CheckedStmtShaped` | src/maps-compiler/tensorc/sema.py:64-147 | an accepted statement is well shaped, and the names after it are those the analysis records |
| `Shapes.InitializerFills` | src/maps-compiler/tensorc/codegen_c.py:115-121 | the flattened initializer has exactly rows * cols values |
| `Typing.AnalyzeExactly` | src/maps-compiler/tensorc/sema.py:38-185 | for every program: the analysis succeeds with a tree and a table if and only if functions have names of their own, the tree is the program with widths, sizes and missing shapes filled in and nothing else changed, every shape is right (`Shapes.ProgramShaped`), every name read is visible with the right kind, every call has a declared function's arity, declared names are new, and the table holds the names at the end |
| `Typing.StmtExactly` | src/maps-compiler/tensorc/sema.py:64-147 | the same for one statement and the names after it |
| `Typing.ExprExactly` | src/maps-compiler/tensorc/sema.py:155-185 | the same for one expression and its type |
| `Typing.AritiesCollected` | src/maps-compiler/tensorc/sema.py:39-44 | the first pass succeeds exactly when no two functions share a name, and knows all of them |
| `Safety.AcceptedNeverMisfits` | src/maps-compiler/tensorc/sema.py:38-185 | type soundness: whatever the amount of steps, no run of an accepted program meets a name of the wrong kind, a call of the wrong arity or a shape that does not fit |
| `Safety.ContainedRunsOn` | src/maps-compiler/tensorc/sema.py:38-185 | if functions read no top-level names but tensors declared before any statement, and only variables and elements are assigned to, nothing leaves an accepted program without meaning but arithmetic, an index out of range and a gemm written over its own operand |
| `Safety.ReadTooFar` | src/maps-compiler/tensorc/sema.py:46-52 | the first condition is needed: an accepted program whose function reads a top-level variable, which does not exist where the function runs |
| `Safety.ReadIsFormed` | src/maps-compiler/tensorc/parser.py:176-195 | what the parser reads is in the form these theorems ask for: the step of a `for` declares nothing |
| `Codegen.Generate` | src/maps-compiler/tensorc/codegen_c.py:24-44 | the three passes hoist the tensors, then the functions, and put the rest into `user_main` |
| `Codegen.EmitBlockItems` | src/maps-compiler/tensorc/codegen_c.py:58-63 | the statements in order, and whether one of them is a return |
| `Codegen.EmitBody` | src/maps-compiler/tensorc/codegen_c.py:46-53 | a body without a top-level return is closed by `return 0` |
| `TensorLayout.FlattenAt` | src/maps-compiler/tensorc/codegen_c.py:115-121 | element (r, c) of a tensor is word r * cols + c of its array |
| `TensorLayout.FlattenUpdate` | src/maps-compiler/tensorc/codegen_c.py:139-140 | writing one element writes one word |
| `TensorLayout.ProductMatches` | src/maps-compiler/tensorc/codegen_c.py:73-75 | the row-major product of row-major arrays is the row-major product of the tensors |
| `Simulation.IndexSame` | src/maps-compiler/tensorc/codegen_c.py:139-140 | an index in range in two dimensions is in range in one, and its 32-bit arithmetic is exact |
| `Simulation.MultiplySame` | src/maps-compiler/tensorc/codegen_c.py:73-75 | the emitted NPU call does on arrays what gemm does on tensors |
| `UserRuntime.GemmLaid` | src/maps-os/user/runtime.c:26-30 | a stored product is the flat product of the two arrays in DRAM, in the place of the third, and every other array is unchanged |
| `UserRuntime.CallIsHazardFree` | src/maps-os/drivers/npu.c:15-36 | the calls with a meaning, those over an operand included, are free of hazards |
| `UserRuntime.NpuSubmit` | src/maps-os/drivers/npu.c:38-56 | 0 exactly when the device can run the stored descriptor, else the negated error code; the poll never runs out |
| `UserRuntime.NpuGemmCall` | src/maps-os/drivers/npu.c:58-62 | for every DRAM: the descriptor is stored, 0 exactly when the device can run it, and without a hazard DRAM then differs by the product in the place of C and by nothing else |
| `UserRuntime.MultipliedExactly` | src/maps-os/drivers/npu.c:58-62 | the DRAM after a stored product is determined: every word of it is given |
| `UserRuntime.UserNpuGemm` | src/maps-os/user/runtime.c:26-30 | on arrays laid out in DRAM the call succeeds, and DRAM ends holding the arrays of the state that the meaning of the emitted call gives |
| `Preservation.ExprPreserved` | src/maps-compiler/tensorc/codegen_c.py:134-147 | the emitted expression evaluates to the same value and the same state, calls included, in whatever order C takes operands |
| `Evaluation.OperatorsMean` | src/maps-compiler/tensorc/codegen_c.py:134-147 | the operators of C, each undone or decided by arithmetic: defined exactly when the result fits 32 bits |
| `Evaluation.DivisionTruncates` | src/maps-compiler/tensorc/codegen_c.py:134-147 | division truncates toward zero: the remainder is smaller than the divisor and has the sign of the dividend |
| `Ordering.SwappedArgs` | src/maps-compiler/tensorc/codegen_c.py:134-147 | sides of which one calls and the other reads variables only can be exchanged: same values, same final state |
| `Preservation.OperandsPreserved` | src/maps-compiler/tensorc/codegen_c.py:134-147 | whichever operand C takes first, values and state are those of TensorC |
| `Preservation.ValueFirst` | src/maps-compiler/tensorc/codegen_c.py:71-72 | the same for the two sides of an assignment |
| `Preservation.PrintAgrees` | src/maps-compiler/tensorc/codegen_c.py:76-77 | the emitted `user_write_cstr` call prints the text of a print statement if and only if the text holds no NUL |
| `Preservation.StmtPreserved` | src/maps-compiler/tensorc/codegen_c.py:65-103 | the emitted statement has the same outcome: state, output, return |
| `Preservation.BlockPreserved` | src/maps-compiler/tensorc/codegen_c.py:55-63 | so does the emitted block, which keeps its declarations to itself |
| `Preservation.ForPreserved` | src/maps-compiler/tensorc/codegen_c.py:91-97 | so does the emitted `for`, its head included |
| `Preservation.BodyReturns` | src/maps-compiler/tensorc/codegen_c.py:46-53 | a function body returns the same value, 0 if it runs off its end |
| `Programs.HoistedTensor` | src/maps-compiler/tensorc/codegen_c.py:27-30 | a top-level tensor may be declared before the program starts |
| `Programs.TopPreserved` | src/maps-compiler/tensorc/codegen_c.py:37-42 | the top-level statements in `user_main` reproduce the run |
| `Programs.CompiledProgramAgrees` | src/maps-compiler/tensorc/codegen_c.py:24-44 | every accepted portable program of the fragment: the emitted C compiles and, in whatever order it takes operands, prints the same text, returns the same code and leaves every tensor in its static array; going from left to right, it runs as long as TensorC does |
| `Programs.CompiledProgramDiverges` | src/maps-compiler/tensorc/codegen_c.py:24-44 | with a C that goes from left to right: a program that never ends is compiled to one that never ends; where TensorC gives a meaning, the two run out of the same amounts of steps |
| `EndToEnd.TensorsEndInDram` | src/maps-compiler/tensorc/codegen_c.py:24-44 | source to DRAM: with its arrays and its stack in DRAM and every gemm a run of the device on that DRAM, the emitted C of an accepted portable program of the fragment prints the same text, returns the same code and leaves every tensor, row by row, at its place; only a full stack ends it early, never if tensors are declared at top level only |
| `DramRuns.ProgramRuns` | src/maps-compiler/tensorc/codegen_c.py:24-44 | for every C program the generator's trees can express: a run over DRAM does what a run over named arrays does, and changes no word but those of its arrays, its stack and the descriptor block |
| `DramRuns.GemmStored` | src/maps-os/user/runtime.c:26-30 | wherever in a run the emitted call stands: the device is ready for it, and DRAM then shows the arrays with the product in place |
| `DramRuns.CameBack` | src/maps-compiler/tensorc/codegen_c.py:143-144 | a call leaves the caller's variables and the arrays on its stack as they were |
| `DramRuns.LinkedIsBooted` | src/maps-compiler/tensorc/codegen_c.py:27-30 | static arrays placed apart with their initializers make the machine the run starts from |
| `Portable.CompilesWhenPortable` | src/maps-compiler/tensorc/codegen_c.py:24-63 | for every accepted program: the emitted C obeys the static rules of C (declaration before use, kinds, names, assignable targets) if and only if the program is portable, a condition on its text alone |
| `Portable.StmtSeen` | src/maps-compiler/tensorc/codegen_c.py:65-103 | the same for one statement, and the scopes after it |
| `Portable.ExprSeen` | src/maps-compiler/tensorc/codegen_c.py:134-147 | the same for one expression |
| `Portable.GlobalsSeen` | src/maps-compiler/tensorc/codegen_c.py:27-30 | the same for the static arrays |
| `Portable.FunctionsSeen` | src/maps-compiler/tensorc/codegen_c.py:32-35 | the same for the functions, each of which sees itself and the ones above it |
| `Portable.MainIsSeen` | src/maps-compiler/tensorc/codegen_c.py:37-42 | the same for `user_main` |
| `Limits.TopVariableInFunction` | src/maps-compiler/tensorc/sema.py:46-52 | a function that returns a top-level variable is accepted and meaningful, and its C does not compile |
| `Limits.LaterFunctionCalled` | src/maps-compiler/tensorc/codegen_c.py:32-35 | so is a function that calls a later one |
| `Limits.ConstantAssigned` | src/maps-compiler/tensorc/sema.py:124-130 | so is an assignment to a constant |
| `Limits.KeywordNamed` | src/maps-compiler/tensorc/sema.py:67-71 | so is a variable named `int` |
| `Limits.NulCutsText` | src/maps-compiler/tensorc/codegen_c.py:149-162 | a portable program that prints "a", NUL, "b" in TensorC; its C prints "a" |
| `Limits.OrderMatters` | src/maps-compiler/tensorc/codegen_c.py:143-144 | a portable program outside the order-free fragment prints "ab" in TensorC and "ba" in a C that takes right operands first |

## Left out

Stated with a limit:

- Control.Controller.Run: asks for matrix ends below 2^64 (`EndsFit`), as every descriptor loaded from memory has; beyond that the 64-bit range check wraps, and `Control.RangeCheckWraps` gives a descriptor it then lets through.
- Schedule.BuildPlan: asks for counters that do not wrap, which matrices inside memory give; `Schedule.LoopsAreExact` says the loops are right only then, and `Schedule.LoopNeverEnds` gives a descriptor on which one never ends.
- SystolicArray.Array.RunGemmTile: takes operand sequences that are long enough; tile index products are not wrapped, tiles being at most 2048 words.
- Systolic.EveryCellInRange: `INT32` is a mathematical integer with this theorem beside it; signed overflow, undefined in the source, has no meaning here.
- Descriptors.LoadFromMemory: a stored word of 2^31 or more, which a signed word cannot be, counts as negative.
- SystemBus.Bus.Read32: DRAM has at most 2^26 words; beyond that the byte and word accessors disagree, which `WindowsApart` states. The NPU on the bus is bound to the memory of the bus.
- SystemBus.Bus.Write8: byte masks and shifts are written as arithmetic on byte lanes.
- Loader.LoadElf: opening and reading the file is input; the loader gets the bytes. Files of 2^32 bytes or more are cut as the source cuts their length.
- Processor.Cpu.Step: of a failed instruction only DRAM, the console and the fault are described; a jump to a misaligned address may have written rd.
- CStrings.ReadString: lines and columns are not modelled.
- Grammar.ReadsBack: token kinds stand for operator texts; a NUMBER is a string of ASCII digits.
- Parser.Parser.Parse: tokens carry no positions, and all compile errors are alike.
- Analyzer.AnalyzeProgram: the tree is annotated by returning a new one; compile errors are alike.
- Safety.ContainedRunsOn: a function may read the tensors declared before any statement of the top level; those declared later exist only once their declaration has run, and `Safety.ReadTooFar` shows what becomes of variables.
- Programs.CompiledProgramAgrees: the fragment excludes texts with NUL (`Preservation.PrintAgrees`, `Limits.NulCutsText`); unless C takes operands left to right, it also excludes operands beside a call that read tensors or call. Runs that go out of range, divide by zero, overflow, or write a gemm over an operand further than `InPlace` allows have no meaning and no claim; that runs without end stay without end is claimed for a C that goes from left to right. The orders considered take operands one after the other, arguments from either end. The emitted `(void)` ignores the result code of the NPU call; `UserRuntime.UserNpuGemm` shows that it is 0.
- UserRuntime.UserNpuGemm: the environment call between `user_npu_gemm` and the kernel's `npu_submit` passes its argument on and is left out.
- EndToEnd.TensorsEndInDram: the machine runs the syntax tree of the C, not the instructions a C compiler makes of it; numbers stand in registers, only arrays on the stack, which grows downwards; DRAM has at most 2^29 words.
- Portable.CompilesWhenPortable: the static rules are those of names, kinds, scopes, assignable targets, constants and array sizes for the constructs the generator emits; macros of `<stdint.h>`, later keywords than those of C17, non-ASCII identifiers, names that only the linker sees twice, and library routines the target lacks are not considered.

Not modelled:

- The lexer except its string reader: identifiers, numbers, symbols and comments.
- The text of the emitted C (spacing, sections, includes); the C is a syntax tree, and that C reads `(r) * n + (c)` with its usual precedence is not proved.
- Controller calls `load_weight_data`, `load_input_data` and `read_output_data`, and the word loaders of DRAM: copies without further structure.
- Buffer access counters and DMA statistics: getters nothing else depends on.
- DRAM of more than 2^30 words: its byte addresses do not fit 32 bits.
- The bare-core loop `Cpu::run`: the machine loop covers it.
- The rest of the Mini OS, start-up code, linker scripts and command-line drivers: tied to the toolchain and to files.
