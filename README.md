# Vitis Libraries core: AXI-stream adapters, streamed BLAS sum, Q9 host schedule

This project is a Dafny model of three pieces of the Vitis Libraries, with
proofs about each.

* **The AXI4-Stream adapters** of the compression library
  (`L1/include/hw/axi_stream_utils.hpp`). There are seven functions. Each
  moves bytes or words between an `hls::stream` and an AXI4-Stream channel,
  setting or reading the TLAST and TKEEP side-band signals of section 2.1 of
  the AMBA 4 AXI4-Stream Protocol specification.
  * Every stream is a `Streams.Fifo`: a class whose `items` sequence is read
    from the front and written at the back.
  * A beat is the datatype `Beat(data, last, keep)`.
  * Each adapter is a method with the source's loop. Its `ensures` gives the
    new content of every stream it touches.
  * Lemmas then say what those contents mean: where TLAST falls, that TKEEP
    is all ones, that a framed packet is received whole, and that a packet
    survives a round trip.
* **The streamed vector sum** of the BLAS library
  (`L1/include/hw/xf_blas/sum.h`), over integer entries.
  * `preProcess`, `padding` and `postProcess` are methods over FIFOs.
    `postProcess` has its inner loop that shifts values into a register.
  * `sum` composes the three stages in order.
  * The end-to-end theorem: `sum` returns the total of all `p_n` entries.
* **The host schedule of the TPC-H Q9 demo**
  (`database/L2/demos/host/q09/sf1_fpga/test_q9.cpp`).
  * `main` puts five `gqeJoin` runs, four host-to-device batches and one
    readback on an out-of-order command queue, around a host-side part
    filter.
  * The engines are classes that record each command in the queue's log.
    Each command records the memory it reads and writes and the events it
    waits for.
  * `WireQ9` repeats `main`'s calls and is proved to produce the schedule
    `Q9Log()`.
  * Generic lemmas show that the wait order is a strict partial order.
  * Q9-specific lemmas show that every read-after-write, write-after-read
    and write-after-write hazard in the schedule is ordered by a transitive
    wait, and that every buffer a command reads holds data when it starts.
  * The `-b`/`-rep` option defaults and the repeat clamp are modelled too.

Unsigned 32-bit arithmetic is written out explicitly (`Streams.Wrap32`,
`Inc32`, `Dec32`). This covers `originalSize - 1`, `inputSize - 1`, the
`outSize` counter and `l_numIter`.

## Model

| member | source | states |
|---|---|---|
| Streams.Fifo.Read | L1/include/hw/axi_stream_utils.hpp:44 | `read()` on a non-empty stream returns the front element and removes it |
| Streams.Fifo.Write | L1/include/hw/axi_stream_utils.hpp:47 | `<<`/`write()` appends the value at the back and changes nothing else |
| Streams.Count32IsWrap | L1/include/hw/axi_stream_utils.hpp:180-187 | a `uint32_t` counter started at 0 and incremented n times holds n mod 2^32 |
| Streams.CountMinusOne | L1/include/hw/axi_stream_utils.hpp:189 | `outSize - 1` after k+1 increments is k mod 2^32 |
| AxiStreamUtils.KeepAll | L1/include/hw/axi_stream_utils.hpp:75 | `set_keep(-1)` stores -1 truncated to the TKEEP field, which has one bit per TDATA byte (`(W + 7) / 8` bits) |
| AxiStreamUtils.KeepAllWidths | L1/include/hw/axi_stream_utils.hpp:82 | TKEEP with all bits set is 1 on the 8-bit data channels and 15 on the 32-bit size channel |
| AxiStreamUtils.FirstTrue | L1/include/hw/axi_stream_utils.hpp:69-77 | a loop that stops on the first set flag stops at a set flag, and every flag before it is clear |
| AxiStreamUtils.FirstTrueAt | L1/include/hw/axi_stream_utils.hpp:127-135 | conversely, a set flag with only clear flags before it is where the loop stops |
| AxiStreamUtils.Axis2HlsStreamFixedSize | L1/include/hw/axi_stream_utils.hpp:39-49 | exactly `inputSize` beats are consumed; their TDATA is appended to the HLS stream in order |
| AxiStreamUtils.HlsStream2Axis | L1/include/hw/axi_stream_utils.hpp:62-84 | byte/flag pairs are consumed up to and including the first set end-of-stream flag; one beat is emitted per pair with TLAST = that flag and TKEEP all ones; then one 32-bit size beat with the size read, TLAST set and TKEEP all ones |
| AxiStreamUtils.TaggedShape | L1/include/hw/axi_stream_utils.hpp:69-77 | the beats `hlsStream2axis` emits carry exactly the bytes and the end-of-stream flags read, as TDATA and TLAST, and every TKEEP is 1 (all ones for one byte) |
| AxiStreamUtils.FixedSizeCount | L1/include/hw/axi_stream_utils.hpp:98-111 | `hlsStream2axiStreamFixedSize` writes `originalSize` beats for a size of at least 1, and 2^32 beats for size 0, where `originalSize - 1` wraps |
| AxiStreamUtils.HlsStream2AxiStreamFixedSize | L1/include/hw/axi_stream_utils.hpp:94-112 | consumes `FixedSizeCount(originalSize)` bytes and appends them, in order, as one framed packet |
| AxiStreamUtils.FramedShape | L1/include/hw/axi_stream_utils.hpp:98-111 | the framed packet carries the bytes in order; TLAST is set on the final beat and on no other; TKEEP is all ones on every beat |
| AxiStreamUtils.Axis2HlsStream | L1/include/hw/axi_stream_utils.hpp:124-136 | TDATA is forwarded up to and including the first TLAST beat, in order; nothing after that beat is consumed |
| AxiStreamUtils.FramedPacketReceived | L1/include/hw/axi_stream_utils.hpp:127-135 | a packet framed by `hlsStream2axiStreamFixedSize` is received whole by `axis2hlsStream`, which stops at its final beat even when more beats follow |
| AxiStreamUtils.ItrLimIsCeiling | L1/include/hw/axi_stream_utils.hpp:154 | for `inputSize >= 1`, `itrLim` is ⌈inputSize / (W/8)⌉; for size 0 it is 0 exactly when W < 16 (W/8 = 1, where the sum wraps a second time) |
| AxiStreamUtils.StreamDataDm2k | L1/include/hw/axi_stream_utils.hpp:149-162 | exactly `itrLim` words are consumed and emitted in order as beats carrying only TDATA |
| AxiStreamUtils.StreamDataK2dm | L1/include/hw/axi_stream_utils.hpp:173-190 | beats up to and including the first TLAST beat are consumed; each yields its byte and its TLAST as the end-of-stream flag, in order; the size written is the beat count minus one, mod 2^32 |
| AxiStreamUtils.PacketRoundTrip | L1/include/hw/axi_stream_utils.hpp:181-189 | what `streamDataK2dm` takes off a kernel channel, passed to `hlsStream2axis`, is the same packet: same bytes, same TLAST positions, TKEEP all ones |
| AxiStreamUtils.StreamDataK2dmFixedSize | L1/include/hw/axi_stream_utils.hpp:200-208 | exactly `dataSize` beats are consumed; their TDATA is forwarded unchanged and in order |
| BlasSum.TotalAppend | L1/include/hw/xf_blas/sum.h:102 | the sum of a concatenation is the sum of the parts, which is what accumulating block sums relies on |
| BlasSum.LaneSumsTotal | L1/include/hw/xf_blas/sum.h:51-57 | summing the per-word lane sums is summing every entry; packed words hold 2^LogParEntries entries per word |
| BlasSum.PreProcess | L1/include/hw/xf_blas/sum.h:45-59 | exactly `p_numElems` wide words are consumed; one value per word is emitted, the sum of its lanes, in order |
| BlasSum.PaddedLength | L1/include/hw/xf_blas/sum.h:68-70 | `l_numIter << LogDelays` equals `p_numElems + l_numExtra`, so it is a whole number of blocks covering every value; `l_numExtra < 2^LogDelays`; `l_numIter` is 0 for no values |
| BlasSum.NumIterAgrees | L1/include/hw/xf_blas/sum.h:69 | when `p_numElems + l_Delays - 1` fits in 32 bits, the block count computed in 32 bits is the intended one |
| BlasSum.NumIterOverflows | L1/include/hw/xf_blas/sum.h:69 | for 2^32 - 1 values in blocks of two, the 32-bit block count is 0, while the intended count covers every value |
| BlasSum.Padding | L1/include/hw/xf_blas/sum.h:63-81 | the `p_numElems` values are forwarded unchanged and in order, followed by exactly `l_numExtra` zeros |
| BlasSum.TotalZeroPadded | L1/include/hw/xf_blas/sum.h:77-80 | appending zeros does not change the sum |
| BlasSum.ShiftInBlock | L1/include/hw/xf_blas/sum.h:96-101 | shifting a full block into the `l_Delays`-wide register overwrites every lane: the register holds the block, newest value first |
| BlasSum.TotalReverse | L1/include/hw/xf_blas/sum.h:98-102 | the order in which a block reaches the register does not change its sum |
| BlasSum.ReadBlock | L1/include/hw/xf_blas/sum.h:96-101 | the inner loop consumes exactly `l_Delays` values and leaves the register holding them newest first |
| BlasSum.PostProcess | L1/include/hw/xf_blas/sum.h:86-105 | exactly `l_numIter * 2^LogDelays` values are consumed, and `p_sum` is their total |
| BlasSum.Sum | L1/include/hw/xf_blas/sum.h:121-142 | for `p_n` a multiple of the lanes per word, exactly `p_n >> LogParEntries` words are consumed, they hold `p_n` entries, and `p_sum` is the total of all of them; `p_sum` is 0 when `p_n` is 0 |
| Q9Pipeline.ReadOptions | database/L2/demos/host/q09/sf1_fpga/test_q9.cpp:52-74 | `board` is the parsed `-b` value, else 0; `num_rep` is 1 when `-rep` is missing or unparsable, is the parsed value clamped to at most 20 otherwise, and never exceeds 20 |
| Q9Pipeline.Queue.Enqueue | database/L2/demos/host/q09/sf1_fpga/test_q9.cpp:248 | an enqueued command is appended to the queue, and its event is its position |
| Q9Pipeline.Queue.HostRun | database/L2/demos/host/q09/sf1_fpga/test_q9.cpp:250 | a host call between enqueues is recorded with its host read and write sets |
| Q9Pipeline.TransEngine.Add | database/L2/demos/host/q09/sf1_fpga/test_q9.cpp:214 | `add` appends one object to the engine's batch |
| Q9Pipeline.TransEngine.Host2Dev | database/L2/demos/host/q09/sf1_fpga/test_q9.cpp:254 | `host2dev` enqueues one transfer of the whole batch to the device, waiting for the given events |
| Q9Pipeline.TransEngine.Dev2Host | database/L2/demos/host/q09/sf1_fpga/test_q9.cpp:280 | `dev2host` enqueues one transfer of the whole batch back to the host, waiting for the given events |
| Q9Pipeline.KrnlEngine.constructor | database/L2/demos/host/q09/sf1_fpga/test_q9.cpp:197 | a fresh kernel engine for one stage, not yet set up |
| Q9Pipeline.KrnlEngine.Setup | database/L2/demos/host/q09/sf1_fpga/test_q9.cpp:200 | `setup` fixes the stage's two inputs, output, configuration and scratch buffer |
| Q9Pipeline.KrnlEngine.Run | database/L2/demos/host/q09/sf1_fpga/test_q9.cpp:255 | `run` enqueues one join with the set-up arguments, waiting for the given events |
| Q9Pipeline.SetupKernels | database/L2/demos/host/q09/sf1_fpga/test_q9.cpp:195-204 | five kernel engines, engine i set up as stage i with the arguments of `Stages[i]` |
| Q9Pipeline.AddConfigs | database/L2/demos/host/q09/sf1_fpga/test_q9.cpp:220-222 | the loop adds `cfgcmds[0]` to `cfgcmds[n-1]`, in order, to the batch |
| Q9Pipeline.FirstBatchEngine | database/L2/demos/host/q09/sf1_fpga/test_q9.cpp:207-222 | the first batch holds partsupp, supplier, nation and the five configurations, in that order |
| Q9Pipeline.StepPartFilter | database/L2/demos/host/q09/sf1_fpga/test_q9.cpp:248-255 | four commands are issued: the first batch with no wait, the part filter, the `th0` load waiting for the first batch, and join stage 0 waiting for the `th0` load |
| Q9Pipeline.StepLoadAndJoin | database/L2/demos/host/q09/sf1_fpga/test_q9.cpp:262-275 | a one-table load waiting on the given events, then a join waiting for that load and for the previous join, in the order of the two `push_back`s |
| Q9Pipeline.StepReadBack | database/L2/demos/host/q09/sf1_fpga/test_q9.cpp:277-280 | the last join waits for the previous one, and the readback of `tk0` waits for the last join |
| Q9Pipeline.WireQ9 | database/L2/demos/host/q09/sf1_fpga/test_q9.cpp:195-280 | the calls `main` makes leave exactly the eleven-command Q9 schedule on the queue |
| Q9Pipeline.BeforeTransitive | database/L2/demos/host/q09/sf1_fpga/test_q9.cpp:248-280 | for any schedule, only earlier commands precede a command, and precedence is transitive: the wait order has no cycle |
| Q9Pipeline.WaitedIsBefore | database/L2/demos/host/q09/sf1_fpga/test_q9.cpp:248-280 | in a schedule with resolved waits, every event a command waits for comes from a command that has finished when it starts |
| Q9Pipeline.BeforeStable | database/L2/demos/host/q09/sf1_fpga/test_q9.cpp:248-280 | commands issued later never change what precedes an earlier command |
| Q9Pipeline.HazardFreeReads | database/L2/demos/host/q09/sf1_fpga/test_q9.cpp:248-280 | in a hazard-free schedule, a location some earlier command writes is produced before any later command reads it |
| Q9Pipeline.OneHostCall | database/L2/demos/host/q09/sf1_fpga/test_q9.cpp:250 | with a single host call, exactly the commands issued after it follow it |
| Q9Pipeline.BeforeOne | database/L2/demos/host/q09/sf1_fpga/test_q9.cpp:255 | a command waiting for one event follows that command and everything it follows |
| Q9Pipeline.BeforeTwo | database/L2/demos/host/q09/sf1_fpga/test_q9.cpp:265-267 | a command waiting for two events follows both and everything each of them follows |
| Q9Pipeline.Q9HostCalls | database/L2/demos/host/q09/sf1_fpga/test_q9.cpp:250 | in the Q9 schedule the part filter precedes exactly the commands issued after it |
| Q9Pipeline.Q9BeforeEarly | database/L2/demos/host/q09/sf1_fpga/test_q9.cpp:248-264 | the exact set of commands finished before each of the first six commands starts |
| Q9Pipeline.Q9BeforeMiddle | database/L2/demos/host/q09/sf1_fpga/test_q9.cpp:264-272 | the same for the lineitem join and the orders load |
| Q9Pipeline.Q9BeforeLate | database/L2/demos/host/q09/sf1_fpga/test_q9.cpp:272-280 | the same for the orders join, the nation join and the readback: each follows every earlier command |
| Q9Pipeline.Q9OrderEarly | database/L2/demos/host/q09/sf1_fpga/test_q9.cpp:248-264 | among the first six commands, a pair is ordered exactly when it is not one of the concurrent pairs |
| Q9Pipeline.Q9OrderMiddle | database/L2/demos/host/q09/sf1_fpga/test_q9.cpp:264-272 | the same for pairs ending at commands 6 and 7 |
| Q9Pipeline.Q9OrderLate | database/L2/demos/host/q09/sf1_fpga/test_q9.cpp:272-280 | the same for pairs ending at commands 8 to 10 |
| Q9Pipeline.Q9Order | database/L2/demos/host/q09/sf1_fpga/test_q9.cpp:248-280 | any two Q9 commands are ordered if and only if they are not a concurrent pair. The concurrent pairs are the part filter with the first batch, the lineitem load with joins 0 and 1, and the orders load with joins 0, 1 and 2 |
| Q9Pipeline.Q9ConcurrentIndependent | database/L2/demos/host/q09/sf1_fpga/test_q9.cpp:248-272 | no concurrent pair touches a location that either of them writes |
| Q9Pipeline.Q9HazardFree | database/L2/demos/host/q09/sf1_fpga/test_q9.cpp:248-280 | every read-after-write, write-after-read and write-after-write pair in the Q9 schedule is ordered by a transitive wait, including each rewrite of `tk0`/`tk1` after its previous reader |
| Q9Pipeline.Q9ReadsWritten | database/L2/demos/host/q09/sf1_fpga/test_q9.cpp:200-280 | every location a Q9 command reads was loaded from disk, initialised by the host, or written by an earlier command |
| Q9Pipeline.Q9Schedule | database/L2/demos/host/q09/sf1_fpga/test_q9.cpp:248-280 | the Q9 wait lists name only events of earlier commands (acyclic), every hazard is ordered, and every command reads data that a command it waits for produced, or that was there from the start |
| Q9Pipeline.StagesChained | database/L2/demos/host/q09/sf1_fpga/test_q9.cpp:200-204 | each stage after the first reads the table the stage before it wrote; outputs alternate `tk0`, `tk1`, `tk0`, `tk1`, `tk0`; the last output is `tk0` |
| Q9Pipeline.Q9Waiting | database/L2/demos/host/q09/sf1_fpga/test_q9.cpp:248-280 | each join i>0 waits for join i-1; join 2 also waits for the lineitem load and join 3 for the orders load; the transfers chain first batch → `th0` → lineitem → orders; the readback of `tk0` waits for the last join; every command after the part filter follows the first batch |

## Left out

- OpenCL device, context, queue and program setup, buffer allocation, `loadHost` disk reads and `get_cfg_dat_*`: these are I/O. Their effect is modelled only as the set `InitiallyValid()` of locations holding data when the schedule starts.
- `q.finish()`, the asynchronous execution of the queue, `gettimeofday` and the profiling prints: these are concurrency and timing. A command's start is modelled as the set of commands that have finished by then (`Before`).
- The `#ifdef INI` initialisation of `tk0` and `tk1` (test_q9.cpp lines 242-245) is compiled only when `INI` is defined, and the schedule of that build is not analysed. If `initBuffer` enqueues on the out-of-order queue without waits, its writes to `tk0` and `tk1` are not ordered against joins 0 and 1, which write the same buffers.
- `PartFilter`, `q9GroupBy`, `q9Sort`, `Table`, `krnlEngine`, `transEngine` and `ArgParser` are defined in files that are not part of this model.
  - `PartFilter` is a host call that reads `tbs[0]` and writes `th0`.
  - The engines are assumed to do what their names say: `host2dev`/`dev2host` move every object added, and `run` runs one join that reads its two inputs, its configuration and `buftmp`, and writes its output and `buftmp`.
  - The group-by and sort after the readback are not modelled.
- The `events`, `eventsh2d_write` and `events_grp` vectors are modelled as wait lists of event indices. Their resizing (lines 231-239) is left out: it only makes the slots exist.
- Q9Pipeline.ReadOptions: `std::stoi` is a parameter (absent, failed, or parsed to a value). The `-in`/`-xclbin` options are not modelled. Neither is the later use of `board` and `num_rep`; `board` is never range-checked in the source.
- AxiStreamUtils.HlsStream2AxiStreamFixedSize: the non-final beats get TDATA and TKEEP but no `set_last` call (lines 100-103). The model assumes an unset TLAST reads as 0, so FramedShape's "TLAST on the final beat and on no other" rests on that assumption about the constructor of `hStream8b_t`, which is not part of this model.
- AxiStreamUtils.StreamDataDm2k: only TDATA is assigned (lines 158-160). The model assumes the unset TLAST and TKEEP of `ap_axiu` read as 0; the constructor of `ap_axiu` is not part of this model.
- Streams.Fifo.Read: a read on an empty `hls::stream` blocks in hardware. It is modelled as a precondition: enough data must be present.
- Loop counters declared `int` (lines 42 and 98 of `axi_stream_utils.hpp`) are unbounded in the model. The C++ signed counter would overflow for sizes of 2^31 or more, the 2^32-beat case of `hlsStream2axiStreamFixedSize` included.
- AxiStreamUtils.Axis2HlsStream and StreamDataDm2k: the TDATA width `STREAMDWIDTH` is a parameter, and words are natural numbers whose width is not checked.
- The `TSTRB`, `TID`, `TDEST` and `TUSER` side-band fields of `qdma_axis`/`ap_axiu` are not modelled. The adapters do not set them.
- Floating-point instantiations of `sum` are not modelled, because the summation order changes their result. Entries are unbounded integers, so `t_DataType` overflow is not modelled either.
- `BinarySum`, `WideType` and `AdderDelay` (in `xf_blas/utility.h`) are not part of this model. They are modelled as "total of the lanes", "shift register of fixed width" and the parameter `logDelays`.
- The `DATAFLOW` overlap of the three stages of `sum`, and the stream depths, are not modelled. The stages run one after the other over unbounded FIFOs, which gives the same result.
- BlasSum.Padding and PostProcess use the intended block count `NumIter` rather than the 32-bit one. The difference is recorded under Findings.
- BlasSum.Sum: the `p_n % ParEntries == 0` assertion is only active outside synthesis; it is modelled as a precondition. `t_LogParEntries` is below 32, as a shift of a 32-bit value requires.

## Findings

| source | as written | input that shows it | evidently intended | confidence | as-written member | corrected member |
|---|---|---|---|---|---|---|
| L1/include/hw/xf_blas/sum.h:69 | `l_numIter = (p_numElems + l_Delays - 1) >> t_LogDelays` is computed in 32-bit unsigned arithmetic, and the addition wraps when `p_numElems > 2^32 - l_Delays` | `p_numElems = 2^32 - 1`, `t_LogDelays = 1`: `l_numIter` wraps to 0, so `postProcess` reads no block and returns 0 for a vector of ones, while `padding` forwards 2^32 - 1 values plus one zero | `l_numIter` = ⌈p_numElems / 2^LogDelays⌉, so that every value is summed | not executed | BlasSum.NumIterOverflows | BlasSum.PaddedLength |
